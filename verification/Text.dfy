/** The byte-string operations of Python that the HTTP code leans on: find, split,
    strip, lower, int and decimal printing. */
module Text {
  import opened Wire

  const CR: byte := 13
  const LF: byte := 10
  const SPACE: byte := 32
  const COLON: byte := 58
  const CRLF: Bytes := [CR, LF]
  const HEADER_END: Bytes := [CR, LF, CR, LF]

  // ---- find ----

  /** data.find(pattern): the index of the first occurrence. */
  function Find(data: Bytes, pattern: Bytes): Option<nat> {
    if pattern <= data then Some(0)
    else if data == [] then None
    else Shift(1, Find(data[1..], pattern))
  }

  function Shift(n: nat, found: Option<nat>): Option<nat> {
    match found case None => None case Some(i) => Some(n + i)
  }

  predicate OccursAt(data: Bytes, pattern: Bytes, i: nat) {
    i <= |data| && pattern <= data[i..]
  }

  /** What find promises: an occurrence, and none before it; or none at all. */
  lemma {:induction false} FindIsFirst(data: Bytes, pattern: Bytes)
    ensures match Find(data, pattern)
      case None => forall i: nat :: !OccursAt(data, pattern, i)
      case Some(i) =>
        (OccursAt(data, pattern, i) && i + |pattern| <= |data|
         && forall j: nat :: j < i ==> !OccursAt(data, pattern, j))
  {
    assert data[0..] == data;
    if !(pattern <= data) && data != [] {
      FindIsFirst(data[1..], pattern);
      assert forall i: nat :: 0 < i <= |data| ==> data[i..] == data[1..][i - 1..];
      assert forall i: nat :: 0 < i ==> OccursAt(data, pattern, i) == OccursAt(data[1..], pattern, i - 1);
    }
  }

  /** More data never moves the first occurrence. */
  lemma {:induction false} FindStable(data: Bytes, more: Bytes, pattern: Bytes)
    requires Find(data, pattern).Some?
    ensures Find(data + more, pattern) == Find(data, pattern)
  {
    if !(pattern <= data) {
      FindIsFirst(data, pattern);
      assert OccursAt(data, pattern, Find(data, pattern).value);
      assert (data + more)[1..] == data[1..] + more;
      FindStable(data[1..], more, pattern);
      assert (data + more)[..|pattern|] == data[..|pattern|];
    }
  }

  predicate Lacks(text: Bytes, b: byte) {
    forall i :: 0 <= i < |text| ==> text[i] != b
  }

  /** Text without the first byte of the pattern is skipped. */
  lemma {:induction false} FindSkips(text: Bytes, rest: Bytes, pattern: Bytes)
    requires pattern != [] && Lacks(text, pattern[0])
    ensures Find(text + rest, pattern) == Shift(|text|, Find(rest, pattern))
  {
    if text == [] {
      assert text + rest == rest;
    } else {
      assert (text + rest)[0] != pattern[0];
      assert (text + rest)[1..] == text[1..] + rest;
      FindSkips(text[1..], rest, pattern);
    }
  }

  // ---- split ----

  /** data.split(separator). */
  function Split(data: Bytes, separator: Bytes): seq<Bytes>
    requires separator != []
    decreases |data|
  {
    FindIsFirst(data, separator);
    match Find(data, separator)
    case None => [data]
    case Some(i) => [data[..i]] + Split(data[i + |separator|..], separator)
  }

  /** separator.join(parts). */
  function Join(parts: seq<Bytes>, separator: Bytes): Bytes
    requires parts != []
  {
    if |parts| == 1 then parts[0] else parts[0] + separator + Join(parts[1..], separator)
  }

  /** Splitting a join gives the parts back when none of them holds the separator's first byte. */
  lemma {:induction false} SplitJoin(parts: seq<Bytes>, separator: Bytes)
    requires parts != [] && separator != []
    requires forall i :: 0 <= i < |parts| ==> Lacks(parts[i], separator[0])
    ensures Split(Join(parts, separator), separator) == parts
  {
    var first := parts[0];
    if |parts| == 1 {
      FindSkips(first, [], separator);
      assert first + [] == first;
    } else {
      var rest := Join(parts[1..], separator);
      var data := Join(parts, separator);
      assert data == first + (separator + rest);
      FindSkips(first, separator + rest, separator);
      assert Find(data, separator) == Some(|first|);
      assert data[..|first|] == first && data[|first| + |separator|..] == rest;
      SplitJoin(parts[1..], separator);
    }
  }

  lemma AroundOccurrence(data: Bytes, separator: Bytes, i: nat)
    requires OccursAt(data, separator, i)
    ensures i + |separator| <= |data| && data == data[..i] + separator + data[i + |separator|..]
  {
    assert data[i..i + |separator|] == separator;
  }

  /** Joining a split gives the data back. */
  lemma {:induction false} JoinSplit(data: Bytes, separator: Bytes)
    requires separator != []
    ensures Join(Split(data, separator), separator) == data
    decreases |data|
  {
    FindIsFirst(data, separator);
    var found := Find(data, separator);
    if found.Some? {
      var i := found.value;
      var rest := data[i + |separator|..];
      JoinSplit(rest, separator);
      assert Split(data, separator)[1..] == Split(rest, separator);
      AroundOccurrence(data, separator, i);
    }
  }

  /** The two sides of the first occurrence: data.split(separator, 1) when it has two parts. */
  function Cut(data: Bytes, b: byte): Option<(Bytes, Bytes)> {
    match Find(data, [b])
    case None => None
    case Some(i) => if i + 1 <= |data| then Some((data[..i], data[i + 1..])) else None
  }

  lemma CutOfJoined(left: Bytes, b: byte, right: Bytes)
    requires Lacks(left, b)
    ensures Cut(left + [b] + right, b) == Some((left, right))
  {
    var data := left + [b] + right;
    assert data == left + ([b] + right);
    FindSkips(left, [b] + right, [b]);
    assert data[..|left|] == left && data[|left| + 1..] == right;
  }

  // ---- strip and lower ----

  /** Latin1: characters of a decoded string. Ascii: bytes. */
  datatype Charset = Latin1 | Ascii

  predicate IsSpace(chars: Charset, b: byte) {
    9 <= b <= 13 || b == 32 || (chars == Latin1 && (28 <= b <= 31 || b == 133 || b == 160))
  }

  function StripLeft(chars: Charset, text: Bytes): Bytes {
    if text != [] && IsSpace(chars, text[0]) then StripLeft(chars, text[1..]) else text
  }

  function StripRight(chars: Charset, text: Bytes): Bytes {
    if text != [] && IsSpace(chars, text[|text| - 1]) then StripRight(chars, text[..|text| - 1]) else text
  }

  function Strip(chars: Charset, text: Bytes): Bytes {
    StripRight(chars, StripLeft(chars, text))
  }

  function LowerByte(chars: Charset, b: byte): byte {
    if 65 <= b <= 90 || (chars == Latin1 && (192 <= b <= 214 || 216 <= b <= 222)) then b + 32 else b
  }

  /** lower() of a Latin-1 string, or of bytes. */
  function Lower(chars: Charset, text: Bytes): Bytes {
    seq(|text|, i requires 0 <= i < |text| => LowerByte(chars, text[i]))
  }

  // ---- int() and decimal printing ----

  predicate IsDigit(b: byte) {
    48 <= b <= 57
  }

  /** One or more digits, single underscores allowed between them. */
  function Digits(text: Bytes, value: nat): Option<nat> {
    if text == [] || !IsDigit(text[0]) then None
    else
      var next := 10 * value + (text[0] - 48);
      if |text| == 1 then Some(next)
      else if text[1] == 95 then Digits(text[2..], next)
      else Digits(text[1..], next)
  }

  /** int(text): surrounding space, an optional sign, digits. None is a ValueError. */
  function ParseInt(chars: Charset, text: Bytes): Option<int> {
    var t := Strip(chars, text);
    if t == [] then None
    else if t[0] == 45 then Signed(-1, Digits(t[1..], 0))
    else if t[0] == 43 then Signed(1, Digits(t[1..], 0))
    else Signed(1, Digits(t, 0))
  }

  function Signed(sign: int, magnitude: Option<nat>): Option<int> {
    match magnitude case None => None case Some(n) => Some(sign * n)
  }

  /** The decimal digits of n, as an f-string prints them. */
  function Decimal(n: nat): (d: Bytes)
    ensures d != [] && forall i :: 0 <= i < |d| ==> IsDigit(d[i])
  {
    if n < 10 then [48 + n] else Decimal(n / 10) + [48 + n % 10]
  }

  predicate AllDigits(text: Bytes) {
    text != [] && forall i :: 0 <= i < |text| ==> IsDigit(text[i])
  }

  lemma {:induction false} DigitsSnoc(text: Bytes, d: byte, value: nat)
    requires AllDigits(text) && IsDigit(d)
    ensures Digits(text, value).Some?
    ensures Digits(text + [d], value) == Some(10 * Digits(text, value).value + (d - 48))
  {
    var next := 10 * value + (text[0] - 48);
    if |text| == 1 {
      assert (text + [d])[1..] == [d];
    } else {
      assert (text + [d])[1..] == text[1..] + [d];
      DigitsSnoc(text[1..], d, next);
    }
  }

  lemma {:induction false} DigitsDecimal(n: nat)
    ensures Digits(Decimal(n), 0) == Some(n)
  {
    if n >= 10 {
      DigitsDecimal(n / 10);
      DigitsSnoc(Decimal(n / 10), 48 + n % 10, 0);
    }
  }

  lemma StripDigits(chars: Charset, text: Bytes)
    requires AllDigits(text)
    ensures Strip(chars, text) == text && Strip(chars, [SPACE] + text) == text
  {
    assert ([SPACE] + text)[1..] == text;
    assert StripLeft(chars, [SPACE] + text) == StripLeft(chars, text);
  }

  /** int() undoes decimal printing, with or without the space of a header line before it. */
  lemma {:induction false} ParseDecimal(chars: Charset, n: nat)
    ensures ParseInt(chars, Decimal(n)) == Some(n)
    ensures ParseInt(chars, [SPACE] + Decimal(n)) == Some(n)
  {
    DigitsDecimal(n);
    StripDigits(chars, Decimal(n));
  }

  /** And it prints no digit too many: no zero in front. */
  lemma {:induction false} NoZeroInFront(n: nat)
    ensures Decimal(0) == [48]
    ensures n > 0 ==> 49 <= Decimal(n)[0] <= 57
  {
    if n >= 10 {
      NoZeroInFront(n / 10);
    }
  }

  lemma {:induction false} ParseMinusDecimal(chars: Charset, n: nat)
    ensures ParseInt(chars, [45] + Decimal(n)) == Some(-(n as int))
  {
    var text := [45] + Decimal(n);
    DigitsDecimal(n);
    assert text[1..] == Decimal(n);
    assert text[|text| - 1] == Decimal(n)[|Decimal(n)| - 1];
    assert Strip(chars, text) == text;
  }

  // ---- the end of a header block ----

  /** A non-empty line without CR. */
  predicate LineText(line: Bytes) {
    line != [] && Lacks(line, CR)
  }

  lemma {:induction false} FindPastLineEnd(later: Bytes)
    requires later != [] && later[0] != CR
    ensures Find(CRLF + later, HEADER_END) == Shift(2, Find(later, HEADER_END))
  {
    var text := CRLF + later;
    assert text[2] == later[0];
    assert text[1..] == [LF] + later && ([LF] + later)[1..] == later;
  }

  /** Lines joined by CRLF hold no CRLFCRLF, not even across the blank line that ends them. */
  lemma {:induction false} FindHeaderEnd(lines: seq<Bytes>, rest: Bytes)
    requires lines != [] && forall i :: 0 <= i < |lines| ==> LineText(lines[i])
    ensures Find(Join(lines, CRLF) + (HEADER_END + rest), HEADER_END) == Some(|Join(lines, CRLF)|)
  {
    var first := lines[0];
    if |lines| == 1 {
      FindSkips(first, HEADER_END + rest, HEADER_END);
    } else {
      var joined := Join(lines[1..], CRLF);
      var later := joined + (HEADER_END + rest);
      JoinStarts(lines[1..]);
      ConcatAssoc(first, CRLF, joined);
      ConcatAssoc(first, CRLF + joined, HEADER_END + rest);
      ConcatAssoc(CRLF, joined, HEADER_END + rest);
      FindSkips(first, CRLF + later, HEADER_END);
      FindPastLineEnd(later);
      FindHeaderEnd(lines[1..], rest);
    }
  }

  lemma {:induction false} JoinStarts(lines: seq<Bytes>)
    requires lines != [] && lines[0] != []
    ensures Join(lines, CRLF) != [] && Join(lines, CRLF)[0] == lines[0][0]
  {
  }

  // ---- strip, lower and int, said outright ----

  /** The whitespace of str.strip on Latin-1 text, and of bytes.strip. */
  lemma {:induction false} SpacesExactly(b: byte)
    ensures IsSpace(Latin1, b) <==> b in {9, 10, 11, 12, 13, 28, 29, 30, 31, 32, 133, 160}
    ensures IsSpace(Ascii, b) <==> b in {9, 10, 11, 12, 13, 32}
  {
  }

  predicate AllSpace(chars: Charset, text: Bytes) {
    forall i :: 0 <= i < |text| ==> IsSpace(chars, text[i])
  }

  lemma {:induction false} StripLeftPad(chars: Charset, pad: Bytes, text: Bytes)
    requires AllSpace(chars, pad)
    ensures StripLeft(chars, pad + text) == StripLeft(chars, text)
  {
    if pad == [] {
      assert pad + text == text;
    } else {
      assert (pad + text)[1..] == pad[1..] + text;
      StripLeftPad(chars, pad[1..], text);
    }
  }

  lemma {:induction false} StripRightPad(chars: Charset, text: Bytes, pad: Bytes)
    requires AllSpace(chars, pad)
    ensures StripRight(chars, text + pad) == StripRight(chars, text)
  {
    if pad == [] {
      assert text + pad == text;
    } else {
      assert (text + pad)[..|text + pad| - 1] == text + pad[..|pad| - 1];
      StripRightPad(chars, text, pad[..|pad| - 1]);
    }
  }

  /** Exactly the whitespace at both ends goes. */
  lemma {:induction false} StripExactly(chars: Charset, left: Bytes, core: Bytes, right: Bytes)
    requires AllSpace(chars, left) && AllSpace(chars, right)
    requires core != [] ==> !IsSpace(chars, core[0]) && !IsSpace(chars, core[|core| - 1])
    ensures Strip(chars, left + (core + right)) == core
  {
    StripLeftPad(chars, left, core + right);
    if core == [] {
      assert core + right == right;
      StripLeftPad(chars, right, []);
      assert right + [] == right;
    } else {
      assert StripLeft(chars, core + right) == core + right;
      StripRightPad(chars, core, right);
    }
  }

  /** lower(): of bytes the letters A to Z move by 32 and nothing else does; of Latin-1 text
      also the accented capitals, which are 192 to 222 but for the multiplication sign. */
  lemma {:induction false} LowerExactly(text: Bytes)
    ensures |Lower(Ascii, text)| == |text| && |Lower(Latin1, text)| == |text|
    ensures forall i :: 0 <= i < |text| ==>
      Lower(Ascii, text)[i] == if 65 <= text[i] <= 90 then text[i] + 32 else text[i]
    ensures forall i :: 0 <= i < |text| ==>
      Lower(Latin1, text)[i]
        == if 65 <= text[i] <= 90 || (192 <= text[i] <= 222 && text[i] != 215) then text[i] + 32 else text[i]
  {
  }

  /** Digits with single underscores between them, as int() takes them. */
  predicate Numeral(text: Bytes) {
    && text != [] && 48 <= text[0] <= 57 && 48 <= text[|text| - 1] <= 57
    && (forall i :: 0 <= i < |text| ==> 48 <= text[i] <= 57 || text[i] == 95)
    && (forall i :: 0 < i < |text| && text[i] == 95 ==> text[i - 1] != 95)
  }

  /** The number that the digits of a text write, whatever stands between them. */
  function NumeralValue(text: Bytes, value: nat): nat {
    if text == [] then value
    else NumeralValue(text[1..], if IsDigit(text[0]) then 10 * value + (text[0] - 48) else value)
  }

  lemma {:induction false} DigitsIff(text: Bytes, value: nat)
    ensures Digits(text, value) == if Numeral(text) then Some(NumeralValue(text, value)) else None
    decreases |text|
  {
    if text != [] && IsDigit(text[0]) && |text| > 1 {
      var next := 10 * value + (text[0] - 48);
      if text[1] == 95 {
        assert text[1..][1..] == text[2..];
        DigitsIff(text[2..], next);
        NumeralSkips(text, 2);
        assert NumeralValue(text, value) == NumeralValue(text[1..], next) == NumeralValue(text[2..], next);
      } else {
        DigitsIff(text[1..], next);
        NumeralSkips(text, 1);
      }
    } else if text != [] && IsDigit(text[0]) {
      assert text[1..] == [];
    }
  }

  lemma NumeralSkips(text: Bytes, n: nat)
    requires 1 <= n <= 2 && n <= |text| && |text| > 1 && IsDigit(text[0])
    requires n == 1 ==> text[1] != 95
    requires n == 2 ==> text[1] == 95
    ensures Numeral(text) <==> Numeral(text[n..])
  {
    var rest := text[n..];
    assert forall i :: n <= i < |text| ==> text[i] == rest[i - n];
    if Numeral(text) {
      assert rest != [] by {
        assert text[|text| - 1] != 95;
      }
      assert rest[|rest| - 1] == text[|text| - 1];
      assert rest[0] == text[n];
      assert text[n] != 95;
      forall i | 0 <= i < |rest|
        ensures 48 <= rest[i] <= 57 || rest[i] == 95
      {
        assert rest[i] == text[i + n];
      }
      forall i | 0 < i < |rest| && rest[i] == 95
        ensures rest[i - 1] != 95
      {
        assert rest[i] == text[i + n] && rest[i - 1] == text[i + n - 1];
      }
    }
  }

  /** int(): whitespace around, one sign at most, a numeral; and that number. */
  lemma {:induction false} ParseIntIff(chars: Charset, text: Bytes)
    ensures var t := Strip(chars, text);
      ParseInt(chars, text) ==
        if Numeral(t) then Some(NumeralValue(t, 0))
        else if t != [] && t[0] == 43 && Numeral(t[1..]) then Some(NumeralValue(t[1..], 0))
        else if t != [] && t[0] == 45 && Numeral(t[1..]) then Some(-(NumeralValue(t[1..], 0) as int))
        else None
  {
    var t := Strip(chars, text);
    if t != [] {
      DigitsIff(t, 0);
      DigitsIff(t[1..], 0);
    }
  }
}
