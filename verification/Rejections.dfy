/** The four ways in which parse_message refuses a request, each with the text it names
    (tls_web_server/http.py). */
module Rejections {
  import opened Wire
  import opened Text
  import opened Http

  /** A header block of these lines, its blank line, and whatever follows. */
  function Block(lines: seq<Bytes>, rest: Bytes): Bytes
    requires lines != []
  {
    Join(lines, CRLF) + ([13, 10, 13, 10] + rest)
  }

  predicate AllLines(lines: seq<Bytes>) {
    lines != [] && forall i :: 0 <= i < |lines| ==> LineText(lines[i])
  }

  /** The parser sees these lines. */
  lemma {:induction false} BlockReads(lines: seq<Bytes>, rest: Bytes)
    requires AllLines(lines)
    ensures var text := Join(lines, CRLF);
      && Find(Block(lines, rest), HEADER_END) == Some(|text|) && Block(lines, rest) != []
      && Block(lines, rest)[..|text|] == text && Split(text, CRLF) == lines
    ensures ParseHead(Join(lines, CRLF)).Err? ==>
      Parse(Block(lines, rest)) == Invalid(ParseHead(Join(lines, CRLF)).error)
  {
    FindHeaderEnd(lines, rest);
    SplitJoin(lines, CRLF);
    assert HEADER_END == [13, 10, 13, 10];
  }

  // ---- the request line ----

  /** The line is a method, a blank, a target, a blank and a version. */
  predicate StartsWith(line: Bytes, method_: Bytes, url: Bytes, version: Bytes) {
    Lacks(method_, 32) && Lacks(url, 32) && line == method_ + [32] + (url + [32] + version)
  }

  lemma {:induction false} CutIff(data: Bytes, b: byte)
    ensures Cut(data, b).Some? <==> !Lacks(data, b)
    ensures Cut(data, b).Some? ==>
      var (left, right) := Cut(data, b).value; Lacks(left, b) && data == left + [b] + right
  {
    FindIsFirst(data, [b]);
    match Find(data, [b])
    case None =>
      forall i | 0 <= i < |data|
        ensures data[i] != b
      {
        assert !OccursAt(data, [b], i);
        assert data[i..][0] == data[i];
      }
    case Some(i) =>
      assert data[i..][0] == b && data[i] == b && data == data[..i] + [b] + data[i + 1..];
      forall j | 0 <= j < i
        ensures data[..i][j] != b
      {
        assert !OccursAt(data, [b], j);
        assert data[j..][0] == data[j];
      }
  }

  lemma BlankInside(line: Bytes, method_: Bytes, url: Bytes, version: Bytes)
    requires StartsWith(line, method_, url, version)
    ensures !Lacks(line, 32) && Cut(line, SPACE) == Some((method_, url + [32] + version))
    ensures !Lacks(url + [32] + version, 32)
  {
    CutOfJoined(method_, SPACE, url + [32] + version);
    assert line[|method_|] == 32 && (url + [32] + version)[|url|] == 32;
  }

  /** Exactly the lines with two blanks have such parts; the version is all behind the second. */
  lemma {:induction false} StartLineIff(line: Bytes)
    ensures match StartLine(line)
      case Some((method_, url, version)) => StartsWith(line, method_, url, version)
      case None => forall method_, url, version :: !StartsWith(line, method_, url, version)
  {
    CutIff(line, SPACE);
    if StartLine(line).Some? {
      var (left, right) := Cut(line, SPACE).value;
      CutIff(right, SPACE);
      ConcatAssoc(left, [SPACE], right);
    } else {
      if Cut(line, SPACE).Some? {
        CutIff(Cut(line, SPACE).value.1, SPACE);
      }
      forall method_, url, version
        ensures !StartsWith(line, method_, url, version)
      {
        if StartsWith(line, method_, url, version) {
          BlankInside(line, method_, url, version);
        }
      }
    }
  }

  lemma NoStartLine(line: Bytes)
    requires forall method_, url, version :: !StartsWith(line, method_, url, version)
    ensures StartLine(line).None?
  {
    StartLineIff(line);
  }

  /** A first line without two blanks is named as malformed. */
  lemma {:induction false} RejectsStart(lines: seq<Bytes>, rest: Bytes)
    requires AllLines(lines) && forall method_, url, version :: !StartsWith(lines[0], method_, url, version)
    ensures Parse(Block(lines, rest)) == Invalid(MalformedStartLine(lines[0]))
  {
    BlockReads(lines, rest);
    NoStartLine(lines[0]);
  }

  lemma StartLineGiven(line: Bytes, method_: Bytes, url: Bytes, version: Bytes)
    requires StartsWith(line, method_, url, version)
    ensures StartLine(line) == Some((method_, url, version))
  {
    StartLineOfPrinted(method_, url, version);
  }

  /** A version that does not begin with "HTTP/" is named as unsupported. */
  lemma {:induction false} RejectsVersion(lines: seq<Bytes>, rest: Bytes, method_: Bytes, url: Bytes, version: Bytes)
    requires AllLines(lines) && StartsWith(lines[0], method_, url, version)
    requires !([72, 84, 84, 80, 47] <= version)
    ensures Parse(Block(lines, rest)) == Invalid(UnsupportedVersion(version))
  {
    BlockReads(lines, rest);
    StartLineGiven(lines[0], method_, url, version);
  }

  // ---- the header lines ----

  lemma {:induction false} HeaderStops(lines: seq<Bytes>, i: nat, headers: map<Bytes, Bytes>)
    requires i < |lines| && lines[i] != [] && Lacks(lines[i], 58)
    requires forall j :: 0 <= j < i ==> lines[j] != [] && !Lacks(lines[j], 58)
    ensures HeaderFields(lines, headers) == Err(MalformedHeaderLine(lines[i]))
  {
    CutIff(lines[0], COLON);
    if i > 0 {
      var (name, value) := Cut(lines[0], COLON).value;
      HeaderStops(lines[1..], i - 1, headers[FieldName(name) := Strip(Latin1, value)]);
    }
  }

  /** The lines that are not empty. */
  function Filled(lines: seq<Bytes>): seq<Bytes> {
    if lines == [] then [] else (if lines[0] == [] then [] else [lines[0]]) + Filled(lines[1..])
  }

  /** Empty header lines are passed over. */
  lemma {:induction false} EmptyLinesPass(lines: seq<Bytes>, headers: map<Bytes, Bytes>)
    ensures HeaderFields(lines, headers) == HeaderFields(Filled(lines), headers)
    decreases |lines|
  {
    if lines != [] {
      if lines[0] == [] {
        assert [] + Filled(lines[1..]) == Filled(lines[1..]);
        EmptyLinesPass(lines[1..], headers);
      } else {
        assert ([lines[0]] + Filled(lines[1..]))[1..] == Filled(lines[1..]);
        if Cut(lines[0], COLON).Some? {
          var (name, value) := Cut(lines[0], COLON).value;
          EmptyLinesPass(lines[1..], headers[FieldName(name) := Strip(Latin1, value)]);
        }
      }
    }
  }

  /** The first header line without a colon is named as malformed. */
  lemma {:induction false} RejectsHeader(lines: seq<Bytes>, rest: Bytes, method_: Bytes, url: Bytes, version: Bytes,
                                         i: nat)
    requires AllLines(lines) && StartsWith(lines[0], method_, url, version) && [72, 84, 84, 80, 47] <= version
    requires 0 < i < |lines| && Lacks(lines[i], 58) && forall j :: 0 < j < i ==> !Lacks(lines[j], 58)
    ensures Parse(Block(lines, rest)) == Invalid(MalformedHeaderLine(lines[i]))
  {
    BlockReads(lines, rest);
    StartLineGiven(lines[0], method_, url, version);
    assert forall j :: 0 < j < |lines| ==> lines[j] == lines[1..][j - 1];
    HeaderStops(lines[1..], i - 1, map[]);
  }

  /** A Content-Length that int() does not take is named, as it was written but for the whitespace
      around it. */
  lemma {:induction false} RejectsLength(method_: Bytes, url: Bytes, version: Bytes, fields: seq<FieldText>,
                                         rest: Bytes)
    requires Printable(method_, url, version, fields) && CONTENT_LENGTH in FieldMap(fields, map[])
    requires ParseInt(Latin1, FieldMap(fields, map[])[CONTENT_LENGTH]).None?
    ensures Parse(PrintHead(method_, url, version, fields) + rest)
      == Invalid(InvalidContentLength(FieldMap(fields, map[])[CONTENT_LENGTH]))
  {
    HeadOfPrinted(method_, url, version, fields, rest);
  }
}
