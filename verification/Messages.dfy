/** The tag-length-value codec of handshake messages (tls_web_server/tls/messages.py). */
module Messages {
  import opened Wire

  const TAG_X25519_PUBLIC := 0x0010
  const TAG_CERTIFICATE := 0x0020
  const TAG_CERTIFICATE_VERIFY := 0x0021

  const FIELD_HEADER := 6

  datatype Field = Field(tag: nat, value: Bytes)

  /** struct.pack("!HI", tag, len(value)) accepts the field. */
  predicate Encodable(field: Field) {
    field.tag < LIMIT_16 && |field.value| < LIMIT_32
  }

  predicate AllEncodable(fields: seq<Field>) {
    forall i :: 0 <= i < |fields| ==> Encodable(fields[i])
  }

  function EncodeField(field: Field): Bytes {
    Pack(field.tag, 2) + Pack(|field.value|, 4) + field.value
  }

  function Encode(fields: seq<Field>): Bytes {
    if fields == [] then [] else EncodeField(fields[0]) + Encode(fields[1..])
  }

  /** The first field of a message and the bytes after it; None is a ValueError. */
  function SplitField(data: Bytes): Option<(Field, Bytes)> {
    if |data| < FIELD_HEADER then None
    else
      var length := Unpack(data[2..FIELD_HEADER]);
      if |data| - FIELD_HEADER < length then None
      else Some((Field(Unpack(data[..2]), data[FIELD_HEADER..FIELD_HEADER + length]), data[FIELD_HEADER + length..]))
  }

  function Decode(data: Bytes): Option<seq<Field>>
    decreases |data|
  {
    if data == [] then Some([])
    else match SplitField(data)
      case None => None
      case Some((field, rest)) =>
        Prepend([field], Decode(rest))
  }

  function Prepend(fields: seq<Field>, later: Option<seq<Field>>): Option<seq<Field>> {
    match later
    case None => None
    case Some(more) => Some(fields + more)
  }

  // ---- the loops of the source ----

  /** None is the struct.error of a tag or a length that does not fit. */
  method EncodeMessage(fields: seq<Field>) returns (out: Option<Bytes>)
    ensures out == if AllEncodable(fields) then Some(Encode(fields)) else None
  {
    var bytes: Bytes := [];
    for i := 0 to |fields|
      invariant AllEncodable(fields[..i])
      invariant bytes == Encode(fields[..i])
    {
      var field := fields[i];
      if !(field.tag < LIMIT_16 && |field.value| < LIMIT_32) {
        assert !Encodable(fields[i]);
        return None;
      }
      assert fields[..i + 1] == fields[..i] + [field];
      EncodeSnoc(fields[..i], field);
      bytes := bytes + (Pack(field.tag, 2) + Pack(|field.value|, 4));
      bytes := bytes + field.value;
    }
    assert fields[..|fields|] == fields;
    return Some(bytes);
  }

  /** None is the ValueError of a truncated header or value. */
  method DecodeMessage(data: Bytes) returns (out: Option<seq<Field>>)
    ensures out == Decode(data)
  {
    var fields: seq<Field> := [];
    var pos := 0;
    assert data[0..] == data;
    PrependNone(Decode(data));
    while pos < |data|
      invariant 0 <= pos <= |data|
      invariant Decode(data) == Prepend(fields, Decode(data[pos..]))
    {
      if |data| - pos < FIELD_HEADER {
        return None;
      }
      var rest := data[pos..];
      var tag, length := Unpack(data[pos..pos + 2]), Unpack(data[pos + 2..pos + FIELD_HEADER]);
      assert rest[..2] == data[pos..pos + 2] && rest[2..FIELD_HEADER] == data[pos + 2..pos + FIELD_HEADER];
      pos := pos + FIELD_HEADER;
      if |data| - pos < length {
        return None;
      }
      var field := Field(tag, data[pos..pos + length]);
      assert rest[FIELD_HEADER..FIELD_HEADER + length] == field.value;
      assert rest[FIELD_HEADER + length..] == data[pos + length..];
      assert SplitField(rest) == Some((field, data[pos + length..]));
      PrependTwice(fields, field, Decode(data[pos + length..]));
      fields := fields + [field];
      pos := pos + length;
    }
    assert data[pos..] == [] && fields + [] == fields;
    return Some(fields);
  }

  /** The value of the first field with the tag; None is a ValueError. */
  method FirstField(fields: seq<Field>, tag: nat) returns (value: Option<Bytes>)
    ensures value == First(fields, tag)
  {
    for i := 0 to |fields|
      invariant First(fields, tag) == First(fields[i..], tag)
    {
      assert fields[i..][1..] == fields[i + 1..];
      if fields[i].tag == tag {
        return Some(fields[i].value);
      }
    }
    return None;
  }

  function First(fields: seq<Field>, tag: nat): Option<Bytes> {
    if fields == [] then None
    else if fields[0].tag == tag then Some(fields[0].value)
    else First(fields[1..], tag)
  }

  /** The list comprehension [value for tag, value in fields if tag == wanted]. */
  function Select(fields: seq<Field>, wanted: nat): seq<Bytes> {
    if fields == [] then []
    else (if fields[0].tag == wanted then [fields[0].value] else []) + Select(fields[1..], wanted)
  }

  // ---- the codec is a bijection ----

  lemma {:induction false} EncodeCons(field: Field, fields: seq<Field>)
    ensures Encode([field] + fields) == EncodeField(field) + Encode(fields)
  {
    assert ([field] + fields)[1..] == fields;
  }

  lemma {:induction false} EncodeSnoc(fields: seq<Field>, field: Field)
    ensures Encode(fields + [field]) == Encode(fields) + (Pack(field.tag, 2) + Pack(|field.value|, 4)) + field.value
  {
    if fields == [] {
      assert fields + [field] == [field];
      assert Encode([field]) == EncodeField(field) + Encode([]);
    } else {
      assert (fields + [field])[1..] == fields[1..] + [field];
      EncodeSnoc(fields[1..], field);
    }
  }

  lemma PrependTwice(fields: seq<Field>, field: Field, later: Option<seq<Field>>)
    ensures Prepend(fields, Prepend([field], later)) == Prepend(fields + [field], later)
  {
    if later.Some? {
      ConcatAssoc(fields, [field], later.value);
    }
  }

  lemma PrependNone(later: Option<seq<Field>>)
    ensures Prepend([], later) == later
  {
    if later.Some? {
      assert [] + later.value == later.value;
    }
  }

  lemma SplitOfEncoded(field: Field, rest: Bytes)
    requires Encodable(field)
    ensures SplitField(EncodeField(field) + rest) == Some((field, rest))
  {
    var data := EncodeField(field) + rest;
    Capacities();
    UnpackPack(field.tag, 2);
    UnpackPack(|field.value|, 4);
    assert data[..2] == Pack(field.tag, 2);
    assert data[2..FIELD_HEADER] == Pack(|field.value|, 4);
    assert data[FIELD_HEADER..FIELD_HEADER + |field.value|] == field.value;
    assert data[FIELD_HEADER + |field.value|..] == rest;
  }

  lemma EncodedOfSplit(data: Bytes)
    requires SplitField(data).Some?
    ensures Encodable(SplitField(data).value.0)
    ensures EncodeField(SplitField(data).value.0) + SplitField(data).value.1 == data
  {
    Capacities();
    PackUnpack(data[..2]);
    PackUnpack(data[2..FIELD_HEADER]);
    assert data[..2] + data[2..FIELD_HEADER] == data[..FIELD_HEADER];
    assert data == data[..FIELD_HEADER] + data[FIELD_HEADER..];
  }

  /** Decoding what was encoded gives the fields back. */
  lemma {:induction false} DecodeEncode(fields: seq<Field>)
    requires AllEncodable(fields)
    ensures Decode(Encode(fields)) == Some(fields)
  {
    if fields != [] {
      SplitOfEncoded(fields[0], Encode(fields[1..]));
      DecodeEncode(fields[1..]);
      assert [fields[0]] + fields[1..] == fields;
    }
  }

  /** Whatever decodes is the encoding of its fields, and of nothing else. */
  lemma {:induction false} EncodeDecode(data: Bytes)
    requires Decode(data).Some?
    ensures AllEncodable(Decode(data).value)
    ensures Encode(Decode(data).value) == data
    decreases |data|
  {
    if data != [] {
      var split := SplitField(data).value;
      EncodedOfSplit(data);
      EncodeDecode(split.1);
      EncodeCons(split.0, Decode(split.1).value);
    }
  }

  lemma {:induction false} SelectAppend(a: seq<Field>, b: seq<Field>, tag: nat)
    ensures Select(a + b, tag) == Select(a, tag) + Select(b, tag)
  {
    if a == [] {
      assert a + b == b;
    } else {
      assert (a + b)[1..] == a[1..] + b;
      SelectAppend(a[1..], b, tag);
    }
  }
}
