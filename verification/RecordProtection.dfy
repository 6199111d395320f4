/** Sequence-numbered AEAD records (tls_web_server/tls/record_protection.py). */
module RecordProtection {
  import opened Wire
  import opened Framing
  import opened Crypto

  const NONCE_LEN := 12
  const SEQ_LEN := 8
  const OVERHEAD := SEQ_LEN + NONCE_LEN + TAG_LEN

  /** The longest plaintext whose record the receiving side accepts: 16 MiB less 36 bytes. */
  const MAX_PLAINTEXT := MAX_RECORD_SIZE - OVERHEAD

  function Record(s: Suite, key: Bytes, sequence: nat, nonce: Nonce, plaintext: Bytes): Bytes {
    Pack(sequence, SEQ_LEN) + nonce + s.seal(key, nonce, plaintext, Pack(sequence, SEQ_LEN))
  }

  /** protect_record: a sequence number of 2^64 or more is a struct.error. */
  function ProtectRecord(s: Suite, key: Bytes, sequence: nat, nonce: Nonce, plaintext: Bytes): Result<Bytes, Error> {
    if sequence < LIMIT_64 then Ok(Record(s, key, sequence, nonce, plaintext)) else Err(StructError)
  }

  /** unprotect_record. */
  function UnprotectRecord(s: Suite, key: Bytes, expected: nat, payload: Bytes): Result<Bytes, Error> {
    if |payload| < OVERHEAD then Err(ValueError)
    else if Unpack(payload[..SEQ_LEN]) != expected then Err(ValueError)
    else
      match s.open(key, payload[SEQ_LEN..SEQ_LEN + NONCE_LEN], payload[SEQ_LEN + NONCE_LEN..], payload[..SEQ_LEN])
      case None => Err(InvalidTag)
      case Some(plaintext) => Ok(plaintext)
  }

  /** A record is accepted, with its plaintext, exactly under its own sequence number. */
  lemma {:induction false} UnprotectProtected(s: Suite, key: Bytes, sequence: nat, nonce: Nonce, plaintext: Bytes,
                                              expected: nat)
    requires SealOpens(s) && sequence < LIMIT_64
    ensures |Record(s, key, sequence, nonce, plaintext)| == |plaintext| + OVERHEAD
    ensures UnprotectRecord(s, key, expected, Record(s, key, sequence, nonce, plaintext)) ==
      if expected == sequence then Ok(plaintext) else Err(ValueError)
  {
    var header := Pack(sequence, SEQ_LEN);
    var sealed := s.seal(key, nonce, plaintext, header);
    var payload := Record(s, key, sequence, nonce, plaintext);
    Capacities();
    UnpackPack(sequence, SEQ_LEN);
    assert s.open(key, nonce, sealed, header) == Some(plaintext) && |sealed| == |plaintext| + TAG_LEN;
    assert payload[..SEQ_LEN] == header;
    assert payload[SEQ_LEN..SEQ_LEN + NONCE_LEN] == nonce;
    assert payload[SEQ_LEN + NONCE_LEN..] == sealed;
  }

  /** What acceptance says about any payload at all: it carries the expected
      number as associated data and its sealed part opens under the key. */
  lemma {:induction false} AcceptedRecord(s: Suite, key: Bytes, expected: nat, payload: Bytes)
    requires UnprotectRecord(s, key, expected, payload).Ok?
    ensures expected < LIMIT_64 && |payload| >= OVERHEAD && payload[..SEQ_LEN] == Pack(expected, SEQ_LEN)
    ensures s.open(key, payload[SEQ_LEN..SEQ_LEN + NONCE_LEN], payload[SEQ_LEN + NONCE_LEN..], Pack(expected, SEQ_LEN))
      == Some(UnprotectRecord(s, key, expected, payload).value)
  {
    Capacities();
    PackUnpack(payload[..SEQ_LEN]);
  }

  /** Protect, frame, pop and unprotect. */
  function Through(s: Suite, key: Bytes, sequence: nat, nonce: Nonce, plaintext: Bytes, expected: nat): Option<Bytes> {
    match ProtectRecord(s, key, sequence, nonce, plaintext)
    case Err(_) => None
    case Ok(payload) =>
      match FramePayload(payload)
      case None => None
      case Some(wire) =>
        match PopFrom(wire)
        case NeedMore => None
        case TooLarge(_) => None
        case Popped(popped, rest) =>
          match UnprotectRecord(s, key, expected, popped)
          case Err(_) => None
          case Ok(text) => Some(text)
  }

  /** The size bound is sharp: a plaintext comes through exactly when it is at most
      16,777,180 bytes long and its sequence number is expected and below 2^64. */
  lemma {:induction false} SharpSizeBound(s: Suite, key: Bytes, sequence: nat, nonce: Nonce, plaintext: Bytes,
                                          expected: nat)
    requires SealOpens(s)
    ensures MAX_PLAINTEXT == 16_777_180
    ensures Through(s, key, sequence, nonce, plaintext, expected) ==
      if |plaintext| <= MAX_PLAINTEXT && sequence == expected && sequence < LIMIT_64 then Some(plaintext) else None
  {
    if sequence < LIMIT_64 {
      var payload := Record(s, key, sequence, nonce, plaintext);
      UnprotectProtected(s, key, sequence, nonce, plaintext, expected);
      if |payload| <= MAX_RECORD_SIZE {
        PopOfFrame(payload, []);
        assert Frame(payload) + [] == Frame(payload);
      } else if |payload| < LIMIT_32 {
        assert Frame(payload)[..|Frame(payload)|] == Frame(payload);
        OversizeRefused(payload, |Frame(payload)|);
      }
    }
  }

  /** A frame that the sender may build but the receiver refuses is refused as
      soon as its four header bytes are in, whatever part of the rest has come. */
  lemma {:induction false} OversizeRefused(payload: Bytes, arrived: nat)
    requires MAX_RECORD_SIZE < |payload| < LIMIT_32
    requires HEADER_SIZE <= arrived <= |Frame(payload)|
    ensures PopFrom(Frame(payload)[..arrived]) == TooLarge(|payload|)
  {
    Capacities();
    UnpackPack(|payload|, HEADER_SIZE);
    assert Frame(payload)[..arrived][..HEADER_SIZE] == Pack(|payload|, HEADER_SIZE);
  }
}
