/** Byte strings, big-endian integers and the small algebra of byte streams
    that every layer of the model shares. */
module Wire {

  type byte = b: int | 0 <= b < 256
  type Bytes = seq<byte>

  datatype Option<+T> = None | Some(value: T)

  datatype Result<+T, +E> = Ok(value: T) | Err(error: E)

  const LIMIT_16 := 0x1_0000
  const LIMIT_32 := 0x1_0000_0000
  const LIMIT_64 := 0x1_0000_0000_0000_0000

  // ---- big-endian integers: struct.pack("!H" / "!I" / "!Q", n) and back ----

  /** 256 to the power `width`: the number of values `width` bytes can hold. */
  function Capacity(width: nat): nat {
    if width == 0 then 1 else 256 * Capacity(width - 1)
  }

  /** The `width` low-order bytes of `n`, most significant first. */
  function Pack(n: nat, width: nat): (b: Bytes)
    ensures |b| == width
    decreases width, n
  {
    if width == 0 then [] else Pack(n / 256, width - 1) + [n % 256]
  }

  function Unpack(b: Bytes): nat {
    if b == [] then 0 else 256 * Unpack(b[..|b| - 1]) + b[|b| - 1]
  }

  lemma Capacities()
    ensures Capacity(2) == LIMIT_16 && Capacity(4) == LIMIT_32 && Capacity(8) == LIMIT_64
  {
    assert Capacity(2) == 256 * Capacity(1);
    assert Capacity(4) == 256 * Capacity(3) && Capacity(3) == 256 * Capacity(2);
    assert Capacity(8) == 256 * Capacity(7) && Capacity(7) == 256 * Capacity(6);
    assert Capacity(6) == 256 * Capacity(5) && Capacity(5) == 256 * Capacity(4);
  }

  lemma {:induction false} UnpackPack(n: nat, width: nat)
    requires n < Capacity(width)
    ensures Unpack(Pack(n, width)) == n
  {
    if width != 0 {
      UnpackPack(n / 256, width - 1);
      var b := Pack(n, width);
      assert b[..|b| - 1] == Pack(n / 256, width - 1);
    }
  }

  lemma {:induction false} PackUnpack(b: Bytes)
    ensures Unpack(b) < Capacity(|b|) && Pack(Unpack(b), |b|) == b
  {
    if b != [] {
      var front := b[..|b| - 1];
      PackUnpack(front);
      assert Unpack(b) / 256 == Unpack(front) && Unpack(b) % 256 == b[|b| - 1];
      assert front + [b[|b| - 1]] == b;
    }
  }

  /** Packing is injective on the integers that fit. */
  lemma {:induction false} PackInjective(m: nat, n: nat, width: nat)
    requires m < Capacity(width) && n < Capacity(width)
    requires Pack(m, width) == Pack(n, width)
    ensures m == n
  {
    UnpackPack(m, width);
    UnpackPack(n, width);
  }

  lemma ConcatAssoc<T>(a: seq<T>, b: seq<T>, c: seq<T>)
    ensures (a + b) + c == a + (b + c)
  {
  }

  lemma StrictPrefix<T>(a: seq<T>, b: seq<T>, whole: seq<T>)
    requires b != [] && a + b <= whole
    ensures a < whole
  {
  }

  lemma LastSplit<T>(a: seq<T>)
    requires a != []
    ensures a == a[..|a| - 1] + [a[|a| - 1]]
  {
  }

  // ---- streams as concatenations of pieces ----

  function Flatten(parts: seq<Bytes>): Bytes {
    if parts == [] then [] else parts[0] + Flatten(parts[1..])
  }

  lemma {:induction false} FlattenAppend(a: seq<Bytes>, b: seq<Bytes>)
    ensures Flatten(a + b) == Flatten(a) + Flatten(b)
  {
    if a == [] {
      assert a + b == b;
    } else {
      assert (a + b)[1..] == a[1..] + b;
      FlattenAppend(a[1..], b);
    }
  }

  lemma {:induction false} FlattenSnoc(a: seq<Bytes>, x: Bytes)
    ensures Flatten(a + [x]) == Flatten(a) + x
  {
    FlattenAppend(a, [x]);
    assert Flatten([x]) == x + Flatten([]);
  }

  /** A prefix of the pieces flattens to a prefix of the stream. */
  lemma {:induction false} FlattenPrefix(a: seq<Bytes>, b: seq<Bytes>)
    requires a <= b
    ensures Flatten(a) <= Flatten(b)
  {
    assert b == a + b[|a|..];
    FlattenAppend(a, b[|a|..]);
  }

  /** Without its last piece, a stream of which that is not empty is shorter. */
  lemma {:induction false} FlattenFront(front: seq<Bytes>, last: Bytes, whole: Bytes)
    requires last != [] && Flatten(front + [last]) <= whole
    ensures Flatten(front) < whole
  {
    FlattenSnoc(front, last);
    StrictPrefix(Flatten(front), last, whole);
  }
}
