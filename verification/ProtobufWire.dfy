/** The Protobuf wire format as presets.c reads it: base-128 varints and field sizes. */
module ProtobufWire {
  import opened Base

  const TWO_64: nat := 0x1_0000_0000_0000_0000
  const MAX_VARINT_BYTES: nat := 10

  datatype Varint = Varint(value: nat, size: nat)

  /** Little-endian base-128 number spelled by the low seven bits of bytes i..n, before any truncation. */
  function Base128(buf: seq<byte>, i: nat, n: nat): nat
    requires i <= n <= |buf|
    decreases n - i
  {
    if i == n then 0 else buf[i] % 128 + 128 * Base128(buf, i + 1, n)
  }

  function Pow2(k: nat): (p: nat)
    ensures p >= 1
  {
    if k == 0 then 1 else 2 * Pow2(k - 1)
  }

  /** Number of bytes up to and including the first one without a continuation bit, or 0 if there is none in reach. */
  function VarintSize(buf: seq<byte>, i: nat): nat
    requires i <= |buf|
    decreases |buf| - i
  {
    if i == |buf| || i == MAX_VARINT_BYTES then 0
    else if buf[i] < 128 then i + 1
    else VarintSize(buf, i + 1)
  }

  lemma {:induction false} VarintSizeMeaning(buf: seq<byte>, i: nat)
    requires i <= |buf| && i <= MAX_VARINT_BYTES
    ensures var n := VarintSize(buf, i);
      if n == 0 then forall k | i <= k < |buf| && k < MAX_VARINT_BYTES :: buf[k] >= 128
      else i < n <= |buf| && n <= MAX_VARINT_BYTES && buf[n - 1] < 128 && forall k | i <= k < n - 1 :: buf[k] >= 128
    decreases |buf| - i
  {
    if i == |buf| || i == MAX_VARINT_BYTES || buf[i] < 128 {
    } else {
      VarintSizeMeaning(buf, i + 1);
    }
  }

  /** The varint at the front of `buf`: its 64-bit value and the bytes it takes, or None if it is cut short or too long. */
  function ReadVarint(buf: seq<byte>): (r: Option<Varint>)
    ensures r.Some? ==> 0 < r.value.size <= |buf| && r.value.value < TWO_64
  {
    VarintSizeMeaning(buf, 0);
    var n := VarintSize(buf, 0);
    if n == 0 then None else Some(Varint(Base128(buf, 0, n) % TWO_64, n))
  }

  /** What a varint is: at most ten bytes, the continuation bit on all but the last, value modulo 2^64. */
  ghost predicate IsVarint(buf: seq<byte>, n: nat) {
    && 0 < n <= |buf| && n <= MAX_VARINT_BYTES
    && buf[n - 1] < 128 && forall k | 0 <= k < n - 1 :: buf[k] >= 128
  }

  /** ReadVarint succeeds exactly on varints, and its answer is the only one. */
  lemma ReadVarintMeaning(buf: seq<byte>)
    ensures match ReadVarint(buf)
      case Some(v) => IsVarint(buf, v.size) && v.value == Base128(buf, 0, v.size) % TWO_64
      case None => forall n :: !IsVarint(buf, n)
  {
    VarintSizeMeaning(buf, 0);
  }

  lemma ReadVarintIs(buf: seq<byte>, n: nat)
    requires IsVarint(buf, n)
    ensures ReadVarint(buf) == Some(Varint(Base128(buf, 0, n) % TWO_64, n))
  {
    ReadVarintMeaning(buf);
    var r := ReadVarint(buf);
    assert r.Some? && !(r.value.size < n) && !(n < r.value.size);
  }

  lemma {:induction false} Base128Append(buf: seq<byte>, i: nat, n: nat)
    requires i <= n < |buf|
    ensures Base128(buf, i, n + 1) == Base128(buf, i, n) + (buf[n] % 128) * Pow2(7 * (n - i))
    decreases n - i
  {
    if i == n {
      assert Base128(buf, n, n + 1) == buf[n] % 128 + 128 * Base128(buf, n + 1, n + 1);
    } else {
      Base128Append(buf, i + 1, n);
      Pow2Plus7(7 * (n - i - 1));
      var x, p := buf[n] % 128, Pow2(7 * (n - i - 1));
      assert 128 * (x * p) == x * (128 * p);
    }
  }

  /** The number depends on the bytes only, not on where they stand. */
  lemma {:induction false} Base128Shift(a: seq<byte>, i: nat, b: seq<byte>, j: nat, n: nat)
    requires i + n <= |a| && j + n <= |b| && a[i..i + n] == b[j..j + n]
    ensures Base128(a, i, i + n) == Base128(b, j, j + n)
    decreases n
  {
    if n == 0 {
    } else {
      assert a[i] == a[i..i + n][0] && b[j] == b[j..j + n][0];
      assert a[i + 1..i + n] == a[i..i + n][1..] && b[j + 1..j + n] == b[j..j + n][1..];
      Base128Shift(a, i + 1, b, j + 1, n - 1);
    }
  }

  lemma Pow2Plus7(k: nat)
    ensures Pow2(k + 7) == 128 * Pow2(k)
  {
    assert Pow2(k + 7) == 2 * Pow2(k + 6) == 4 * Pow2(k + 5) == 8 * Pow2(k + 4);
    assert Pow2(k + 4) == 2 * Pow2(k + 3) == 4 * Pow2(k + 2) == 8 * Pow2(k + 1) == 16 * Pow2(k);
  }

  /** pb_read_varint. The seven-bit groups never overlap, so the C `|=` is written as an addition modulo 2^64. */
  method PbReadVarint(buf: seq<byte>) returns (r: Option<Varint>)
    ensures r == ReadVarint(buf)
  {
    var val := 0;
    var shift := 0;
    var i := 0;
    while i < |buf| && i < MAX_VARINT_BYTES
      invariant 0 <= i <= |buf| && i <= MAX_VARINT_BYTES
      invariant shift == 7 * i
      invariant forall k | 0 <= k < i :: buf[k] >= 128
      invariant val == Base128(buf, 0, i) % TWO_64
    {
      AddGroup(buf, i);
      val := (val + ((buf[i] % 128) * Pow2(shift)) % TWO_64) % TWO_64;
      shift := shift + 7;
      if buf[i] < 128 {
        ReadVarintIs(buf, i + 1);
        return Some(Varint(val, i + 1));
      }
      i := i + 1;
    }
    ReadVarintMeaning(buf);
    return None;
  }

  /** Taking in one more group, at its place and modulo 2^64. */
  lemma AddGroup(buf: seq<byte>, i: nat)
    requires i < |buf|
    ensures Base128(buf, 0, i + 1) % TWO_64
         == (Base128(buf, 0, i) % TWO_64 + ((buf[i] % 128) * Pow2(7 * i)) % TWO_64) % TWO_64
  {
    Base128Append(buf, 0, i);
    ModAdd(Base128(buf, 0, i), (buf[i] % 128) * Pow2(7 * i));
  }

  lemma ModAdd(a: nat, b: nat)
    ensures (a % TWO_64 + b % TWO_64) % TWO_64 == (a + b) % TWO_64
  {
  }

  /** pb_value_size: bytes taken by a field value of the given wire type, or None when it does not fit. */
  function ValueSize(wireType: nat, buf: seq<byte>): (r: Option<nat>)
    ensures r.Some? ==> r.value <= |buf|
  {
    match wireType
    case 0 => (match ReadVarint(buf) case None => None case Some(v) => Some(v.size))
    case 1 => if |buf| >= 8 then Some(8) else None
    case 2 =>
      (match ReadVarint(buf)
       case None => None
       case Some(v) => if v.value > |buf| - v.size then None else Some(v.size + v.value))
    case 5 => if |buf| >= 4 then Some(4) else None
    case _ => None
  }

  function WireType(tag: nat): nat { tag % 8 }

  /** The C code keeps the low 32 bits of the field number. */
  function FieldNumber(tag: nat): nat { (tag / 8) % 0x1_0000_0000 }

  /** Bytes appended after a complete varint do not change how it reads. */
  lemma ReadVarintPrefix(buf: seq<byte>, more: seq<byte>)
    requires ReadVarint(buf).Some?
    ensures ReadVarint(buf + more) == ReadVarint(buf)
  {
    ReadVarintMeaning(buf);
    var n := ReadVarint(buf).value.size;
    Base128Shift(buf + more, 0, buf, 0, n);
    ReadVarintIs(buf + more, n);
  }

  lemma ValueSizePrefix(wireType: nat, buf: seq<byte>, more: seq<byte>)
    requires ValueSize(wireType, buf).Some?
    ensures ValueSize(wireType, buf + more) == ValueSize(wireType, buf)
  {
    if wireType == 0 || wireType == 2 {
      ReadVarintPrefix(buf, more);
    }
  }

  // ---- The sender's side ------------------------------------------------------------------

  /** Minimal varint encoding of `v`. */
  function EncodeVarint(v: nat): (s: seq<byte>)
    ensures |s| > 0 && s[|s| - 1] < 128 && forall k | 0 <= k < |s| - 1 :: s[k] >= 128
  {
    if v < 128 then [v] else [128 + v % 128] + EncodeVarint(v / 128)
  }

  lemma {:induction false} EncodeVarintValue(v: nat, bits: nat)
    requires v < Pow2(bits)
    ensures Base128(EncodeVarint(v), 0, |EncodeVarint(v)|) == v
    ensures |EncodeVarint(v)| <= 1 + bits / 7
    decreases bits
  {
    if v < 128 {
      assert Base128([v], 0, 1) == v % 128 + 128 * Base128([v], 1, 1);
    } else {
      var s := EncodeVarint(v);
      if bits < 7 {
        Pow2Plus7(0);
        Pow2Monotone(bits, 7);
        assert false;
      } else {
        Pow2Plus7(bits - 7);
        EncodeVarintValue(v / 128, bits - 7);
        Base128Shift(s, 1, EncodeVarint(v / 128), 0, |s| - 1);
      }
    }
  }

  lemma {:induction false} Pow2Monotone(a: nat, b: nat)
    requires a <= b
    ensures Pow2(a) <= Pow2(b)
    decreases b
  {
    if a == b {
    } else {
      Pow2Monotone(a, b - 1);
    }
  }

  lemma Pow2Plus21(k: nat)
    ensures Pow2(k + 21) == 0x20_0000 * Pow2(k)
  {
    Pow2Plus7(k + 14);
    Pow2Plus7(k + 7);
    Pow2Plus7(k);
  }

  lemma Pow2Of64()
    ensures Pow2(64) == TWO_64
  {
    Pow2Plus21(43);
    Pow2Plus21(22);
    Pow2Plus21(1);
  }

  /** Reading back an encoded 64-bit value gives the value and exactly its bytes, whatever follows. */
  lemma VarintRoundTrip(v: nat, rest: seq<byte>)
    requires v < TWO_64
    ensures ReadVarint(EncodeVarint(v) + rest) == Some(Varint(v, |EncodeVarint(v)|))
  {
    Pow2Of64();
    EncodeVarintValue(v, 64);
    var s := EncodeVarint(v);
    Base128Shift(s + rest, 0, s, 0, |s|);
    ReadVarintIs(s + rest, |s|);
  }
}
