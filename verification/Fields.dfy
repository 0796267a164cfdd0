/** Length-prefixed fields with base-128 varint lengths, and the fixed-width integers carried in them. */
module Fields {
  import opened Ints
  import opened Options

  type Byte = x: int | 0 <= x < 256
  type Bytes = seq<Byte>

  // ------------------------------------------------------- varints

  /** Base 128, least significant group first, the high bit set on every byte but the last. */
  function Uvarint(n: nat): Bytes {
    if n < 128 then [n] else [n % 128 + 128] + Uvarint(n / 128)
  }

  /** The number at the head of `s`, with the bytes that follow it. */
  function DecodeUvarint(s: Bytes): Option<(nat, Bytes)> {
    if s == [] then None
    else if s[0] < 128 then Some((s[0], s[1..]))
    else
      var rest := DecodeUvarint(s[1..]);
      if rest.None? then None else Some((s[0] - 128 + 128 * rest.value.0, rest.value.1))
  }

  lemma {:induction false} UvarintRoundTrip(n: nat, rest: Bytes)
    ensures DecodeUvarint(Uvarint(n) + rest) == Some((n, rest))
  {
    var s := Uvarint(n) + rest;
    if n >= 128 {
      assert s[1..] == Uvarint(n / 128) + rest;
      UvarintRoundTrip(n / 128, rest);
    } else {
      assert s[1..] == rest;
    }
  }

  function Pow128(k: nat): nat { if k == 0 then 1 else 128 * Pow128(k - 1) }

  lemma {:induction false} UvarintLength(n: nat, k: nat)
    requires k > 0 && n < Pow128(k)
    ensures |Uvarint(n)| <= k
  {
    if n >= 128 {
      assert k > 1 by { assert Pow128(1) == 128; }
      UvarintLength(n / 128, k - 1);
    }
  }

  lemma UvarintFits(n: nat)
    requires n < TWO64
    ensures |Uvarint(n)| <= 10
  {
    assert Pow128(5) == 0x8_0000_0000 by { assert Pow128(3) == 0x20_0000; }
    assert Pow128(10) == 128 * 128 * 128 * 128 * 128 * Pow128(5) by {
      assert Pow128(8) == 128 * 128 * 128 * Pow128(5) by { assert Pow128(7) == 128 * Pow128(6); }
    }
    UvarintLength(n, 10);
  }

  /** The ten-byte buffer is always large enough. */
  method EncodeUvarint(n: nat) returns (out: Bytes)
    requires n < TWO64
    ensures out == Uvarint(n)
  {
    hide Uvarint;
    UvarintFits(n);
    var buf := new Byte[10](_ => 0);
    var x, l := n, 0;
    while x >= 128
      invariant 0 <= l < 10
      invariant buf[..l] + Uvarint(x) == Uvarint(n)
    {
      OneMore(buf[..l], x, n);
      ghost var done := buf[..l];
      buf[l] := x % 128 + 128;
      assert buf[..l + 1] == done + [x % 128 + 128];
      x, l := x / 128, l + 1;
    }
    ghost var done := buf[..l];
    assert Uvarint(x) == [x] by { LastByte(x); }
    buf[l] := x;
    out := buf[..l + 1];
    assert out == done + [x];
  }

  lemma LastByte(x: nat)
    requires x < 128
    ensures Uvarint(x) == [x]
  {}

  lemma OneMore(done: Bytes, x: nat, n: nat)
    requires x >= 128 && done + Uvarint(x) == Uvarint(n)
    ensures done + [x % 128 + 128] + Uvarint(x / 128) == Uvarint(n)
    ensures |done| + 2 <= |Uvarint(n)|
  {
    assert |Uvarint(x / 128)| >= 1;
    assert done + [x % 128 + 128] + Uvarint(x / 128) == done + ([x % 128 + 128] + Uvarint(x / 128));
  }

  // ------------------------------------------------------- fields

  function EncodeField(f: Bytes): Bytes { Uvarint(|f|) + f }

  function EncodeFields(fs: seq<Bytes>): Bytes {
    if fs == [] then [] else EncodeFields(fs[..|fs| - 1]) + EncodeField(fs[|fs| - 1])
  }

  /** What a reader of the bytes recovers. */
  function DecodeFields(s: Bytes): Option<seq<Bytes>>
    decreases |s|
  {
    if s == [] then Some([])
    else
      var head := DecodeUvarint(s);
      if head.None? then None
      else
        var (n, rest) := head.value;
        if n > |rest| then None
        else
          DecodeShrinks(s);
          var tail := DecodeFields(rest[n..]);
          if tail.None? then None else Some([rest[..n]] + tail.value)
  }

  lemma {:induction false} DecodeShrinks(s: Bytes)
    requires DecodeUvarint(s).Some?
    ensures |DecodeUvarint(s).value.1| < |s|
  {
    if s[0] >= 128 { DecodeShrinks(s[1..]); }
  }

  lemma {:induction false} FieldsFromHead(fs: seq<Bytes>)
    requires fs != []
    ensures EncodeFields(fs) == EncodeField(fs[0]) + EncodeFields(fs[1..])
  {
    hide EncodeField;
    var front, last := fs[..|fs| - 1], EncodeField(fs[|fs| - 1]);
    if |fs| == 1 {
      assert EncodeFields(front) == [] && EncodeFields(fs[1..]) == [];
      assert [] + last == last + [];
    } else {
      FieldsFromHead(front);
      Regroup(EncodeField(fs[0]), EncodeFields(front[1..]), last);
      assert front[1..] == fs[1..][..|fs| - 2];
    }
  }

  lemma EmptyFields()
    ensures EncodeFields([]) == []
  {}

  lemma Regroup(a: Bytes, b: Bytes, c: Bytes)
    ensures (a + b) + c == a + (b + c)
  {}

  /** Unique decodability, for all field sequences. */
  lemma {:induction false} FieldsRoundTrip(fs: seq<Bytes>)
    ensures DecodeFields(EncodeFields(fs)) == Some(fs)
    decreases |fs|
  {
    hide EncodeFields, Uvarint;
    if fs == [] {
      assert EncodeFields(fs) == [] by { EmptyFields(); }
    } else {
      FieldsFromHead(fs);
      FieldsRoundTrip(fs[1..]);
      var f, tail := fs[0], EncodeFields(fs[1..]);
      UvarintRoundTrip(|f|, f + tail);
      Regroup(Uvarint(|f|), f, tail);
      assert (f + tail)[..|f|] == f && (f + tail)[|f|..] == tail;
      assert fs == [f] + fs[1..];
    }
  }

  lemma FieldsInjective(a: seq<Bytes>, b: seq<Bytes>)
    requires EncodeFields(a) == EncodeFields(b)
    ensures a == b
  {
    FieldsRoundTrip(a);
    FieldsRoundTrip(b);
  }

  // ------------------------------------------------------- fixed-width integers

  /** Big-endian, `k` bytes. */
  function BigEndian(n: nat, k: nat): (r: Bytes)
    ensures |r| == k
    decreases k
  {
    if k == 0 then [] else BigEndian(n / 256, k - 1) + [n % 256]
  }

  function FromBigEndian(s: Bytes): nat {
    if s == [] then 0 else FromBigEndian(s[..|s| - 1]) * 256 + s[|s| - 1]
  }

  function Pow256(k: nat): nat { if k == 0 then 1 else 256 * Pow256(k - 1) }

  lemma {:induction false} BigEndianRoundTrip(n: nat, k: nat)
    requires n < Pow256(k)
    ensures FromBigEndian(BigEndian(n, k)) == n
    decreases k
  {
    if k > 0 {
      BigEndianRoundTrip(n / 256, k - 1);
      assert BigEndian(n, k)[..k - 1] == BigEndian(n / 256, k - 1);
    }
  }

  /** The conversion of a signed 64-bit integer to an unsigned one. */
  function ToUint64(v: int): nat
    requires IsInt64(v)
  {
    if v >= 0 then v else v + TWO64
  }

  function FieldInt64(v: int): Bytes
    requires IsInt64(v)
  {
    BigEndian(ToUint64(v), 8)
  }

  lemma EightBytes()
    ensures Pow256(8) == TWO64
  {
    assert Pow256(4) == 0x1_0000_0000 by { assert Pow256(2) == 0x1_0000; }
    assert Pow256(6) == 256 * 256 * Pow256(4);
  }

  lemma Int64Injective(v: int, w: int)
    requires IsInt64(v) && IsInt64(w) && FieldInt64(v) == FieldInt64(w)
    ensures v == w
  {
    hide BigEndian, FromBigEndian, Pow256;
    EightBytes();
    BigEndianRoundTrip(ToUint64(v), 8);
    BigEndianRoundTrip(ToUint64(w), 8);
  }

  /** The field is the eight bytes, most significant first, of the value modulo 2^64. */
  lemma Int64Bytes(v: int)
    requires IsInt64(v)
    ensures |FieldInt64(v)| == 8 && FromBigEndian(FieldInt64(v)) == v % 0x1_0000_0000_0000_0000
  {
    hide BigEndian, FromBigEndian, Pow256;
    EightBytes();
    BigEndianRoundTrip(ToUint64(v), 8);
  }
}
