/** The part of Python's `struct` module the byte codecs use: packing an
    integer into 1, 2, 4 or 8 bytes, signed (two's complement) or unsigned,
    in big- or little-endian order, and unpacking such bytes again. */
module StructPack {

  import opened Errors

  type Byte = b: int | 0 <= b < 256

  /** 256 to the power `n`: one more than the largest unsigned `n`-byte value. */
  function Pow256(n: nat): (r: nat)
    ensures r >= 1
  {
    if n == 0 then 1 else 256 * Pow256(n - 1)
  }

  /** A struct format code for an integer: its size in bytes and whether
      it is signed (`b h l q`) or unsigned (`B H L Q`). */
  datatype Format = Format(size: nat, signed: bool)

  /** The integers `struct.pack` accepts for a format. */
  predicate InRange(f: Format, v: int)
  {
    var p := Pow256(f.size);
    if f.signed then -(p / 2) <= v < p / 2 else 0 <= v < p
  }

  /** `v` written in base 256 as exactly `n` digits, most significant
      first. */
  function ToBigEndian(v: nat, n: nat): (r: seq<Byte>)
    ensures |r| == n
  {
    if n == 0 then [] else ToBigEndian(v / 256, n - 1) + [v % 256]
  }

  /** The value of a base-256 numeral whose most significant digit comes
      first. */
  function FromBigEndian(bs: seq<Byte>): nat
  {
    if bs == [] then 0 else FromBigEndian(bs[..|bs| - 1]) * 256 + bs[|bs| - 1]
  }

  function Reverse(bs: seq<Byte>): (r: seq<Byte>)
    ensures |r| == |bs|
    ensures forall k :: 0 <= k < |bs| ==> r[k] == bs[|bs| - 1 - k]
  {
    if bs == [] then [] else Reverse(bs[1..]) + [bs[0]]
  }

  /** `struct.pack`: the bytes of `v` in format `f`, most significant byte
      first when `big`; a value the format cannot hold raises. A negative
      signed value is written as its two's complement. */
  function Pack(f: Format, v: int, big: bool): (r: Outcome<seq<Byte>>)
    ensures r.Ok? <==> InRange(f, v)
    ensures r.Ok? ==> |r.value| == f.size
  {
    if !InRange(f, v) then Raised(StructError)
    else
      var u := if v < 0 then v + Pow256(f.size) else v;
      var be := ToBigEndian(u, f.size);
      Ok(if big then be else Reverse(be))
  }

  /** `struct.unpack(...)[0]`: the integer the bytes hold in format `f`;
      input of any other length than the format's size raises. */
  function Unpack(f: Format, data: seq<Byte>, big: bool): (r: Outcome<int>)
    ensures r.Ok? <==> |data| == f.size
  {
    if |data| != f.size then Raised(StructError)
    else
      var u := FromBigEndian(if big then data else Reverse(data));
      var p := Pow256(f.size);
      Ok(if f.signed && u >= p / 2 then u - p else u)
  }

  /** Python's `data[0:n]`. */
  function Prefix(data: seq<Byte>, n: nat): (r: seq<Byte>)
    ensures |r| == if |data| < n then |data| else n
    ensures forall k :: 0 <= k < |r| ==> r[k] == data[k]
  {
    if |data| < n then data else data[..n]
  }

  // ----- Lemmas about the numerals ------------------------------------------

  lemma {:induction false} ReverseReverse(bs: seq<Byte>)
    ensures Reverse(Reverse(bs)) == bs
  {
  }

  /** An `n`-digit numeral stays below `256^n`. */
  lemma {:induction false} FromBigEndianBound(bs: seq<Byte>)
    ensures FromBigEndian(bs) < Pow256(|bs|)
  {
    if bs != [] {
      var init := bs[..|bs| - 1];
      FromBigEndianBound(init);
      var x := FromBigEndian(init);
      assert x + 1 <= Pow256(|bs| - 1);
      assert (x + 1) * 256 <= Pow256(|bs| - 1) * 256;
    }
  }

  /** Reading back the digits of a value that fits gives the value. */
  lemma {:induction false} FromToBigEndian(v: nat, n: nat)
    requires v < Pow256(n)
    ensures FromBigEndian(ToBigEndian(v, n)) == v
  {
    if n > 0 {
      var q := v / 256;
      assert q < Pow256(n - 1);
      FromToBigEndian(q, n - 1);
      var bs := ToBigEndian(v, n);
      assert bs[..|bs| - 1] == ToBigEndian(q, n - 1);
    }
  }

  /** Writing out the value of a numeral gives the numeral back. */
  lemma {:induction false} ToFromBigEndian(bs: seq<Byte>)
    ensures ToBigEndian(FromBigEndian(bs), |bs|) == bs
  {
    if bs != [] {
      var init := bs[..|bs| - 1];
      var x := FromBigEndian(init);
      var v := x * 256 + bs[|bs| - 1];
      assert v / 256 == x && v % 256 == bs[|bs| - 1];
      ToFromBigEndian(init);
      assert bs == init + [bs[|bs| - 1]];
    }
  }

  /** The most significant digit weighs `256^(n-1)`. */
  lemma {:induction false} FromBigEndianHead(bs: seq<Byte>)
    requires bs != []
    ensures FromBigEndian(bs) == bs[0] * Pow256(|bs| - 1) + FromBigEndian(bs[1..])
  {
    if |bs| > 1 {
      var init := bs[..|bs| - 1];
      FromBigEndianHead(init);
      assert init[1..] == bs[1..][..|bs| - 2];
      assert FromBigEndian(bs[1..]) == FromBigEndian(init[1..]) * 256 + bs[|bs| - 1];
      calc {
        FromBigEndian(bs);
        FromBigEndian(init) * 256 + bs[|bs| - 1];
        (bs[0] * Pow256(|bs| - 2) + FromBigEndian(init[1..])) * 256 + bs[|bs| - 1];
        bs[0] * (Pow256(|bs| - 2) * 256) + FromBigEndian(init[1..]) * 256 + bs[|bs| - 1];
      }
    } else {
      assert bs[..0] == [];
    }
  }

  lemma {:induction false} MulMonotone(a: int, b: int, c: nat)
    requires a <= b
    ensures a * c <= b * c
  {
  }

  /** A numeral reaches half its range exactly when its most significant
      digit has the top bit set. */
  lemma {:induction false} TopBit(bs: seq<Byte>)
    requires bs != []
    ensures FromBigEndian(bs) >= Pow256(|bs|) / 2 <==> bs[0] >= 128
  {
    var p := Pow256(|bs| - 1);
    var h := bs[0];
    var rest := FromBigEndian(bs[1..]);
    FromBigEndianHead(bs);
    FromBigEndianBound(bs[1..]);
    assert FromBigEndian(bs) == h * p + rest && rest < p;
    assert Pow256(|bs|) / 2 == 128 * p;
    if h >= 128 {
      MulMonotone(128, h, p);
    } else {
      MulMonotone(h, 127, p);
    }
  }

  // ----- Lemmas about pack and unpack ---------------------------------------

  /** Little-endian output is big-endian output reversed. */
  lemma {:induction false} PackLittleIsReversed(f: Format, v: int)
    requires InRange(f, v)
    ensures Pack(f, v, false).value == Reverse(Pack(f, v, true).value)
  {
  }

  /** A negative value is packed as the unsigned value `v + 256^n`. */
  lemma {:induction false} PackNegative(f: Format, v: int, big: bool)
    requires f.signed && InRange(f, v) && v < 0
    ensures Pack(f, v, big) == Pack(Format(f.size, false), v + Pow256(f.size), big)
  {
  }

  /** Unpacked values lie in the format's range. */
  lemma {:induction false} UnpackInRange(f: Format, data: seq<Byte>, big: bool)
    requires f.size > 0 && |data| == f.size
    ensures InRange(f, Unpack(f, data, big).value)
  {
    assert Pow256(f.size) / 2 == 128 * Pow256(f.size - 1);
    FromBigEndianBound(if big then data else Reverse(data));
  }

  /** Unpacking what was packed gives the value back. */
  lemma {:induction false} UnpackPack(f: Format, v: int, big: bool)
    requires InRange(f, v)
    ensures Unpack(f, Pack(f, v, big).value, big) == Ok(v)
  {
    var p := Pow256(f.size);
    var u := if v < 0 then v + p else v;
    var be := ToBigEndian(u, f.size);
    FromToBigEndian(u, f.size);
    assert Pack(f, v, big).value == if big then be else Reverse(be);
    if !big {
      ReverseReverse(be);
    }
    assert FromBigEndian(if big then Pack(f, v, big).value else Reverse(Pack(f, v, big).value)) == u;
    assert f.signed ==> (u >= p / 2 <==> v < 0);
  }

  /** Packing what was unpacked gives the bytes back, so every byte string
      of the right length is the encoding of exactly one value. */
  lemma {:induction false} PackUnpack(f: Format, data: seq<Byte>, big: bool)
    requires f.size > 0 && |data| == f.size
    ensures Pack(f, Unpack(f, data, big).value, big) == Ok(data)
  {
    var be := if big then data else Reverse(data);
    UnpackInRange(f, data, big);
    ToFromBigEndian(be);
    FromBigEndianBound(be);
    if !big {
      ReverseReverse(data);
    }
  }

  /** A signed unpack is the unsigned unpack, less `256^n` exactly when the
      top bit of the most significant byte is set. */
  lemma {:induction false} SignedUnpack(n: nat, data: seq<Byte>, big: bool)
    requires n > 0 && |data| == n
    ensures var msb := if big then data[0] else data[n - 1];
      Unpack(Format(n, true), data, big).value
        == Unpack(Format(n, false), data, big).value - (if msb >= 128 then Pow256(n) else 0)
  {
    var be := if big then data else Reverse(data);
    TopBit(be);
  }
}
