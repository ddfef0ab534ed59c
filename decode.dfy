/** Fixed-width byte strings to Python integers. Each decoder takes the
    first `n` bytes of its input (`data[0:n]`), so longer input is accepted
    and its tail ignored, while shorter input raises `struct.error`. As in
    the encoders, exactly `"big"` selects big-endian order and every other
    `endian` argument little-endian order. */
module Decode {

  import opened Errors
  import S = StructPack
  import E = Encode

  /** The byte order the codecs use when the caller names none. */
  const DefaultEndian := "big"

  /** `data[0:n]` read as one integer of format `f`. */
  function Read(f: S.Format, data: seq<S.Byte>, endian: string): (r: Outcome<int>)
    requires f.size > 0
    ensures r.Ok? <==> |data| >= f.size
    ensures r.Ok? ==> S.InRange(f, r.value)
  {
    var prefix := S.Prefix(data, f.size);
    if |prefix| == f.size then
      S.UnpackInRange(f, prefix, endian == "big");
      S.Unpack(f, prefix, endian == "big")
    else
      S.Unpack(f, prefix, endian == "big")
  }

  /** One byte to a signed value. */
  function Char(data: seq<S.Byte>, endian: string): (r: Outcome<int>)
    ensures r.Ok? <==> |data| >= 1
    ensures r.Ok? ==> -0x80 <= r.value < 0x80
  {
    Read(S.Format(1, true), data, endian)
  }

  /** One byte to an unsigned value. */
  function Byte(data: seq<S.Byte>, endian: string): (r: Outcome<int>)
    ensures r.Ok? <==> |data| >= 1
    ensures r.Ok? ==> 0 <= r.value < 0x100
  {
    Read(S.Format(1, false), data, endian)
  }

  /** Two bytes to a signed value. */
  function Word(data: seq<S.Byte>, endian: string): (r: Outcome<int>)
    ensures r.Ok? <==> |data| >= 2
    ensures r.Ok? ==> -0x8000 <= r.value < 0x8000
  {
    Read(S.Format(2, true), data, endian)
  }

  /** Two bytes to an unsigned value. */
  function UWord(data: seq<S.Byte>, endian: string): (r: Outcome<int>)
    ensures r.Ok? <==> |data| >= 2
    ensures r.Ok? ==> 0 <= r.value < 0x1_0000
  {
    Read(S.Format(2, false), data, endian)
  }

  /** Four bytes to a signed value. */
  function Long(data: seq<S.Byte>, endian: string): (r: Outcome<int>)
    ensures r.Ok? <==> |data| >= 4
    ensures r.Ok? ==> -0x8000_0000 <= r.value < 0x8000_0000
  {
    Read(S.Format(4, true), data, endian)
  }

  /** Four bytes to an unsigned value. */
  function ULong(data: seq<S.Byte>, endian: string): (r: Outcome<int>)
    ensures r.Ok? <==> |data| >= 4
    ensures r.Ok? ==> 0 <= r.value < 0x1_0000_0000
  {
    Read(S.Format(4, false), data, endian)
  }

  /** Eight bytes to a signed value. */
  function Quad(data: seq<S.Byte>, endian: string): (r: Outcome<int>)
    ensures r.Ok? <==> |data| >= 8
    ensures r.Ok? ==> -0x8000_0000_0000_0000 <= r.value < 0x8000_0000_0000_0000
  {
    Read(S.Format(8, true), data, endian)
  }

  /** Eight bytes to an unsigned value. */
  function UQuad(data: seq<S.Byte>, endian: string): (r: Outcome<int>)
    ensures r.Ok? <==> |data| >= 8
    ensures r.Ok? ==> 0 <= r.value < 0x1_0000_0000_0000_0000
  {
    Read(S.Format(8, false), data, endian)
  }

  /** Without an `endian` argument the first byte is the most significant:
      two bytes `hi, lo` read as `hi * 256 + lo`, whatever follows them. */
  lemma {:induction false} DefaultReadsMostSignificantFirst(hi: S.Byte, lo: S.Byte, tail: seq<S.Byte>)
    ensures UWord([hi, lo] + tail, DefaultEndian) == Ok(hi * 0x100 + lo)
  {
    var data := [hi, lo] + tail;
    assert S.Prefix(data, 2) == [hi, lo];
    assert S.FromBigEndian([hi]) == hi by {
      assert [hi][..0] == [];
    }
    assert [hi, lo][..1] == [hi];
  }

  /** Bytes past the first `n` make no difference to the result. */
  lemma {:induction false} ReadIgnoresTail(f: S.Format, data: seq<S.Byte>, tail: seq<S.Byte>, endian: string)
    requires 0 < f.size <= |data|
    ensures Read(f, data + tail, endian) == Read(f, data, endian)
  {
    assert S.Prefix(data + tail, f.size) == S.Prefix(data, f.size);
  }

  /** Each decoder ignores whatever follows its `n` bytes. */
  lemma {:induction false} IgnoresTrailingBytes(data: seq<S.Byte>, tail: seq<S.Byte>, endian: string)
    ensures |data| >= 1 ==> (Char(data + tail, endian) == Char(data, endian)
      && Byte(data + tail, endian) == Byte(data, endian))
    ensures |data| >= 2 ==> (Word(data + tail, endian) == Word(data, endian)
      && UWord(data + tail, endian) == UWord(data, endian))
    ensures |data| >= 4 ==> (Long(data + tail, endian) == Long(data, endian)
      && ULong(data + tail, endian) == ULong(data, endian))
    ensures |data| >= 8 ==> (Quad(data + tail, endian) == Quad(data, endian)
      && UQuad(data + tail, endian) == UQuad(data, endian))
  {
    forall f: S.Format | 0 < f.size <= |data| {
      ReadIgnoresTail(f, data, tail, endian);
    }
  }

  /** Decoding an encoding of `v` gives `v`, in either byte order. */
  lemma {:induction false} ReadEncoded(f: S.Format, v: int, endian: string)
    requires f.size > 0 && S.InRange(f, v)
    ensures Read(f, S.Pack(f, v, endian == "big").value, endian) == Ok(v)
  {
    var bytes := S.Pack(f, v, endian == "big").value;
    assert S.Prefix(bytes, f.size) == bytes;
    S.UnpackPack(f, v, endian == "big");
  }

  /** Round trip: every decoder inverts its encoder on the values the
      encoder accepts. */
  lemma {:induction false} DecodeEncode(v: int, endian: string)
    ensures E.Char(v, endian).Ok? ==> Char(E.Char(v, endian).value, endian) == Ok(v)
    ensures E.Byte(v, endian).Ok? ==> Byte(E.Byte(v, endian).value, endian) == Ok(v)
    ensures E.Word(v, endian).Ok? ==> Word(E.Word(v, endian).value, endian) == Ok(v)
    ensures E.UWord(v, endian).Ok? ==> UWord(E.UWord(v, endian).value, endian) == Ok(v)
    ensures E.Long(v, endian).Ok? ==> Long(E.Long(v, endian).value, endian) == Ok(v)
    ensures E.ULong(v, endian).Ok? ==> ULong(E.ULong(v, endian).value, endian) == Ok(v)
    ensures E.Quad(v, endian).Ok? ==> Quad(E.Quad(v, endian).value, endian) == Ok(v)
    ensures E.UQuad(v, endian).Ok? ==> UQuad(E.UQuad(v, endian).value, endian) == Ok(v)
  {
    forall f: S.Format | f.size > 0 && S.InRange(f, v) {
      ReadEncoded(f, v, endian);
    }
  }

  /** Encoding what `Read` decoded from exactly `n` bytes gives those bytes
      back, so distinct byte strings decode to distinct values. */
  lemma {:induction false} EncodeRead(f: S.Format, data: seq<S.Byte>, endian: string)
    requires f.size > 0 && |data| == f.size
    ensures S.Pack(f, Read(f, data, endian).value, endian == "big") == Ok(data)
  {
    assert S.Prefix(data, f.size) == data;
    S.PackUnpack(f, data, endian == "big");
  }

  /** The other round trip: re-encoding a decoded value reproduces the
      bytes it was decoded from. */
  lemma {:induction false} EncodeDecode(data: seq<S.Byte>, endian: string)
    ensures |data| == 1 ==> (E.Char(Char(data, endian).value, endian) == Ok(data)
      && E.Byte(Byte(data, endian).value, endian) == Ok(data))
    ensures |data| == 2 ==> (E.Word(Word(data, endian).value, endian) == Ok(data)
      && E.UWord(UWord(data, endian).value, endian) == Ok(data))
    ensures |data| == 4 ==> (E.Long(Long(data, endian).value, endian) == Ok(data)
      && E.ULong(ULong(data, endian).value, endian) == Ok(data))
    ensures |data| == 8 ==> (E.Quad(Quad(data, endian).value, endian) == Ok(data)
      && E.UQuad(UQuad(data, endian).value, endian) == Ok(data))
  {
    forall f: S.Format | 0 < f.size == |data| {
      EncodeRead(f, data, endian);
    }
  }

  /** The signed reading is the unsigned reading, less `256^n` exactly when
      the most significant byte (the first in big-endian order, the `n`th
      otherwise) has its top bit set. */
  lemma {:induction false} ReadSigned(n: nat, data: seq<S.Byte>, endian: string)
    requires 0 < n <= |data|
    ensures var msb := if endian == "big" then data[0] else data[n - 1];
      Read(S.Format(n, true), data, endian).value
        == Read(S.Format(n, false), data, endian).value - (if msb >= 128 then S.Pow256(n) else 0)
  {
    S.SignedUnpack(n, S.Prefix(data, n), endian == "big");
  }

  /** The signed decoders as offsets of the unsigned ones. */
  lemma {:induction false} SignedFromUnsigned(data: seq<S.Byte>, endian: string)
    ensures |data| >= 1 ==> (var msb := data[0];
      Char(data, endian).value == Byte(data, endian).value - (if msb >= 128 then 0x100 else 0))
    ensures |data| >= 2 ==> (var msb := if endian == "big" then data[0] else data[1];
      Word(data, endian).value == UWord(data, endian).value - (if msb >= 128 then 0x1_0000 else 0))
    ensures |data| >= 4 ==> (var msb := if endian == "big" then data[0] else data[3];
      Long(data, endian).value
        == ULong(data, endian).value - (if msb >= 128 then 0x1_0000_0000 else 0))
    ensures |data| >= 8 ==> (var msb := if endian == "big" then data[0] else data[7];
      Quad(data, endian).value
        == UQuad(data, endian).value - (if msb >= 128 then 0x1_0000_0000_0000_0000 else 0))
  {
    forall n: nat | 0 < n <= |data| {
      ReadSigned(n, data, endian);
    }
  }
}
