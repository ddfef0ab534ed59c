/** Python integers to fixed-width byte strings, in the byte order the
    `endian` argument names: exactly `"big"` selects most significant byte
    first, every other argument selects least significant byte first.
    A value the width cannot hold raises `struct.error`. */
module Encode {

  import opened Errors
  import S = StructPack

  /** The byte order the codecs use when the caller names none. */
  const DefaultEndian := "big"

  /** A signed value to one byte. */
  function Char(v: int, endian: string): (r: Outcome<seq<S.Byte>>)
    ensures r.Ok? <==> -0x80 <= v < 0x80
    ensures r.Ok? ==> |r.value| == 1
  {
    S.Pack(S.Format(1, true), v, endian == "big")
  }

  /** An unsigned value to one byte. */
  function Byte(v: int, endian: string): (r: Outcome<seq<S.Byte>>)
    ensures r.Ok? <==> 0 <= v < 0x100
    ensures r.Ok? ==> |r.value| == 1
  {
    S.Pack(S.Format(1, false), v, endian == "big")
  }

  /** A signed value to two bytes. */
  function Word(v: int, endian: string): (r: Outcome<seq<S.Byte>>)
    ensures r.Ok? <==> -0x8000 <= v < 0x8000
    ensures r.Ok? ==> |r.value| == 2
  {
    S.Pack(S.Format(2, true), v, endian == "big")
  }

  /** An unsigned value to two bytes. */
  function UWord(v: int, endian: string): (r: Outcome<seq<S.Byte>>)
    ensures r.Ok? <==> 0 <= v < 0x1_0000
    ensures r.Ok? ==> |r.value| == 2
  {
    S.Pack(S.Format(2, false), v, endian == "big")
  }

  /** A signed value to four bytes. */
  function Long(v: int, endian: string): (r: Outcome<seq<S.Byte>>)
    ensures r.Ok? <==> -0x8000_0000 <= v < 0x8000_0000
    ensures r.Ok? ==> |r.value| == 4
  {
    S.Pack(S.Format(4, true), v, endian == "big")
  }

  /** An unsigned value to four bytes. */
  function ULong(v: int, endian: string): (r: Outcome<seq<S.Byte>>)
    ensures r.Ok? <==> 0 <= v < 0x1_0000_0000
    ensures r.Ok? ==> |r.value| == 4
  {
    S.Pack(S.Format(4, false), v, endian == "big")
  }

  /** A signed value to eight bytes. */
  function Quad(v: int, endian: string): (r: Outcome<seq<S.Byte>>)
    ensures r.Ok? <==> -0x8000_0000_0000_0000 <= v < 0x8000_0000_0000_0000
    ensures r.Ok? ==> |r.value| == 8
  {
    S.Pack(S.Format(8, true), v, endian == "big")
  }

  /** An unsigned value to eight bytes. */
  function UQuad(v: int, endian: string): (r: Outcome<seq<S.Byte>>)
    ensures r.Ok? <==> 0 <= v < 0x1_0000_0000_0000_0000
    ensures r.Ok? ==> |r.value| == 8
  {
    S.Pack(S.Format(8, false), v, endian == "big")
  }

  /** The same outcome with its bytes, if any, in the opposite order. */
  function Reversed(o: Outcome<seq<S.Byte>>): Outcome<seq<S.Byte>>
  {
    if o.Ok? then Ok(S.Reverse(o.value)) else o
  }

  /** Any byte order other than `"big"` gives the big-endian bytes
      reversed, and raises exactly when big-endian does. */
  lemma {:induction false} LittleEndianIsReversed(v: int, endian: string)
    requires endian != "big"
    ensures Char(v, endian) == Reversed(Char(v, "big"))
    ensures Byte(v, endian) == Reversed(Byte(v, "big"))
    ensures Word(v, endian) == Reversed(Word(v, "big"))
    ensures UWord(v, endian) == Reversed(UWord(v, "big"))
    ensures Long(v, endian) == Reversed(Long(v, "big"))
    ensures ULong(v, endian) == Reversed(ULong(v, "big"))
    ensures Quad(v, endian) == Reversed(Quad(v, "big"))
    ensures UQuad(v, endian) == Reversed(UQuad(v, "big"))
  {
  }

  /** Without an `endian` argument the most significant byte comes first:
      a 16-bit value is its high byte followed by its low byte. */
  lemma {:induction false} DefaultIsMostSignificantFirst(v: int)
    requires 0 <= v < 0x1_0000
    ensures UWord(v, DefaultEndian) == Ok([v / 0x100, v % 0x100])
    ensures v < 0x8000 ==> Word(v, DefaultEndian) == Ok([v / 0x100, v % 0x100])
  {
    var hi, lo := v / 0x100, v % 0x100;
    assert hi < 0x100 && hi % 0x100 == hi && hi / 0x100 == 0;
    assert S.ToBigEndian(hi, 1) == [hi] by {
      assert S.ToBigEndian(hi / 0x100, 0) == [];
    }
    assert S.ToBigEndian(v, 2) == [hi, lo];
  }

  /** A negative value is encoded as the unsigned value `v + 2^(8n)` of the
      same width: two's complement. */
  lemma {:induction false} NegativeIsTwosComplement(v: int, endian: string)
    requires v < 0
    ensures -0x80 <= v ==> Char(v, endian) == Byte(v + 0x100, endian)
    ensures -0x8000 <= v ==> Word(v, endian) == UWord(v + 0x1_0000, endian)
    ensures -0x8000_0000 <= v ==> Long(v, endian) == ULong(v + 0x1_0000_0000, endian)
    ensures -0x8000_0000_0000_0000 <= v ==> Quad(v, endian) == UQuad(v + 0x1_0000_0000_0000_0000, endian)
  {
  }
}
