/** Fixed-width unsigned integers and the bit/byte manipulations the driver
    performs on them: big-endian byte order (`u32::to_be_bytes`) and the
    single-bit and bit-field accessors of the `bit_field` crate that the
    driver applies to the mode register byte. */
module Bits {

  /** An 8-bit unsigned value (a Rust `u8`). */
  type Byte = b: int | 0 <= b < 0x100

  /** A 32-bit unsigned value (a Rust `u32`). */
  type Word = w: int | 0 <= w < 0x1_0000_0000

  /** `n` zero bytes. */
  function Zeros(n: nat): (z: seq<Byte>)
    ensures |z| == n
  {
    seq(n, _ => 0)
  }

  /** 256 to the power `n`: the number of values an `n`-byte string can hold. */
  function Pow256(n: nat): (p: nat)
    ensures p >= 1
  {
    if n == 0 then 1 else 0x100 * Pow256(n - 1)
  }

  /** The number a big-endian byte string denotes (most significant byte first). */
  function BeValue(bs: seq<Byte>): nat
  {
    if bs == [] then 0 else BeValue(bs[..|bs| - 1]) * 0x100 + bs[|bs| - 1]
  }

  /** The value of two- and three-byte strings, spelled out. */
  lemma BeValueShort(a: Byte, b: Byte, c: Byte)
    ensures BeValue([b, c]) == b as int * 0x100 + c
    ensures BeValue([a, b, c]) == (a as int * 0x100 + b) * 0x100 + c
  {
    assert [a][..0] == [];
    assert BeValue([a]) == a;
    assert [b][..0] == [];
    assert BeValue([b]) == b;
    assert [b, c][..1] == [b];
    assert [a, b][..1] == [a];
    assert BeValue([a, b]) == a as int * 0x100 + b;
    assert [a, b, c][..2] == [a, b];
  }

  /** The `n`-byte big-endian encoding of `x`; bytes above the `n`-th are dropped. */
  function BeBytes(x: nat, n: nat): (bs: seq<Byte>)
    ensures |bs| == n
  {
    if n == 0 then [] else BeBytes(x / 0x100, n - 1) + [x % 0x100]
  }

  /** An `n`-byte string denotes a value below 256^n. */
  lemma {:induction false} BeValueBound(bs: seq<Byte>)
    ensures BeValue(bs) < Pow256(|bs|)
  {
    if bs != [] {
      BeValueBound(bs[..|bs| - 1]);
    }
  }

  /** Encoding a value that fits in `n` bytes and decoding it gives the value back. */
  lemma {:induction false} BeValueOfBytes(x: nat, n: nat)
    requires x < Pow256(n)
    ensures BeValue(BeBytes(x, n)) == x
  {
    if n > 0 {
      var bs := BeBytes(x, n);
      assert bs[..n - 1] == BeBytes(x / 0x100, n - 1);
      BeValueOfBytes(x / 0x100, n - 1);
    }
  }

  /** Decoding a byte string and encoding it at the same width gives it back. */
  lemma {:induction false} BeBytesOfValue(bs: seq<Byte>)
    ensures BeBytes(BeValue(bs), |bs|) == bs
  {
    if bs != [] {
      var init := bs[..|bs| - 1];
      BeBytesOfValue(init);
      var v := BeValue(bs);
      assert v / 0x100 == BeValue(init);
      assert v % 0x100 == bs[|bs| - 1];
      assert bs == init + [bs[|bs| - 1]];
    }
  }

  /** The low two bytes of a number, reassembled, are the number modulo 2^16. */
  lemma LowTwoBytes(a: nat)
    ensures ((a / 0x100) % 0x100) * 0x100 + a % 0x100 == a % 0x1_0000
  {
  }

  lemma LowThreeBytesSplit(a: nat)
    ensures ((a / 0x100) % 0x1_0000) * 0x100 + a % 0x100 == a % 0x100_0000
  {
  }

  /** The low three bytes of a number, reassembled, are the number modulo 2^24. */
  lemma LowThreeBytes(a: nat)
    ensures (((a / 0x1_0000) % 0x100) * 0x100 + (a / 0x100) % 0x100) * 0x100 + a % 0x100 == a % 0x100_0000
  {
    var q := a / 0x100;
    LowTwoBytes(q);
    assert a / 0x1_0000 == q / 0x100;
    LowThreeBytesSplit(a);
  }

  /** `u32::to_be_bytes`: the four bytes of `w`, most significant first. */
  function ToBeBytes(w: Word): (bs: seq<Byte>)
    ensures |bs| == 4
    ensures BeValue(bs) == w
  {
    var bs := [w / 0x100_0000, (w / 0x1_0000) % 0x100, (w / 0x100) % 0x100, w % 0x100];
    assert BeValue(bs) == w by {
      assert bs[..1][..0] == [] && bs[..2][..1] == bs[..1] && bs[..3][..2] == bs[..2] && bs[..4][..3] == bs[..3];
      var q := w / 0x100;
      assert BeValue(bs[..1]) == q / 0x1_0000;
      assert BeValue(bs[..2]) == q / 0x100;
      assert BeValue(bs[..3]) == q;
      assert bs[..4] == bs;
    }
    bs
  }

  /** `u32::to_be_bytes` is the four-byte big-endian encoding. */
  lemma ToBeBytesIsBeBytes(w: Word)
    ensures ToBeBytes(w) == BeBytes(w, 4)
  {
    BeBytesOfValue(ToBeBytes(w));
  }

  /** `u8::set_bit(0, v)`: bit 0 becomes `v`, bits 1..7 are kept. */
  function SetBit0(b: Byte, v: bool): (r: Byte)
    ensures r % 2 == (if v then 1 else 0)
    ensures r / 2 == b / 2
  {
    b - b % 2 + (if v then 1 else 0)
  }

  /** `u8::get_bits(6..8)`: the two most significant bits, as a number 0..3. */
  function TopTwoBits(b: Byte): (r: nat)
    ensures r < 4
    ensures r * 0x40 <= b < r * 0x40 + 0x40
  {
    b / 0x40
  }
}
