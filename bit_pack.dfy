/** The bit packing of `bool_t_to_base64` in src/main.c: an array of 0/1
    flags becomes one byte per eight flags, the first flag of each group in
    the most significant bit. The base64 text that the C function finally
    returns is not part of this model; its input, the packed bytes, is. */
module BitPack {
  import opened Types

  function Bit(b: bool): nat {
    if b then 1 else 0
  }

  function Pow2(n: nat): (p: nat)
    ensures p > 0
  {
    if n == 0 then 1 else 2 * Pow2(n - 1)
  }

  /** The number whose binary digits, most significant first, are `bits`. */
  function BitsValue(bits: seq<bool>): (v: nat)
    ensures v < Pow2(|bits|)
  {
    if |bits| == 0 then 0 else 2 * BitsValue(bits[..|bits| - 1]) + Bit(bits[|bits| - 1])
  }

  /** Binary digit `j` of `v`, counting from the least significant. */
  function BitAt(v: nat, j: nat): bool {
    if j == 0 then v % 2 == 1 else BitAt(v / 2, j - 1)
  }

  /** The low `n` binary digits of `v`, most significant first. */
  function ToBits(v: nat, n: nat): (bits: seq<bool>)
    ensures |bits| == n
  {
    if n == 0 then [] else ToBits(v / 2, n - 1) + [v % 2 == 1]
  }

  /** Eight flags as one byte, the first flag in bit 7. */
  function PackByte(group: seq<bool>): u8
    requires |group| == 8
  {
    assert Pow2(8) == 0x100;
    BitsValue(group)
  }

  /** The bytes `bool_t_to_base64` builds from `src` before encoding them. */
  function Pack(src: seq<bool>): (r: seq<u8>)
    requires |src| % 8 == 0
    ensures |r| == |src| / 8
  {
    seq(|src| / 8, i requires 0 <= i < |src| / 8 => PackByte(src[8 * i..8 * i + 8]))
  }

  /** The flags a packed byte sequence stands for, eight per byte. */
  function Unpack(bytes: seq<u8>): (bits: seq<bool>)
    ensures |bits| == 8 * |bytes|
  {
    if |bytes| == 0 then [] else Unpack(bytes[..|bytes| - 1]) + ToBits(bytes[|bytes| - 1], 8)
  }

  // ---------------------------------------------------------------------
  // Arithmetic.

  lemma Pow2Monotone(a: nat, b: nat)
    requires a <= b
    ensures Pow2(a) <= Pow2(b)
  {
    if a < b {
      Pow2Monotone(a, b - 1);
    }
  }

  // ---------------------------------------------------------------------
  // Bits and values.

  /** A flag put in front of `bits` weighs `2^|bits|`. */
  lemma {:induction false} BitsValuePrepend(b: bool, bits: seq<bool>)
    ensures BitsValue([b] + bits) == Bit(b) * Pow2(|bits|) + BitsValue(bits)
  {
    if |bits| > 0 {
      var n := |bits| - 1;
      assert ([b] + bits)[..n + 1] == [b] + bits[..n];
      assert ([b] + bits)[n + 1] == bits[n];
      BitsValuePrepend(b, bits[..n]);
    }
  }

  /** Reading back the `n` digits of a value below `2^n` gives the value. */
  lemma {:induction false} ValueOfBits(v: nat, n: nat)
    requires v < Pow2(n)
    ensures BitsValue(ToBits(v, n)) == v
  {
    if n > 0 {
      var bits := ToBits(v, n);
      assert bits[..n - 1] == ToBits(v / 2, n - 1);
      ValueOfBits(v / 2, n - 1);
    }
  }

  /** Writing out the digits of a value read from `bits` gives `bits` back. */
  lemma {:induction false} BitsOfValue(bits: seq<bool>)
    ensures ToBits(BitsValue(bits), |bits|) == bits
  {
    if |bits| > 0 {
      var n := |bits| - 1;
      var v, init := BitsValue(bits), bits[..n];
      assert v == 2 * BitsValue(init) + Bit(bits[n]);
      assert v / 2 == BitsValue(init) && (v % 2 == 1) == bits[n];
      assert ToBits(v, n + 1) == ToBits(BitsValue(init), n) + [bits[n]];
      BitsOfValue(init);
      assert bits == init + [bits[n]];
    }
  }

  /** Bit `j` of the value of `bits` is the flag `j` places from the end. */
  lemma {:induction false} BitOfValue(bits: seq<bool>, j: nat)
    requires j < |bits|
    ensures BitAt(BitsValue(bits), j) == bits[|bits| - 1 - j]
  {
    var n := |bits| - 1;
    var v, init := BitsValue(bits), bits[..n];
    assert v == 2 * BitsValue(init) + Bit(bits[n]);
    if j == 0 {
      assert v % 2 == Bit(bits[n]);
    } else {
      assert v / 2 == BitsValue(init);
      BitOfValue(init, j - 1);
      assert init[|init| - 1 - (j - 1)] == bits[n - j];
    }
  }

  // ---------------------------------------------------------------------
  // Packing and unpacking.

  /** Packing a sequence with one more group of eight appends one byte. */
  lemma PackSnoc(src: seq<bool>, group: seq<bool>)
    requires |src| % 8 == 0 && |group| == 8
    ensures Pack(src + group) == Pack(src) + [PackByte(group)]
  {
    var n := |src| / 8;
    var all := src + group;
    forall i | 0 <= i < n ensures Pack(all)[i] == Pack(src)[i] {
      assert all[8 * i..8 * i + 8] == src[8 * i..8 * i + 8];
    }
    assert all[8 * n..8 * n + 8] == group;
  }

  /** Bit `j` of packed byte `i` is flag `8i + 7 - j`: flag `8i` is the most significant. */
  lemma PackedBit(src: seq<bool>, i: nat, j: nat)
    requires |src| % 8 == 0 && i < |src| / 8 && j < 8
    ensures |Pack(src)| == |src| / 8
    ensures BitAt(Pack(src)[i], j) == src[8 * i + 7 - j]
  {
    var group := src[8 * i..8 * i + 8];
    BitOfValue(group, j);
    assert group[7 - j] == src[8 * i + 7 - j];
  }

  /** Packing loses nothing: the packed bytes unpack to the flags. */
  lemma {:induction false} UnpackPack(src: seq<bool>)
    requires |src| % 8 == 0
    ensures Unpack(Pack(src)) == src
  {
    if |src| > 0 {
      var m := |src| - 8;
      var init, group := src[..m], src[m..];
      assert src == init + group;
      PackSnoc(init, group);
      assert Pack(src)[..|Pack(src)| - 1] == Pack(init);
      UnpackPack(init);
      BitsOfValue(group);
    }
  }

  /** Every byte sequence is the packing of its own flags. */
  lemma {:induction false} PackUnpack(bytes: seq<u8>)
    ensures |Unpack(bytes)| % 8 == 0 && Pack(Unpack(bytes)) == bytes
  {
    if |bytes| > 0 {
      var n := |bytes| - 1;
      var group := ToBits(bytes[n], 8);
      PackUnpack(bytes[..n]);
      PackSnoc(Unpack(bytes[..n]), group);
      ValueOfBits(bytes[n], 8);
      assert bytes == bytes[..n] + [bytes[n]];
    }
  }

  // ---------------------------------------------------------------------
  // bool_t_to_base64

  /** A flag put in front of fewer than eight flags still fits in a byte. */
  lemma PrependInByte(b: bool, low: seq<bool>)
    requires |low| < 8
    ensures BitsValue([b] + low) == Bit(b) * Pow2(|low|) + BitsValue(low)
    ensures BitsValue([b] + low) < 0x100
  {
    BitsValuePrepend(b, low);
    assert |[b] + low| == |low| + 1;
    Pow2Monotone(|low| + 1, 8);
    assert Pow2(8) == 0x100;
  }

  /** One step of the inner loop of `bool_t_to_base64`: flag `8i + 7 - j`
      lands in bit `j`, above the bits already placed. */
  lemma GroupStep(src: seq<bool>, i: nat, j: nat)
    requires 8 * i + 8 <= |src| && j < 8
    ensures BitsValue(src[8 * i + 7 - j..8 * i + 8])
         == BitsValue(src[8 * i + 8 - j..8 * i + 8]) + Bit(src[8 * i + 7 - j]) * Pow2(j)
    ensures BitsValue(src[8 * i + 7 - j..8 * i + 8]) < 0x100
  {
    var low := src[8 * i + 8 - j..8 * i + 8];
    assert |low| == j;
    assert src[8 * i + 7 - j..8 * i + 8] == [src[8 * i + 7 - j]] + low;
    PrependInByte(src[8 * i + 7 - j], low);
  }

  /** `bool_t_to_base64` up to the encoding step: no output for a length
      that is not a multiple of eight, otherwise the bytes built by the
      nested loop, which ORs flag `8i + 7 - j` into bit `j` of byte `i`. */
  method PackBits(src: seq<bool>) returns (packed: Option<seq<u8>>)
    ensures |src| % 8 != 0 ==> packed == None
    ensures |src| % 8 == 0 ==> packed == Some(Pack(src))
  {
    if |src| % 8 != 0 {
      return None;
    }
    var newLen := |src| / 8;
    var newArr := new u8[newLen];
    for i := 0 to newLen
      invariant forall k :: 0 <= k < i ==> newArr[k] == PackByte(src[8 * k..8 * k + 8])
    {
      newArr[i] := 0;
      for j := 0 to 8
        invariant forall k :: 0 <= k < i ==> newArr[k] == PackByte(src[8 * k..8 * k + 8])
        invariant newArr[i] == BitsValue(src[8 * i + 8 - j..8 * i + 8])
      {
        // Bits `j` and above of `newArr[i]` are still clear, so the OR adds.
        GroupStep(src, i, j);
        newArr[i] := newArr[i] + Bit(src[8 * i + 7 - j]) * Pow2(j);
      }
    }
    assert newArr[..] == Pack(src);
    return Some(newArr[..]);
  }
}
