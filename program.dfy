/** The ROM loader of src/program.c: the base64 text of the ROM image is
    decoded and every pair of bytes becomes one 12-bit instruction word,
    the low nibble of the first byte on top of the second byte. The base64
    decoder is a library the loader calls; here it is a parameter. */
module Program {
  import opened Types

  /** One instruction word from a byte pair. */
  function Word(hi: u8, lo: u8): (w: u16)
    ensures w < 0x1000
    ensures w / 0x100 == hi % 0x10 && w % 0x100 == lo
  {
    lo + (hi % 0x10) * 0x100
  }

  /** The words `program_load_b64` builds from the decoded ROM bytes. */
  function Repack(rom: seq<u8>): (words: seq<u16>)
    ensures |words| == |rom| / 2
    ensures forall i :: 0 <= i < |words| ==> words[i] < 0x1000
    ensures forall i :: 0 <= i < |words| ==>
      words[i] / 0x100 == rom[2 * i] % 0x10 && words[i] % 0x100 == rom[2 * i + 1]
  {
    seq(|rom| / 2, i requires 0 <= i < |rom| / 2 => Word(rom[2 * i], rom[2 * i + 1]))
  }

  /** The bytes a ROM image of 12-bit words is stored as: the high nibble,
      then the low byte. */
  function Unrepack(words: seq<u16>): (rom: seq<u8>)
    requires forall i :: 0 <= i < |words| ==> words[i] < 0x1000
    ensures |rom| == 2 * |words|
  {
    seq(2 * |words|, k requires 0 <= k < 2 * |words| =>
      if k % 2 == 0 then words[k / 2] / 0x100 else words[k / 2] % 0x100)
  }

  /** The part of a ROM image that the words depend on: whole byte pairs,
      with the unused upper nibble of every first byte cleared. */
  function Significant(rom: seq<u8>): (bytes: seq<u8>)
    ensures |bytes| == 2 * (|rom| / 2)
  {
    seq(2 * (|rom| / 2), k requires 0 <= k < 2 * (|rom| / 2) =>
      if k % 2 == 0 then rom[k] % 0x10 else rom[k])
  }

  /** The range of the loader's `uint32_t` size and index. */
  const U32_RANGE: nat := 0x1_0000_0000

  /** Byte indices `2 * i` and `2 * i + 1` computed as `uint32_t`: they wrap
      around once `i` reaches 2^31, back to the pair of word `i % 2^31`. */
  lemma WrapIndex(i: nat)
    ensures (2 * i) % U32_RANGE == 2 * (i % 0x8000_0000)
    ensures (2 * i + 1) % U32_RANGE == 2 * (i % 0x8000_0000) + 1
    ensures i % 0x8000_0000 <= i && (2 * i + 1) % U32_RANGE <= 2 * i + 1
  {
    var q, r := i / 0x8000_0000, i % 0x8000_0000;
    assert i == q * 0x8000_0000 + r;
    assert 2 * i == q * U32_RANGE + 2 * r && 0 <= 2 * r + 1 < U32_RANGE;
  }

  /** Truncating to 32 bits never makes a size larger. */
  lemma TruncatedSize(n: nat)
    ensures n % U32_RANGE <= n
  {
  }

  /** The words `program_load_b64` stores for the decoded image `rom`: `*size`
      is half its length truncated to 32 bits, and word `i` is built from the
      pair at indices `2 * i` and `2 * i + 1` taken modulo 2^32. */
  function LoadedWords(rom: seq<u8>): (words: seq<u16>)
    ensures |words| == (|rom| / 2) % U32_RANGE
    ensures forall i :: 0 <= i < |words| ==> words[i] < 0x1000
  {
    var n := (|rom| / 2) % U32_RANGE;
    seq(n, i requires 0 <= i < n =>
      assert (2 * i + 1) % U32_RANGE < |rom| by {
        WrapIndex(i);
      }
      Word(rom[(2 * i) % U32_RANGE], rom[(2 * i + 1) % U32_RANGE]))
  }

  /** Word `i` of the loaded program is the repacked word `i % 2^31`: the
      wrapped indices land on that word's pair. */
  lemma LoadedWordWraps(rom: seq<u8>, i: nat)
    requires i < |LoadedWords(rom)|
    ensures i % 0x8000_0000 < |rom| / 2
    ensures LoadedWords(rom)[i] == Repack(rom)[i % 0x8000_0000]
  {
    var n := |rom| / 2;
    TruncatedSize(n);
    WrapIndex(i);
    var j, hi, lo := i % 0x8000_0000, (2 * i) % U32_RANGE, (2 * i + 1) % U32_RANGE;
    assert hi == 2 * j && lo == 2 * j + 1 && j < n;
    var w := LoadedWords(rom)[i];
    assert w == Word(rom[hi], rom[lo]);
    assert Repack(rom)[j] == Word(rom[2 * j], rom[2 * j + 1]);
  }

  /** For an image of fewer than 2^32 + 2 bytes no index wraps: the loader
      stores exactly the repacked image. */
  lemma NoWrapBelowLimit(rom: seq<u8>)
    requires |rom| / 2 <= 0x8000_0000
    ensures LoadedWords(rom) == Repack(rom)
  {
    var words, repacked := LoadedWords(rom), Repack(rom);
    assert (|rom| / 2) % U32_RANGE == |rom| / 2;
    assert |words| == |repacked|;
    forall i | 0 <= i < |words| ensures words[i] == repacked[i] {
      LoadedWordWraps(rom, i);
      assert i % 0x8000_0000 == i;
    }
  }

  /** For an image of 2^32 + 2 bytes the last word is read from bytes 0 and 1
      again, not from the last pair. */
  lemma LastWordWraps(rom: seq<u8>)
    requires |rom| == U32_RANGE + 2
    ensures |LoadedWords(rom)| == 0x8000_0001
    ensures LoadedWords(rom)[0x8000_0000] == Word(rom[0], rom[1])
  {
    assert |rom| / 2 == 0x8000_0001 && 0x8000_0001 % U32_RANGE == 0x8000_0001;
    assert 0x8000_0000 % 0x8000_0000 == 0;
    LoadedWordWraps(rom, 0x8000_0000);
    assert Repack(rom)[0] == Word(rom[0], rom[1]);
  }

  /** `program_load_b64`: no ROM text gives no program and leaves the size
      alone; otherwise the size becomes half the decoded length, truncated
      to 32 bits, and the program holds the words the 32-bit loop builds. */
  method ProgramLoadB64(romB64: Option<string>, decode: string -> seq<u8>, size: u32)
    returns (program: array?<u16>, newSize: u32)
    ensures romB64.None? ==> program == null && newSize == size
    ensures romB64.Some? ==>
      var rom := decode(romB64.value);
      newSize == (|rom| / 2) % U32_RANGE
      && program != null && fresh(program)
      && program[..] == LoadedWords(rom)
  {
    if romB64.None? {
      return null, size;
    }
    var rom := decode(romB64.value);
    newSize := (|rom| / 2) % U32_RANGE;
    program := new u16[newSize];
    for i := 0 to newSize
      invariant forall k :: 0 <= k < i ==> program[k] == LoadedWords(rom)[k]
    {
      WrapIndex(i);
      var hi, lo := (2 * i) % U32_RANGE, (2 * i + 1) % U32_RANGE;
      program[i] := rom[lo] as int + (rom[hi] as int % 0x10) * 0x100;
    }
  }

  /** Word `i` depends on bytes `2i` and `2i + 1` only: repacking a
      concatenation at an even split repacks the parts. */
  lemma RepackAppend(a: seq<u8>, b: seq<u8>)
    requires |a| % 2 == 0
    ensures Repack(a + b) == Repack(a) + Repack(b)
  {
    var ab := a + b;
    var n := |a| / 2;
    forall i | 0 <= i < |Repack(ab)|
      ensures Repack(ab)[i] == (Repack(a) + Repack(b))[i]
    {
      if i < n {
        assert ab[2 * i] == a[2 * i] && ab[2 * i + 1] == a[2 * i + 1];
      } else {
        assert ab[2 * i] == b[2 * (i - n)] && ab[2 * i + 1] == b[2 * (i - n) + 1];
      }
    }
  }

  /** A trailing odd byte is ignored. */
  lemma TrailingByteIgnored(rom: seq<u8>, extra: u8)
    requires |rom| % 2 == 0
    ensures Repack(rom + [extra]) == Repack(rom)
  {
    RepackAppend(rom, [extra]);
  }

  /** The upper nibble of the first byte of a pair has no effect. */
  lemma UpperNibbleIgnored(rom: seq<u8>, i: nat, v: u8)
    requires 2 * i < |rom| && v % 0x10 == rom[2 * i] % 0x10
    ensures Repack(rom[2 * i := v]) == Repack(rom)
  {
    var changed := rom[2 * i := v];
    forall k | 0 <= k < |rom| / 2 ensures Repack(changed)[k] == Repack(rom)[k] {
      assert changed[2 * k + 1] == rom[2 * k + 1];
    }
  }

  /** Repacking the stored form of a program gives the program back. */
  lemma RepackUnrepack(words: seq<u16>)
    requires forall i :: 0 <= i < |words| ==> words[i] < 0x1000
    ensures Repack(Unrepack(words)) == words
  {
    var rom := Unrepack(words);
    forall i | 0 <= i < |words| ensures Repack(rom)[i] == words[i] {
      assert rom[2 * i] == words[i] / 0x100 && rom[2 * i + 1] == words[i] % 0x100;
    }
  }

  /** The stored form of the repacked words is the significant part of the
      image: repacking forgets exactly the upper nibbles and a trailing byte. */
  lemma UnrepackRepack(rom: seq<u8>)
    ensures Unrepack(Repack(rom)) == Significant(rom)
  {
    var words := Repack(rom);
    forall k | 0 <= k < 2 * |words| ensures Unrepack(words)[k] == Significant(rom)[k] {
      var i := k / 2;
      if k % 2 == 0 {
        assert k == 2 * i;
      } else {
        assert k == 2 * i + 1;
      }
    }
  }
}
