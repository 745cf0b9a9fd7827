/**
 * A Sega Genesis / Mega Drive ROM image and its cartridge header: fixed-offset text fields,
 * the stored 16-bit checksum, the four 32-bit address fields, and the checksum test over
 * the program area that starts at 0x200.
 */
module Rom {
  import opened Ints
  import opened RomFmt

  datatype Option<T> = None | Some(value: T)

  /** Byte `k` of `b` holds base-256 digit `|b| - 1 - k`: the big-endian reading of a byte string. */
  function FromBeBytes(b: seq<u8>): (n: nat)
    ensures n < Pow256(|b|)
  {
    if b == [] then 0 else FromBeBytes(b[..|b| - 1]) * 0x100 + b[|b| - 1] as int
  }

  function Pow256(width: nat): (p: nat)
    ensures p >= 1
  {
    if width == 0 then 1 else 0x100 * Pow256(width - 1)
  }

  /** The big-endian encoding of `n` in `width` bytes; the inverse of `FromBeBytes`. */
  function ToBeBytes(n: nat, width: nat): (b: seq<u8>)
    requires n < Pow256(width)
    ensures |b| == width
  {
    if width == 0 then [] else ToBeBytes(n / 0x100, width - 1) + [(n % 0x100) as u8]
  }

  lemma {:induction false} FromToBeBytes(n: nat, width: nat)
    requires n < Pow256(width)
    ensures FromBeBytes(ToBeBytes(n, width)) == n
  {
    if width > 0 {
      var b := ToBeBytes(n, width);
      assert b[..width - 1] == ToBeBytes(n / 0x100, width - 1);
      FromToBeBytes(n / 0x100, width - 1);
    }
  }

  lemma {:induction false} ToFromBeBytes(b: seq<u8>)
    ensures ToBeBytes(FromBeBytes(b), |b|) == b
  {
    if b != [] {
      var n := FromBeBytes(b);
      var front := b[..|b| - 1];
      assert n / 0x100 == FromBeBytes(front);
      assert n % 0x100 == b[|b| - 1] as int;
      ToFromBeBytes(front);
      assert b == front + [b[|b| - 1]];
    }
  }

  /** `u32::from_be_bytes` on a four-byte slice. */
  function U32FromBeBytes(b: seq<u8>): (n: u32)
    requires |b| == 4
    ensures n as int == b[0] as int * 0x100_0000 + b[1] as int * 0x1_0000 + b[2] as int * 0x100 + b[3] as int
    ensures n as int == FromBeBytes(b)
  {
    assert FromBeBytes(b[..1]) == b[0] as int by { assert b[..1][..0] == []; }
    assert FromBeBytes(b[..2]) == FromBeBytes(b[..1]) * 0x100 + b[1] as int by { assert b[..2][..1] == b[..1]; }
    assert FromBeBytes(b[..3]) == FromBeBytes(b[..2]) * 0x100 + b[2] as int by { assert b[..3][..2] == b[..2]; }
    assert FromBeBytes(b) == FromBeBytes(b[..3]) * 0x100 + b[3] as int;
    FromBeBytes(b) as u32
  }

  /** The 16-bit big-endian word stored at `data[i]`, `data[i + 1]`. */
  function BeWord(data: seq<u8>, i: nat): (w: nat)
    requires i + 1 < |data|
  {
    data[i] as int * 0x100 + data[i + 1] as int
  }

  /** Sum, without wrap-around, of the big-endian words at even offsets `lo, lo + 2, ...` below `hi`. */
  function WordSum(data: seq<u8>, lo: nat, hi: nat): nat
    requires lo <= hi && (hi - lo) % 2 == 0 && (hi == lo || hi <= |data|)
    decreases hi - lo
  {
    if hi == lo then 0 else WordSum(data, lo, hi - 2) + BeWord(data, hi - 2)
  }

  /** Offset of the program area that the checksum covers. */
  const CHECKSUM_START: nat := 0x200

  datatype Rom = Rom(data: seq<u8>, format: Format) {

    /** Console name, 16 bytes at 0x100. */
    function Console(): (s: seq<u8>)
      requires |data| >= 0x110
      ensures |s| == 16 && forall k :: 0 <= k < 16 ==> s[k] == data[0x100 + k]
    {
      data[0x100..0x110]
    }

    /** Copyright line, 16 bytes at 0x110. */
    function Copyright(): (s: seq<u8>)
      requires |data| >= 0x120
      ensures |s| == 16 && forall k :: 0 <= k < 16 ==> s[k] == data[0x110 + k]
    {
      data[0x110..0x120]
    }

    /** Domestic title, 48 bytes at 0x120. */
    function Title(): (s: seq<u8>)
      requires |data| >= 0x150
      ensures |s| == 48 && forall k :: 0 <= k < 48 ==> s[k] == data[0x120 + k]
    {
      data[0x120..0x150]
    }

    /** Overseas title, 48 bytes at 0x150. */
    function NameOverseas(): (s: seq<u8>)
      requires |data| >= 0x180
      ensures |s| == 48 && forall k :: 0 <= k < 48 ==> s[k] == data[0x150 + k]
    {
      data[0x150..0x180]
    }

    /** Product type, 2 bytes at 0x180. */
    function ProductType(): (s: seq<u8>)
      requires |data| >= 0x182
      ensures |s| == 2 && forall k :: 0 <= k < 2 ==> s[k] == data[0x180 + k]
    {
      data[0x180..0x182]
    }

    /** Product code, 12 bytes at 0x182. */
    function ProductCode(): (s: seq<u8>)
      requires |data| >= 0x18E
      ensures |s| == 12 && forall k :: 0 <= k < 12 ==> s[k] == data[0x182 + k]
    {
      data[0x182..0x18E]
    }

    /** The stored checksum: high byte at 0x18E shifted up by 8, then the low byte at 0x18F added. */
    function Checksum(): (c: u16)
      requires |data| >= 0x190
      ensures c as int == BeWord(data, 0x18E)
    {
      var chk := ShlU16(data[0x18E] as u16, 8);
      chk + data[0x18F] as u16
    }

    /** ROM start address, big-endian u32 at 0x1A0. */
    function Start(): (a: nat)
      requires |data| >= 0x1A4
      ensures a < 0x1_0000_0000
      ensures a == data[0x1A0] as int * 0x100_0000 + data[0x1A1] as int * 0x1_0000
                 + data[0x1A2] as int * 0x100 + data[0x1A3] as int
    {
      U32FromBeBytes(data[0x1A0..0x1A4]) as nat
    }

    /** ROM end address, big-endian u32 at 0x1A4. */
    function End(): (a: nat)
      requires |data| >= 0x1A8
      ensures a < 0x1_0000_0000
      ensures a == data[0x1A4] as int * 0x100_0000 + data[0x1A5] as int * 0x1_0000
                 + data[0x1A6] as int * 0x100 + data[0x1A7] as int
    {
      U32FromBeBytes(data[0x1A4..0x1A8]) as nat
    }

    /** RAM start address, big-endian u32 at 0x1A8. */
    function RamStart(): (a: nat)
      requires |data| >= 0x1AC
      ensures a < 0x1_0000_0000
      ensures a == data[0x1A8] as int * 0x100_0000 + data[0x1A9] as int * 0x1_0000
                 + data[0x1AA] as int * 0x100 + data[0x1AB] as int
    {
      U32FromBeBytes(data[0x1A8..0x1AC]) as nat
    }

    /** RAM end address, big-endian u32 at 0x1AC. */
    function RamEnd(): (a: nat)
      requires |data| >= 0x1B0
      ensures a < 0x1_0000_0000
      ensures a == data[0x1AC] as int * 0x100_0000 + data[0x1AD] as int * 0x1_0000
                 + data[0x1AE] as int * 0x100 + data[0x1AF] as int
    {
      U32FromBeBytes(data[0x1AC..0x1B0]) as nat
    }

    /**
     * What `valid_checksum` can run on without panicking: the header word at 0x18E exists, and
     * the word loop, which reads `data[i + 1]` for every even offset `i` from 0x200 below the
     * length, stays in bounds.
     */
    predicate ChecksumReadable() {
      |data| >= 0x190 && (|data| <= CHECKSUM_START || |data| % 2 == 0)
    }

    /** One past the last offset the checksum loop visits. */
    function SumEnd(): nat {
      if |data| <= CHECKSUM_START then CHECKSUM_START else |data|
    }

    /** The header checksum agrees with the sum, modulo 2^16, of all words of the program area. */
    predicate ChecksumMatches()
      requires ChecksumReadable()
    {
      WordSum(data, CHECKSUM_START, SumEnd()) % U16_MODULUS == Checksum() as int
    }

    /** `valid_checksum`: add up the program area word by word in a wrapping u16 and compare. */
    method ValidChecksum() returns (ok: bool)
      requires ChecksumReadable()
      ensures ok <==> ChecksumMatches()
    {
      var sum: u16 := 0;
      var i: nat := CHECKSUM_START;
      while i < |data|
        invariant CHECKSUM_START <= i && (i - CHECKSUM_START) % 2 == 0
        invariant i == CHECKSUM_START || i <= |data|
        invariant sum as int == WordSum(data, CHECKSUM_START, i) % U16_MODULUS
        decreases |data| - i
      {
        var result := ShlU16(data[i] as u16, 8);
        var word := result + data[i + 1] as u16;
        assert word as int == BeWord(data, i);
        sum := WrappingAddU16(sum, word);
        i := i + 2;
      }
      ok := sum == Checksum();
    }
  }

  /** The six text fields sit side by side, without gaps or overlap, and cover 0x100..0x18E. */
  lemma HeaderTextTiles(rom: Rom)
    requires |rom.data| >= 0x18E
    ensures rom.Console() + rom.Copyright() + rom.Title() + rom.NameOverseas()
            + rom.ProductType() + rom.ProductCode() == rom.data[0x100..0x18E]
  {
    var d := rom.data;
    assert d[0x100..0x18E] == d[0x100..0x110] + d[0x110..0x120] + d[0x120..0x150]
                              + d[0x150..0x180] + d[0x180..0x182] + d[0x182..0x18E];
  }

  /** The stored checksum is the big-endian reading of bytes 0x18E..0x190, and they are its encoding. */
  lemma ChecksumBytes(rom: Rom)
    requires |rom.data| >= 0x190
    ensures rom.Checksum() as int == FromBeBytes(rom.data[0x18E..0x190])
    ensures rom.data[0x18E..0x190] == ToBeBytes(rom.Checksum() as int, 2)
  {
    var b := rom.data[0x18E..0x190];
    assert b[..1][..0] == [];
    ToFromBeBytes(b);
  }

  /** The four address fields are the big-endian encodings of what the accessors return. */
  lemma AddressBytes(rom: Rom)
    requires |rom.data| >= 0x1B0
    ensures rom.data[0x1A0..0x1A4] == ToBeBytes(rom.Start(), 4)
    ensures rom.data[0x1A4..0x1A8] == ToBeBytes(rom.End(), 4)
    ensures rom.data[0x1A8..0x1AC] == ToBeBytes(rom.RamStart(), 4)
    ensures rom.data[0x1AC..0x1B0] == ToBeBytes(rom.RamEnd(), 4)
  {
    ToFromBeBytes(rom.data[0x1A0..0x1A4]);
    ToFromBeBytes(rom.data[0x1A4..0x1A8]);
    ToFromBeBytes(rom.data[0x1A8..0x1AC]);
    ToFromBeBytes(rom.data[0x1AC..0x1B0]);
  }

  /** A ROM no longer than 0x200 bytes has an empty program area: its sum is 0. */
  lemma SmallRomChecksum(rom: Rom)
    requires rom.ChecksumReadable() && |rom.data| <= CHECKSUM_START
    ensures rom.ChecksumMatches() <==> rom.Checksum() == 0
  {
  }

  /**
   * An odd length above 0x200 is outside what the loop can run on: the offset `|data| - 1` is
   * visited, and the low byte it reads, `data[|data|]`, is past the end.
   */
  lemma OddLengthOverrun(data: seq<u8>)
    requires |data| > CHECKSUM_START && |data| % 2 == 1
    ensures var i := |data| - 1; CHECKSUM_START <= i < |data| && (i - CHECKSUM_START) % 2 == 0 && i + 1 == |data|
    ensures !Rom(data, Bin).ChecksumReadable()
  {
  }

  /** The word sum over `lo..hi` depends on the bytes in `lo..hi` and on nothing else. */
  lemma {:induction false} WordSumFrame(d1: seq<u8>, d2: seq<u8>, lo: nat, hi: nat)
    requires lo <= hi && (hi - lo) % 2 == 0 && (hi == lo || (hi <= |d1| && hi <= |d2|))
    requires forall k :: lo <= k < hi ==> d1[k] == d2[k]
    ensures WordSum(d1, lo, hi) == WordSum(d2, lo, hi)
    decreases hi - lo
  {
    if hi != lo {
      WordSumFrame(d1, d2, lo, hi - 2);
    }
  }

  /**
   * Validity depends only on the stored checksum bytes and on the program area: the container tag,
   * the text fields, the addresses and everything else below 0x200 can change freely.
   */
  lemma ChecksumIgnoresHeader(r1: Rom, r2: Rom)
    requires r1.ChecksumReadable() && |r1.data| == |r2.data|
    requires r1.data[0x18E..0x190] == r2.data[0x18E..0x190]
    requires forall k :: CHECKSUM_START <= k < |r1.data| ==> r1.data[k] == r2.data[k]
    ensures r2.ChecksumReadable()
    ensures r1.ChecksumMatches() <==> r2.ChecksumMatches()
  {
    WordSumFrame(r1.data, r2.data, CHECKSUM_START, r1.SumEnd());
    assert r1.data[0x18E] == r1.data[0x18E..0x190][0];
    assert r1.data[0x18F] == r1.data[0x18E..0x190][1];
  }

  /** Padding an even-length image past 0x200 with a zero word keeps its checksum verdict. */
  lemma ZeroPaddingKeepsVerdict(rom: Rom)
    requires rom.ChecksumReadable() && |rom.data| >= CHECKSUM_START && |rom.data| % 2 == 0
    ensures Rom(rom.data + [0, 0], rom.format).ChecksumReadable()
    ensures Rom(rom.data + [0, 0], rom.format).ChecksumMatches() <==> rom.ChecksumMatches()
  {
    var padded := rom.data + [0, 0];
    WordSumFrame(rom.data, padded, CHECKSUM_START, |rom.data|);
    assert WordSum(padded, CHECKSUM_START, |padded|) == WordSum(padded, CHECKSUM_START, |rom.data|);
  }

  /** `load_from_file`'s choice of container from the file extension: whatever `from_str` accepts. */
  function FormatOfExtension(ext: string): (r: Option<Format>)
    ensures forall f: Format :: r == Some(f) <==> Display(f) == ext
  {
    match FromStr(ext)
    case Ok(f) => DisplayParse(ext, f); Some(f)
    case Err(_) => None
  }
}
