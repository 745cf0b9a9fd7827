/**
 * 68k architecture capability flags, as in GNU binutils: one bit per CPU variant or feature,
 * classic 680x0 flags in bits 0..9 and ColdFire flags in bits 10..18, and derived unions.
 */
module Arch {
  const M68000: bv32 := 0x001
  const M68010: bv32 := 0x002
  const M68020: bv32 := 0x004
  const M68030: bv32 := 0x008
  const M68040: bv32 := 0x010
  const M68060: bv32 := 0x020
  const M68881: bv32 := 0x040
  const M68851: bv32 := 0x080
  const CPU32: bv32 := 0x100
  const FIDO_A: bv32 := 0x200
  const M68K_MASK: bv32 := 0x3ff
  const MCFMAC: bv32 := 0x400
  const MCFEMAC: bv32 := 0x800
  const CFLOAT: bv32 := 0x1000
  const MCFHWDIV: bv32 := 0x2000
  const MCFISA_A: bv32 := 0x4000
  const MCFISA_AA: bv32 := 0x8000
  const MCFISA_B: bv32 := 0x10000
  const MCFISA_C: bv32 := 0x20000
  const MCFUSP: bv32 := 0x40000
  const MCF_MASK: bv32 := 0x7e400

  // Handy aliases: "this variant or any later one".
  const M68040UP: bv32 := M68040 | M68060
  const M68030UP: bv32 := M68030 | M68040UP
  const M68020UP: bv32 := M68020 | M68030UP
  const M68010UP: bv32 := M68010 | CPU32 | FIDO_A | M68020UP
  const M68000UP: bv32 := M68000 | M68010UP
  const MFLOAT: bv32 := M68881 | M68040 | M68060
  const MMMU: bv32 := M68851 | M68030 | M68040 | M68060

  /** The base flags in declaration order, M68000 through MCFUSP. */
  const BaseFlags: seq<bv32> := [M68000, M68010, M68020, M68030, M68040, M68060, M68881, M68851, CPU32,
                                 FIDO_A, MCFMAC, MCFEMAC, CFLOAT, MCFHWDIV, MCFISA_A, MCFISA_AA, MCFISA_B,
                                 MCFISA_C, MCFUSP]

  /** The classic 680x0 flags, M68000 through FIDO_A. */
  const ClassicFlags: seq<bv32> := BaseFlags[..10]

  /** Every flag `a` has is also in `b`. */
  predicate Within(a: bv32, b: bv32) {
    a & b == a
  }

  /** Bitwise OR of a list of flags. */
  function Union(flags: seq<bv32>): (u: bv32)
    ensures forall i :: 0 <= i < |flags| ==> Within(flags[i], u)
  {
    if flags == [] then 0 else flags[0] | Union(flags[1..])
  }

  /** Flag `i` of the declaration list is bit `i`: each base flag is its own power of two. */
  lemma BaseFlagsAreSuccessiveBits(i: nat)
    requires i < |BaseFlags|
    ensures BaseFlags[i] == 1 << i
  {
  }

  /** Distinct base flags share no bit. */
  lemma BaseFlagsDisjoint(i: nat, j: nat)
    requires i < |BaseFlags| && j < |BaseFlags| && i != j
    ensures BaseFlags[i] & BaseFlags[j] == 0
  {
    BaseFlagsAreSuccessiveBits(i);
    BaseFlagsAreSuccessiveBits(j);
  }

  lemma UnionStep(flags: seq<bv32>, i: nat)
    requires i < |flags|
    ensures Union(flags[i..]) == flags[i] | Union(flags[i + 1..])
  {
    assert flags[i..][1..] == flags[i + 1..];
  }

  /** The two namespace masks are disjoint; EMAC and the ColdFire FPU lie outside the ColdFire mask. */
  lemma NamespaceMasksDisjoint()
    ensures M68K_MASK & MCF_MASK == 0
    ensures MCFEMAC & MCF_MASK == 0 && CFLOAT & MCF_MASK == 0
  {
  }

  /** The classic mask is exactly the union of the ten classic flags. */
  lemma ClassicMaskIsUnion()
    ensures M68K_MASK == Union(ClassicFlags)
  {
    var cf := ClassicFlags;
    assert cf == [M68000, M68010, M68020, M68030, M68040, M68060, M68881, M68851, CPU32, FIDO_A];
    assert cf[10..] == [];
    UnionStep(cf, 9);
    assert Union(cf[9..]) == 0x200;
    UnionStep(cf, 8);
    UnionStep(cf, 7);
    UnionStep(cf, 6);
    assert Union(cf[6..]) == 0x3C0;
    UnionStep(cf, 5);
    UnionStep(cf, 4);
    UnionStep(cf, 3);
    assert Union(cf[3..]) == 0x3F8;
    UnionStep(cf, 2);
    UnionStep(cf, 1);
    UnionStep(cf, 0);
    assert cf[0..] == cf;
  }

  /** The ColdFire mask is exactly MAC, HWDIV, ISA_A, ISA_A+, ISA_B, ISA_C and USP. */
  lemma ColdFireMaskIsUnion()
    ensures MCF_MASK == Union([MCFMAC, MCFHWDIV, MCFISA_A, MCFISA_AA, MCFISA_B, MCFISA_C, MCFUSP])
  {
    var mcf := [MCFMAC, MCFHWDIV, MCFISA_A, MCFISA_AA, MCFISA_B, MCFISA_C, MCFUSP];
    assert mcf[7..] == [];
    UnionStep(mcf, 6);
    UnionStep(mcf, 5);
    UnionStep(mcf, 4);
    assert Union(mcf[4..]) == 0x70000;
    UnionStep(mcf, 3);
    UnionStep(mcf, 2);
    UnionStep(mcf, 1);
    UnionStep(mcf, 0);
    assert mcf[0..] == mcf;
  }

  /** Every classic flag lies in the classic mask and outside the ColdFire mask. */
  lemma ClassicFlagsInMask(i: nat)
    requires i < |ClassicFlags|
    ensures Within(ClassicFlags[i], M68K_MASK)
    ensures ClassicFlags[i] & MCF_MASK == 0
  {
  }

  /** The "or later" aliases nest: 68000UP ⊇ 68010UP ⊇ 68020UP ⊇ 68030UP ⊇ 68040UP. */
  lemma SupersetChain()
    ensures Within(M68040UP, M68030UP)
    ensures Within(M68030UP, M68020UP)
    ensures Within(M68020UP, M68010UP)
    ensures Within(M68010UP, M68000UP)
  {
  }

  /** 68000UP is the whole classic namespace except the 68881 FPU and 68851 MMU coprocessors. */
  lemma M68000UpValue()
    ensures M68000UP == 0x33F
    ensures M68000UP == M68K_MASK & !(M68881 | M68851)
  {
  }

  /** 68000UP intersects the 68040 flag and is disjoint from ColdFire ISA_B. */
  lemma UnionMembership()
    ensures M68000UP & M68040 != 0
    ensures MCFISA_B & M68000UP == 0
  {
  }

  /** The FPU and MMU aliases are nonempty classic sets. */
  lemma CoprocessorAliases()
    ensures MFLOAT != 0 && Within(MFLOAT, M68K_MASK)
    ensures MMMU != 0 && Within(MMMU, M68K_MASK)
  {
  }
}
