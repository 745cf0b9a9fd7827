/**
 * The 68k opcode table: the `one`/`two` helpers that pack 16-bit instruction words into the
 * 32-bit pattern/mask shape of GNU binutils, the `OpCode` record, and the table of `abcd` rows.
 */
module OpCode {
  import opened Ints

  /** One instruction definition: mnemonic, operand syntax, fixed bits, significant bits, length in bytes, architectures. */
  datatype OpCode = OpCode(name: string, args: string, opcode: bv32, mask: bv32, size: u16, arch: u16)

  /** The table's own 16-bit architecture value for "68000 and later". */
  const M68KUP: u16 := 1

  /** `one`: a single opcode word in the upper half; bits shifted past bit 31 are lost. */
  function One(x: bv32): (r: bv32)
    ensures r & 0xFFFF == 0
    ensures r >> 16 == x & 0xFFFF
  {
    var r := x << 16;
    assert r & 0xFFFF == 0;
    r
  }

  /** `two`: an opcode word in the upper half plus a second word; the addition must not exceed u32. */
  function Two(x: bv32, y: bv32): (r: bv32)
    requires y <= 0xFFFF_FFFF - (x << 16)
    ensures y <= 0xFFFF ==> r == One(x) | y
  {
    (x << 16) + y
  }

  /** For a 16-bit word, `one` multiplies by 2^16 without loss. */
  lemma OneScales(x: bv32)
    requires x <= 0xFFFF
    ensures One(x) == x * 0x1_0000
    ensures One(x) >> 16 == x
  {
  }

  /** A second 16-bit word never carries into the first: `two` never overflows on two words. */
  lemma TwoDefinedOnWords(x: bv32, y: bv32)
    requires y <= 0xFFFF
    ensures y <= 0xFFFF_FFFF - (x << 16)
  {
  }

  /** For two 16-bit words, `two` has the first in its upper half and the second in its lower half. */
  lemma TwoPacksWords(x: bv32, y: bv32)
    requires x <= 0xFFFF && y <= 0xFFFF
    ensures y <= 0xFFFF_FFFF - (x << 16)
    ensures Two(x, y) >> 16 == x
    ensures Two(x, y) & 0xFFFF == y
  {
    TwoDefinedOnWords(x, y);
    var r := Two(x, y);
    assert r == One(x) | y;
  }

  /** A single 16-bit word `w` has the fixed bits `row.opcode` in the positions `row.mask` selects. */
  predicate Selects(w: bv16, row: OpCode) {
    ((w as bv32) << 16) & row.mask == row.opcode
  }

  /** No fixed bit outside the mask, and some bit significant. */
  predicate MaskConsistent(row: OpCode) {
    row.mask != 0 && row.opcode & !row.mask == 0
  }

  /** A row with a fixed bit outside its mask can never be selected by any word. */
  lemma FixedBitOutsideMaskNeverSelects(row: OpCode, w: bv16)
    requires row.opcode & !row.mask != 0
    ensures !Selects(w, row)
  {
  }

  /** The number an integer literal's digit string denotes when read in `base`, most significant digit first. */
  function LiteralValue(base: nat, digits: seq<nat>): nat {
    if digits == [] then 0
    else LiteralValue(base, digits[..|digits| - 1]) * base + digits[|digits| - 1]
  }

  /** A seven-digit literal by Horner's rule. */
  lemma SevenDigitLiteral(base: nat, d: seq<nat>)
    requires |d| == 7
    ensures LiteralValue(base, d)
            == (((((d[0] * base + d[1]) * base + d[2]) * base + d[3]) * base + d[4]) * base + d[5]) * base + d[6]
  {
    assert d[..1][..0] == [];
    assert LiteralValue(base, d[..1]) == d[0];
    assert d[..2][..1] == d[..1];
    assert LiteralValue(base, d[..2]) == d[0] * base + d[1];
    assert d[..3][..2] == d[..2];
    assert LiteralValue(base, d[..3]) == (d[0] * base + d[1]) * base + d[2];
    assert d[..4][..3] == d[..3];
    assert LiteralValue(base, d[..4]) == ((d[0] * base + d[1]) * base + d[2]) * base + d[3];
    assert d[..5][..4] == d[..4];
    assert LiteralValue(base, d[..5]) == (((d[0] * base + d[1]) * base + d[2]) * base + d[3]) * base + d[4];
    assert d[..6][..5] == d[..5];
    assert LiteralValue(base, d[..6])
           == ((((d[0] * base + d[1]) * base + d[2]) * base + d[3]) * base + d[4]) * base + d[5];
    assert d[..7] == d;
  }

  // The digits of the literals written in the table rows, copied from binutils, where they are C octal constants.
  const ABCD_DS_DD: seq<nat> := [0, 1, 4, 0, 4, 0, 0]
  const ABCD_PREDEC: seq<nat> := [0, 1, 4, 0, 4, 1, 0]
  const ABCD_MASK: seq<nat> := [0, 1, 7, 0, 7, 7, 0]

  /** The table as the Rust source evaluates it: decimal literals, upper bits lost by the shift. */
  const OpCodesAsWritten: seq<OpCode> := [
    OpCode("abcd", "DsDd", One(140400), One(170770), 2, M68KUP),
    OpCode("abcd", "-s-d", One(140410), One(170770), 2, M68KUP)
  ]

  /** The table with the binutils values (octal 0140400, 0140410, mask 0170770). */
  const OpCodes: seq<OpCode> := [
    OpCode("abcd", "DsDd", One(0xC100), One(0xF1F8), 2, M68KUP),
    OpCode("abcd", "-s-d", One(0xC108), One(0xF1F8), 2, M68KUP)
  ]

  /**
   * A Rust integer literal with a leading zero is decimal. Read that way, the digits of the source
   * are 140400, 140410 and 170770, and the rows as written hold them modulo 2^16 in their upper
   * halves: `one` loses the bits above.
   */
  lemma DecimalReading()
    ensures LiteralValue(10, ABCD_DS_DD) == 140400 == 0x2_2470
    ensures LiteralValue(10, ABCD_PREDEC) == 140410 == 0x2_247A
    ensures LiteralValue(10, ABCD_MASK) == 170770 == 0x2_9B12
    ensures (OpCodesAsWritten[0].opcode >> 16) as int == LiteralValue(10, ABCD_DS_DD) % 0x1_0000
    ensures (OpCodesAsWritten[1].opcode >> 16) as int == LiteralValue(10, ABCD_PREDEC) % 0x1_0000
    ensures (OpCodesAsWritten[0].mask >> 16) as int == LiteralValue(10, ABCD_MASK) % 0x1_0000
    ensures OpCodesAsWritten[1].mask == OpCodesAsWritten[0].mask
    ensures forall i :: 0 <= i < |OpCodesAsWritten| ==>
              OpCodesAsWritten[i].opcode & 0xFFFF == 0 && OpCodesAsWritten[i].mask & 0xFFFF == 0
  {
    SevenDigitLiteral(10, ABCD_DS_DD);
    SevenDigitLiteral(10, ABCD_PREDEC);
    SevenDigitLiteral(10, ABCD_MASK);
  }

  /**
   * The same digits read as C octal, the base of the binutils table they come from, are 0xC100,
   * 0xC108 and 0xF1F8; the corrected rows hold exactly these in their upper halves.
   */
  lemma OctalReading()
    ensures LiteralValue(8, ABCD_DS_DD) == 0xC100
    ensures LiteralValue(8, ABCD_PREDEC) == 0xC108
    ensures LiteralValue(8, ABCD_MASK) == 0xF1F8
    ensures (OpCodes[0].opcode >> 16) as int == LiteralValue(8, ABCD_DS_DD)
    ensures (OpCodes[1].opcode >> 16) as int == LiteralValue(8, ABCD_PREDEC)
    ensures (OpCodes[0].mask >> 16) as int == LiteralValue(8, ABCD_MASK)
    ensures OpCodes[1].mask == OpCodes[0].mask
  {
    SevenDigitLiteral(8, ABCD_DS_DD);
    SevenDigitLiteral(8, ABCD_PREDEC);
    SevenDigitLiteral(8, ABCD_MASK);
  }

  /**
   * As written, both rows carry fixed bits outside their masks, so no opcode word selects either
   * of them; in particular the `abcd d0,d0` word 0xC100 (octal 0140400) is not recognised.
   */
  lemma AsWrittenRowsNeverSelect(w: bv16)
    ensures OpCodesAsWritten[0].opcode == 0x2470_0000 && OpCodesAsWritten[0].mask == 0x9B12_0000
    ensures OpCodesAsWritten[1].opcode == 0x247A_0000
    ensures forall i :: 0 <= i < |OpCodesAsWritten| ==> !MaskConsistent(OpCodesAsWritten[i])
    ensures forall i :: 0 <= i < |OpCodesAsWritten| ==> !Selects(w, OpCodesAsWritten[i])
  {
    FixedBitOutsideMaskNeverSelects(OpCodesAsWritten[0], w);
    FixedBitOutsideMaskNeverSelects(OpCodesAsWritten[1], w);
  }

  /** The two tables differ only in the value of the literals: names, operand syntax, sizes and architectures agree. */
  lemma TablesAgreeOutsideLiterals()
    ensures |OpCodesAsWritten| == |OpCodes| == 2
    ensures forall i :: 0 <= i < 2 ==>
      OpCodesAsWritten[i].name == OpCodes[i].name == "abcd" &&
      OpCodesAsWritten[i].args == OpCodes[i].args &&
      OpCodesAsWritten[i].size == OpCodes[i].size == 2 &&
      OpCodesAsWritten[i].arch == OpCodes[i].arch == M68KUP
    ensures OpCodes[0].args == "DsDd" && OpCodes[1].args == "-s-d"
  {
  }

  /** Every row of the corrected table is mask-consistent, single-word, two bytes long, for 68000 and later. */
  lemma RowsWellFormed(i: nat)
    requires i < |OpCodes|
    ensures MaskConsistent(OpCodes[i])
    ensures OpCodes[i].opcode & 0xFFFF == 0 && OpCodes[i].mask & 0xFFFF == 0
    ensures OpCodes[i].size == 2 && OpCodes[i].arch == M68KUP == 1
  {
  }

  /** The two `abcd` rows share their mask and differ only in bit 3 of the word, which the mask selects. */
  lemma AbcdRowsDifferInBit3()
    ensures OpCodes[0].mask == OpCodes[1].mask
    ensures OpCodes[0].opcode ^ OpCodes[1].opcode == One(8)
    ensures One(8) & OpCodes[0].mask == One(8)
  {
  }

  /** No word selects both `abcd` rows. */
  lemma AbcdRowsExclusive(w: bv16)
    ensures !(Selects(w, OpCodes[0]) && Selects(w, OpCodes[1]))
  {
  }

  /** 0xC100 (octal 0140400, `abcd d0,d0`) selects the register form and not the predecrement form. */
  lemma KnownEncodingSelectsFirstRow()
    ensures Selects(0xC100, OpCodes[0]) && !Selects(0xC100, OpCodes[1])
    ensures Selects(0xC108, OpCodes[1]) && !Selects(0xC108, OpCodes[0])
  {
  }
}
