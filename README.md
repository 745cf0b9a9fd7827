# genesis-rs core, modelled in Dafny

This project models the byte-, bit- and string-level core of genesis-rs, a Sega Genesis / Mega Drive
emulator in its early stages written in Rust:

- **ROM header and checksum** (`rom.dfy`, module `Rom`): a ROM image is its bytes plus a container tag.
  The cartridge header has six fixed-width text fields from 0x100 to 0x18E. It has a big-endian 16-bit
  checksum at 0x18E and four big-endian 32-bit address fields at 0x1A0, 0x1A4, 0x1A8 and 0x1AC.
  `ValidChecksum` is the source's loop. It adds every big-endian word from 0x200 to the end in a
  wrapping `u16` and compares the total with the stored checksum. It is proved against the
  predicate `ChecksumMatches`, which sums the words without wrap-around and then reduces modulo 2^16.
- **Container tag** (`rom_fmt.dfy`, module `RomFmt`): `Format` is one of `Bin`, `Smd` and `Md`. The
  model has its `from_str` and `Display`, and the round trips between them.
- **68k architecture flags** (`arch.dfy`, module `Arch`): the binutils capability bitset as `bv32`
  constants, with the namespace masks and the "or later" unions.
- **Opcode table** (`opcode.dfy`, module `OpCode`): the `one`/`two` packing helpers, the `OpCode`
  record and the two `abcd` rows. The source has no matcher. `Selects` (a word's fixed bits agree
  with a row under its mask) is used only to state properties of the table.
- `ints.dfy`, module `Ints`: the source's `u8`, `u16` and `u32` as bounded newtypes. It also has the
  two `u16` operations the checksum uses: a shift that drops the bits shifted out, and an add that wraps.

`Rom` is a datatype, not a class. Every accessor of the source takes `&self` and changes nothing, so
each accessor is a function of the value, and `data` and `format` cannot change.

## Model

The static table `OP_CODES` (src/m68k/opcode.rs:31-34) is modelled twice, as two constants.
`OpCode.OpCodesAsWritten` holds the values the Rust source actually produces. `OpCode.OpCodes` holds the
corrected values (see "## Findings"). The rows below that mention a table say which one they are about.

| member | source | states |
|---|---|---|
| `RomFmt.FromStr` | src/md/rom_fmt.rs:13-20 | succeeds exactly on "bin", "smd" and "md", mapping them to `Bin`, `Smd` and `Md`; every other string, upper case included, gives the error "invalid or unknown format" |
| `RomFmt.Display` | src/md/rom_fmt.rs:23-31 | renders `Bin` as "bin", `Smd` as "smd" and `Md` as "md" |
| `RomFmt.ParseDisplay` | src/md/rom_fmt.rs:13-29 | parsing the rendering of any tag gives that tag back |
| `RomFmt.DisplayParse` | src/md/rom_fmt.rs:13-29 | when `from_str(s)` gives tag `f`, `f` renders back as exactly `s` |
| `RomFmt.DisplayInjective` | src/md/rom_fmt.rs:25-29 | distinct tags render as distinct strings |
| `RomFmt.UpperCaseRefused` | src/md/rom_fmt.rs:14-18 | "BIN", "SMD" and "MD" are refused with the unknown-format error |
| `Rom.FormatOfExtension` | src/md/rom.rs:14 | a file extension selects tag `f` exactly when `f` renders as that extension, and selects nothing otherwise |
| `Rom.Rom.Console` | src/md/rom.rs:23-25 | the console field is the 16 bytes at 0x100 |
| `Rom.Rom.Copyright` | src/md/rom.rs:26-28 | the copyright field is the 16 bytes at 0x110 |
| `Rom.Rom.Title` | src/md/rom.rs:29-31 | the domestic title is the 48 bytes at 0x120 |
| `Rom.Rom.NameOverseas` | src/md/rom.rs:32-34 | the overseas title is the 48 bytes at 0x150 |
| `Rom.Rom.ProductType` | src/md/rom.rs:35-37 | the product type is the 2 bytes at 0x180 |
| `Rom.Rom.ProductCode` | src/md/rom.rs:38-40 | the product code is the 12 bytes at 0x182 |
| `Rom.HeaderTextTiles` | src/md/rom.rs:23-40 | the six text fields, in order, concatenate to exactly bytes 0x100..0x18E: adjacent, without gaps or overlap |
| `Rom.Rom.Checksum` | src/md/rom.rs:41-45 | the u16 shift of byte 0x18E plus byte 0x18F cannot overflow; the result is `data[0x18E] * 256 + data[0x18F]` |
| `Rom.ChecksumBytes` | src/md/rom.rs:41-45 | the stored checksum is the big-endian value of bytes 0x18E..0x190, and those bytes are its 2-byte big-endian encoding |
| `Rom.U32FromBeBytes` | src/md/rom.rs:47 | `u32::from_be_bytes` of four bytes is `b0*2^24 + b1*2^16 + b2*2^8 + b3` |
| `Rom.FromToBeBytes` | src/md/rom.rs:46-61 | decoding the big-endian encoding of any `n` that fits in the width gives `n` back |
| `Rom.ToFromBeBytes` | src/md/rom.rs:46-61 | encoding the big-endian value of a byte string in its own width gives the byte string back |
| `Rom.Rom.Start` | src/md/rom.rs:46-49 | the start address is the big-endian u32 of bytes 0x1A0..0x1A4, below 2^32 |
| `Rom.Rom.End` | src/md/rom.rs:50-53 | the end address is the big-endian u32 of bytes 0x1A4..0x1A8, below 2^32 |
| `Rom.Rom.RamStart` | src/md/rom.rs:54-57 | the RAM start is the big-endian u32 of bytes 0x1A8..0x1AC, below 2^32 |
| `Rom.Rom.RamEnd` | src/md/rom.rs:58-61 | the RAM end is the big-endian u32 of bytes 0x1AC..0x1B0, below 2^32 |
| `Rom.AddressBytes` | src/md/rom.rs:46-61 | each of the four address fields is the 4-byte big-endian encoding of the address its accessor returns |
| `Ints.ShlU16` | src/md/rom.rs:65 | after `overflowing_shl` by `n < 16` the low `n` bits are zero, so adding a value below 2^n cannot carry; when `x * 2^n` fits in 16 bits no bit is lost and the result is exactly `x * 2^n` |
| `Ints.WrappingAddU16` | src/md/rom.rs:67 | `overflowing_add` gives the sum modulo 2^16; it is the plain sum when that fits |
| `Rom.Rom.ValidChecksum` | src/md/rom.rs:62-71 | the wrapping u16 loop over the words at even offsets from 0x200 returns true exactly when the stored checksum equals the unwrapped sum of those words modulo 2^16; adding a byte pair into a word never overflows |
| `Rom.SmallRomChecksum` | src/md/rom.rs:62-70 | for an image of at most 0x200 bytes the loop runs zero times, and the verdict is true exactly when the stored checksum is 0 |
| `Rom.OddLengthOverrun` | src/md/rom.rs:64-66 | for an odd length above 0x200, offset `len - 1` is visited and its low byte `data[len]` is past the end, so such an image is outside what `valid_checksum` can run on |
| `Rom.WordSumFrame` | src/md/rom.rs:63-69 | the word sum over a range depends only on the bytes inside that range |
| `Rom.ChecksumIgnoresHeader` | src/md/rom.rs:62-70 | two images of the same length that agree on bytes 0x18E..0x190 and on the program area get the same verdict, whatever their tag, text fields and addresses |
| `Rom.ZeroPaddingKeepsVerdict` | src/md/rom.rs:62-70 | appending a zero word to an even-length image of at least 0x200 bytes leaves the verdict unchanged |
| `Arch.BaseFlagsAreSuccessiveBits` | src/m68k/arch.rs:1-20 | the i-th base flag, M68000 through MCFUSP, is `1 << i`, so each is a distinct power of two |
| `Arch.BaseFlagsDisjoint` | src/m68k/arch.rs:1-20 | two different base flags share no bit |
| `Arch.NamespaceMasksDisjoint` | src/m68k/arch.rs:11-21 | `M68K_MASK & MCF_MASK == 0`; MCFEMAC and CFLOAT lie outside `MCF_MASK` |
| `Arch.ClassicMaskIsUnion` | src/m68k/arch.rs:1-11 | `M68K_MASK` is exactly the OR of the ten classic flags M68000 through FIDO_A |
| `Arch.ColdFireMaskIsUnion` | src/m68k/arch.rs:12-21 | `MCF_MASK` is exactly MCFMAC, MCFHWDIV, MCFISA_A, MCFISA_AA, MCFISA_B, MCFISA_C and MCFUSP |
| `Arch.ClassicFlagsInMask` | src/m68k/arch.rs:1-21 | every classic flag is inside `M68K_MASK` and outside `MCF_MASK` |
| `Arch.SupersetChain` | src/m68k/arch.rs:23-27 | M68000UP ⊇ M68010UP ⊇ M68020UP ⊇ M68030UP ⊇ M68040UP |
| `Arch.M68000UpValue` | src/m68k/arch.rs:7-27 | `M68000UP == 0x33F`, which is `M68K_MASK` without M68881 and M68851 |
| `Arch.UnionMembership` | src/m68k/arch.rs:5-27 | `M68000UP` intersects M68040 and is disjoint from MCFISA_B |
| `Arch.CoprocessorAliases` | src/m68k/arch.rs:28-29 | `MFLOAT` and `MMMU` are nonzero and lie inside `M68K_MASK` |
| `OpCode.One` | src/m68k/opcode.rs:23-25 | `one(x)` has zero low half and `x mod 2^16` as its high half; higher bits of `x` are lost |
| `OpCode.OneScales` | src/m68k/opcode.rs:23-25 | for a 16-bit `x`, `one(x) == x * 65536` and its high half is `x` |
| `OpCode.Two` | src/m68k/opcode.rs:27-29 | `two(x, y)` is defined when the addition stays within u32; for a 16-bit `y` it is `one(x)` with `y` in the low half |
| `OpCode.TwoDefinedOnWords` | src/m68k/opcode.rs:27-29 | for any 16-bit second word the addition in `two` cannot overflow |
| `OpCode.TwoPacksWords` | src/m68k/opcode.rs:27-29 | for 16-bit `x` and `y`, `two(x, y)` has high half `x` and low half `y` |
| `OpCode.FixedBitOutsideMaskNeverSelects` | src/m68k/opcode.rs:31-34 | a row whose opcode has a bit outside its mask is selected by no 16-bit word |
| `OpCode.DecimalReading` | src/m68k/opcode.rs:31-34 | the digits of the table literals, read in base 10 as Rust reads them, are 140400, 140410 and 170770; the rows of `OP_CODES` as written (`OpCode.OpCodesAsWritten`) hold these values modulo 2^16 in their upper halves and zero in their lower halves, and share one mask |
| `OpCode.OctalReading` | src/m68k/opcode.rs:3-4 | the same digits read in base 8, as the binutils table they come from writes them, are 0xC100, 0xC108 and 0xF1F8, and these are exactly the upper halves of the corrected rows (`OpCode.OpCodes`) |
| `OpCode.AsWrittenRowsNeverSelect` | src/m68k/opcode.rs:31-34 | as written, both rows have fixed bits outside their mask, and no word selects either row |
| `OpCode.TablesAgreeOutsideLiterals` | src/m68k/opcode.rs:31-34 | the table as written and the corrected table both have two rows and agree on every field except opcode and mask: name "abcd", operand syntax "DsDd" then "-s-d", size 2, arch `M68KUP` |
| `OpCode.RowsWellFormed` | src/m68k/opcode.rs:31-34 | in the corrected table `OpCodes`, every row has a nonzero mask and no fixed bit outside it; opcode and mask have zero low halves; size is 2 and arch is `M68KUP == 1` |
| `OpCode.AbcdRowsDifferInBit3` | src/m68k/opcode.rs:32-33 | in the corrected table `OpCodes`, the two `abcd` rows share their mask and differ only in bit 3 of the word, a bit the mask selects |
| `OpCode.AbcdRowsExclusive` | src/m68k/opcode.rs:32-33 | in the corrected table `OpCodes`, no 16-bit word selects both `abcd` rows |
| `OpCode.KnownEncodingSelectsFirstRow` | src/m68k/opcode.rs:32-33 | in the corrected table `OpCodes`, word 0xC100 (octal 140400) selects `abcd DsDd` and not `abcd -s-d`; 0xC108 selects only the second row |

## Left out

- `load_from_file` (src/md/rom.rs:12-20) reads a file and takes the extension of a `Path`. Only the step from an extension to a `Format` is modelled, as `Rom.FormatOfExtension`. A missing or non-UTF-8 extension and the file read are I/O.
- The header text accessors return `&str` through `from_utf8_unchecked`. They are modelled as byte sequences, and string validity is not modelled.
- Panics and build errors are modelled as preconditions. These are slicing or indexing past the end of `data`, and the `.expect` calls in the address accessors, which cannot fire once the slice is in range. They also include the u32 overflow of the addition in `two` (src/m68k/opcode.rs:28): in a constant it is a compile-time error, and in a debug build a panic. A release build would wrap instead, and `OpCode.Two` does not model that wrap. In particular, `Rom.Rom.ValidChecksum` requires at least 0x190 bytes, and an even length whenever the length exceeds 0x200. `Rom.OddLengthOverrun` shows the index that would panic.
- The `as usize` casts of the address accessors widen a u32 and change no value. The accessors return a `nat` below 2^32.
- `OpCode`'s `Display` (src/m68k/opcode.rs:15-19) only formats text for printing.
- src/main.rs only prints. Its loop over the opcode table has an empty body.
- No instruction matcher, decoder or multi-word scan exists in the source. `OpCode.Selects` only states properties of the table.
- `Format` is only a tag. The source converts nothing between the SMD, MD and BIN layouts, and neither does the model.

## Findings

| source | as written | input that shows it | evidently intended | confidence | as-written member | corrected member |
|---|---|---|---|---|---|---|
| src/m68k/opcode.rs:32-33 | the rows use `one(0140400)`, `one(0140410)` and mask `one(0170770)`, copied from a C table where a leading zero means octal. Rust reads these literals as decimal 140400, 140410 and 170770, and `one` drops the bits shifted past bit 31. This gives opcodes 0x24700000 and 0x247A0000 with mask 0x9B120000. Both opcodes have bits outside the mask. | word 0xC100 (octal 140400, `abcd d0,d0`) selects neither row, and no 16-bit word selects either row | the binutils octal values: opcodes 0xC100 and 0xC108 under mask 0xF1F8, in the upper half | not executed; high (the digits and the two readings are proved in `OpCode.DecimalReading` and `OpCode.OctalReading`) | `OpCode.AsWrittenRowsNeverSelect` | `OpCode.KnownEncodingSelectsFirstRow` |

The rest of the model uses the corrected table `OpCode.OpCodes`. `OpCode.OpCodesAsWritten` holds the
table as the Rust source evaluates it.
