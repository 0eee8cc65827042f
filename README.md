# VAX disassembler, modelled in Dafny

A model of the core of a small VAX-11 disassembler written in Java. An
`a.out`-style image is loaded into a 64 KiB little-endian byte store
(`Memory`). The disassembler (`VaxDisasm`) then walks the text segment
one instruction at a time:

- it fetches an opcode, escaping to a second byte when the first has no
  table entry;
- it looks the opcode up in the `VAXOp` table of mnemonics and operand
  strings;
- it decodes each operand by its operand-type character (general
  addressing modes, or byte and word branch displacements);
- it lays out each instruction as rows of at most four hex bytes, each
  row led by its address, with the instruction text after the first row.

Files:

- `memory.dfy` is the byte store as a class over an `array`. `Fetch`'s
  loop is proved to compute the little-endian value modulo 2^32, which
  is Java's `int` wrap-around.
- `optable.dfy` holds the opcode table as a pure lookup, with the 0xfd
  and 0xff escape facts.
- `operand.dfy` decodes one operand. The functions take the address
  space and the program counter and return the operand (a datatype),
  the program counter after it, or a fault.
- `instruction.dfy` covers the opcode fetch, the operand list and one
  instruction's text.
- `format.dfy` is `formatOpStr`'s layout as a function (`Listing`), with
  lemmas tying each loop pass to it.
- `hex.dfy` holds the `String.format` conversions the program uses
  (`%x`, `%#x`, `%#0Nx`, `%02x`, `%4x`), with `ParseHex` as their inverse.
- `disasm.dfy` is the `VaxDisasm` class itself. Its fields are the
  register array, the memory, `tsize` and `dsize`. Each method is proved
  against the functions above.

Conventions:

- Java ints are kept as their unsigned 32-bit pattern (`Word`), which is
  exactly what `%x` prints. Sign extension (`v | 0xffffff00`) is written
  out (`Ext8`, `Ext16`) and proved equal to two's complement modulo 2^32.
- PC-relative targets are `(displacement + pc) mod 2^32`.
- Java's exceptions become a `Fault` in a `Result`. These are a read past
  the end of memory (`ArrayIndexOutOfBoundsException` in `Memory.fetch`)
  and an operand character outside `bwlqofdgh12` (`IllegalStateException`
  in `generateOprsStr`). The `ILLEGAL VALUE` branch of `generateOprStr`
  cannot be reached, since a fetched byte lies in 0..0xff.
- `System.out.println` in `disasm` becomes the returned sequence of lines.
  A fault ends the sequence after the lines already produced.

Two behaviours of the code that the model keeps:

- Any first opcode byte without a table entry takes a second byte
  (`opc << 8 | next`), not only the escape bytes 0xfd and 0xff. An
  unknown opcode is therefore always two bytes long (`.word 0x....`),
  even when it is an ordinary unassigned one-byte code. `UnknownOpcode`
  states this.
- An immediate operand wider than four bytes (quad, octa, d/g/h float)
  shows only its low 32 bits, padded with zeros to the full width. This
  is because `Memory.fetch` shifts the higher bytes out of an `int`.
  `FetchWide` and `ImmediateValue` state this.

## Model

| member | source | states |
|---|---|---|
| Memory.Memory.constructor | src/Memory.java:6-8 | a fresh store of `size` bytes, all zero |
| Memory.Memory.Load | src/Memory.java:10-12 | `raw` is copied to `addr..addr+|raw|` and every other byte is unchanged |
| Memory.Memory.Fetch | src/Memory.java:14-20 | the loop returns `FetchValue`: the little-endian value of `size` bytes at `addr`, modulo 2^32 |
| Memory.FetchValue | src/Memory.java:14-20 | the value `fetch` returns; `Memory.Fetch` computes it and the lemmas below state what it is |
| Memory.FetchExact | src/Memory.java:14-20 | for at most four bytes the fetch is the exact little-endian value, below 256^size |
| Memory.FetchByte | src/Memory.java:14-20 | a one-byte fetch is the byte itself |
| Memory.FetchHalf | src/Memory.java:14-20 | a two-byte fetch is `lo + 256*hi`, below 0x10000 |
| Memory.FetchWide | src/Memory.java:14-20 | a fetch of four or more bytes equals the fetch of the low four: the higher bytes are shifted out |
| Memory.LittleEndianAppend | src/Memory.java:16-18 | the value of a concatenation is the low part plus 256^|low| times the high part |
| Memory.LittleEndianBound | src/Memory.java:16-18 | k bytes hold a value below 256^k |
| HexFormat.Hex | src/VaxDisasm.java:196 | computes the `%x` numeral; `ParseHexOfHex` and `HexDigits` state what it means |
| HexFormat.Alt | src/VaxDisasm.java:214 | computes `%#x`; `AltDenotes` states what it means |
| HexFormat.AltPadded | src/VaxDisasm.java:209 | computes `%#0<width>x`; `AltPaddedExact` states what it means |
| HexFormat.Hex2 | src/VaxDisasm.java:153 | computes `%02x`; `Hex2Exact` states what it means |
| HexFormat.Hex4 | src/VaxDisasm.java:151 | computes `%4x`; `Hex4Exact` states what it means |
| HexFormat.NumeralsOneLine | src/VaxDisasm.java:151-214 | none of the numerals holds a line break |
| HexFormat.ParseHexOfHex | src/VaxDisasm.java:196 | the `%x` numeral of n reads back as n |
| HexFormat.HexDigits | src/VaxDisasm.java:196 | a `%x` numeral holds only hex digits and has no leading zero unless it is 0 |
| HexFormat.ZeroPadExact | src/VaxDisasm.java:209 | zero-padding to k digits gives exactly k digits that still denote the value, when it fits |
| HexFormat.Hex2Exact | src/VaxDisasm.java:153 | `%02x` of a byte is two digits that denote the byte |
| HexFormat.Hex4Exact | src/VaxDisasm.java:151 | `%4x` of an address below 0x10000 is exactly four columns |
| HexFormat.AltDenotes | src/VaxDisasm.java:214 | `%#x` is `0x` followed by digits that denote the value, including "0x0" for zero |
| HexFormat.AltPaddedExact | src/VaxDisasm.java:209 | `%#0<k+2>x` is `0x` and exactly k digits that denote the value |
| OpTable.ToLower | src/VaxDisasm.java:115 | the mnemonic has the constant name's length; each capital A-Z becomes its lower-case letter, and every other character is unchanged |
| OpTable.Mnemonic | src/VaxDisasm.java:115 | computes `mne`; its properties are `ToLower`'s and `MnemonicChars` |
| OpTable.MnemonicChars | src/VaxDisasm.java:20-115 | every mnemonic is lower-case letters and digits, since every enum name is upper-case letters and digits |
| OpTable.Lookup | src/VaxDisasm.java:102-111 | an entry found for a codepoint carries that codepoint |
| OpTable.Entry | src/VaxDisasm.java:18-100 | the constant declared with each codepoint, dispatched on the codepoint's high digits to one `Row` function; an entry found carries the codepoint asked for |
| OpTable.Row0 | src/VaxDisasm.java:20-23 | the constants whose codepoints are 0x00..0x0f, each with its name and operand string; an entry found carries the codepoint asked for |
| OpTable.Row1 | src/VaxDisasm.java:24-27 | the constants whose codepoints are 0x10..0x1f, each with its name and operand string; an entry found carries the codepoint asked for |
| OpTable.Row2 | src/VaxDisasm.java:28-31 | the constants whose codepoints are 0x20..0x2f, each with its name and operand string; an entry found carries the codepoint asked for |
| OpTable.Row3 | src/VaxDisasm.java:32-35 | the constants whose codepoints are 0x30..0x3f, each with its name and operand string; an entry found carries the codepoint asked for |
| OpTable.Row4 | src/VaxDisasm.java:36-39 | the constants whose codepoints are 0x40..0x4f, each with its name and operand string; an entry found carries the codepoint asked for |
| OpTable.Row5 | src/VaxDisasm.java:40-43 | the constants whose codepoints are 0x50..0x5f, each with its name and operand string; an entry found carries the codepoint asked for |
| OpTable.Row6 | src/VaxDisasm.java:44-47 | the constants whose codepoints are 0x60..0x6f, each with its name and operand string; an entry found carries the codepoint asked for |
| OpTable.Row7 | src/VaxDisasm.java:48-51 | the constants whose codepoints are 0x70..0x7f, each with its name and operand string; an entry found carries the codepoint asked for |
| OpTable.Row8 | src/VaxDisasm.java:52-55 | the constants whose codepoints are 0x80..0x8f, each with its name and operand string; an entry found carries the codepoint asked for |
| OpTable.Row9 | src/VaxDisasm.java:56-59 | the constants whose codepoints are 0x90..0x9f, each with its name and operand string; an entry found carries the codepoint asked for |
| OpTable.RowA | src/VaxDisasm.java:60-63 | the constants whose codepoints are 0xa0..0xaf, each with its name and operand string; an entry found carries the codepoint asked for |
| OpTable.RowB | src/VaxDisasm.java:64-67 | the constants whose codepoints are 0xb0..0xbf, each with its name and operand string; an entry found carries the codepoint asked for |
| OpTable.RowC | src/VaxDisasm.java:68-71 | the constants whose codepoints are 0xc0..0xcf, each with its name and operand string; an entry found carries the codepoint asked for |
| OpTable.RowD | src/VaxDisasm.java:72-75 | the constants whose codepoints are 0xd0..0xdf, each with its name and operand string; an entry found carries the codepoint asked for |
| OpTable.RowE | src/VaxDisasm.java:76-79 | the constants whose codepoints are 0xe0..0xef, each with its name and operand string; an entry found carries the codepoint asked for |
| OpTable.RowF | src/VaxDisasm.java:80-83 | the constants whose codepoints are 0xf0..0xff, each with its name and operand string; an entry found carries the codepoint asked for |
| OpTable.RowFD3 | src/VaxDisasm.java:84 | the constants whose codepoints are 0xfd30..0xfd3f, each with its name and operand string; an entry found carries the codepoint asked for |
| OpTable.RowFD4 | src/VaxDisasm.java:85-88 | the constants whose codepoints are 0xfd40..0xfd4f, each with its name and operand string; an entry found carries the codepoint asked for |
| OpTable.RowFD5 | src/VaxDisasm.java:89-90 | the constants whose codepoints are 0xfd50..0xfd5f, each with its name and operand string; an entry found carries the codepoint asked for |
| OpTable.RowFD6 | src/VaxDisasm.java:91-94 | the constants whose codepoints are 0xfd60..0xfd6f, each with its name and operand string; an entry found carries the codepoint asked for |
| OpTable.RowFD7 | src/VaxDisasm.java:95-97 | the constants whose codepoints are 0xfd70..0xfd7f, each with its name and operand string; an entry found carries the codepoint asked for |
| OpTable.RowFD9 | src/VaxDisasm.java:98 | the constants whose codepoints are 0xfd90..0xfd9f, each with its name and operand string; an entry found carries the codepoint asked for |
| OpTable.RowFDF | src/VaxDisasm.java:99 | the constants whose codepoints are 0xfdf0..0xfdff, each with its name and operand string; an entry found carries the codepoint asked for |
| OpTable.RowFFF | src/VaxDisasm.java:100 | the constants whose codepoints are 0xfff0..0xffff, each with its name and operand string; an entry found carries the codepoint asked for |
| OpTable.EscapeBytesUnassigned | src/VaxDisasm.java:18-100 | 0xfd and 0xff have no one-byte entry |
| OpTable.TwoByteEntriesReachable | src/VaxDisasm.java:18-100 | every two-byte codepoint has high byte 0xfd or 0xff, which has no entry, so the opcode fetch reaches it |
| Operand.GetSize | src/VaxDisasm.java:281-303 | the width is one of 1, 2, 4, 8, 16, and at least 8 exactly for q, o, d, g, h |
| Operand.GetSuffix | src/VaxDisasm.java:305-324 | a suffix is present exactly for the float types f, d, g, h |
| Operand.Take | src/VaxDisasm.java:326-330 | succeeds iff the bytes lie in memory, then advances the program counter by `size`; otherwise an out-of-bounds fault at pc |
| Operand.TakeDisplacement | src/VaxDisasm.java:216-217 | a 1-, 2- or 4-byte displacement succeeds iff in memory and advances by its size |
| Operand.DisplacementFetched | src/VaxDisasm.java:216-217 | the displacement is the fetched value sign-extended from 8 or 16 bits, or taken whole at 32 |
| Operand.DecodeDisplacement | src/VaxDisasm.java:215-260 | the displacement modes succeed iff their bytes are in memory and advance past them |
| Operand.DecodeGeneral | src/VaxDisasm.java:193-264 | a general operand advances the program counter within memory, and fails only past the end |
| Operand.DecodeBranch | src/VaxDisasm.java:266-279 | a branch operand takes 1 or 2 bytes and succeeds iff they are in memory |
| Operand.ModeTable | src/VaxDisasm.java:193-264 | the bytes each mode takes (`ModeLength`); index mode decodes the base operand after the mode byte and records the index register |
| Operand.ModeKinds | src/VaxDisasm.java:195-214 | the operand kind chosen by each mode-byte range below 0xa0; mode 0x9f is the absolute address in the four bytes after the mode byte |
| Operand.Ext8 | src/VaxDisasm.java:217 | the low byte is the fetched byte and the 24 bits above it copy its sign bit |
| Operand.Ext16 | src/VaxDisasm.java:233 | the low half is the fetched word and the 16 bits above it copy its sign bit |
| Operand.Render | src/VaxDisasm.java:196-277 | computes the `String.format` text of each operand kind, with the register names of `regLabel` (lines 12-13); its properties are in `RenderOneLine`, `ImmediateText` and the hex lemmas |
| Operand.LabelOneLine | src/VaxDisasm.java:12-13 | no register label holds a line break |
| Operand.RenderOneLine | src/VaxDisasm.java:196-277 | an operand's text is a single line whenever its suffixes are |
| Operand.GeneralSuffixes | src/VaxDisasm.java:193-264 | a decoded general operand, through any index prefixes, carries only `getSuffix`'s line-free suffixes |
| Operand.GeneralOneLine | src/VaxDisasm.java:193-264 | a decoded general operand's text is a single line |
| Operand.SignedWrap | src/VaxDisasm.java:217 | `v | 0xffffff00` (and the 16-bit form) is the two's-complement value modulo 2^32 |
| Operand.DisplacementIsSigned | src/VaxDisasm.java:215-246 | the displacement is the signed little-endian value of its bytes, modulo 2^32 |
| Operand.DispatchByte | src/VaxDisasm.java:215-230 | mode bytes 0xa0..0xbf are byte displacements, deferred for 0xb_ |
| Operand.DispatchWord | src/VaxDisasm.java:231-246 | mode bytes 0xc0..0xdf are word displacements, deferred for 0xd_ |
| Operand.DispatchLong | src/VaxDisasm.java:247-260 | mode bytes 0xe0..0xff are long displacements, deferred for 0xf_ |
| Operand.DisplacementOperandSigned | src/VaxDisasm.java:215-260 | with register pc the operand is the target `(pc after + signed displacement) mod 2^32`; otherwise the displacement and register |
| Operand.DisplacementTarget | src/VaxDisasm.java:215-260 | the same for any mode byte from 0xa0: width, deferral, register and target come from the mode byte |
| Operand.BranchTargetValue | src/VaxDisasm.java:266-279 | a branch target is the pc after the displacement plus the signed displacement, modulo 2^32 |
| Operand.ImmediateDispatch | src/VaxDisasm.java:207-209 | mode 0x8f reads an immediate of the operand type's width after the mode byte |
| Operand.ImmediateValue | src/VaxDisasm.java:207-209 | the immediate shown is the value of its low (at most four) bytes, printed `2n+2` wide so that it reads back as that value |
| Operand.ImmediateText | src/VaxDisasm.java:209 | `%#0<2n+2>x` of a fetched value is `2n+2` wide and reads back as the value |
| Instruction.DecodeOpcode | src/VaxDisasm.java:137-140 | the opcode takes one or two bytes within memory and is below 0x10000; it fails only past the end |
| Instruction.OpcodeFetch | src/VaxDisasm.java:137-140 | a byte with an entry is the whole opcode; any other byte needs a second one and combines as `first*256 + second` |
| Instruction.UnknownOpcode | src/VaxDisasm.java:137-141 | a codepoint with no entry renders as `.word <%#x>` and is two bytes long |
| Instruction.EntryOpcode | src/VaxDisasm.java:137-140 | every table entry is decoded from its own encoding, one or two bytes |
| Instruction.DecodeOperand | src/VaxDisasm.java:170-188 | a data or branch character decodes an operand within memory; any other character is an illegal-operand fault |
| Instruction.DecodeOperands | src/VaxDisasm.java:164-191 | one operand per character, each at least one byte |
| Instruction.DecodeOperandsStep | src/VaxDisasm.java:167-189 | one more character appends its operand, or ends the list with its fault |
| Instruction.OperandsFaultPersists | src/VaxDisasm.java:164-191 | the first failing operand's fault is the fault of the whole list |
| Instruction.OperandText | src/VaxDisasm.java:164-169 | computes the operand list text; `OperandTextSnoc` states how each operand extends it |
| Instruction.OperandTextSnoc | src/VaxDisasm.java:168-169 | a space precedes the first operand and a comma each later one |
| Instruction.TableOperandsLegal | src/VaxDisasm.java:18-100 | operand strings in the table never produce the illegal-operand fault |
| Instruction.OperandsOneLine | src/VaxDisasm.java:164-191 | a decoded operand list is a single line |
| Instruction.InstructionOneLine | src/VaxDisasm.java:135-141 | a decoded instruction's text is a single line |
| Instruction.DecodeInstruction | src/VaxDisasm.java:135-141 | an instruction advances the program counter within memory and fails only past the end |
| Instruction.ZeroOperands | src/VaxDisasm.java:164-196 | zero bytes decode as the shortest operands, each one byte, or two for a word branch |
| Instruction.EntryText | src/VaxDisasm.java:141 | an instruction with an entry is its mnemonic followed by its operand list |
| Instruction.EntryDecodes | src/VaxDisasm.java:135-141 | every entry, followed by zero bytes, decodes to text that starts with its mnemonic and takes opcode plus shortest operand bytes |
| Format.ByteCol | src/VaxDisasm.java:153 | a byte column is three characters |
| Format.ByteCols | src/VaxDisasm.java:153 | n bytes take 3n characters |
| Format.ByteColsDenote | src/VaxDisasm.java:153 | column k reads back as byte k and is followed by a space |
| Format.AddressColOneLine | src/VaxDisasm.java:151 | an address column holds no line break |
| Format.ByteColsOneLine | src/VaxDisasm.java:153 | byte columns hold no line break |
| Format.ShownStep | src/VaxDisasm.java:148-156 | one pass of the first loop appends the next byte's columns as the layout says: a new row with its address every fourth byte, the text after the fourth |
| Format.MoreRowsSnoc | src/VaxDisasm.java:149-153 | one more byte after the first row appends its column, opening a new line and address every four bytes |
| Format.PadSpaces | src/VaxDisasm.java:157-158 | the padding passes add three spaces each |
| Format.ShownPaddedShort | src/VaxDisasm.java:157-160 | a short first row is completed by three spaces per missing byte, then the text |
| Format.ShownComplete | src/VaxDisasm.java:157-160 | after four or more bytes the first loop has built the whole listing |
| Format.PaddedListing | src/VaxDisasm.java:157-161 | both loops together build `Listing` |
| Format.MoreRowsLines | src/VaxDisasm.java:149-151 | the rows after the first take one line per started group of four bytes |
| Format.Listing | src/VaxDisasm.java:145-162 | the text formatOpStr returns; `Layout` builds it and the lemmas below state its shape |
| Format.Layout | src/VaxDisasm.java:145-162 | builds the listing: a first row of up to four bytes and the text, then four bytes to a row |
| Format.ListingLines | src/VaxDisasm.java:145-162 | an instruction of n bytes takes ceil(n/4) lines |
| Format.FirstRowColumns | src/VaxDisasm.java:151-159 | the first row has the address in four columns, then `:` and a tab, twelve columns of bytes or padding, then a tab and the text |
| Format.ListingColumns | src/VaxDisasm.java:145-162 | every listing starts with its address and has the text at column 19 |
| Disasm.Step | src/VaxDisasm.java:135-143 | one instruction's listing advances the program counter within memory and fails only past the end |
| Disasm.StepListing | src/VaxDisasm.java:141-142 | a step's line is the listing of the decoded text over the bytes the instruction took |
| Disasm.StepLines | src/VaxDisasm.java:135-162 | an instruction of n bytes prints ceil(n/4) lines, since its text holds no line break |
| Disasm.Run | src/VaxDisasm.java:129-133 | each line takes at least one byte below the text size, and the only fault is a read past the end |
| Disasm.Span | src/VaxDisasm.java:148 | the addresses `pcFrom..pcTo` are `pcTo + 1 - pcFrom` bytes, or none |
| Disasm.VaxDisasm.constructor | src/VaxDisasm.java:11-16 | zeroed registers, a zeroed 64 KiB memory, zero sizes |
| Disasm.VaxDisasm.Load | src/VaxDisasm.java:121-126 | `tsize` and `dsize` are the signed little-endian words at header offsets 4 and 8; the bytes after the 0x20-byte header are at address 0 and the rest of memory is unchanged |
| Disasm.VaxDisasm.FetchMem | src/VaxDisasm.java:326-330 | the fetched value and the program counter advanced by `size`, or the fault with the program counter unchanged |
| Disasm.VaxDisasm.GenerateOprStr | src/VaxDisasm.java:193-264 | returns the rendering of `DecodeGeneral` and leaves the program counter after the operand |
| Disasm.VaxDisasm.DisplacementStr | src/VaxDisasm.java:215-260 | returns the rendering of `DecodeDisplacement` for one displacement width |
| Disasm.VaxDisasm.GenerateOprImmStr | src/VaxDisasm.java:266-279 | returns the rendering of `DecodeBranch` |
| Disasm.VaxDisasm.GenerateOperandStr | src/VaxDisasm.java:170-188 | returns the rendering of `DecodeOperand`, or the illegal-operand fault |
| Disasm.VaxDisasm.GenerateOprsStr | src/VaxDisasm.java:164-191 | returns `OperandText` of `DecodeOperands`, or its first fault |
| Disasm.VaxDisasm.FetchOpcode | src/VaxDisasm.java:137-140 | returns `DecodeOpcode` and leaves the program counter after the opcode |
| Disasm.VaxDisasm.GenerateOpText | src/VaxDisasm.java:136-141 | returns `DecodeInstruction`'s text |
| Disasm.VaxDisasm.GenerateOpStr | src/VaxDisasm.java:135-143 | returns `Step`: the listing of the instruction, with the program counter after it |
| Disasm.VaxDisasm.FormatRows | src/VaxDisasm.java:148-156 | the first loop builds `Shown` of the instruction's bytes |
| Disasm.VaxDisasm.FormatOpStr | src/VaxDisasm.java:145-162 | returns `Listing` of the bytes `pcFrom..pcTo` |
| Disasm.VaxDisasm.Disasm | src/VaxDisasm.java:129-133 | returns `Run`'s lines, and without a fault stops at the text size; registers other than pc are unchanged throughout |

## Left out

- `src/Main.java` (argument handling, choosing the disassembler) is not
  part of this model.
- Reading the image file (`Files.readAllBytes`) is left out. `Load`
  takes the file's bytes as a parameter.
- Disasm.VaxDisasm.Load: requires an image of at least 0x20 bytes that
  fits in memory. The source throws `ArrayIndexOutOfBoundsException`
  otherwise, and these exceptions are not modelled.
- `Memory.dump` is an empty stub in the source and is not modelled.
- Printing: `disasm` returns its lines instead of writing them to
  standard output.
- `String.format` is modelled only for the conversions the program uses,
  on non-negative values (see `hex.dfy`).
- Operand.GetSize, Operand.GetSuffix: require a data-type character. The
  source's `IllegalArgumentException` for other characters is not
  modelled, because the only caller passes them data types.
- Disasm.VaxDisasm.GenerateOprImmStr: requires a branch character. The
  `IllegalArgumentException` default case is not modelled, because
  `generateOprsStr` only calls it with '1' or '2'.
- Disasm.VaxDisasm.FormatOpStr: requires `pcTo` below the memory size.
  In the source, `pcTo` is always the last byte already fetched.
- Fault payloads are the model's own (address and size of the failed
  read, or the illegal character), not Java's exception messages.
- OpTable.ToLower: assumes a locale whose lower-casing of A-Z is the
  ASCII one. Java's no-argument `toLowerCase` uses the default locale,
  and under a Turkish locale `I` becomes a dotless `ı` (so `BISPSW` would
  not read `bispsw`).
- Opcode table: the table is modelled as the lookup that the static
  initialiser produces, not as the loop that fills a 65536-entry array.
- The `Disasm` interface that `VaxDisasm` implements is not part of this
  model.
