/** The opcode table of src/VaxDisasm.java (enum VAXOp and its static
    `table`): a one- or two-byte codepoint maps to an instruction descriptor,
    a mnemonic and a string of operand-type characters. */
module OpTable {
  import opened Wrappers

  /** Operand types with a general addressing-mode operand: byte, word,
      longword, quadword, octaword and the f, d, g and h floating formats. */
  predicate IsDataTag(c: char) {
    c in "bwlqofdgh"
  }

  /** Branch displacements of one and two bytes. */
  predicate IsBranchTag(c: char) {
    c == '1' || c == '2'
  }

  predicate IsTag(c: char) {
    IsDataTag(c) || IsBranchTag(c)
  }

  predicate ValidOprs(s: string) {
    forall i | 0 <= i < |s| :: IsTag(s[i])
  }

  /** One VAXOp constant: its enum name, codepoint (`op`) and operand string. */
  datatype VaxOp = VaxOp(name: seq<NameChar>, code: int, oprs: string)

  /** The enum names are upper-case letters and digits. */
  type NameChar = c: char | 'A' <= c <= 'Z' || '0' <= c <= '9' witness 'A'

  /** Every constant of the enum: its codepoint indexes the 0x10000-entry
      table and its operand string uses only the characters decoded by
      generateOprsStr. Each table entry below is checked against this. */
  type Op = e: VaxOp | 0 <= e.code < 0x1_0000 && ValidOprs(e.oprs)
    witness VaxOp("HALT", 0x00, "")

  /** `toLowerCase()` on the letters A-Z: each capital becomes its
      lower-case letter, every other character stays. */
  function ToLower(s: string): (r: string)
    ensures |r| == |s|
    ensures forall i | 0 <= i < |s| :: !('A' <= r[i] <= 'Z')
    ensures forall i | 0 <= i < |s| :: 'A' <= s[i] <= 'Z' ==> r[i] == (s[i] as int + 32) as char
    ensures forall i | 0 <= i < |s| :: 'A' <= s[i] <= 'Z' || r[i] == s[i]
  {
    if s == [] then []
    else
      var c := s[0];
      [if 'A' <= c <= 'Z' then (c as int + 32) as char else c] + ToLower(s[1..])
  }

  /** `mne`: the lower-case enum name. */
  function Mnemonic(e: VaxOp): string {
    ToLower(e.name)
  }

  /** A mnemonic is lower-case letters and digits. */
  lemma MnemonicChars(e: VaxOp)
    ensures var t := Mnemonic(e);
      forall i | 0 <= i < |t| :: 'a' <= t[i] <= 'z' || '0' <= t[i] <= '9'
  {
  }

  /** `VAXOp.table[code]` once the static initialiser has stored every
      constant at its own codepoint; None where no constant has that code. */
  function Lookup(code: int): (r: Option<Op>)
    ensures r.Some? ==> r.value.code == code
  {
    TableAt(code, 1)
  }

  /** Lookup reaches the table through one recursive step, so the verifier
      opens the several hundred entries only where a proof asks for them
      (through LookupEntry), not wherever an opcode is looked up. */
  function TableAt(code: int, steps: nat): (r: Option<Op>)
    ensures r.Some? ==> r.value.code == code
  {
    if steps == 0 then Entry(code) else TableAt(code, steps - 1)
  }

  /** Lookup is the table itself. */
  lemma LookupEntry(code: int)
    ensures Lookup(code) == Entry(code)
  {
    assert TableAt(code, 0) == Entry(code);
  }

  /** The table: the VAXOp constant declared with each codepoint. */
  function Entry(code: int): (r: Option<Op>)
    ensures r.Some? ==> r.value.code == code
  {
    if code < 0 then None
    else
      match code / 16
      case 0x0 => Row0(code)
      case 0x1 => Row1(code)
      case 0x2 => Row2(code)
      case 0x3 => Row3(code)
      case 0x4 => Row4(code)
      case 0x5 => Row5(code)
      case 0x6 => Row6(code)
      case 0x7 => Row7(code)
      case 0x8 => Row8(code)
      case 0x9 => Row9(code)
      case 0xA => RowA(code)
      case 0xB => RowB(code)
      case 0xC => RowC(code)
      case 0xD => RowD(code)
      case 0xE => RowE(code)
      case 0xF => RowF(code)
      case 0xFD3 => RowFD3(code)
      case 0xFD4 => RowFD4(code)
      case 0xFD5 => RowFD5(code)
      case 0xFD6 => RowFD6(code)
      case 0xFD7 => RowFD7(code)
      case 0xFD9 => RowFD9(code)
      case 0xFDF => RowFDF(code)
      case 0xFFF => RowFFF(code)
      case _ => None
  }

  function Row0(code: int): (r: Option<Op>)
    ensures r.Some? ==> r.value.code == code
  {
    match code
    case 0x00 => Some(VaxOp("HALT", 0x00, ""))
    case 0x01 => Some(VaxOp("NOP", 0x01, ""))
    case 0x02 => Some(VaxOp("REI", 0x02, ""))
    case 0x03 => Some(VaxOp("BPT", 0x03, ""))
    case 0x04 => Some(VaxOp("RET", 0x04, ""))
    case 0x05 => Some(VaxOp("RSB", 0x05, ""))
    case 0x06 => Some(VaxOp("LDPCTX", 0x06, ""))
    case 0x07 => Some(VaxOp("SVPCTX", 0x07, ""))
    case 0x08 => Some(VaxOp("CVTPS", 0x08, "wbwb"))
    case 0x09 => Some(VaxOp("CVTSP", 0x09, "wbwb"))
    case 0x0a => Some(VaxOp("INDEX", 0x0a, "llllll"))
    case 0x0b => Some(VaxOp("CRC", 0x0b, "blwb"))
    case 0x0c => Some(VaxOp("PROBER", 0x0c, "bwb"))
    case 0x0d => Some(VaxOp("PROBEW", 0x0d, "bwb"))
    case 0x0e => Some(VaxOp("INSQUE", 0x0e, "bb"))
    case 0x0f => Some(VaxOp("REMQUE", 0x0f, "bl"))
    case _ => None
  }

  function Row1(code: int): (r: Option<Op>)
    ensures r.Some? ==> r.value.code == code
  {
    match code
    case 0x10 => Some(VaxOp("BSBB", 0x10, "1"))
    case 0x11 => Some(VaxOp("BRB", 0x11, "1"))
    case 0x12 => Some(VaxOp("BNEQ", 0x12, "1"))
    case 0x13 => Some(VaxOp("BEQL", 0x13, "1"))
    case 0x14 => Some(VaxOp("BGTR", 0x14, "1"))
    case 0x15 => Some(VaxOp("BLEQ", 0x15, "1"))
    case 0x16 => Some(VaxOp("JSB", 0x16, "b"))
    case 0x17 => Some(VaxOp("JMP", 0x17, "b"))
    case 0x18 => Some(VaxOp("BGEQ", 0x18, "1"))
    case 0x19 => Some(VaxOp("BLSS", 0x19, "1"))
    case 0x1a => Some(VaxOp("BGTRU", 0x1a, "1"))
    case 0x1b => Some(VaxOp("BLEQU", 0x1b, "1"))
    case 0x1c => Some(VaxOp("BVC", 0x1c, "1"))
    case 0x1d => Some(VaxOp("BVS", 0x1d, "1"))
    case 0x1e => Some(VaxOp("BCC", 0x1e, "1"))
    case 0x1f => Some(VaxOp("BLSSU", 0x1f, "1"))
    case _ => None
  }

  function Row2(code: int): (r: Option<Op>)
    ensures r.Some? ==> r.value.code == code
  {
    match code
    case 0x20 => Some(VaxOp("ADDP4", 0x20, "wbwb"))
    case 0x21 => Some(VaxOp("ADDP6", 0x21, "wbwbwb"))
    case 0x22 => Some(VaxOp("SUBP4", 0x22, "wbwb"))
    case 0x23 => Some(VaxOp("SUBP6", 0x23, "wbwbwb"))
    case 0x24 => Some(VaxOp("CVTPT", 0x24, "wbbwb"))
    case 0x25 => Some(VaxOp("MULP", 0x25, "wbwbwb"))
    case 0x26 => Some(VaxOp("CVTTP", 0x26, "wbbwb"))
    case 0x27 => Some(VaxOp("DIVP", 0x27, "wbwbwb"))
    case 0x28 => Some(VaxOp("MOVC3", 0x28, "wbb"))
    case 0x29 => Some(VaxOp("CMPC3", 0x29, "wbb"))
    case 0x2a => Some(VaxOp("SCANC", 0x2a, "wbbb"))
    case 0x2b => Some(VaxOp("SPANC", 0x2b, "wbbb"))
    case 0x2c => Some(VaxOp("MOVC5", 0x2c, "wbbwb"))
    case 0x2d => Some(VaxOp("CMPC5", 0x2d, "wbbwb"))
    case 0x2e => Some(VaxOp("MOVTC", 0x2e, "wbbbwb"))
    case 0x2f => Some(VaxOp("MOVTUC", 0x2f, "wbbbwb"))
    case _ => None
  }

  function Row3(code: int): (r: Option<Op>)
    ensures r.Some? ==> r.value.code == code
  {
    match code
    case 0x30 => Some(VaxOp("BSBW", 0x30, "2"))
    case 0x31 => Some(VaxOp("BRW", 0x31, "2"))
    case 0x32 => Some(VaxOp("CVTWL", 0x32, "wl"))
    case 0x33 => Some(VaxOp("CVTWB", 0x33, "wb"))
    case 0x34 => Some(VaxOp("MOVP", 0x34, "wbb"))
    case 0x35 => Some(VaxOp("CMPP3", 0x35, "wbb"))
    case 0x36 => Some(VaxOp("CVTPL", 0x36, "wbl"))
    case 0x37 => Some(VaxOp("CMPP4", 0x37, "wbwb"))
    case 0x38 => Some(VaxOp("EDITPC", 0x38, "wbbb"))
    case 0x39 => Some(VaxOp("MATCHC", 0x39, "wbwb"))
    case 0x3a => Some(VaxOp("LOCC", 0x3a, "bwb"))
    case 0x3b => Some(VaxOp("SKPC", 0x3b, "bwb"))
    case 0x3c => Some(VaxOp("MOVZWL", 0x3c, "wl"))
    case 0x3d => Some(VaxOp("ACBW", 0x3d, "www2"))
    case 0x3e => Some(VaxOp("MOVAW", 0x3e, "wl"))
    case 0x3f => Some(VaxOp("PUSHAW", 0x3f, "w"))
    case _ => None
  }

  function Row4(code: int): (r: Option<Op>)
    ensures r.Some? ==> r.value.code == code
  {
    match code
    case 0x40 => Some(VaxOp("ADDF2", 0x40, "ff"))
    case 0x41 => Some(VaxOp("ADDF3", 0x41, "fff"))
    case 0x42 => Some(VaxOp("SUBF2", 0x42, "ff"))
    case 0x43 => Some(VaxOp("SUBF3", 0x43, "fff"))
    case 0x44 => Some(VaxOp("MULF2", 0x44, "ff"))
    case 0x45 => Some(VaxOp("MULF3", 0x45, "fff"))
    case 0x46 => Some(VaxOp("DIVF2", 0x46, "ff"))
    case 0x47 => Some(VaxOp("DIVF3", 0x47, "fff"))
    case 0x48 => Some(VaxOp("CVTFB", 0x48, "fb"))
    case 0x49 => Some(VaxOp("CVTFW", 0x49, "fw"))
    case 0x4a => Some(VaxOp("CVTFL", 0x4a, "fl"))
    case 0x4b => Some(VaxOp("CVTRFL", 0x4b, "fl"))
    case 0x4c => Some(VaxOp("CVTBF", 0x4c, "bf"))
    case 0x4d => Some(VaxOp("CVTWF", 0x4d, "wf"))
    case 0x4e => Some(VaxOp("CVTLF", 0x4e, "lf"))
    case 0x4f => Some(VaxOp("ACBF", 0x4f, "fff2"))
    case _ => None
  }

  function Row5(code: int): (r: Option<Op>)
    ensures r.Some? ==> r.value.code == code
  {
    match code
    case 0x50 => Some(VaxOp("MOVF", 0x50, "ff"))
    case 0x51 => Some(VaxOp("CMPF", 0x51, "ff"))
    case 0x52 => Some(VaxOp("MNEGF", 0x52, "ff"))
    case 0x53 => Some(VaxOp("TSTF", 0x53, "f"))
    case 0x54 => Some(VaxOp("EMODF", 0x54, "fbflf"))
    case 0x55 => Some(VaxOp("POLYF", 0x55, "fwb"))
    case 0x56 => Some(VaxOp("CVTFD", 0x56, "fd"))
    case 0x58 => Some(VaxOp("ADAWI", 0x58, "ww"))
    case 0x5c => Some(VaxOp("INSQHI", 0x5c, "bq"))
    case 0x5d => Some(VaxOp("INSQTI", 0x5d, "bq"))
    case 0x5e => Some(VaxOp("REMQHI", 0x5e, "ql"))
    case 0x5f => Some(VaxOp("REMQTI", 0x5f, "ql"))
    case _ => None
  }

  function Row6(code: int): (r: Option<Op>)
    ensures r.Some? ==> r.value.code == code
  {
    match code
    case 0x60 => Some(VaxOp("ADDD2", 0x60, "dd"))
    case 0x61 => Some(VaxOp("ADDD3", 0x61, "ddd"))
    case 0x62 => Some(VaxOp("SUBD2", 0x62, "dd"))
    case 0x63 => Some(VaxOp("SUBD3", 0x63, "ddd"))
    case 0x64 => Some(VaxOp("MULD2", 0x64, "dd"))
    case 0x65 => Some(VaxOp("MULD3", 0x65, "ddd"))
    case 0x66 => Some(VaxOp("DIVD2", 0x66, "dd"))
    case 0x67 => Some(VaxOp("DIVD3", 0x67, "ddd"))
    case 0x68 => Some(VaxOp("CVTDB", 0x68, "db"))
    case 0x69 => Some(VaxOp("CVTDW", 0x69, "dw"))
    case 0x6a => Some(VaxOp("CVTDL", 0x6a, "dl"))
    case 0x6b => Some(VaxOp("CVTRDL", 0x6b, "dl"))
    case 0x6c => Some(VaxOp("CVTBD", 0x6c, "bd"))
    case 0x6d => Some(VaxOp("CVTWD", 0x6d, "wd"))
    case 0x6e => Some(VaxOp("CVTLD", 0x6e, "ld"))
    case 0x6f => Some(VaxOp("ACBD", 0x6f, "ddd2"))
    case _ => None
  }

  function Row7(code: int): (r: Option<Op>)
    ensures r.Some? ==> r.value.code == code
  {
    match code
    case 0x70 => Some(VaxOp("MOVD", 0x70, "dd"))
    case 0x71 => Some(VaxOp("CMPD", 0x71, "dd"))
    case 0x72 => Some(VaxOp("MNEGD", 0x72, "dd"))
    case 0x73 => Some(VaxOp("TSTD", 0x73, "d"))
    case 0x74 => Some(VaxOp("EMODD", 0x74, "dbdld"))
    case 0x75 => Some(VaxOp("POLYD", 0x75, "dwb"))
    case 0x76 => Some(VaxOp("CVTDF", 0x76, "df"))
    case 0x78 => Some(VaxOp("ASHL", 0x78, "bll"))
    case 0x79 => Some(VaxOp("ASHQ", 0x79, "bqq"))
    case 0x7a => Some(VaxOp("EMUL", 0x7a, "lllq"))
    case 0x7b => Some(VaxOp("EDIV", 0x7b, "lqll"))
    case 0x7c => Some(VaxOp("CLRD", 0x7c, "d"))
    case 0x7d => Some(VaxOp("MOVQ", 0x7d, "qq"))
    case 0x7e => Some(VaxOp("MOVAQ", 0x7e, "ql"))
    case 0x7f => Some(VaxOp("PUSHAQ", 0x7f, "q"))
    case _ => None
  }

  function Row8(code: int): (r: Option<Op>)
    ensures r.Some? ==> r.value.code == code
  {
    match code
    case 0x80 => Some(VaxOp("ADDB2", 0x80, "bb"))
    case 0x81 => Some(VaxOp("ADDB3", 0x81, "bbb"))
    case 0x82 => Some(VaxOp("SUBB2", 0x82, "bb"))
    case 0x83 => Some(VaxOp("SUBB3", 0x83, "bbb"))
    case 0x84 => Some(VaxOp("MULB2", 0x84, "bb"))
    case 0x85 => Some(VaxOp("MULB3", 0x85, "bbb"))
    case 0x86 => Some(VaxOp("DIVB2", 0x86, "bb"))
    case 0x87 => Some(VaxOp("DIVB3", 0x87, "bbb"))
    case 0x88 => Some(VaxOp("BISB2", 0x88, "bb"))
    case 0x89 => Some(VaxOp("BISB3", 0x89, "bbb"))
    case 0x8a => Some(VaxOp("BICB2", 0x8a, "bb"))
    case 0x8b => Some(VaxOp("BICB3", 0x8b, "bbb"))
    case 0x8c => Some(VaxOp("XORB2", 0x8c, "bb"))
    case 0x8d => Some(VaxOp("XORB3", 0x8d, "bbb"))
    case 0x8e => Some(VaxOp("MNEGB", 0x8e, "bb"))
    case 0x8f => Some(VaxOp("CASEB", 0x8f, "bbb"))
    case _ => None
  }

  function Row9(code: int): (r: Option<Op>)
    ensures r.Some? ==> r.value.code == code
  {
    match code
    case 0x90 => Some(VaxOp("MOVB", 0x90, "bb"))
    case 0x91 => Some(VaxOp("CMPB", 0x91, "bb"))
    case 0x92 => Some(VaxOp("MCOMB", 0x92, "bb"))
    case 0x93 => Some(VaxOp("BITB", 0x93, "bb"))
    case 0x94 => Some(VaxOp("CLRB", 0x94, "b"))
    case 0x95 => Some(VaxOp("TSTB", 0x95, "b"))
    case 0x96 => Some(VaxOp("INCB", 0x96, "b"))
    case 0x97 => Some(VaxOp("DECB", 0x97, "b"))
    case 0x98 => Some(VaxOp("CVTBL", 0x98, "bl"))
    case 0x99 => Some(VaxOp("CVTBW", 0x99, "bw"))
    case 0x9a => Some(VaxOp("MOVZBL", 0x9a, "bl"))
    case 0x9b => Some(VaxOp("MOVZBW", 0x9b, "bw"))
    case 0x9c => Some(VaxOp("ROTL", 0x9c, "bll"))
    case 0x9d => Some(VaxOp("ACBB", 0x9d, "bbb2"))
    case 0x9e => Some(VaxOp("MOVAB", 0x9e, "bl"))
    case 0x9f => Some(VaxOp("PUSHAB", 0x9f, "b"))
    case _ => None
  }

  function RowA(code: int): (r: Option<Op>)
    ensures r.Some? ==> r.value.code == code
  {
    match code
    case 0xa0 => Some(VaxOp("ADDW2", 0xa0, "ww"))
    case 0xa1 => Some(VaxOp("ADDW3", 0xa1, "www"))
    case 0xa2 => Some(VaxOp("SUBW2", 0xa2, "ww"))
    case 0xa3 => Some(VaxOp("SUBW3", 0xa3, "www"))
    case 0xa4 => Some(VaxOp("MULW2", 0xa4, "ww"))
    case 0xa5 => Some(VaxOp("MULW3", 0xa5, "www"))
    case 0xa6 => Some(VaxOp("DIVW2", 0xa6, "ww"))
    case 0xa7 => Some(VaxOp("DIVW3", 0xa7, "www"))
    case 0xa8 => Some(VaxOp("BISW2", 0xa8, "ww"))
    case 0xa9 => Some(VaxOp("BISW3", 0xa9, "www"))
    case 0xaa => Some(VaxOp("BICW2", 0xaa, "ww"))
    case 0xab => Some(VaxOp("BICW3", 0xab, "www"))
    case 0xac => Some(VaxOp("XORW2", 0xac, "ww"))
    case 0xad => Some(VaxOp("XORW3", 0xad, "www"))
    case 0xae => Some(VaxOp("MNEGW", 0xae, "ww"))
    case 0xaf => Some(VaxOp("CASEW", 0xaf, "www"))
    case _ => None
  }

  function RowB(code: int): (r: Option<Op>)
    ensures r.Some? ==> r.value.code == code
  {
    match code
    case 0xb0 => Some(VaxOp("MOVW", 0xb0, "ww"))
    case 0xb1 => Some(VaxOp("CMPW", 0xb1, "ww"))
    case 0xb2 => Some(VaxOp("MCOMW", 0xb2, "ww"))
    case 0xb3 => Some(VaxOp("BITW", 0xb3, "ww"))
    case 0xb4 => Some(VaxOp("CLRW", 0xb4, "w"))
    case 0xb5 => Some(VaxOp("TSTW", 0xb5, "w"))
    case 0xb6 => Some(VaxOp("INCW", 0xb6, "w"))
    case 0xb7 => Some(VaxOp("DECW", 0xb7, "w"))
    case 0xb8 => Some(VaxOp("BISPSW", 0xb8, "w"))
    case 0xb9 => Some(VaxOp("BICPSW", 0xb9, "w"))
    case 0xba => Some(VaxOp("POPR", 0xba, "w"))
    case 0xbb => Some(VaxOp("PUSHR", 0xbb, "w"))
    case 0xbc => Some(VaxOp("CHMK", 0xbc, "w"))
    case 0xbd => Some(VaxOp("CHME", 0xbd, "w"))
    case 0xbe => Some(VaxOp("CHMS", 0xbe, "w"))
    case 0xbf => Some(VaxOp("CHMU", 0xbf, "w"))
    case _ => None
  }

  function RowC(code: int): (r: Option<Op>)
    ensures r.Some? ==> r.value.code == code
  {
    match code
    case 0xc0 => Some(VaxOp("ADDL2", 0xc0, "ll"))
    case 0xc1 => Some(VaxOp("ADDL3", 0xc1, "lll"))
    case 0xc2 => Some(VaxOp("SUBL2", 0xc2, "ll"))
    case 0xc3 => Some(VaxOp("SUBL3", 0xc3, "lll"))
    case 0xc4 => Some(VaxOp("MULL2", 0xc4, "ll"))
    case 0xc5 => Some(VaxOp("MULL3", 0xc5, "lll"))
    case 0xc6 => Some(VaxOp("DIVL2", 0xc6, "ll"))
    case 0xc7 => Some(VaxOp("DIVL3", 0xc7, "lll"))
    case 0xc8 => Some(VaxOp("BISL2", 0xc8, "ll"))
    case 0xc9 => Some(VaxOp("BISL3", 0xc9, "lll"))
    case 0xca => Some(VaxOp("BICL2", 0xca, "ll"))
    case 0xcb => Some(VaxOp("BICL3", 0xcb, "lll"))
    case 0xcc => Some(VaxOp("XORL2", 0xcc, "ll"))
    case 0xcd => Some(VaxOp("XORL3", 0xcd, "lll"))
    case 0xce => Some(VaxOp("MNEGL", 0xce, "ll"))
    case 0xcf => Some(VaxOp("CASEL", 0xcf, "lll"))
    case _ => None
  }

  function RowD(code: int): (r: Option<Op>)
    ensures r.Some? ==> r.value.code == code
  {
    match code
    case 0xd0 => Some(VaxOp("MOVL", 0xd0, "ll"))
    case 0xd1 => Some(VaxOp("CMPL", 0xd1, "ll"))
    case 0xd2 => Some(VaxOp("MCOML", 0xd2, "ll"))
    case 0xd3 => Some(VaxOp("BITL", 0xd3, "ll"))
    case 0xd4 => Some(VaxOp("CLRF", 0xd4, "f"))
    case 0xd5 => Some(VaxOp("TSTL", 0xd5, "l"))
    case 0xd6 => Some(VaxOp("INCL", 0xd6, "l"))
    case 0xd7 => Some(VaxOp("DECL", 0xd7, "l"))
    case 0xd8 => Some(VaxOp("ADWC", 0xd8, "ll"))
    case 0xd9 => Some(VaxOp("SBWC", 0xd9, "ll"))
    case 0xda => Some(VaxOp("MTPR", 0xda, "ll"))
    case 0xdb => Some(VaxOp("MFPR", 0xdb, "ll"))
    case 0xdc => Some(VaxOp("MOVPSL", 0xdc, "l"))
    case 0xdd => Some(VaxOp("PUSHL", 0xdd, "l"))
    case 0xde => Some(VaxOp("MOVAL", 0xde, "ll"))
    case 0xdf => Some(VaxOp("PUSHAL", 0xdf, "l"))
    case _ => None
  }

  function RowE(code: int): (r: Option<Op>)
    ensures r.Some? ==> r.value.code == code
  {
    match code
    case 0xe0 => Some(VaxOp("BBS", 0xe0, "lb1"))
    case 0xe1 => Some(VaxOp("BBC", 0xe1, "lb1"))
    case 0xe2 => Some(VaxOp("BBSS", 0xe2, "lb1"))
    case 0xe3 => Some(VaxOp("BBCS", 0xe3, "lb1"))
    case 0xe4 => Some(VaxOp("BBSC", 0xe4, "lb1"))
    case 0xe5 => Some(VaxOp("BBCC", 0xe5, "lb1"))
    case 0xe6 => Some(VaxOp("BBSSI", 0xe6, "lb1"))
    case 0xe7 => Some(VaxOp("BBCCI", 0xe7, "lb1"))
    case 0xe8 => Some(VaxOp("BLBS", 0xe8, "l1"))
    case 0xe9 => Some(VaxOp("BLBC", 0xe9, "l1"))
    case 0xea => Some(VaxOp("FFS", 0xea, "lbbl"))
    case 0xeb => Some(VaxOp("FFC", 0xeb, "lbbl"))
    case 0xec => Some(VaxOp("CMPV", 0xec, "lbbl"))
    case 0xed => Some(VaxOp("CMPZV", 0xed, "lbbl"))
    case 0xee => Some(VaxOp("EXTV", 0xee, "lbbl"))
    case 0xef => Some(VaxOp("EXTZV", 0xef, "lbbl"))
    case _ => None
  }

  function RowF(code: int): (r: Option<Op>)
    ensures r.Some? ==> r.value.code == code
  {
    match code
    case 0xf0 => Some(VaxOp("INSV", 0xf0, "llbb"))
    case 0xf1 => Some(VaxOp("ACBL", 0xf1, "lll2"))
    case 0xf2 => Some(VaxOp("AOBLSS", 0xf2, "ll1"))
    case 0xf3 => Some(VaxOp("AOBLEQ", 0xf3, "ll1"))
    case 0xf4 => Some(VaxOp("SOBGEQ", 0xf4, "l1"))
    case 0xf5 => Some(VaxOp("SOBGTR", 0xf5, "l1"))
    case 0xf6 => Some(VaxOp("CVTLB", 0xf6, "lb"))
    case 0xf7 => Some(VaxOp("CVTLW", 0xf7, "lw"))
    case 0xf8 => Some(VaxOp("ASHP", 0xf8, "bwbbwb"))
    case 0xf9 => Some(VaxOp("CVTLP", 0xf9, "lwb"))
    case 0xfa => Some(VaxOp("CALLG", 0xfa, "bb"))
    case 0xfb => Some(VaxOp("CALLS", 0xfb, "lb"))
    case 0xfc => Some(VaxOp("XFC", 0xfc, ""))
    case _ => None
  }

  function RowFD3(code: int): (r: Option<Op>)
    ensures r.Some? ==> r.value.code == code
  {
    match code
    case 0xfd32 => Some(VaxOp("CVTDH", 0xfd32, "dh"))
    case 0xfd33 => Some(VaxOp("CVTGF", 0xfd33, "gh"))
    case _ => None
  }

  function RowFD4(code: int): (r: Option<Op>)
    ensures r.Some? ==> r.value.code == code
  {
    match code
    case 0xfd40 => Some(VaxOp("ADDG2", 0xfd40, "gg"))
    case 0xfd41 => Some(VaxOp("ADDG3", 0xfd41, "ggg"))
    case 0xfd42 => Some(VaxOp("SUBG2", 0xfd42, "gg"))
    case 0xfd43 => Some(VaxOp("SUBG3", 0xfd43, "ggg"))
    case 0xfd44 => Some(VaxOp("MULG2", 0xfd44, "gg"))
    case 0xfd45 => Some(VaxOp("MULG3", 0xfd45, "ggg"))
    case 0xfd46 => Some(VaxOp("DIVG2", 0xfd46, "gg"))
    case 0xfd47 => Some(VaxOp("DIVG3", 0xfd47, "ggg"))
    case 0xfd48 => Some(VaxOp("CVTGB", 0xfd48, "gb"))
    case 0xfd49 => Some(VaxOp("CVTGW", 0xfd49, "gw"))
    case 0xfd4a => Some(VaxOp("CVTGL", 0xfd4a, "gl"))
    case 0xfd4b => Some(VaxOp("CVTRGL", 0xfd4b, "gl"))
    case 0xfd4c => Some(VaxOp("CVTBG", 0xfd4c, "bg"))
    case 0xfd4d => Some(VaxOp("CVTWG", 0xfd4d, "wg"))
    case 0xfd4e => Some(VaxOp("CVTLG", 0xfd4e, "lg"))
    case 0xfd4f => Some(VaxOp("ACBG", 0xfd4f, "ggg2"))
    case _ => None
  }

  function RowFD5(code: int): (r: Option<Op>)
    ensures r.Some? ==> r.value.code == code
  {
    match code
    case 0xfd50 => Some(VaxOp("MOVG", 0xfd50, "gg"))
    case 0xfd51 => Some(VaxOp("CMPG", 0xfd51, "gg"))
    case 0xfd52 => Some(VaxOp("MNEGG", 0xfd52, "gg"))
    case 0xfd53 => Some(VaxOp("TSTG", 0xfd53, "g"))
    case 0xfd54 => Some(VaxOp("EMODG", 0xfd54, "gwglg"))
    case 0xfd55 => Some(VaxOp("POLYG", 0xfd55, "gwb"))
    case 0xfd56 => Some(VaxOp("CVTGH", 0xfd56, "gh"))
    case _ => None
  }

  function RowFD6(code: int): (r: Option<Op>)
    ensures r.Some? ==> r.value.code == code
  {
    match code
    case 0xfd60 => Some(VaxOp("ADDH2", 0xfd60, "hh"))
    case 0xfd61 => Some(VaxOp("ADDH3", 0xfd61, "hhh"))
    case 0xfd62 => Some(VaxOp("SUBH2", 0xfd62, "hh"))
    case 0xfd63 => Some(VaxOp("SUBH3", 0xfd63, "hhh"))
    case 0xfd64 => Some(VaxOp("MULH2", 0xfd64, "hh"))
    case 0xfd65 => Some(VaxOp("MULH3", 0xfd65, "hhh"))
    case 0xfd66 => Some(VaxOp("DIVH2", 0xfd66, "hh"))
    case 0xfd67 => Some(VaxOp("DIVH3", 0xfd67, "hhh"))
    case 0xfd68 => Some(VaxOp("CVTHB", 0xfd68, "hb"))
    case 0xfd69 => Some(VaxOp("CVTHW", 0xfd69, "hw"))
    case 0xfd6a => Some(VaxOp("CVTHL", 0xfd6a, "hl"))
    case 0xfd6b => Some(VaxOp("CVTRHL", 0xfd6b, "hl"))
    case 0xfd6c => Some(VaxOp("CVTBH", 0xfd6c, "bh"))
    case 0xfd6d => Some(VaxOp("CVTWH", 0xfd6d, "wh"))
    case 0xfd6e => Some(VaxOp("CVTLH", 0xfd6e, "lh"))
    case 0xfd6f => Some(VaxOp("ACBH", 0xfd6f, "hhh2"))
    case _ => None
  }

  function RowFD7(code: int): (r: Option<Op>)
    ensures r.Some? ==> r.value.code == code
  {
    match code
    case 0xfd70 => Some(VaxOp("MOVH", 0xfd70, "hh"))
    case 0xfd71 => Some(VaxOp("CMPH", 0xfd71, "hh"))
    case 0xfd72 => Some(VaxOp("MNEGH", 0xfd72, "hh"))
    case 0xfd73 => Some(VaxOp("TSTH", 0xfd73, "h"))
    case 0xfd74 => Some(VaxOp("EMODH", 0xfd74, "hwhlh"))
    case 0xfd75 => Some(VaxOp("POLYH", 0xfd75, "hwb"))
    case 0xfd76 => Some(VaxOp("CVTHG", 0xfd76, "hg"))
    case 0xfd7c => Some(VaxOp("CLRH", 0xfd7c, "h"))
    case 0xfd7d => Some(VaxOp("MOVO", 0xfd7d, "oo"))
    case 0xfd7e => Some(VaxOp("MOVAH", 0xfd7e, "hl"))
    case 0xfd7f => Some(VaxOp("PUSHAH", 0xfd7f, "h"))
    case _ => None
  }

  function RowFD9(code: int): (r: Option<Op>)
    ensures r.Some? ==> r.value.code == code
  {
    match code
    case 0xfd98 => Some(VaxOp("CVTFH", 0xfd98, "fh"))
    case 0xfd99 => Some(VaxOp("CVTFG", 0xfd99, "fg"))
    case _ => None
  }

  function RowFDF(code: int): (r: Option<Op>)
    ensures r.Some? ==> r.value.code == code
  {
    match code
    case 0xfdf6 => Some(VaxOp("CVTHF", 0xfdf6, "hf"))
    case 0xfdf7 => Some(VaxOp("CVTHD", 0xfdf7, "hd"))
    case _ => None
  }

  function RowFFF(code: int): (r: Option<Op>)
    ensures r.Some? ==> r.value.code == code
  {
    match code
    case 0xfffd => Some(VaxOp("BUGL", 0xfffd, "l"))
    case 0xfffe => Some(VaxOp("BUGW", 0xfffe, "w"))
    case _ => None
  }

  /** Neither 0xfd nor 0xff has a one-byte entry, so both lead the opcode
      fetch to a second byte and to the 0xfdxx and 0xffxx entries. */
  lemma EscapeBytesUnassigned()
    ensures Lookup(0xfd) == None && Lookup(0xff) == None
  {
    LookupEntry(0xfd);
    LookupEntry(0xff);
  }

  /** Every two-byte codepoint in the table has a high byte without a
      one-byte entry, so the opcode fetch reaches it. */
  lemma TwoByteEntriesReachable(c: int)
    requires Lookup(c).Some? && c >= 0x100
    ensures c / 0x100 == 0xfd || c / 0x100 == 0xff
    ensures Lookup(c / 0x100) == None
  {
    LookupEntry(c);
    EscapeBytesUnassigned();
    var h := c / 16;
    assert h == 0xFD3 || h == 0xFD4 || h == 0xFD5 || h == 0xFD6 || h == 0xFD7
      || h == 0xFD9 || h == 0xFDF || h == 0xFFF;
    assert c / 0x100 == h / 16;
  }
}
