/** The operand decoder of src/VaxDisasm.java (generateOprStr,
    generateOprImmStr, getSize, getSuffix) as functions of the address space
    `m` and the program counter: each returns the decoded operand and the
    program counter after its bytes, or the fault Java would throw. */
module Operand {
  import opened Wrappers
  import opened Memory
  import opened OpTable
  import opened HexFormat

  /** Index of the program counter in the register file. */
  const PC: int := 15

  type RegNum = r: int | 0 <= r < 16

  /** `regLabel`: register 12 is ap, 13 fp, 14 sp and 15 pc. */
  const REG_LABEL: seq<string> :=
    ["r0", "r1", "r2", "r3", "r4", "r5", "r6", "r7", "r8", "r9", "r10", "r11", "ap", "fp", "sp", "pc"]

  /** A register label is one short word. */
  lemma LabelOneLine(r: RegNum)
    ensures '\n' !in REG_LABEL[r]
  {
  }

  /** `getSize`: the byte width of an operand type. */
  function GetSize(c: char): (n: nat)
    requires IsDataTag(c)
    ensures n in {1, 2, 4, 8, 16}
    ensures n >= 8 <==> c in "qodgh"
  {
    match c
    case 'b' => 1
    case 'w' => 2
    case 'l' => 4
    case 'q' => 8
    case 'o' => 16
    case 'f' => 4
    case 'd' => 8
    case 'g' => 8
    case 'h' => 16
  }

  /** `getSuffix`: the floating-format note appended to literals. */
  function GetSuffix(c: char): (s: string)
    requires IsDataTag(c)
    ensures s != "" <==> c in "fdgh"
  {
    match c
    case 'f' => " [f-float]"
    case 'd' => " [d-float]"
    case 'g' => " [g-float]"
    case 'h' => " [h-float]"
    case _ => ""
  }

  /** A read that failed because it ran past the end of an address space
      of `len` bytes. */
  predicate PastEnd(f: Fault, len: nat) {
    f.OutOfBounds? && f.addr + f.size > len
  }

  /** `fetchMem(size)`: the fetched value and the advanced program counter,
      or the out-of-bounds fault of Memory.fetch. */
  function Take(m: seq<Byte>, pc: nat, size: nat): (r: Result<(Word, nat)>)
    ensures r.Ok? <==> pc + size <= |m|
    ensures r.Ok? ==> r.value.1 == pc + size
    ensures r.Err? ==> r.fault == OutOfBounds(pc, size)
  {
    if pc + size <= |m| then Ok((FetchValue(m, pc, size), pc + size))
    else Err(OutOfBounds(pc, size))
  }

  /** `v < 0x80 ? v : v | 0xffffff00` for a byte v: the low byte is v and
      the 24 bits above it copy its sign bit. */
  function Ext8(v: int): (r: Word)
    requires 0 <= v < 0x100
    ensures r % 0x100 == v
    ensures r / 0x100 == if v < 0x80 then 0 else 0xff_ffff
  {
    if v < 0x80 then v else v + 0xffff_ff00
  }

  /** `v < 0x8000 ? v : v | 0xffff0000` for a 16-bit v: the low half is v
      and the 16 bits above it copy its sign bit. */
  function Ext16(v: int): (r: Word)
    requires 0 <= v < 0x1_0000
    ensures r % 0x1_0000 == v
    ensures r / 0x1_0000 == if v < 0x8000 then 0 else 0xffff
  {
    if v < 0x8000 then v else v + 0xffff_0000
  }

  /** The two's-complement value of a `size`-byte quantity. */
  function Signed(v: int, size: nat): int {
    if v < Pow256(size) / 2 then v else v - Pow256(size)
  }

  /** A displacement of `size` (1, 2 or 4) bytes, sign-extended to 32 bits. */
  function TakeDisplacement(m: seq<Byte>, pc: nat, size: nat): (r: Result<(Word, nat)>)
    requires size == 1 || size == 2 || size == 4
    ensures r.Ok? <==> pc + size <= |m|
    ensures r.Ok? ==> r.value.1 == pc + size
    ensures r.Err? ==> r.fault == OutOfBounds(pc, size)
  {
    match Take(m, pc, size)
    case Err(f) => Err(f)
    case Ok((v, q)) =>
      FetchExact(m, pc, size);
      if size == 1 then Ok((Ext8(v), q))
      else if size == 2 then Ok((Ext16(v), q))
      else Ok((v, q))
  }

  /** A decoded operand, before rendering. PC-relative targets are already
      resolved, as the source does, from the program counter after the
      displacement. */
  datatype Operand =
    | Literal(short: nat, suffix: string)
    | Indexed(base: Operand, index: RegNum)
    | Register(r: RegNum)
    | RegisterDeferred(r: RegNum)
    | Autodecrement(r: RegNum)
    | Autoincrement(r: RegNum)
    | Immediate(value: Word, size: nat, suffix: string)
    | AutoincrementDeferred(r: RegNum)
    | Absolute(addr: Word)
    | Displacement(deferred: bool, disp: Word, r: RegNum)
    | PcRelative(deferred: bool, target: Word)
    | BranchTarget(target: Word)

  /** The displacement TakeDisplacement yields from the fetched value v:
      a byte or a halfword sign-extended to 32 bits, a longword as it is. */
  lemma DisplacementFetched(m: seq<Byte>, p: nat, size: nat, v: Word)
    requires size == 1 || size == 2 || size == 4
    requires p + size <= |m| && v == FetchValue(m, p, size)
    ensures size == 1 ==> v < 0x100 && TakeDisplacement(m, p, size) == Ok((Ext8(v), p + 1))
    ensures size == 2 ==> v < 0x1_0000 && TakeDisplacement(m, p, size) == Ok((Ext16(v), p + 2))
    ensures size == 4 ==> TakeDisplacement(m, p, size) == Ok((v, p + 4))
  {
    if size == 1 {
      FetchByte(m, p);
    } else if size == 2 {
      FetchHalf(m, p);
    }
  }

  /** The displacement modes: `disp(reg)`, or for the program counter the
      absolute target `(disp + pc) & 0xffffffff`. */
  function DisplacementOperand(deferred: bool, r: RegNum, disp: Word, pcAfter: nat): Operand {
    if r == PC then PcRelative(deferred, (disp + pcAfter) % WORD_MOD)
    else Displacement(deferred, disp, r)
  }

  /** The six displacement branches: fetch, sign-extend, build the operand. */
  function DecodeDisplacement(m: seq<Byte>, p: nat, size: nat, deferred: bool, reg: RegNum): (r: Result<(Operand, nat)>)
    requires size == 1 || size == 2 || size == 4
    ensures r.Ok? <==> p + size <= |m|
    ensures r.Ok? ==> r.value.1 == p + size
    ensures r.Err? ==> r.fault == OutOfBounds(p, size)
  {
    match TakeDisplacement(m, p, size)
    case Err(f) => Err(f)
    case Ok((disp, q)) => Ok((DisplacementOperand(deferred, reg, disp, q), q))
  }

  function Star(deferred: bool): string {
    if deferred then "*" else ""
  }

  /** The text generateOprStr / generateOprImmStr return for an operand. */
  function Render(o: Operand): string {
    match o
    case Literal(v, sfx) => "$" + Alt(v) + sfx
    case Indexed(base, x) => Render(base) + "[" + REG_LABEL[x] + "]"
    case Register(r) => REG_LABEL[r]
    case RegisterDeferred(r) => "(" + REG_LABEL[r] + ")"
    case Autodecrement(r) => "-(" + REG_LABEL[r] + ")"
    case Autoincrement(r) => "(" + REG_LABEL[r] + ")+"
    case Immediate(v, size, sfx) => "$" + AltPadded(v, size * 2 + 2) + sfx
    case AutoincrementDeferred(r) => "@(" + REG_LABEL[r] + ")+"
    case Absolute(a) => "*" + Alt(a)
    case Displacement(d, disp, r) => Star(d) + Alt(disp) + "(" + REG_LABEL[r] + ")"
    case PcRelative(d, t) => Star(d) + Alt(t)
    case BranchTarget(t) => Alt(t)
  }

  /** The suffixes an operand carries hold no line break. */
  predicate SuffixOneLine(o: Operand) {
    match o
    case Literal(_, sfx) => '\n' !in sfx
    case Immediate(_, _, sfx) => '\n' !in sfx
    case Indexed(base, _) => SuffixOneLine(base)
    case _ => true
  }

  /** An operand's text is a single line unless a suffix breaks it. */
  lemma {:induction false} RenderOneLine(o: Operand)
    requires SuffixOneLine(o)
    ensures '\n' !in Render(o)
  {
    match o
    case Literal(v, _) => NumeralsOneLine(v, 0);
    case Indexed(base, x) => RenderOneLine(base); LabelOneLine(x);
    case Register(r) => LabelOneLine(r);
    case RegisterDeferred(r) => LabelOneLine(r);
    case Autodecrement(r) => LabelOneLine(r);
    case Autoincrement(r) => LabelOneLine(r);
    case Immediate(v, size, _) => NumeralsOneLine(v, size * 2 + 2);
    case AutoincrementDeferred(r) => LabelOneLine(r);
    case Absolute(a) => NumeralsOneLine(a, 0);
    case Displacement(_, disp, r) => NumeralsOneLine(disp, 0); LabelOneLine(r);
    case PcRelative(_, t) => NumeralsOneLine(t, 0);
    case BranchTarget(t) => NumeralsOneLine(t, 0);
  }

  /** generateOprStr(tag): one general operand at pc. The mode byte is
      classified by range; the last branch (IllegalStateException in the
      source) is unreachable because a fetched byte lies in 0..0xff. */
  function DecodeGeneral(m: seq<Byte>, pc: nat, tag: char): (r: Result<(Operand, nat)>)
    requires IsDataTag(tag)
    ensures r.Ok? ==> pc < r.value.1 <= |m|
    ensures r.Err? ==> PastEnd(r.fault, |m|)
    decreases |m| - pc
  {
    match Take(m, pc, 1)
    case Err(f) => Err(f)
    case Ok((val, p)) =>
      FetchByte(m, pc);
      var reg: RegNum := val % 16;
      if 0x00 <= val <= 0x3f then
        Ok((Literal(val, GetSuffix(tag)), p))
      else if 0x40 <= val <= 0x4f then
        match DecodeGeneral(m, p, tag)
        case Err(f) => Err(f)
        case Ok((base, q)) => Ok((Indexed(base, reg), q))
      else if 0x50 <= val <= 0x5f then
        Ok((Register(reg), p))
      else if 0x60 <= val <= 0x6f then
        Ok((RegisterDeferred(reg), p))
      else if 0x70 <= val <= 0x7f then
        Ok((Autodecrement(reg), p))
      else if 0x80 <= val <= 0x8e then
        Ok((Autoincrement(reg), p))
      else if val == 0x8f then
        match Take(m, p, GetSize(tag))
        case Err(f) => Err(f)
        case Ok((v, q)) => Ok((Immediate(v, GetSize(tag), GetSuffix(tag)), q))
      else if 0x90 <= val <= 0x9e then
        Ok((AutoincrementDeferred(reg), p))
      else if val == 0x9f then
        match Take(m, p, 4)
        case Err(f) => Err(f)
        case Ok((v, q)) => Ok((Absolute(v), q))
      else if 0xa0 <= val <= 0xaf then
        DecodeDisplacement(m, p, 1, false, reg)
      else if 0xb0 <= val <= 0xbf then
        DecodeDisplacement(m, p, 1, true, reg)
      else if 0xc0 <= val <= 0xcf then
        DecodeDisplacement(m, p, 2, false, reg)
      else if 0xd0 <= val <= 0xdf then
        DecodeDisplacement(m, p, 2, true, reg)
      else if 0xe0 <= val <= 0xef then
        DecodeDisplacement(m, p, 4, false, reg)
      else if 0xf0 <= val <= 0xff then
        DecodeDisplacement(m, p, 4, true, reg)
      else
        assert false; Err(OutOfBounds(pc, 1))
  }

  /** generateOprImmStr(tag): a branch displacement of one ('1') or two ('2')
      bytes, rendered as the absolute target. */
  function DecodeBranch(m: seq<Byte>, pc: nat, tag: char): (r: Result<(Operand, nat)>)
    requires IsBranchTag(tag)
    ensures r.Ok? <==> pc + (if tag == '1' then 1 else 2) <= |m|
    ensures r.Ok? ==> r.value.1 == pc + (if tag == '1' then 1 else 2) && r.value.0.BranchTarget?
    ensures r.Err? ==> PastEnd(r.fault, |m|)
  {
    match TakeDisplacement(m, pc, if tag == '1' then 1 else 2)
    case Err(f) => Err(f)
    case Ok((disp, q)) => Ok((BranchTarget((disp + q) % WORD_MOD), q))
  }

  /** Bytes a general operand occupies, by the range of its mode byte; for
      an indexed operand (0x40..0x4f) only the index byte, its base follows. */
  function ModeLength(val: Byte, tag: char): nat
    requires IsDataTag(tag)
  {
    if val <= 0x7f then 1          // literal, indexed, register, deferred, autodecrement
    else if val == 0x8f then 1 + GetSize(tag)   // immediate
    else if val <= 0x9e then 1     // autoincrement, autoincrement deferred
    else if val == 0x9f then 5     // absolute
    else if val <= 0xbf then 2     // byte displacement
    else if val <= 0xdf then 3     // word displacement
    else 5                         // longword displacement
  }

  /** The decoder consumes exactly the bytes the addressing-mode table
      gives, and fails exactly when they run past the end of memory; an
      indexed operand is its base, decoded with the same tag one byte on. */
  lemma ModeTable(m: seq<Byte>, pc: nat, tag: char)
    requires IsDataTag(tag) && pc < |m|
    ensures var r := DecodeGeneral(m, pc, tag);
      !(0x40 <= m[pc] <= 0x4f) ==>
        (r.Ok? <==> pc + ModeLength(m[pc], tag) <= |m|) &&
        (r.Ok? ==> r.value.1 == pc + ModeLength(m[pc], tag))
    ensures var r := DecodeGeneral(m, pc, tag);
      0x40 <= m[pc] <= 0x4f ==>
        r == match DecodeGeneral(m, pc + 1, tag)
             case Err(f) => Err(f)
             case Ok((base, q)) => Ok((Indexed(base, m[pc] % 16), q))
  {
    FetchByte(m, pc);
  }

  /** The addressing mode each mode byte selects, and its register field. */
  lemma ModeKinds(m: seq<Byte>, pc: nat, tag: char)
    requires IsDataTag(tag) && pc < |m| && m[pc] < 0xa0
    requires DecodeGeneral(m, pc, tag).Ok?
    ensures var (o, _) := DecodeGeneral(m, pc, tag).value; var v := m[pc]; var r := v % 16;
      && (v <= 0x3f ==> o == Literal(v, GetSuffix(tag)))
      && (0x40 <= v <= 0x4f ==> o.Indexed? && o.index == r)
      && (0x50 <= v <= 0x5f ==> o == Register(r))
      && (0x60 <= v <= 0x6f ==> o == RegisterDeferred(r))
      && (0x70 <= v <= 0x7f ==> o == Autodecrement(r))
      && (0x80 <= v <= 0x8e ==> o == Autoincrement(r))
      && (v == 0x8f ==> o.Immediate? && o.size == GetSize(tag) && o.suffix == GetSuffix(tag))
      && (0x90 <= v <= 0x9e ==> o == AutoincrementDeferred(r))
      && (v == 0x9f ==> o == Absolute(FetchValue(m, pc + 1, 4)))
  {
    FetchByte(m, pc);
  }

  /** A decoded general operand carries only getSuffix's suffixes, so its
      text is a single line. */
  lemma {:induction false} GeneralOneLine(m: seq<Byte>, pc: nat, tag: char)
    requires IsDataTag(tag)
    ensures DecodeGeneral(m, pc, tag).Ok? ==> '\n' !in Render(DecodeGeneral(m, pc, tag).value.0)
  {
    GeneralSuffixes(m, pc, tag);
    if DecodeGeneral(m, pc, tag).Ok? {
      RenderOneLine(DecodeGeneral(m, pc, tag).value.0);
    }
  }

  /** The only suffixes a general operand carries are getSuffix's, through
      any number of index prefixes. */
  lemma {:induction false} GeneralSuffixes(m: seq<Byte>, pc: nat, tag: char)
    requires IsDataTag(tag)
    ensures DecodeGeneral(m, pc, tag).Ok? ==> SuffixOneLine(DecodeGeneral(m, pc, tag).value.0)
    decreases |m| - pc
  {
    var d := DecodeGeneral(m, pc, tag);
    if d.Ok? {
      var v := m[pc];
      if 0x40 <= v <= 0x4f {
        ModeTable(m, pc, tag);
        GeneralSuffixes(m, pc + 1, tag);
      } else if v < 0xa0 {
        ModeKinds(m, pc, tag);
      } else {
        ModeTable(m, pc, tag);
        DisplacementTarget(m, pc, tag);
      }
    }
  }

  lemma SignedWrap(v: int, size: nat)
    requires size == 1 || size == 2 || size == 4
    requires 0 <= v < Pow256(size)
    ensures (if size == 1 then Ext8(v) else if size == 2 then Ext16(v) else v)
            == Signed(v, size) % WORD_MOD
  {
    assert Pow256(1) == 0x100;
    assert Pow256(2) == 0x1_0000;
    assert Pow256(4) == WORD_MOD;
    if Signed(v, size) < 0 {
      ModAddMultiple(Signed(v, size), 1);
    }
  }

  /** A fetched displacement is the 32-bit pattern of the two's-complement
      value of its bytes. */
  lemma DisplacementIsSigned(m: seq<Byte>, p: nat, size: nat)
    requires size == 1 || size == 2 || size == 4
    requires p + size <= |m|
    ensures TakeDisplacement(m, p, size).value.0
            == Signed(LittleEndian(m[p..p + size]), size) % WORD_MOD
  {
    FetchExact(m, p, size);
    SignedWrap(LittleEndian(m[p..p + size]), size);
  }

  /** Adding a 32-bit pattern is adding the signed value, modulo 2^32. */
  lemma AddWrapped(d: int, q: nat)
    ensures (d % WORD_MOD + q) % WORD_MOD == (q + d) % WORD_MOD
  {
    var k := d / WORD_MOD;
    assert d == WORD_MOD * k + d % WORD_MOD;
    if k >= 0 {
      ModAddMultiple(d % WORD_MOD + q, k);
    } else {
      ModAddMultiple(q + d, -k);
    }
  }

  // The displacement branches of DecodeGeneral, one lemma per size: the
  // high nibble gives the size and deferral, the low nibble the register.

  lemma DispatchByte(m: seq<Byte>, pc: nat, tag: char)
    requires IsDataTag(tag) && pc < |m| && 0xa0 <= m[pc] <= 0xbf
    ensures DecodeGeneral(m, pc, tag) == DecodeDisplacement(m, pc + 1, 1, (m[pc] / 16) % 2 == 1, m[pc] % 16)
  {
    FetchByte(m, pc);
  }

  lemma DispatchWord(m: seq<Byte>, pc: nat, tag: char)
    requires IsDataTag(tag) && pc < |m| && 0xc0 <= m[pc] <= 0xdf
    ensures DecodeGeneral(m, pc, tag) == DecodeDisplacement(m, pc + 1, 2, (m[pc] / 16) % 2 == 1, m[pc] % 16)
  {
    FetchByte(m, pc);
  }

  lemma DispatchLong(m: seq<Byte>, pc: nat, tag: char)
    requires IsDataTag(tag) && pc < |m| && 0xe0 <= m[pc]
    ensures DecodeGeneral(m, pc, tag) == DecodeDisplacement(m, pc + 1, 4, (m[pc] / 16) % 2 == 1, m[pc] % 16)
  {
    FetchByte(m, pc);
  }

  lemma DisplacementOperandSigned(m: seq<Byte>, p: nat, size: nat, deferred: bool, reg: RegNum)
    requires size == 1 || size == 2 || size == 4
    requires p + size <= |m|
    ensures var d := Signed(LittleEndian(m[p..p + size]), size);
      DecodeDisplacement(m, p, size, deferred, reg)
      == Ok((if reg == PC then PcRelative(deferred, (p + size + d) % WORD_MOD)
             else Displacement(deferred, d % WORD_MOD, reg), p + size))
  {
    DisplacementIsSigned(m, p, size);
    AddWrapped(Signed(LittleEndian(m[p..p + size]), size), p + size);
  }

  /** Displacement modes (0xa0..0xff): the high nibble selects the size and
      deferral, the low nibble the register. `disp(reg)` carries the
      sign-extended displacement; the program-counter forms (0xaf, 0xbf,
      0xcf, 0xdf, 0xef, 0xff) resolve to the signed displacement plus the
      program counter after the displacement bytes, modulo 2^32. */
  lemma DisplacementTarget(m: seq<Byte>, pc: nat, tag: char)
    requires IsDataTag(tag) && pc < |m| && m[pc] >= 0xa0
    requires pc + ModeLength(m[pc], tag) <= |m|
    ensures var v := m[pc];
      var size := if v <= 0xbf then 1 else if v <= 0xdf then 2 else 4;
      var q := pc + 1 + size;
      var d := Signed(LittleEndian(m[pc + 1..q]), size);
      var deferred := (v / 16) % 2 == 1;
      DecodeGeneral(m, pc, tag)
      == Ok((if v % 16 == PC then PcRelative(deferred, (q + d) % WORD_MOD)
             else Displacement(deferred, d % WORD_MOD, v % 16), q))
  {
    var v := m[pc];
    var size := if v <= 0xbf then 1 else if v <= 0xdf then 2 else 4;
    if v <= 0xbf {
      DispatchByte(m, pc, tag);
    } else if v <= 0xdf {
      DispatchWord(m, pc, tag);
    } else {
      DispatchLong(m, pc, tag);
    }
    DisplacementOperandSigned(m, pc + 1, size, (v / 16) % 2 == 1, v % 16);
  }

  /** Branch operands render the signed displacement plus the program
      counter after it, modulo 2^32. */
  lemma BranchTargetValue(m: seq<Byte>, pc: nat, tag: char)
    requires IsBranchTag(tag)
    requires DecodeBranch(m, pc, tag).Ok?
    ensures var (o, q) := DecodeBranch(m, pc, tag).value;
      o.target == (q + Signed(LittleEndian(m[pc..q]), q - pc)) % WORD_MOD
  {
    var size := if tag == '1' then 1 else 2;
    DisplacementIsSigned(m, pc, size);
    AddWrapped(Signed(LittleEndian(m[pc..pc + size]), size), pc + size);
  }

  lemma ImmediateDispatch(m: seq<Byte>, pc: nat, tag: char)
    requires IsDataTag(tag) && pc < |m| && m[pc] == 0x8f
    requires pc + 1 + GetSize(tag) <= |m|
    ensures DecodeGeneral(m, pc, tag)
            == Ok((Immediate(FetchValue(m, pc + 1, GetSize(tag)), GetSize(tag), GetSuffix(tag)), pc + 1 + GetSize(tag)))
  {
    FetchByte(m, pc);
  }

  /** The 0x8f immediate holds the low (at most four) bytes that follow,
      and shows them zero-padded to exactly twice the operand size in hex
      digits; the program counter moves past all the operand's bytes. */
  lemma ImmediateValue(m: seq<Byte>, pc: nat, tag: char)
    requires IsDataTag(tag) && pc < |m| && m[pc] == 0x8f
    requires pc + 1 + GetSize(tag) <= |m|
    ensures var n := GetSize(tag);
      var shown := if n <= 4 then n else 4;
      var v := FetchValue(m, pc + 1, shown);
      var text := AltPadded(v, 2 * n + 2);
      && DecodeGeneral(m, pc, tag) == Ok((Immediate(v, n, GetSuffix(tag)), pc + 1 + n))
      && v == LittleEndian(m[pc + 1..pc + 1 + shown])
      && |text| == 2 * n + 2
      && ParseHex(text[2..]) == v
  {
    var n := GetSize(tag);
    var shown := if n <= 4 then n else 4;
    ImmediateDispatch(m, pc, tag);
    if n > 4 {
      FetchWide(m, pc + 1, n);
    }
    FetchExact(m, pc + 1, shown);
    ImmediateText(LittleEndian(m[pc + 1..pc + 1 + shown]), n);
  }

  /** `%#0<2n+2>x` of a value of at most n bytes (and at most four). */
  lemma ImmediateText(v: nat, n: nat)
    requires n in {1, 2, 4, 8, 16}
    requires v < Pow256(if n <= 4 then n else 4)
    ensures |AltPadded(v, 2 * n + 2)| == 2 * n + 2
    ensures ParseHex(AltPadded(v, 2 * n + 2)[2..]) == v
  {
    assert Pow16(2) == Pow256(1) && Pow16(4) == Pow256(2) && Pow16(8) == Pow256(4);
    assert v < Pow16(2 * n) by {
      if n > 4 {
        Pow16Grows(8, 2 * n);
      }
    }
    AltPaddedExact(v, 2 * n);
  }

  lemma {:induction false} Pow16Grows(j: nat, k: nat)
    requires j <= k
    ensures Pow16(j) <= Pow16(k)
    decreases k - j
  {
    if j < k {
      Pow16Grows(j, k - 1);
    }
  }
}
