/** The disassembler object of src/VaxDisasm.java: sixteen registers of
    which only the program counter moves, a 64 KiB address space, and the
    text and data sizes read from the image header. `disasm` lists one
    instruction per line while the program counter is below the text size. */
module Disasm {
  import opened Wrappers
  import opened Memory
  import opened OpTable
  import opened Operand
  import opened Instruction
  import opened Format
  import opened HexFormat

  const MAX_REG_SIZE: nat := 16
  const MAX_MEM_SIZE: nat := 65536

  /** One generateOpStr call: the listing of the instruction at pc and the
      program counter after it. */
  function Step(m: seq<Byte>, pc: nat): (r: Result<(string, nat)>)
    ensures r.Ok? ==> pc < r.value.1 <= |m|
    ensures r.Err? ==> PastEnd(r.fault, |m|)
  {
    match DecodeInstruction(m, pc)
    case Err(f) => Err(f)
    case Ok((text, q)) => Ok((Listing(pc, m[pc..q], text), q))
  }

  /** The lines disasm prints from pc on, and the fault that cuts it short,
      if one does. Every line takes at least one byte below the text size,
      and the only fault is a read past the end of memory. */
  function Run(m: seq<Byte>, pc: nat, tsize: int): (r: (seq<string>, Option<Fault>))
    requires pc <= |m|
    ensures |r.0| <= |m| - pc
    ensures |r.0| <= (if pc < tsize then tsize - pc else 0)
    ensures r.1.Some? ==> PastEnd(r.1.value, |m|)
    decreases |m| - pc
  {
    if pc >= tsize then ([], None)
    else
      match Step(m, pc)
      case Err(f) => ([], Some(f))
      case Ok((line, q)) =>
        var (rest, fault) := Run(m, q, tsize);
        ([line] + rest, fault)
  }

  /** Step is the decoded instruction's text laid out by Listing over the
      bytes it took. */
  lemma StepListing(m: seq<Byte>, pc: nat, text: string, q: nat, s: string)
    requires DecodeInstruction(m, pc) == Ok((text, q))
    requires s == Listing(pc, Span(m, pc, q - 1), text)
    ensures Step(m, pc) == Ok((s, q))
  {
    assert Span(m, pc, q - 1) == m[pc..q];
  }

  /** Every line disasm prints for an instruction of n bytes spans
      ceil(n / 4) lines of output. */
  lemma StepLines(m: seq<Byte>, pc: nat)
    ensures Step(m, pc).Ok? ==>
      var (s, q) := Step(m, pc).value;
      Newlines(s) + 1 == (q - pc + 3) / 4
  {
    if Step(m, pc).Ok? {
      var (text, q) := DecodeInstruction(m, pc).value;
      InstructionOneLine(m, pc);
      ListingLines(pc, m[pc..q], text);
    }
  }

  /** The bytes from..to of m, none when the range is empty. */
  function Span(m: seq<Byte>, from: int, to: int): (bs: seq<Byte>)
    requires 0 <= from && to < |m|
    ensures |bs| == if from <= to then to + 1 - from else 0
  {
    if from <= to then m[from..to + 1] else []
  }

  lemma SpanAt(m: seq<Byte>, from: int, to: int, k: nat)
    requires 0 <= from && to < |m| && k < |Span(m, from, to)|
    ensures Span(m, from, to)[k] == m[from + k]
  {
  }

  lemma TakeSnoc<T>(s: seq<T>, i: nat)
    requires i < |s|
    ensures s[..i + 1] == s[..i] + [s[i]]
  {
  }

  class VaxDisasm {
    /** `reg`: sixteen 32-bit registers; PC is register 15. */
    const reg: array<int>
    const mem: Memory
    var tsize: int
    var dsize: int

    ghost predicate Valid()
      reads this, reg, mem
    {
      && reg.Length == MAX_REG_SIZE
      && mem.bytes.Length == MAX_MEM_SIZE
      && 0 <= reg[PC] <= MAX_MEM_SIZE
      && (reg as object) != (mem.bytes as object)
    }

    /** The field initialisers: zero registers, a zeroed 64 KiB memory. */
    constructor ()
      ensures Valid() && fresh(reg) && fresh(mem) && fresh(mem.bytes)
      ensures forall i | 0 <= i < MAX_REG_SIZE :: reg[i] == 0
      ensures forall a | 0 <= a < MAX_MEM_SIZE :: mem.bytes[a] == 0
      ensures tsize == 0 && dsize == 0
    {
      reg := new int[MAX_REG_SIZE](_ => 0);
      mem := new Memory(MAX_MEM_SIZE);
      tsize := 0;
      dsize := 0;
    }

    /** load, given the file's bytes: the text and data sizes are the
        little-endian ints at offsets 4 and 8, and everything from offset
        0x20 on is copied to address 0. */
    method Load(raw: seq<Byte>)
      requires Valid()
      requires 0x20 <= |raw| <= 0x20 + MAX_MEM_SIZE
      modifies this, mem.bytes
      ensures Valid()
      ensures tsize == Signed(LittleEndian(raw[4..8]), 4)
      ensures dsize == Signed(LittleEndian(raw[8..12]), 4)
      ensures mem.bytes[..] == raw[0x20..] + old(mem.bytes[..])[|raw| - 0x20..]
      ensures reg[..] == old(reg[..])
    {
      tsize := Signed(LittleEndian(raw[4..8]), 4);
      dsize := Signed(LittleEndian(raw[8..12]), 4);
      mem.Load(raw[0x20..], 0);
      assert mem.bytes[..] == raw[0x20..] + old(mem.bytes[..])[|raw| - 0x20..];
    }

    /** fetchMem: reads `size` bytes at the program counter and moves it past
        them. A read past the end of memory faults and leaves it in place. */
    method FetchMem(size: nat) returns (r: Result<Word>)
      requires Valid()
      modifies reg
      ensures Valid()
      ensures var t := Take(mem.bytes[..], old(reg[PC]), size);
        && (t.Ok? ==> r == Ok(t.value.0) && reg[PC] == t.value.1)
        && (t.Err? ==> r == Err(t.fault) && reg[PC] == old(reg[PC]))
      ensures forall i | 0 <= i < MAX_REG_SIZE && i != PC :: reg[i] == old(reg[i])
    {
      var pc := reg[PC];
      if pc + size <= mem.bytes.Length {
        var v := mem.Fetch(pc, size);
        reg[PC] := pc + size;
        r := Ok(v);
      } else {
        r := Err(OutOfBounds(pc, size));
      }
    }

    /** generateOprStr: one general operand, decoded and rendered as its
        mode byte says. */
    method GenerateOprStr(opr: char) returns (r: Result<string>)
      requires Valid() && IsDataTag(opr)
      modifies reg
      ensures Valid()
      ensures var d := DecodeGeneral(mem.bytes[..], old(reg[PC]), opr);
        && (d.Ok? ==> r == Ok(Render(d.value.0)) && reg[PC] == d.value.1)
        && (d.Err? ==> r == Err(d.fault))
      ensures forall i | 0 <= i < MAX_REG_SIZE && i != PC :: reg[i] == old(reg[i])
      decreases MAX_MEM_SIZE - reg[PC]
    {
      ghost var m, pc0 := mem.bytes[..], reg[PC];
      var t := FetchMem(1);
      if t.Err? {
        return Err(t.fault);
      }
      var val := t.value;
      FetchByte(m, pc0);
      var rn: RegNum := val % 16;
      if 0x00 <= val <= 0x3f {
        r := Ok("$" + Alt(val) + GetSuffix(opr));
      } else if 0x40 <= val <= 0x4f {
        var base := GenerateOprStr(opr);
        if base.Err? {
          return Err(base.fault);
        }
        r := Ok(base.value + "[" + REG_LABEL[rn] + "]");
      } else if 0x50 <= val <= 0x5f {
        r := Ok(REG_LABEL[rn]);
      } else if 0x60 <= val <= 0x6f {
        r := Ok("(" + REG_LABEL[rn] + ")");
      } else if 0x70 <= val <= 0x7f {
        r := Ok("-(" + REG_LABEL[rn] + ")");
      } else if 0x80 <= val <= 0x8e {
        r := Ok("(" + REG_LABEL[rn] + ")+");
      } else if val == 0x8f {
        var n := FetchMem(GetSize(opr));
        if n.Err? {
          return Err(n.fault);
        }
        r := Ok("$" + AltPadded(n.value, GetSize(opr) * 2 + 2) + GetSuffix(opr));
      } else if 0x90 <= val <= 0x9e {
        r := Ok("@(" + REG_LABEL[rn] + ")+");
      } else if val == 0x9f {
        var n := FetchMem(4);
        if n.Err? {
          return Err(n.fault);
        }
        r := Ok("*" + Alt(n.value));
      } else if 0xa0 <= val <= 0xaf {
        r := DisplacementStr(1, false, rn);
      } else if 0xb0 <= val <= 0xbf {
        r := DisplacementStr(1, true, rn);
      } else if 0xc0 <= val <= 0xcf {
        r := DisplacementStr(2, false, rn);
      } else if 0xd0 <= val <= 0xdf {
        r := DisplacementStr(2, true, rn);
      } else if 0xe0 <= val <= 0xef {
        r := DisplacementStr(4, false, rn);
      } else if 0xf0 <= val <= 0xff {
        r := DisplacementStr(4, true, rn);
      } else {
        assert false;
      }
    }

    /** The six displacement branches of generateOprStr, which differ only
        in the displacement size and the `*` of the deferred modes: the
        displacement is sign-extended, and with the program counter as
        register the operand is shown as the absolute target. */
    method DisplacementStr(size: nat, deferred: bool, rn: RegNum) returns (r: Result<string>)
      requires Valid() && (size == 1 || size == 2 || size == 4)
      modifies reg
      ensures Valid()
      ensures var d := DecodeDisplacement(mem.bytes[..], old(reg[PC]), size, deferred, rn);
        && (d.Ok? ==> r == Ok(Render(d.value.0)) && reg[PC] == d.value.1)
        && (d.Err? ==> r == Err(d.fault))
      ensures forall i | 0 <= i < MAX_REG_SIZE && i != PC :: reg[i] == old(reg[i])
    {
      ghost var m, pc0 := mem.bytes[..], reg[PC];
      var t := FetchMem(size);
      if t.Err? {
        return Err(t.fault);
      }
      var nextVal := t.value;
      DisplacementFetched(m, pc0, size, nextVal);
      if size == 1 {
        nextVal := Ext8(nextVal);
      } else if size == 2 {
        nextVal := Ext16(nextVal);
      }
      assert mem.bytes[..] == m;
      var q := reg[PC];
      assert DecodeDisplacement(m, pc0, size, deferred, rn)
        == Ok((DisplacementOperand(deferred, rn, nextVal, q), q));
      var star := Star(deferred);
      if rn == PC {
        r := Ok(star + Alt((nextVal + reg[PC]) % WORD_MOD));
        assert DisplacementOperand(deferred, rn, nextVal, q) == PcRelative(deferred, (nextVal + q) % WORD_MOD);
      } else {
        r := Ok(star + Alt(nextVal) + "(" + REG_LABEL[rn] + ")");
        assert DisplacementOperand(deferred, rn, nextVal, q) == Displacement(deferred, nextVal, rn);
      }
    }

    /** generateOprImmStr: a branch displacement of one or two bytes, shown
        as the target it reaches from the program counter after it. */
    method GenerateOprImmStr(opr: char) returns (r: Result<string>)
      requires Valid() && IsBranchTag(opr)
      modifies reg
      ensures Valid()
      ensures var d := DecodeBranch(mem.bytes[..], old(reg[PC]), opr);
        && (d.Ok? ==> r == Ok(Render(d.value.0)) && reg[PC] == d.value.1)
        && (d.Err? ==> r == Err(d.fault))
      ensures forall i | 0 <= i < MAX_REG_SIZE && i != PC :: reg[i] == old(reg[i])
    {
      ghost var m, pc0 := mem.bytes[..], reg[PC];
      if opr == '1' {
        var t := FetchMem(1);
        if t.Err? {
          return Err(t.fault);
        }
        FetchByte(m, pc0);
        var val := Ext8(t.value);
        r := Ok(Alt((val + reg[PC]) % WORD_MOD));
      } else {
        var t := FetchMem(2);
        if t.Err? {
          return Err(t.fault);
        }
        FetchHalf(m, pc0);
        var val := Ext16(t.value);
        r := Ok(Alt((val + reg[PC]) % WORD_MOD));
      }
    }

    /** generateOprsStr: the operands of an operand string in order, a space
        before the first and a comma before each later one. A character
        that is no operand type faults. */
    method GenerateOprsStr(oprs: string) returns (r: Result<string>)
      requires Valid()
      modifies reg
      ensures Valid()
      ensures var d := DecodeOperands(mem.bytes[..], old(reg[PC]), oprs);
        && (d.Ok? ==> r == Ok(OperandText(d.value.0)) && reg[PC] == d.value.1)
        && (d.Err? ==> r == Err(d.fault))
      ensures forall i | 0 <= i < MAX_REG_SIZE && i != PC :: reg[i] == old(reg[i])
    {
      ghost var m, pc0 := mem.bytes[..], reg[PC];
      ghost var ops: seq<Operand> := [];
      ghost var q := pc0;
      var isFirst := true;
      var sOprs := "";
      var i := 0;
      assert oprs[..0] == [];
      while i < |oprs|
        invariant 0 <= i <= |oprs|
        invariant Valid() && mem.bytes[..] == m
        invariant DecodeOperands(m, pc0, oprs[..i]) == Ok((ops, q))
        invariant reg[PC] == q
        invariant sOprs == OperandText(ops)
        invariant isFirst <==> ops == []
        invariant forall k | 0 <= k < MAX_REG_SIZE && k != PC :: reg[k] == old(reg[k])
      {
        var opr := oprs[i];
        ghost var p := q;
        DecodeOperandsStep(m, pc0, oprs, i, ops, p);
        sOprs := if isFirst then sOprs + " " else sOprs + ",";
        isFirst := false;
        var s := GenerateOperandStr(opr);
        assert mem.bytes[..] == m;
        ghost var d := DecodeOperand(m, p, opr);
        if s.Err? {
          OperandsFaultPersists(m, pc0, oprs, i + 1, s.fault);
          return Err(s.fault);
        }
        var o := d.value.0;
        OperandTextSnoc(ops, o);
        assert d.Ok?;
        ops, q := ops + [o], d.value.1;
        sOprs := sOprs + s.value;
        i := i + 1;
      }
      assert oprs[..i] == oprs;
      r := Ok(sOprs);
    }

    /** The switch of generateOprsStr for one operand-type character: a
        general operand, a branch displacement, or a fault for any other
        character. */
    method GenerateOperandStr(opr: char) returns (r: Result<string>)
      requires Valid()
      modifies reg
      ensures Valid()
      ensures var d := DecodeOperand(mem.bytes[..], old(reg[PC]), opr);
        && (d.Ok? ==> r == Ok(Render(d.value.0)) && reg[PC] == d.value.1)
        && (d.Err? ==> r == Err(d.fault))
      ensures forall i | 0 <= i < MAX_REG_SIZE && i != PC :: reg[i] == old(reg[i])
    {
      if IsDataTag(opr) {
        r := GenerateOprStr(opr);
      } else if IsBranchTag(opr) {
        r := GenerateOprImmStr(opr);
      } else {
        r := Err(IllegalOperand(opr));
      }
    }

    /** The opcode fetch at the start of generateOpStr: one byte, and a
        second one when the first has no entry of its own. */
    method FetchOpcode() returns (r: Result<int>)
      requires Valid()
      modifies reg
      ensures Valid()
      ensures var d := DecodeOpcode(mem.bytes[..], old(reg[PC]));
        && (d.Ok? ==> r == Ok(d.value.0) && reg[PC] == d.value.1)
        && (d.Err? ==> r == Err(d.fault))
      ensures forall i | 0 <= i < MAX_REG_SIZE && i != PC :: reg[i] == old(reg[i])
    {
      ghost var m, pc0 := mem.bytes[..], reg[PC];
      var first := FetchMem(1);
      if first.Err? {
        return Err(first.fault);
      }
      FetchByte(m, pc0);
      OpcodeFetch(m, pc0);
      var opc := first.value;
      var op := Lookup(opc);
      if op.None? {
        var second := FetchMem(1);
        if second.Err? {
          return Err(second.fault);
        }
        FetchByte(m, pc0 + 1);
        // `opc << 8 | second`: the second byte fills the eight bits the
        // shift clears.
        opc := opc * 0x100 + second.value;
      }
      r := Ok(opc);
    }

    /** generateOpStr: the instruction at the program counter, formatted. */
    method GenerateOpStr() returns (r: Result<string>)
      requires Valid()
      modifies reg
      ensures Valid()
      ensures var d := Step(mem.bytes[..], old(reg[PC]));
        && (d.Ok? ==> r == Ok(d.value.0) && reg[PC] == d.value.1)
        && (d.Err? ==> r == Err(d.fault))
      ensures forall i | 0 <= i < MAX_REG_SIZE && i != PC :: reg[i] == old(reg[i])
    {
      ghost var m := mem.bytes[..];
      var pcOld := reg[PC];
      var sOp := GenerateOpText();
      if sOp.Err? {
        return Err(sOp.fault);
      }
      assert mem.bytes[..] == m;
      ghost var q := reg[PC];
      var s := FormatOpStr(sOp.value, pcOld, reg[PC] - 1);
      assert mem.bytes[..] == m && reg[PC] == q;
      StepListing(m, pcOld, sOp.value, q, s);
      r := Ok(s);
    }

    /** The text generateOpStr hands to formatOpStr: the opcode fetch, then
        `.word` and the codepoint when it has no entry, otherwise the
        mnemonic and the operands its entry lists. */
    method GenerateOpText() returns (r: Result<string>)
      requires Valid()
      modifies reg
      ensures Valid()
      ensures var d := DecodeInstruction(mem.bytes[..], old(reg[PC]));
        && (d.Ok? ==> r == Ok(d.value.0) && reg[PC] == d.value.1)
        && (d.Err? ==> r == Err(d.fault))
      ensures forall i | 0 <= i < MAX_REG_SIZE && i != PC :: reg[i] == old(reg[i])
    {
      ghost var m, pcOld := mem.bytes[..], reg[PC];
      var opc := FetchOpcode();
      if opc.Err? {
        return Err(opc.fault);
      }
      assert mem.bytes[..] == m;
      ghost var p := reg[PC];
      var op := Lookup(opc.value);
      if op.None? {
        r := Ok(".word " + Alt(opc.value));
      } else {
        TableOperandsLegal(m, p, op.value.oprs);
        var oprs := GenerateOprsStr(op.value.oprs);
        assert mem.bytes[..] == m;
        if oprs.Err? {
          return Err(oprs.fault);
        }
        r := Ok(Mnemonic(op.value) + oprs.value);
      }
    }

    /** formatOpStr: the bytes pcFrom..pcTo four to a row, each row led by
        its address, the text after the first row; a short instruction is
        padded to four byte columns. */
    method FormatOpStr(sOp: string, pcFrom: int, pcTo: int) returns (s: string)
      requires 0 <= pcFrom && pcTo < mem.bytes.Length
      ensures s == Listing(pcFrom, Span(mem.bytes[..], pcFrom, pcTo), sOp)
    {
      ghost var bs := Span(mem.bytes[..], pcFrom, pcTo);
      var i;
      s, i := FormatRows(sOp, pcFrom, pcTo);
      ghost var shown := s;
      var j := i;
      while j < 4
        invariant if i < 4 then i <= j <= 4 else j == i
        invariant s == PadPasses(shown, i, j, sOp)
      {
        ghost var before := s;
        s := s + "   ";
        if j == 3 {
          s := s + TextCol(sOp);
        }
        assert s == PadPass(before, j, sOp);
        j := j + 1;
      }
      PaddedListing(pcFrom, bs, sOp);
    }

    /** formatOpStr's first loop: one byte column per address from pcFrom
        to pcTo, returning the text and the number of bytes shown. */
    method FormatRows(sOp: string, pcFrom: int, pcTo: int) returns (s: string, i: nat)
      requires 0 <= pcFrom && pcTo < mem.bytes.Length
      ensures i == |Span(mem.bytes[..], pcFrom, pcTo)|
      ensures s == Shown(pcFrom, Span(mem.bytes[..], pcFrom, pcTo), sOp)
    {
      ghost var m := mem.bytes[..];
      ghost var bs := Span(m, pcFrom, pcTo);
      s := "";
      i := 0;
      var pc := pcFrom;
      while pc <= pcTo
        invariant 0 <= i <= |bs| && pc == pcFrom + i
        invariant s == Shown(pcFrom, bs[..i], sOp)
      {
        SpanAt(m, pcFrom, pcTo, i);
        ghost var prev := s;
        if i % 4 == 0 {
          if i != 0 {
            s := s + "\n";
          }
          s := s + AddressCol(pc);
        }
        var b := mem.Fetch(pc, 1);
        FetchByte(m, pc);
        s := s + ByteCol(b);
        if i == 3 {
          s := s + TextCol(sOp);
        }
        assert s == AppendByte(prev, i, pc, b, sOp);
        ShownStep(pcFrom, bs[..i], b, sOp, i, pc);
        TakeSnoc(bs, i);
        i := i + 1;
        pc := pc + 1;
      }
      assert bs[..i] == bs;
    }

    /** disasm: one line per instruction while the program counter is below
        the text size. The lines are returned rather than printed; a fault
        ends the listing after the lines already produced. */
    method Disasm() returns (lines: seq<string>, fault: Option<Fault>)
      requires Valid()
      modifies reg
      ensures Valid()
      ensures (lines, fault) == Run(mem.bytes[..], old(reg[PC]), tsize)
      ensures fault.None? ==> reg[PC] >= tsize
      ensures forall i | 0 <= i < MAX_REG_SIZE && i != PC :: reg[i] == old(reg[i])
    {
      ghost var m, pc0 := mem.bytes[..], reg[PC];
      lines, fault := [], None;
      while reg[PC] < tsize
        invariant Valid() && mem.bytes[..] == m
        invariant lines + Run(m, reg[PC], tsize).0 == Run(m, pc0, tsize).0
        invariant Run(m, reg[PC], tsize).1 == Run(m, pc0, tsize).1
        invariant forall k | 0 <= k < MAX_REG_SIZE && k != PC :: reg[k] == old(reg[k])
        decreases MAX_MEM_SIZE - reg[PC]
      {
        var line := GenerateOpStr();
        if line.Err? {
          assert lines + [] == lines;
          fault := Some(line.fault);
          return;
        }
        Assoc(lines, [line.value], Run(m, reg[PC], tsize).0);
        lines := lines + [line.value];
      }
      assert lines + [] == lines;
    }
  }
}
