/** One instruction of src/VaxDisasm.java (generateOpStr without its
    formatting, and generateOprsStr) as functions of the address space and
    the program counter. */
module Instruction {
  import opened Wrappers
  import opened Memory
  import opened OpTable
  import opened Operand
  import opened HexFormat

  /** The opcode fetch of generateOpStr: one byte, and when that byte has
      no one-byte entry, a second one combined as `first << 8 | second`.
      Any byte without an entry escapes, not only 0xfd and 0xff. */
  function DecodeOpcode(m: seq<Byte>, pc: nat): (r: Result<(int, nat)>)
    ensures r.Ok? ==> pc < r.value.1 <= |m| && 0 <= r.value.0 < 0x1_0000
    ensures r.Err? ==> PastEnd(r.fault, |m|)
  {
    match Take(m, pc, 1)
    case Err(f) => Err(f)
    case Ok((first, p)) =>
      FetchByte(m, pc);
      if Lookup(first).Some? then Ok((first, p))
      else
        match Take(m, p, 1)
        case Err(f) => Err(f)
        case Ok((second, q)) =>
          FetchByte(m, p);
          Ok((first * 0x100 + second, q))
  }

  /** The switch of generateOprsStr for one operand-type character. */
  function DecodeOperand(m: seq<Byte>, pc: nat, c: char): (r: Result<(Operand, nat)>)
    ensures r.Ok? ==> pc < r.value.1 <= |m|
    ensures r.Err? ==> (if IsTag(c) then PastEnd(r.fault, |m|) else r.fault == IllegalOperand(c))
  {
    if IsDataTag(c) then DecodeGeneral(m, pc, c)
    else if IsBranchTag(c) then DecodeBranch(m, pc, c)
    else Err(IllegalOperand(c))
  }

  /** generateOprsStr's loop: the operands of `tags`, decoded in order, each
      from where the previous one ended. */
  function DecodeOperands(m: seq<Byte>, pc: nat, tags: string): (r: Result<(seq<Operand>, nat)>)
    ensures r.Ok? ==> |r.value.0| == |tags| && pc + |tags| <= r.value.1
    ensures r.Ok? && tags != [] ==> r.value.1 <= |m|
    decreases |tags|
  {
    if tags == [] then Ok(([], pc))
    else
      match DecodeOperands(m, pc, tags[..|tags| - 1])
      case Err(f) => Err(f)
      case Ok((ops, p)) =>
        match DecodeOperand(m, p, tags[|tags| - 1])
        case Err(f) => Err(f)
        case Ok((o, q)) => Ok((ops + [o], q))
  }

  /** One more operand character: the operand it decodes is appended. */
  lemma DecodeOperandsStep(m: seq<Byte>, pc: nat, tags: string, i: nat, ops: seq<Operand>, p: nat)
    requires i < |tags| && DecodeOperands(m, pc, tags[..i]) == Ok((ops, p))
    ensures var d := DecodeOperand(m, p, tags[i]);
      && (d.Err? ==> DecodeOperands(m, pc, tags[..i + 1]) == Err(d.fault))
      && (d.Ok? ==> DecodeOperands(m, pc, tags[..i + 1]) == Ok((ops + [d.value.0], d.value.1)))
  {
    assert tags[..i + 1][..i] == tags[..i];
  }

  /** Appending an operand appends its separator and its rendering. */
  lemma OperandTextSnoc(ops: seq<Operand>, o: Operand)
    ensures OperandText(ops + [o]) == OperandText(ops) + (if ops == [] then " " else ",") + Render(o)
  {
    assert (ops + [o])[..|ops|] == ops;
  }

  /** generateOprsStr stops at the first operand that fails: a fault after
      k operand characters is the fault of the whole list. */
  lemma {:induction false} OperandsFaultPersists(m: seq<Byte>, pc: nat, tags: string, k: nat, f: Fault)
    requires k <= |tags|
    requires DecodeOperands(m, pc, tags[..k]) == Err(f)
    ensures DecodeOperands(m, pc, tags) == Err(f)
    decreases |tags| - k
  {
    if k < |tags| {
      var s := tags[..k + 1];
      assert s[..|s| - 1] == tags[..k];
      OperandsFaultPersists(m, pc, tags, k + 1, f);
    } else {
      assert tags[..k] == tags;
    }
  }

  /** The operand list text: a space before the first operand, a comma
      before each later one, nothing at all for no operands. */
  function OperandText(ops: seq<Operand>): string {
    if ops == [] then ""
    else
      var init := ops[..|ops| - 1];
      OperandText(init) + (if init == [] then " " else ",") + Render(ops[|ops| - 1])
  }

  /** generateOpStr's text and the program counter after the instruction:
      `.word <code>` for a codepoint without an entry, otherwise the mnemonic
      followed by the operand list. */
  function DecodeInstruction(m: seq<Byte>, pc: nat): (r: Result<(string, nat)>)
    ensures r.Ok? ==> pc < r.value.1 <= |m|
    ensures r.Err? ==> PastEnd(r.fault, |m|)
  {
    match DecodeOpcode(m, pc)
    case Err(f) => Err(f)
    case Ok((code, p)) =>
      match Lookup(code)
      case None => Ok((".word " + Alt(code), p))
      case Some(e) =>
        TableOperandsLegal(m, p, e.oprs);
        match DecodeOperands(m, p, e.oprs)
        case Err(f) => Err(f)
        case Ok((ops, q)) => Ok((Mnemonic(e) + OperandText(ops), q))
  }

  /** The operand list of a decoded instruction is a single line. */
  lemma {:induction false} OperandsOneLine(m: seq<Byte>, pc: nat, tags: string)
    ensures DecodeOperands(m, pc, tags).Ok? ==> '\n' !in OperandText(DecodeOperands(m, pc, tags).value.0)
    decreases |tags|
  {
    if tags != [] && DecodeOperands(m, pc, tags).Ok? {
      var init := tags[..|tags| - 1];
      var c := tags[|tags| - 1];
      OperandsOneLine(m, pc, init);
      var (ops, p) := DecodeOperands(m, pc, init).value;
      var o := DecodeOperand(m, p, c).value.0;
      if IsDataTag(c) {
        GeneralOneLine(m, p, c);
      } else {
        RenderOneLine(o);
      }
      OperandTextSnoc(ops, o);
    }
  }

  /** The text of a decoded instruction is a single line: a mnemonic or
      `.word` and a numeral, then the operand list. */
  lemma InstructionOneLine(m: seq<Byte>, pc: nat)
    ensures DecodeInstruction(m, pc).Ok? ==> '\n' !in DecodeInstruction(m, pc).value.0
  {
    if DecodeInstruction(m, pc).Ok? {
      var (code, p) := DecodeOpcode(m, pc).value;
      match Lookup(code)
      case None =>
        NumeralsOneLine(code, 0);
      case Some(e) =>
        MnemonicChars(e);
        OperandsOneLine(m, p, e.oprs);
    }
  }

  /** Operand strings of table entries only hold decodable characters, so
      decoding them can fail only by running past the end of memory. */
  lemma {:induction false} TableOperandsLegal(m: seq<Byte>, pc: nat, tags: string)
    requires ValidOprs(tags)
    ensures DecodeOperands(m, pc, tags).Err? ==> PastEnd(DecodeOperands(m, pc, tags).fault, |m|)
    decreases |tags|
  {
    if tags != [] {
      TableOperandsLegal(m, pc, tags[..|tags| - 1]);
    }
  }

  /** A byte with a one-byte entry is the whole opcode; any other byte is
      the high half of a two-byte codepoint in 0..0xffff. */
  lemma OpcodeFetch(m: seq<Byte>, pc: nat)
    requires pc < |m|
    ensures Lookup(m[pc]).Some? ==> DecodeOpcode(m, pc) == Ok((m[pc] as int, pc + 1))
    ensures Lookup(m[pc]).None? ==>
      (DecodeOpcode(m, pc).Ok? <==> pc + 2 <= |m|) &&
      (pc + 2 <= |m| ==> DecodeOpcode(m, pc) == Ok((m[pc] as int * 0x100 + m[pc + 1] as int, pc + 2)))
  {
    FetchByte(m, pc);
    if pc + 2 <= |m| {
      FetchByte(m, pc + 1);
    }
  }

  /** An unknown codepoint renders as `.word` and its hex value and decodes
      no operands; since an unknown first byte always takes a second, such
      an instruction is always two bytes long. */
  lemma UnknownOpcode(m: seq<Byte>, pc: nat)
    requires pc + 2 <= |m|
    requires Lookup(m[pc]).None? && Lookup(m[pc] as int * 0x100 + m[pc + 1] as int).None?
    ensures DecodeInstruction(m, pc) == Ok((".word " + Alt(m[pc] as int * 0x100 + m[pc + 1] as int), pc + 2))
  {
    OpcodeFetch(m, pc);
  }

  /** Bytes an operand string takes when every operand is as short as it
      can be: one byte for a general operand or a byte branch, two for a
      word branch. */
  function MinLength(tags: string): nat {
    if tags == [] then 0
    else MinLength(tags[..|tags| - 1]) + (if tags[|tags| - 1] == '2' then 2 else 1)
  }

  /** Zero bytes decode as the shortest operands: mode byte 0 is the short
      literal 0, a zero displacement is a branch to the next instruction. */
  lemma {:induction false} ZeroOperands(m: seq<Byte>, pc: nat, tags: string)
    requires ValidOprs(tags)
    requires pc + MinLength(tags) <= |m|
    requires forall i | pc <= i < pc + MinLength(tags) :: m[i] == 0
    ensures DecodeOperands(m, pc, tags).Ok?
    ensures DecodeOperands(m, pc, tags).value.1 == pc + MinLength(tags)
    decreases |tags|
  {
    if tags != [] {
      var init, c := tags[..|tags| - 1], tags[|tags| - 1];
      ZeroOperands(m, pc, init);
      var p := pc + MinLength(init);
      assert DecodeOperands(m, pc, init).value.1 == p;
      if IsDataTag(c) {
        assert m[p] == 0;
        ModeTable(m, p, c);
      }
    }
  }

  /** The opcode bytes of a table entry: the code itself when it fits a
      byte, otherwise its escape byte then its low byte. */
  predicate EncodedAt(m: seq<Byte>, pc: nat, e: Op) {
    if e.code < 0x100 then pc < |m| && m[pc] == e.code
    else pc + 2 <= |m| && m[pc] == e.code / 0x100 && m[pc + 1] == e.code % 0x100
  }

  function OpcodeWidth(e: Op): nat {
    if e.code < 0x100 then 1 else 2
  }

  /** Every table entry is reached by the opcode fetch from its encoding. */
  lemma EntryOpcode(m: seq<Byte>, pc: nat, e: Op)
    requires Lookup(e.code) == Some(e) && EncodedAt(m, pc, e)
    ensures DecodeOpcode(m, pc) == Ok((e.code, pc + OpcodeWidth(e)))
  {
    OpcodeFetch(m, pc);
    if e.code >= 0x100 {
      TwoByteEntriesReachable(e.code);
      assert m[pc] as int * 0x100 + m[pc + 1] as int == e.code;
    }
  }

  /** An instruction whose codepoint has an entry is its mnemonic followed
      by the operand list its operand string describes. */
  lemma EntryText(m: seq<Byte>, pc: nat, e: Op, p: nat)
    requires DecodeOpcode(m, pc) == Ok((e.code, p)) && Lookup(e.code) == Some(e)
    requires DecodeOperands(m, p, e.oprs).Ok?
    ensures var (ops, q) := DecodeOperands(m, p, e.oprs).value;
      DecodeInstruction(m, pc) == Ok((Mnemonic(e) + OperandText(ops), q))
  {
  }

  /** Every table entry, encoded at pc and followed by enough zero bytes,
      decodes as its mnemonic and takes the opcode bytes plus the shortest
      operand bytes. */
  lemma EntryDecodes(m: seq<Byte>, pc: nat, e: Op)
    requires Lookup(e.code) == Some(e) && EncodedAt(m, pc, e)
    requires pc + OpcodeWidth(e) + MinLength(e.oprs) <= |m|
    requires forall i | pc + OpcodeWidth(e) <= i < pc + OpcodeWidth(e) + MinLength(e.oprs) :: m[i] == 0
    ensures var r := DecodeInstruction(m, pc);
      && r.Ok?
      && r.value.1 == pc + OpcodeWidth(e) + MinLength(e.oprs)
      && Mnemonic(e) <= r.value.0
  {
    var p := pc + OpcodeWidth(e);
    EntryOpcode(m, pc, e);
    ZeroOperands(m, p, e.oprs);
    var (ops, q) := DecodeOperands(m, p, e.oprs).value;
    EntryText(m, pc, e, p);
    var t := Mnemonic(e) + OperandText(ops);
    assert Mnemonic(e) <= t;
  }
}
