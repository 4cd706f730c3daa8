/** A loop to which the theorems about functions apply. */
module Loop {
  import opened Wrappers
  import opened Isa
  import opened Machine
  import opened Run
  import opened Rv32
  import opened Rv32Exec
  import opened Report
  import opened Gaps
  import opened VliwConfig
  import opened Packets
  import opened Packetizer
  import opened Packing
  import opened Lowering
  import opened Emitted
  import opened Relocation
  import opened Function

  const DEC_5 := 0xFFF2_8293     // addi x5, x5, -1
  const INC_7 := 0x0013_8393     // addi x7, x7, 1
  const BNE_10 := 0xFE02_9BE3    // bne x5, x0, .-10
  const BNE_8 := 0xFE02_9CE3     // bne x5, x0, .-8

  /** `addi reg, reg, imm` as the pass sees it. */
  function AddTo(reg: Reg, word: nat): MInstr {
    MInstr(false, false, false, false, false, false, false, false, false, false, false, false,
           [RegOperand(LlvmReg(reg), true), RegOperand(LlvmReg(reg), false), OtherOperand], AluAddSub, [word])
  }

  /** The branch, with the offset it has in the hinted code. */
  const BACK := AddTo(0, BNE_10).(terminator := true)

  const LOOP := [AddTo(5, DEC_5), AddTo(7, INC_7), BACK]

  const LOOP_CODE := [DEC_5, INC_7, BNE_8]

  const HINTED_LOOP := [
    Cell(Insn(0, HINT2, 2, Alu, {}, {}), Some(2)),
    Cell(Insn(2, DEC_5, 4, Alu, {5}, {5}), None),
    Cell(Insn(6, INC_7, 4, Alu, {7}, {7}), None),
    Cell(Insn(10, BNE_10, 4, Branch, {5}, {}), None)]

  const PLAIN_LOOP := [
    Cell(Insn(0, DEC_5, 4, Alu, {5}, {5}), None),
    Cell(Insn(4, INC_7, 4, Alu, {7}, {7}), None),
    Cell(Insn(8, BNE_8, 4, Branch, {5}, {}), None)]

  lemma {:induction false} Dec5Word(addr: nat)
    ensures HintLength(DEC_5) == None && Parse(DEC_5) == Some(AluImm(Add, 5, 5, ImmI(DEC_5)))
    ensures Decode(addr, DEC_5) == Insn(addr, DEC_5, 4, Alu, {5}, {5})
  {
  }

  lemma {:induction false} Inc7Word(addr: nat)
    ensures HintLength(INC_7) == None && Parse(INC_7) == Some(AluImm(Add, 7, 7, ImmI(INC_7)))
    ensures Decode(addr, INC_7) == Insn(addr, INC_7, 4, Alu, {7}, {7})
  {
  }

  lemma {:induction false} Bne10Parse()
    ensures HintLength(BNE_10) == None && Parse(BNE_10) == Some(CondBranch(Ne, 5, 0, ImmB(BNE_10)))
  {
  }

  lemma {:induction false} Bne10Offset()
    ensures Value(ImmB(BNE_10)) == -10
  {
    assert BNE_10 / 2147483648 % 2 == 1 && BNE_10 / 128 % 2 == 1;
    assert BNE_10 / 33554432 % 64 == 63 && BNE_10 / 256 % 16 == 11;
  }

  lemma {:induction false} Bne10Word(addr: nat)
    ensures HintLength(BNE_10) == None && Parse(BNE_10) == Some(CondBranch(Ne, 5, 0, ImmB(BNE_10)))
    ensures Decode(addr, BNE_10) == Insn(addr, BNE_10, 4, Branch, {5}, {}) && Value(ImmB(BNE_10)) == -10
  {
    Bne10Parse();
    Bne10Offset();
  }

  lemma {:induction false} Bne8Parse()
    ensures HintLength(BNE_8) == None && Parse(BNE_8) == Some(CondBranch(Ne, 5, 0, ImmB(BNE_8)))
  {
  }

  lemma {:induction false} Bne8Offset()
    ensures Value(ImmB(BNE_8)) == -8
  {
    assert BNE_8 / 2147483648 % 2 == 1 && BNE_8 / 128 % 2 == 1;
    assert BNE_8 / 33554432 % 64 == 63 && BNE_8 / 256 % 16 == 12;
  }

  lemma {:induction false} Bne8Word(addr: nat)
    ensures HintLength(BNE_8) == None && Parse(BNE_8) == Some(CondBranch(Ne, 5, 0, ImmB(BNE_8)))
    ensures Decode(addr, BNE_8) == Insn(addr, BNE_8, 4, Branch, {5}, {}) && Value(ImmB(BNE_8)) == -8
  {
    Bne8Parse();
    Bne8Offset();
  }

  lemma {:induction false} AddToSets(reg: Reg, word: nat)
    ensures Uses(AddTo(reg, word)) == {LlvmReg(reg)} && Defs(AddTo(reg, word)) == {LlvmReg(reg)}
  {
    var m := AddTo(reg, word);
    assert m.operands[0] in m.operands && m.operands[1] in m.operands;
  }

  lemma {:induction false} AddToFaithful(reg: Reg, word: nat)
    requires PlainWord(word) && Decode(0, word) == Insn(0, word, 4, Alu, {reg}, {reg})
    ensures Faithful(AddTo(reg, word))
  {
    AddToSets(reg, word);
  }

  lemma {:induction false} BackFaithful()
    ensures Faithful(BACK)
  {
    Bne10Word(0);
    assert BACK.code == [BNE_10] && !Packetizable(BACK);
  }

  lemma {:induction false} LoopWords()
    ensures PlainWord(DEC_5) && PlainWord(INC_7)
  {
    Dec5Word(0);
    Inc7Word(0);
  }

  lemma {:induction false} LoopIsFaithful()
    ensures FaithfulBlock(LOOP)
  {
    Dec5Word(0);
    Inc7Word(0);
    LoopWords();
    AddToFaithful(5, DEC_5);
    AddToFaithful(7, INC_7);
    BackFaithful();
  }

  lemma {:induction false} LoopPacket(c: Config)
    requires Standard(c) && c.numLanes == 4
    ensures Legal(c, LOOP[..2]) && !Legal(c, LOOP[..3]) && !Legal(c, [BACK])
  {
    AddToSets(5, DEC_5);
    AddToSets(7, INC_7);
    LaneIsPosition(c, LOOP[..2]);
    assert ClassAt(LOOP[..2], 1) == AluAddSub;
    assert LOOP[..3][2] == BACK && BACK in LOOP[..3] && BACK in [BACK] && !Packetizable(BACK);
  }

  /** The loop body becomes a hinted packet of two, and the branch stays alone. */
  lemma {:induction false} LoopIsHinted(c: Config)
    requires Standard(c) && c.numLanes == 4 && c.allowShort && !c.emitSingle
    ensures HintedFunction(c, [LOOP]) == [Hint(2), Instr(LOOP[0]), Instr(LOOP[1]), Instr(BACK)]
  {
    LoopPacket(c);
    MunchPacket(c, LOOP, 2);
    assert LOOP[2..] == [BACK] && [BACK][1..] == [];
    MunchAlone(c, [BACK]);
    assert Munch(c, []) == [];
    var gs := [Packet(LOOP[..2]), Alone(BACK)];
    assert Munch(c, LOOP) == gs;
    assert EmitGroup(c, gs[0]) == [Hint(2), Instr(LOOP[0]), Instr(LOOP[1])];
    assert gs[1..] == [Alone(BACK)] && [Alone(BACK)][1..] == [] && Emit(c, []) == [];
    assert EmitGroup(c, gs[1]) == [Instr(BACK)];
    assert Emit(c, [Alone(BACK)]) == [Instr(BACK)];
    assert [LOOP][1..] == [] && HintedFunction(c, []) == [];
  }

  lemma {:induction false} LoopCode()
    ensures Code([Hint(2), Instr(LOOP[0]), Instr(LOOP[1]), Instr(BACK)]) == [HINT2, DEC_5, INC_7, BNE_10]
    ensures Code(Instrs(Concat([LOOP]))) == [DEC_5, INC_7, BNE_10]
  {
    var items := [Instr(LOOP[0]), Instr(LOOP[1]), Instr(BACK)];
    assert items[1..] == [Instr(LOOP[1]), Instr(BACK)] && items[1..][1..] == [Instr(BACK)] && [Instr(BACK)][1..] == [];
    assert Code([]) == [] && Code([Instr(BACK)]) == [BNE_10];
    assert Code(items[1..]) == [INC_7, BNE_10] && Code(items) == [DEC_5, INC_7, BNE_10];
    assert ([Hint(2)] + items)[1..] == items;
    assert [Hint(2)] + items == [Hint(2), Instr(LOOP[0]), Instr(LOOP[1]), Instr(BACK)];
    assert [LOOP][1..] == [] && Concat([]) == [] && Concat([LOOP]) == LOOP && Instrs(LOOP) == items;
  }

  lemma {:induction false} ShortBytes(w: nat, x: nat, y: nat)
    ensures Bytes([]) == 0 && Bytes([w]) == SizeOf(w) && Bytes([w, x]) == SizeOf(w) + SizeOf(x)
    ensures Bytes([w, x, y]) == SizeOf(w) + SizeOf(x) + SizeOf(y)
  {
    assert [w][..0] == [] && [w, x][..1] == [w] && [w, x, y][..2] == [w, x];
  }

  lemma {:induction false} HintedLoopProgram()
    ensures ProgramOf(Layout([HINT2, DEC_5, INC_7, BNE_10], 0, "")) == HINTED_LOOP
  {
    var code := [HINT2, DEC_5, INC_7, BNE_10];
    Hint2Word(0);
    Dec5Word(2);
    Inc7Word(6);
    Bne10Word(10);
    ShortBytes(HINT2, DEC_5, INC_7);
    assert code[..0] == [] && code[..1] == [HINT2] && code[..2] == [HINT2, DEC_5] && code[..3] == [HINT2, DEC_5, INC_7];
  }

  lemma {:induction false} PlainLoopProgram()
    ensures ProgramOf(Layout(LOOP_CODE, 0, "")) == PLAIN_LOOP
  {
    Dec5Word(0);
    Inc7Word(4);
    Bne8Word(8);
    ShortBytes(DEC_5, INC_7, BNE_8);
    assert LOOP_CODE[..0] == [] && LOOP_CODE[..1] == [DEC_5] && LOOP_CODE[..2] == [DEC_5, INC_7];
  }

  lemma {:induction false} LoopRanks(p: Program)
    requires p == HINTED_LOOP
    ensures Rank(p, 0) == 0 == Rank(p, 1) && Rank(p, 2) == 1 && Rank(p, 3) == 2 && Rank(p, 4) == 3
  {
    assert Rank(p, 1) == 0;
    assert Rank(p, 2) == 1;
    assert Rank(p, 3) == 2;
  }

  lemma {:induction false} BranchRelocated(p: Program, q: Program)
    requires p == HINTED_LOOP && q == PLAIN_LOOP
    ensures InsnRelocated(p, q, p[3].insn, q[2].insn)
  {
    Bne10Word(10);
    Bne8Word(8);
    LoopRanks(p);
    assert Facing(p, q, 0, 0) && Together(p, q, 0, 0);
  }

  lemma {:induction false} BodyRelocated(p: Program, q: Program)
    requires p == HINTED_LOOP && q == PLAIN_LOOP
    ensures InsnRelocated(p, q, p[1].insn, q[0].insn) && InsnRelocated(p, q, p[2].insn, q[1].insn)
  {
    Dec5Word(2);
    Inc7Word(6);
  }

  lemma {:induction false} LoopRelocated(p: Program, q: Program)
    requires p == HINTED_LOOP && q == PLAIN_LOOP
    ensures Relocated(p, q)
  {
    LoopRanks(p);
    BodyRelocated(p, q);
    BranchRelocated(p, q);
    forall e: nat, j: nat | Facing(p, q, e, j) && p[e].hint.None? ensures InsnRelocated(p, q, p[e].insn, q[j].insn) {
      assert e == 1 || e == 2 || e == 3;
    }
  }

  lemma {:induction false} NoIndirects(host: Host, p: Program, q: Program, s: State)
    requires q == PLAIN_LOOP
    ensures IndirectsLeave(host, p, q, s)
  {
    Dec5Word(0);
    Inc7Word(4);
    Bne8Word(8);
  }

  lemma {:induction false} LoopWhole()
    ensures forall w :: w in LOOP_CODE ==> WholeWord(w)
  {
  }

  lemma {:induction false} LoopPrograms(c: Config)
    requires Standard(c) && c.numLanes == 4 && c.allowShort && !c.emitSingle
    ensures HintedProgram(c, [LOOP], 0, "") == HINTED_LOOP && ProgramOf(Layout(LOOP_CODE, 0, "")) == PLAIN_LOOP
  {
    LoopIsHinted(c);
    LoopCode();
    HintedLoopProgram();
    PlainLoopProgram();
  }

  lemma {:induction false} LoopPair(c: Config, p: Program, q: Program)
    requires Standard(c) && c.numLanes == 4 && p == HINTED_LOOP && q == PLAIN_LOOP
    requires HintedProgram(c, [LOOP], 0, "") == p && ProgramOf(Layout(LOOP_CODE, 0, "")) == q
    ensures FunctionPair(c, [LOOP], 0, p, LOOP_CODE, 0, q, "")
  {
    LoopIsFaithful();
    LoopCode();
    LoopWhole();
    LoopRelocated(p, q);
  }

  /** The block that counts x5 down and x7 up until x5 is zero meets every hypothesis, with its body a
      bundle and its branch two bytes longer than before. */
  lemma {:induction false} LoopIsRelocated(host: Host, c: Config, s: State)
    requires Standard(c) && c.numLanes == 4 && c.allowShort && !c.emitSingle
    ensures HintedFunction(c, [LOOP]) == [Hint(2), Instr(LOOP[0]), Instr(LOOP[1]), Instr(BACK)]
    ensures FunctionPair(c, [LOOP], 0, HINTED_LOOP, LOOP_CODE, 0, PLAIN_LOOP, "")
    ensures IndirectsLeave(host, HINTED_LOOP, PLAIN_LOOP, s)
  {
    LoopIsHinted(c);
    LoopPrograms(c);
    LoopPair(c, HINTED_LOOP, PLAIN_LOOP);
    NoIndirects(host, HINTED_LOOP, PLAIN_LOOP, s);
  }
}
