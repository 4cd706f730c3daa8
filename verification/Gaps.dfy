/** Two listings the checker passes and the hardware gets wrong: the side conditions of `Report`
    cannot be dropped. */
module Gaps {
  import opened Wrappers
  import opened Isa
  import opened Machine
  import opened Bundles
  import opened Checker
  import opened Run
  import opened Rv32
  import opened Rv32Exec
  import opened Report

  const HINT2 := 0x4009           // c.li x0, 2
  const BEQ_TAKEN := 0x0000_0863  // beq x0, x0, .+16
  const ADDI_5 := 0x0010_0293     // addi x5, x0, 1
  const ADDI_6 := 0x0012_8313     // addi x6, x5, 1

  lemma {:induction false} Hint2Word(addr: nat)
    ensures HintLength(HINT2) == Some(2) && Parse(HINT2) == Some(AluImm(Add, 0, 0, ImmCI(HINT2)))
    ensures Decode(addr, HINT2) == Insn(addr, HINT2, 2, Alu, {}, {})
  {
  }

  lemma {:induction false} BeqParse()
    ensures HintLength(BEQ_TAKEN) == None && Parse(BEQ_TAKEN) == Some(CondBranch(Eq, 0, 0, ImmB(BEQ_TAKEN)))
  {
  }

  lemma {:induction false} BeqOffset()
    ensures Value(ImmB(BEQ_TAKEN)) == 16
  {
    assert BEQ_TAKEN / 2147483648 % 2 == 0 && BEQ_TAKEN / 128 % 2 == 0;
    assert BEQ_TAKEN / 33554432 % 64 == 0 && BEQ_TAKEN / 256 % 16 == 8;
  }

  lemma {:induction false} BeqWord(addr: nat)
    ensures HintLength(BEQ_TAKEN) == None && Parse(BEQ_TAKEN) == Some(CondBranch(Eq, 0, 0, ImmB(BEQ_TAKEN)))
    ensures Decode(addr, BEQ_TAKEN) == Insn(addr, BEQ_TAKEN, 4, Branch, {}, {})
    ensures Value(ImmB(BEQ_TAKEN)) == 16
  {
    BeqParse();
    BeqOffset();
  }

  lemma {:induction false} Addi5Word(addr: nat)
    ensures HintLength(ADDI_5) == None && Parse(ADDI_5) == Some(AluImm(Add, 5, 0, ImmI(ADDI_5)))
    ensures Decode(addr, ADDI_5) == Insn(addr, ADDI_5, 4, Alu, {}, {5})
    ensures Value(ImmI(ADDI_5)) == 1
  {
  }

  lemma {:induction false} Addi6Word(addr: nat)
    ensures HintLength(ADDI_6) == None && Parse(ADDI_6) == Some(AluImm(Add, 6, 5, ImmI(ADDI_6)))
    ensures Decode(addr, ADDI_6) == Insn(addr, ADDI_6, 4, Alu, {5}, {6})
    ensures Value(ImmI(ADDI_6)) == 1
  {
  }

  /** One bundle of two, from a hint at line 0 to the line `|lines| - 1`, is a clean report. */
  lemma {:induction false} OneBundleReport(lines: seq<Line>, x: Insn, y: Insn)
    requires |lines| >= 3 && HintAt(lines[0]) == Some(2) && Scan(lines, 3) == []
    requires DecodeLine(lines[1]) == x && DecodeLine(lines[2]) == y
    requires Worker(y) && !Raw(x, y) && !Waw(x, y)
    ensures AllSafe(Scan(lines, 0))
  {
    var f := FoundAt(lines, 0, 2);
    assert f.members == [x, y];
    SafeIffAccepted(2, [x, y]);
    assert Scan(lines, 0) == [f];
  }

  // ----- a taken branch in lane 0 -----

  const BRANCHY := [Line(0, HINT2, 2, ""), Line(2, BEQ_TAKEN, 4, ""), Line(6, ADDI_5, 4, "")]

  const BRANCHY_PROGRAM := [
    Cell(Insn(0, HINT2, 2, Alu, {}, {}), Some(2)),
    Cell(Insn(2, BEQ_TAKEN, 4, Branch, {}, {}), None),
    Cell(Insn(6, ADDI_5, 4, Alu, {}, {5}), None)]

  lemma {:induction false} BranchyIsClean()
    ensures WellFormed(BRANCHY) && Defined(BRANCHY) && ProgramOf(BRANCHY) == BRANCHY_PROGRAM
    ensures AllSafe(Scan(BRANCHY, 0))
  {
    Hint2Word(0);
    BeqWord(2);
    Addi5Word(6);
    assert Scan(BRANCHY, 3) == [];
    OneBundleReport(BRANCHY, BRANCHY_PROGRAM[1].insn, BRANCHY_PROGRAM[2].insn);
  }

  ghost predicate Unreachable(sem: Semantics, p: Program, s: State, t: State) {
    forall k :: !Reaches(sem, p, s, k, t)
  }

  /** Two different halted states cannot both be reached. */
  lemma {:induction false} HaltedElsewhere(sem: Semantics, p: Program, s: State, t: State, k: nat, u: State)
    requires Reaches(sem, p, s, k, u) && Halted(p, u) && Halted(p, t) && t != u
    ensures Unreachable(sem, p, s, t)
  {
    forall j ensures !Reaches(sem, p, s, j, t) {
      if Reaches(sem, p, s, j, t) {
        HaltIsFinal(sem, p, s, j, t, k, u);
      }
    }
  }

  function Set(a: Arch, r: Reg, v: int): Arch {
    a.(regs := a.regs[r := v])
  }

  lemma {:induction false} SemExec(host: Host, m: Insn, op: Op, a: Arch)
    requires Parse(m.word) == Some(op)
    ensures Rv32Semantics(host)(m, a) == Rv32Exec.Exec(host, op, m.addr, m.size, a)
  {
  }

  lemma {:induction false} HintEffect(host: Host, a: Arch, addr: nat)
    ensures var m := Insn(addr, HINT2, 2, Alu, {}, {});
            After(Rv32Semantics(host)(m, a), m, a) == State(addr + 2, a)
  {
    Hint2Word(addr);
    SemExec(host, Insn(addr, HINT2, 2, Alu, {}, {}), AluImm(Add, 0, 0, ImmCI(HINT2)), a);
    assert WriteRegs(a.regs, map[]) == a.regs && a.flags + {} == a.flags;
  }

  lemma {:induction false} Addi5Effect(host: Host, a: Arch, addr: nat)
    ensures var m := Insn(addr, ADDI_5, 4, Alu, {}, {5});
            var e := Rv32Semantics(host)(m, a);
            e == Nothing(a).(wb := map[5 := 1]) && After(e, m, a) == State(addr + 4, Set(a, 5, 1))
  {
    Addi5Word(addr);
    SemExec(host, Insn(addr, ADDI_5, 4, Alu, {}, {5}), AluImm(Add, 5, 0, ImmI(ADDI_5)), a);
    assert WriteRegs(a.regs, map[5 := 1]) == a.regs[5 := 1] && a.flags + {} == a.flags;
  }

  lemma {:induction false} Addi6Effect(host: Host, a: Arch, addr: nat)
    ensures var m, v := Insn(addr, ADDI_6, 4, Alu, {5}, {6}), (a.regs[5] + 1) % WORD;
            var e := Rv32Semantics(host)(m, a);
            e == Nothing(a).(wb := map[6 := v]) && After(e, m, a) == State(addr + 4, Set(a, 6, v))
  {
    Addi6Word(addr);
    SemExec(host, Insn(addr, ADDI_6, 4, Alu, {5}, {6}), AluImm(Add, 6, 5, ImmI(ADDI_6)), a);
    var v := (a.regs[5] + 1) % WORD;
    assert WriteRegs(a.regs, map[6 := v]) == a.regs[6 := v] && a.flags + {} == a.flags;
  }

  lemma {:induction false} BeqExec(host: Host, a: Arch, addr: nat, off: Imm)
    requires addr + 16 < WORD && Value(off) == 16
    ensures Rv32Exec.Exec(host, CondBranch(Eq, 0, 0, off), addr, 4, a) == Nothing(a).(target := Some(addr + 16))
  {
  }

  lemma {:induction false} IdleApply(a: Arch, t: Option<nat>)
    ensures Apply(Nothing(a).(target := t), a) == a
  {
    assert WriteRegs(a.regs, map[]) == a.regs && a.flags + {} == a.flags;
  }

  lemma {:induction false} BeqEffect(host: Host, a: Arch, addr: nat)
    requires addr + 16 < WORD
    ensures var m := Insn(addr, BEQ_TAKEN, 4, Branch, {}, {});
            var e := Rv32Semantics(host)(m, a);
            e == Nothing(a).(target := Some(addr + 16)) && After(e, m, a) == State(addr + 16, a)
  {
    BeqParse();
    BeqOffset();
    SemExec(host, Insn(addr, BEQ_TAKEN, 4, Branch, {}, {}), CondBranch(Eq, 0, 0, ImmB(BEQ_TAKEN)), a);
    BeqExec(host, a, addr, ImmB(BEQ_TAKEN));
    IdleApply(a, Some(addr + 16));
  }

  lemma {:induction false} Step(sem: Semantics, p: Program, s: State, k: nat, i: nat, u: State, v: State)
    requires Sorted(p) && i < |p| && Reaches(sem, p, s, k, u) && u.pc == p[i].insn.addr
    requires v == After(sem(p[i].insn, u.arch), p[i].insn, u.arch)
    ensures Reaches(sem, p, s, k + 1, v)
  {
    OneStep(sem, p, i, u.arch);
  }

  /** The parallel outcome of two lanes that write different registers. */
  lemma {:induction false} TwoLanes(sem: Semantics, ms: seq<Insn>, a: Arch, t: State)
    requires |ms| == 2 && Worker(ms[1])
    requires var e, f := sem(ms[0], a), sem(ms[1].(addr := ms[0].addr), a);
             && e.flags == f.flags == Accrue({}) && e.wb.Keys !! f.wb.Keys
             && t.arch == Arch(WriteRegs(WriteRegs(a.regs, e.wb), f.wb), e.mem, e.frm, a.flags, e.sys)
             && t.pc == if e.target.Some? then e.target.value else EndOf(ms[1])
    ensures Issue(sem, ms, a, t)
  {
    var e, f := sem(ms[0], a), sem(ms[1].(addr := ms[0].addr), a);
    var es := Lanes(sem, ms, a);
    assert es == [] + [e] + [f];
    assert es[..1] == [e];
    WriteBackSnoc(a.regs, [], a.regs, e);
    WriteBackSnoc(a.regs, [] + [e], WriteRegs(a.regs, e.wb), f);
  }

  lemma {:induction false} RunOfSteps(sem: Semantics, p: Program, tr: seq<State>, t: State)
    requires StarbugRun(sem, p, tr) && StarbugStep(sem, p, tr[|tr| - 1], t)
    ensures StarbugRun(sem, p, tr + [t])
  {
    var all := tr + [t];
    forall k | 0 <= k < |all| - 1 ensures StarbugStep(sem, p, all[k], all[k + 1]) {
      if k < |tr| - 1 { assert StarbugStep(sem, p, tr[k], tr[k + 1]); }
    }
  }

  lemma {:induction false} BranchyInOrder(host: Host)
    ensures Reaches(Rv32Semantics(host), BRANCHY_PROGRAM, State(0, RESET), 2, State(18, RESET))
  {
    var sem, p, s := Rv32Semantics(host), BRANCHY_PROGRAM, State(0, RESET);
    HintEffect(host, RESET, 0);
    BeqEffect(host, RESET, 2);
    assert Reaches(sem, p, s, 0, s);
    Step(sem, p, s, 0, 0, s, State(2, RESET));
    Step(sem, p, s, 1, 1, State(2, RESET), State(18, RESET));
  }

  /** Honouring the hint at `i`. */
  lemma {:induction false} HonoursAt(sem: Semantics, p: Program, i: nat, a: Arch, t: State)
    requires Sorted(p) && i < |p| && Forms(p, i) && i + Len(p, i) < |p|
    requires Issue(sem, MembersAt(p, i, Len(p, i)), a, t)
    ensures StarbugStep(sem, p, State(p[i].insn.addr, a), t)
  {
    FetchAt(p, i);
  }

  lemma {:induction false} BranchyInParallel(host: Host)
    ensures StarbugStep(Rv32Semantics(host), BRANCHY_PROGRAM, State(0, RESET), State(18, Set(RESET, 5, 1)))
  {
    var sem, p := Rv32Semantics(host), BRANCHY_PROGRAM;
    BeqEffect(host, RESET, 2);
    Addi5Effect(host, RESET, 2);
    assert WriteRegs(RESET.regs, map[]) == RESET.regs && WriteRegs(RESET.regs, map[5 := 1]) == RESET.regs[5 := 1];
    TwoLanes(sem, MembersAt(p, 0, 2), RESET, State(18, Set(RESET, 5, 1)));
    HonoursAt(sem, p, 0, RESET, State(18, Set(RESET, 5, 1)));
  }

  lemma {:induction false} BranchyElsewhere(host: Host, t: State)
    requires t == State(18, Set(RESET, 5, 1))
    ensures Unreachable(Rv32Semantics(host), BRANCHY_PROGRAM, State(0, RESET), t)
  {
    BranchyInOrder(host);
    assert t.arch.regs[5] != RESET.regs[5];
    HaltedElsewhere(Rv32Semantics(host), BRANCHY_PROGRAM, State(0, RESET), t, 2, State(18, RESET));
  }

  /** A clean listing on which the hardware commits the worker of a taken branch. */
  lemma {:induction false} BranchInLane0Diverges(host: Host) returns (t: State)
    ensures WellFormed(BRANCHY) && Defined(BRANCHY) && AllSafe(Scan(BRANCHY, 0))
    ensures StarbugRun(Rv32Semantics(host), ProgramOf(BRANCHY), [State(0, RESET), t])
    ensures Unreachable(Rv32Semantics(host), ProgramOf(BRANCHY), State(0, RESET), t)
  {
    var sem, p, s := Rv32Semantics(host), BRANCHY_PROGRAM, State(0, RESET);
    t := State(18, Set(RESET, 5, 1));
    BranchyIsClean();
    BranchyInParallel(host);
    RunOfSteps(sem, p, [s], t);
    assert [s] + [t] == [s, t];
    BranchyElsewhere(host, t);
  }

  // ----- a hint nested in a bundle -----

  const NESTED := [Line(0, HINT2, 2, ""), Line(2, HINT2, 2, ""), Line(4, ADDI_5, 4, ""), Line(8, ADDI_6, 4, "")]

  const NESTED_PROGRAM := [
    Cell(Insn(0, HINT2, 2, Alu, {}, {}), Some(2)),
    Cell(Insn(2, HINT2, 2, Alu, {}, {}), Some(2)),
    Cell(Insn(4, ADDI_5, 4, Alu, {}, {5}), None),
    Cell(Insn(8, ADDI_6, 4, Alu, {5}, {6}), None)]

  lemma {:induction false} NestedShape()
    ensures WellFormed(NESTED) && ProgramOf(NESTED) == NESTED_PROGRAM
  {
    Hint2Word(0);
    Hint2Word(2);
    Addi5Word(4);
    Addi6Word(8);
  }

  lemma {:induction false} NestedDefined()
    ensures Defined(NESTED)
  {
    Hint2Word(0);
    Addi5Word(4);
    Addi6Word(8);
  }

  lemma {:induction false} NestedSafe()
    ensures AllSafe(Scan(NESTED, 0))
  {
    Hint2Word(0);
    Hint2Word(2);
    Addi5Word(4);
    Addi6Word(8);
    assert Scan(NESTED, 4) == [];
    assert Scan(NESTED, 3) == [];
    OneBundleReport(NESTED, NESTED_PROGRAM[1].insn, NESTED_PROGRAM[2].insn);
  }

  lemma {:induction false} NestedIsClean()
    ensures WellFormed(NESTED) && Defined(NESTED) && ProgramOf(NESTED) == NESTED_PROGRAM
    ensures AllSafe(Scan(NESTED, 0))
  {
    NestedShape();
    NestedDefined();
    NestedSafe();
  }

  /** In order, the second addition sees the first: x6 is 2. */
  lemma {:induction false} NestedInOrder(host: Host)
    ensures Reaches(Rv32Semantics(host), NESTED_PROGRAM, State(0, RESET), 4, State(12, Set(Set(RESET, 5, 1), 6, 2)))
  {
    var sem, p, s := Rv32Semantics(host), NESTED_PROGRAM, State(0, RESET);
    var a5 := Set(RESET, 5, 1);
    HintEffect(host, RESET, 0);
    HintEffect(host, RESET, 2);
    Addi5Effect(host, RESET, 4);
    Addi6Effect(host, a5, 8);
    assert Reaches(sem, p, s, 0, s);
    Step(sem, p, s, 0, 0, s, State(2, RESET));
    Step(sem, p, s, 1, 1, State(2, RESET), State(4, RESET));
    Step(sem, p, s, 2, 2, State(4, RESET), State(8, a5));
    Step(sem, p, s, 3, 3, State(8, a5), State(12, Set(a5, 6, 2)));
  }

  lemma {:induction false} NestedDeclined(host: Host)
    ensures StarbugStep(Rv32Semantics(host), NESTED_PROGRAM, State(0, RESET), State(2, RESET))
  {
    HintEffect(host, RESET, 0);
    OneStep(Rv32Semantics(host), NESTED_PROGRAM, 0, RESET);
    FetchAt(NESTED_PROGRAM, 0);
  }

  lemma {:induction false} SetTwice(a: Arch, v: int)
    ensures WriteRegs(a.regs, map[5 := 1]) == Set(a, 5, 1).regs
    ensures WriteRegs(Set(a, 5, 1).regs, map[6 := v]) == Set(Set(a, 5, 1), 6, v).regs
  {
  }

  lemma {:induction false} AddsInParallel(host: Host, ms: seq<Insn>, t: State)
    requires ms == [Insn(4, ADDI_5, 4, Alu, {}, {5}), Insn(8, ADDI_6, 4, Alu, {5}, {6})]
    requires t == State(12, Set(Set(RESET, 5, 1), 6, 1))
    ensures Issue(Rv32Semantics(host), ms, RESET, t)
  {
    Addi5Effect(host, RESET, 4);
    Addi6Effect(host, RESET, 4);
    SetTwice(RESET, 1);
    TwoLanes(Rv32Semantics(host), ms, RESET, t);
  }

  /** Side by side it does not: x6 is 1. */
  lemma {:induction false} NestedInParallel(host: Host)
    ensures StarbugStep(Rv32Semantics(host), NESTED_PROGRAM, State(2, RESET), State(12, Set(Set(RESET, 5, 1), 6, 1)))
  {
    var p, t := NESTED_PROGRAM, State(12, Set(Set(RESET, 5, 1), 6, 1));
    assert MembersAt(p, 1, 2) == [p[2].insn, p[3].insn];
    AddsInParallel(host, MembersAt(p, 1, 2), t);
    HonoursAt(Rv32Semantics(host), p, 1, RESET, t);
  }

  lemma {:induction false} NestedRun(host: Host, t: State)
    requires t == State(12, Set(Set(RESET, 5, 1), 6, 1))
    ensures StarbugRun(Rv32Semantics(host), NESTED_PROGRAM, [State(0, RESET), State(2, RESET), t])
  {
    var sem, p, s := Rv32Semantics(host), NESTED_PROGRAM, State(0, RESET);
    NestedDeclined(host);
    NestedInParallel(host);
    RunOfSteps(sem, p, [s], State(2, RESET));
    RunOfSteps(sem, p, [s] + [State(2, RESET)], t);
    assert [s] + [State(2, RESET)] + [t] == [s, State(2, RESET), t];
  }

  lemma {:induction false} NestedElsewhere(host: Host, t: State)
    requires t == State(12, Set(Set(RESET, 5, 1), 6, 1))
    ensures Unreachable(Rv32Semantics(host), NESTED_PROGRAM, State(0, RESET), t)
  {
    var u := State(12, Set(Set(RESET, 5, 1), 6, 2));
    NestedInOrder(host);
    assert t.arch.regs[6] == 1 && u.arch.regs[6] == 2;
    HaltedElsewhere(Rv32Semantics(host), NESTED_PROGRAM, State(0, RESET), t, 4, u);
  }

  /** A clean listing in which declining the outer bundle exposes an inner one that was never judged. */
  lemma {:induction false} NestedHintDiverges(host: Host) returns (t: State)
    ensures WellFormed(NESTED) && Defined(NESTED) && AllSafe(Scan(NESTED, 0))
    ensures StarbugRun(Rv32Semantics(host), ProgramOf(NESTED), [State(0, RESET), State(2, RESET), t])
    ensures Unreachable(Rv32Semantics(host), ProgramOf(NESTED), State(0, RESET), t)
  {
    t := State(12, Set(Set(RESET, 5, 1), 6, 1));
    NestedIsClean();
    NestedRun(host, t);
    NestedElsewhere(host, t);
  }
}
