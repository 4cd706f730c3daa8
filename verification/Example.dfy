/** A listing and a block to which the theorems apply: their hypotheses can be met, with a bundle
    that is really honoured and a packet that is really formed. */
module Example {
  import opened Wrappers
  import opened Isa
  import opened Machine
  import opened Tight
  import opened Checker
  import opened Run
  import opened Exact
  import opened Rv32
  import opened Rv32Exec
  import opened Report
  import opened Gaps
  import opened Counters
  import opened Profile
  import opened Visits
  import opened Conservation
  import opened RunProfile
  import opened Cycles
  import opened VliwConfig
  import opened Packets
  import opened Packetizer
  import opened Packing
  import opened Lowering
  import opened Emitted
  import opened Unhinted
  import Split

  // ----- a bundle with an anti-dependence -----

  const PAIR := [Line(0, HINT2, 2, ""), Line(2, ADDI_6, 4, ""), Line(6, ADDI_5, 4, "")]

  const PAIR_PROGRAM := [
    Cell(Insn(0, HINT2, 2, Alu, {}, {}), Some(2)),
    Cell(Insn(2, ADDI_6, 4, Alu, {5}, {6}), None),
    Cell(Insn(6, ADDI_5, 4, Alu, {}, {5}), None)]

  lemma {:induction false} PairIsClean()
    ensures WellFormed(PAIR) && Defined(PAIR) && ProgramOf(PAIR) == PAIR_PROGRAM
    ensures AllSafe(Scan(PAIR, 0))
  {
    Hint2Word(0);
    Addi6Word(2);
    Addi5Word(6);
    assert Scan(PAIR, 3) == [];
    OneBundleReport(PAIR, PAIR_PROGRAM[1].insn, PAIR_PROGRAM[2].insn);
  }

  lemma {:induction false} PairNestsNothing()
    ensures NoNestedHints(PAIR)
  {
    Addi6Word(2);
    Addi5Word(6);
    forall i | 0 <= i < |PAIR| && Inside(Scan(PAIR, 0), i) ensures HintAt(PAIR[i]).None? {
      var f :| f in Scan(PAIR, 0) && f.head < i <= f.head + |f.members|;
      assert i != 0;
    }
  }

  lemma {:induction false} PairIsStraight()
    ensures forall i :: 0 <= i < |PAIR_PROGRAM| && Forms(PAIR_PROGRAM, i) ==> UntestedOk(PAIR_PROGRAM, i)
  {
    assert forall i :: 0 <= i < |PAIR_PROGRAM| && Forms(PAIR_PROGRAM, i) ==> i == 0;
    assert UntestedOk(PAIR_PROGRAM, 0);
  }

  lemma {:induction false} PairMeetsConditions()
    ensures SideConditions(PAIR)
  {
    PairIsClean();
    PairNestsNothing();
    PairIsStraight();
  }

  const PAIR_WORDS := [ADDI_6, ADDI_5]

  lemma {:induction false} PairBytes(code: seq<nat>)
    requires code == [HINT2, ADDI_6, ADDI_5]
    ensures Bytes(code[..0]) == 0 && Bytes(code[..1]) == 2 && Bytes(code[..2]) == 6
  {
    assert code[..1][..0] == [] && code[..2][..1] == code[..1];
  }

  lemma {:induction false} PairLaid()
    ensures Layout([HINT2, ADDI_6, ADDI_5], 0, "") == PAIR
  {
    PairBytes([HINT2, ADDI_6, ADDI_5]);
  }

  lemma {:induction false} PairWhole()
    ensures Split.Whole([], PAIR_WORDS, []) == [HINT2, ADDI_6, ADDI_5]
  {
    assert HintWord(2) == HINT2;
  }

  lemma {:induction false} PairWordsPlain()
    ensures forall w :: w in [HINT2, ADDI_6, ADDI_5] ==> WholeWord(w)
    ensures forall w :: w in PAIR_WORDS ==> HintLength(w).None?
  {
    Addi6Word(2);
    Addi5Word(6);
  }

  lemma {:induction false} PairIsSafe()
    ensures ProgramSafe(Split.Laid([HINT2, ADDI_6, ADDI_5], 0, ""))
  {
    PairLaid();
    PairIsClean();
    PairMeetsConditions();
    CleanReportIsSafe(PAIR);
  }

  /** The same pair meets the hypotheses under which a bundle may be cut. */
  lemma {:induction false} PairMayBeCut()
    ensures Split.Cuttable([], PAIR_WORDS, 1, [], 0, "")
    ensures ProgramSafe(Split.Laid(Split.Whole([], PAIR_WORDS, []), 0, ""))
  {
    PairWhole();
    PairIsSafe();
    PairWordsPlain();
  }

  lemma {:induction false} PairInOrder(host: Host)
    ensures Reaches(Rv32Semantics(host), PAIR_PROGRAM, State(0, RESET), 3, State(10, Set(Set(RESET, 6, 1), 5, 1)))
  {
    var sem, p, s := Rv32Semantics(host), PAIR_PROGRAM, State(0, RESET);
    var a6 := Set(RESET, 6, 1);
    HintEffect(host, RESET, 0);
    Addi6Effect(host, RESET, 2);
    Addi5Effect(host, a6, 6);
    assert Reaches(sem, p, s, 0, s);
    Step(sem, p, s, 0, 0, s, State(2, RESET));
    Step(sem, p, s, 1, 1, State(2, RESET), State(6, a6));
    Step(sem, p, s, 2, 2, State(6, a6), State(10, Set(a6, 5, 1)));
  }

  lemma {:induction false} PairInParallel(host: Host)
    ensures HonourStep(Rv32Semantics(host), PAIR_PROGRAM, 0, State(0, RESET), State(10, Set(Set(RESET, 6, 1), 5, 1)))
  {
    var sem, p, a6 := Rv32Semantics(host), PAIR_PROGRAM, Set(RESET, 6, 1);
    Addi6Effect(host, RESET, 2);
    Addi5Effect(host, RESET, 2);
    assert WriteRegs(RESET.regs, map[6 := 1]) == a6.regs && WriteRegs(a6.regs, map[5 := 1]) == Set(a6, 5, 1).regs;
    TwoLanes(sem, MembersAt(p, 0, 2), RESET, State(10, Set(a6, 5, 1)));
  }

  lemma {:induction false} PairSteps(host: Host, acc: Policy, s: State, t: State)
    requires acc(0, [PAIR_PROGRAM[1].insn, PAIR_PROGRAM[2].insn])
    requires s == State(0, RESET) && t == State(10, Set(Set(RESET, 6, 1), 5, 1))
    ensures PolicyRun(Rv32Semantics(host), PAIR_PROGRAM, acc, [s, t]) && Halted(PAIR_PROGRAM, t)
  {
    PairInParallel(host);
    FetchAt(PAIR_PROGRAM, 0);
    assert MembersAt(PAIR_PROGRAM, 0, 2) == [PAIR_PROGRAM[1].insn, PAIR_PROGRAM[2].insn];
    assert PolicyStep(Rv32Semantics(host), PAIR_PROGRAM, acc, s, t);
  }

  /** A clean listing that meets every side condition. Honouring its hint takes one step to where
      the stock core gets in three, although the second member overwrites what the first reads. */
  lemma {:induction false} PairIsHonoured(host: Host, acc: Policy) returns (t: State)
    requires acc(0, [PAIR_PROGRAM[1].insn, PAIR_PROGRAM[2].insn])
    ensures WellFormed(PAIR) && Defined(PAIR) && AllSafe(Scan(PAIR, 0)) && SideConditions(PAIR)
    ensures PolicyRun(Rv32Semantics(host), ProgramOf(PAIR), acc, [State(0, RESET), t])
    ensures Halted(ProgramOf(PAIR), t) && Reaches(Rv32Semantics(host), ProgramOf(PAIR), State(0, RESET), 3, t)
  {
    PairIsClean();
    PairMeetsConditions();
    t := State(10, Set(Set(RESET, 6, 1), 5, 1));
    PairInOrder(host);
    PairSteps(host, acc, State(0, RESET), t);
  }

  // ----- a nested hint that does no harm -----

  const ADDI_7 := 0x0010_0393  // addi x7, x0, 1

  const HARMLESS := [Line(0, HINT2, 2, ""), Line(2, HINT2, 2, ""), Line(4, ADDI_5, 4, ""), Line(8, ADDI_7, 4, "")]

  const HARMLESS_PROGRAM := [
    Cell(Insn(0, HINT2, 2, Alu, {}, {}), Some(2)),
    Cell(Insn(2, HINT2, 2, Alu, {}, {}), Some(2)),
    Cell(Insn(4, ADDI_5, 4, Alu, {}, {5}), None),
    Cell(Insn(8, ADDI_7, 4, Alu, {}, {7}), None)]

  lemma {:induction false} Addi7Word(addr: nat)
    ensures HintLength(ADDI_7) == None && Parse(ADDI_7) == Some(AluImm(Add, 7, 0, ImmI(ADDI_7)))
    ensures Decode(addr, ADDI_7) == Insn(addr, ADDI_7, 4, Alu, {}, {7})
  {
  }

  lemma {:induction false} HarmlessShape()
    ensures WellFormed(HARMLESS) && ProgramOf(HARMLESS) == HARMLESS_PROGRAM
  {
    Hint2Word(0);
    Hint2Word(2);
    Addi5Word(4);
    Addi7Word(8);
  }

  lemma {:induction false} HarmlessDefined()
    ensures Defined(HARMLESS)
  {
    Hint2Word(0);
    Addi5Word(4);
    Addi7Word(8);
  }

  lemma {:induction false} HarmlessScan()
    ensures AllSafe(Scan(HARMLESS, 0)) && Inside(Scan(HARMLESS, 0), 1)
  {
    Hint2Word(0);
    Hint2Word(2);
    Addi5Word(4);
    Addi7Word(8);
    assert Scan(HARMLESS, 4) == [];
    assert Scan(HARMLESS, 3) == [];
    OneBundleReport(HARMLESS, HARMLESS_PROGRAM[1].insn, HARMLESS_PROGRAM[2].insn);
    var f := FoundAt(HARMLESS, 0, 2);
    assert Scan(HARMLESS, 0) == [f] && f.head == 0 && |f.members| == 2;
    assert f in Scan(HARMLESS, 0);
  }

  lemma {:induction false} HarmlessIsClean()
    ensures WellFormed(HARMLESS) && Defined(HARMLESS) && ProgramOf(HARMLESS) == HARMLESS_PROGRAM
    ensures AllSafe(Scan(HARMLESS, 0)) && Inside(Scan(HARMLESS, 0), 1)
  {
    HarmlessShape();
    HarmlessDefined();
    HarmlessScan();
  }

  lemma {:induction false} HarmlessHints(p: Program)
    requires p == HARMLESS_PROGRAM
    ensures HintsExact(p)
  {
    assert SoundRules(MembersAt(p, 0, 2)) && SoundRules(MembersAt(p, 1, 2));
    forall i | 0 <= i < |p| && Forms(p, i) ensures HintExact(p, i) {
      assert i == 0 || i == 1;
    }
  }

  lemma {:induction false} HarmlessExact()
    requires WellFormed(HARMLESS) && ProgramOf(HARMLESS) == HARMLESS_PROGRAM && AllSafe(Scan(HARMLESS, 0))
    ensures NothingOpen(HARMLESS) && AlwaysRefines(ProgramOf(HARMLESS))
  {
    HarmlessHints(ProgramOf(HARMLESS));
    ListingRefinesExactly(HARMLESS);
    CleanReportExact(HARMLESS);
  }

  lemma {:induction false} HarmlessNests()
    requires Inside(Scan(HARMLESS, 0), 1)
    ensures !NoNestedHints(HARMLESS)
  {
    Hint2Word(2);
    assert HintAt(HARMLESS[1]).Some?;
  }

  /** The report passes over the inner hint, and yet whatever is honoured is right: the conditions that
      suffice are more than is needed, and the exact ones tell this listing from the one in `Gaps`. */
  lemma {:induction false} HarmlessNesting()
    ensures WellFormed(HARMLESS) && Defined(HARMLESS) && AllSafe(Scan(HARMLESS, 0))
    ensures !NoNestedHints(HARMLESS) && NothingOpen(HARMLESS) && AlwaysRefines(ProgramOf(HARMLESS))
  {
    HarmlessIsClean();
    HarmlessExact();
    HarmlessNests();
  }

  // ----- a broken rule that RV32IMAFC does not notice -----

  const ADDI_55 := 0x0002_8293  // addi x5, x5, 0

  const COPY := [Line(0, HINT2, 2, ""), Line(2, ADDI_55, 4, ""), Line(6, ADDI_6, 4, "")]

  const COPY_PROGRAM := [
    Cell(Insn(0, HINT2, 2, Alu, {}, {}), Some(2)),
    Cell(Insn(2, ADDI_55, 4, Alu, {5}, {5}), None),
    Cell(Insn(6, ADDI_6, 4, Alu, {5}, {6}), None)]

  lemma {:induction false} Addi55Word(addr: nat)
    ensures HintLength(ADDI_55) == None && Parse(ADDI_55) == Some(AluImm(Add, 5, 5, ImmI(ADDI_55)))
    ensures Decode(addr, ADDI_55) == Insn(addr, ADDI_55, 4, Alu, {5}, {5})
    ensures Value(ImmI(ADDI_55)) == 0
  {
  }

  lemma {:induction false} Addi55Effect(host: Host, a: Arch, addr: nat)
    ensures var m, v := Insn(addr, ADDI_55, 4, Alu, {5}, {5}), a.regs[5] % WORD;
            var e := Rv32Semantics(host)(m, a);
            e == Nothing(a).(wb := map[5 := v]) && After(e, m, a) == State(addr + 4, Set(a, 5, v))
  {
    Addi55Word(addr);
    SemExec(host, Insn(addr, ADDI_55, 4, Alu, {5}, {5}), AluImm(Add, 5, 5, ImmI(ADDI_55)), a);
    var v := a.regs[5] % WORD;
    assert WriteRegs(a.regs, map[5 := v]) == a.regs[5 := v] && a.flags + {} == a.flags;
  }

  /** What both orders of reading x5 lead to. */
  function Copied(a: Arch): Arch {
    Set(Set(a, 5, a.regs[5] % WORD), 6, (a.regs[5] + 1) % WORD)
  }

  lemma {:induction false} CopyInOrder(host: Host, a: Arch)
    ensures Reaches(Rv32Semantics(host), COPY_PROGRAM, State(0, a), 3, State(10, Copied(a)))
  {
    var sem, p, s := Rv32Semantics(host), COPY_PROGRAM, State(0, a);
    var b := Set(a, 5, a.regs[5] % WORD);
    HintEffect(host, a, 0);
    Addi55Effect(host, a, 2);
    Addi6Effect(host, b, 6);
    assert (a.regs[5] % WORD + 1) % WORD == (a.regs[5] + 1) % WORD;
    assert Reaches(sem, p, s, 0, s);
    Step(sem, p, s, 0, 0, s, State(2, a));
    Step(sem, p, s, 1, 1, State(2, a), State(6, b));
    Step(sem, p, s, 2, 2, State(6, b), State(10, Copied(a)));
  }

  lemma {:induction false} CopyInParallel(host: Host, a: Arch, t: State)
    requires Issue(Rv32Semantics(host), MembersAt(COPY_PROGRAM, 0, 2), a, t)
    ensures t == State(10, Copied(a))
  {
    var sem, ms, v, w := Rv32Semantics(host), MembersAt(COPY_PROGRAM, 0, 2), a.regs[5] % WORD, (a.regs[5] + 1) % WORD;
    Addi55Effect(host, a, 2);
    Addi6Effect(host, a, 2);
    assert WriteRegs(a.regs, map[5 := v]) == Set(a, 5, v).regs;
    assert WriteRegs(Set(a, 5, v).regs, map[6 := w]) == Copied(a).regs;
    TwoLanes(sem, ms, a, State(10, Copied(a)));
    var es := Lanes(sem, ms, a);
    assert es == [Nothing(a).(wb := map[5 := v]), Nothing(a).(wb := map[6 := w])];
    WriteBackUnique(a.regs, es, t.arch.regs, Copied(a).regs);
  }

  lemma {:induction false} CopyShape()
    ensures WellFormed(COPY) && ProgramOf(COPY) == COPY_PROGRAM
  {
    Hint2Word(0);
    Addi55Word(2);
    Addi6Word(6);
  }

  lemma {:induction false} CopyIsDefined()
    ensures WellFormed(COPY) && Defined(COPY) && ProgramOf(COPY) == COPY_PROGRAM
  {
    CopyShape();
    Hint2Word(0);
    Addi55Word(2);
    Addi6Word(6);
  }

  lemma {:induction false} CopyIsUnsound()
    requires WellFormed(COPY) && ProgramOf(COPY) == COPY_PROGRAM
    ensures !AlwaysRefines(ProgramOf(COPY))
  {
    var ms := MembersAt(COPY_PROGRAM, 0, 2);
    assert Raw(ms[0], ms[1]) by { assert 5 in ms[0].dsts && 5 in ms[1].srcs; }
    assert Forms(COPY_PROGRAM, 0) && !HintExact(COPY_PROGRAM, 0);
    ListingRefinesExactly(COPY);
  }

  lemma {:induction false} CopyAdvances(host: Host, s: State, t: State)
    requires StarbugStep(Rv32Semantics(host), COPY_PROGRAM, s, t)
    ensures Advances(Rv32Semantics(host), COPY_PROGRAM, s, t)
  {
    var sem, p := Rv32Semantics(host), COPY_PROGRAM;
    var i := Fetch(p, s.pc).value;
    if ScalarStep(sem, p, s) == Some(t) {
      assert Steps(sem, p, s, 0) == Some(s);
      assert Reaches(sem, p, s, 1, t);
    } else {
      assert i == 0 && s == State(0, s.arch) && Adjacent(p, 0, 2);
      CopyInParallel(host, s.arch, t);
      CopyInOrder(host, s.arch);
    }
  }

  /** A listing that breaks the RAW rule and is right on RV32IMAFC, whatever is honoured, because the
      value read is the value written: the rules are exact for what the encodings let an instruction
      compute, not for what this one does. */
  lemma {:induction false} CopyIsHarmless(host: Host, s: State, t: State)
    ensures WellFormed(COPY) && Defined(COPY) && !AlwaysRefines(ProgramOf(COPY))
    ensures StarbugStep(Rv32Semantics(host), ProgramOf(COPY), s, t)
            ==> Advances(Rv32Semantics(host), ProgramOf(COPY), s, t)
  {
    var sem, p := Rv32Semantics(host), COPY_PROGRAM;
    CopyIsDefined();
    CopyIsUnsound();
    if StarbugStep(sem, p, s, t) { CopyAdvances(host, s, t); }
  }

  // ----- errors reported where nothing can go wrong -----

  const HINT5 := 0x4015            // c.li x0, 5
  const AUIPC_0 := 0x0000_0017     // auipc x0, 0

  lemma {:induction false} Hint5Word(addr: nat)
    ensures HintLength(HINT5) == Some(5) && Parse(HINT5) == Some(AluImm(Add, 0, 0, ImmCI(HINT5)))
    ensures Decode(addr, HINT5) == Insn(addr, HINT5, 2, Alu, {}, {})
  {
  }

  lemma {:induction false} Auipc0Word(addr: nat)
    ensures HintLength(AUIPC_0) == None && Parse(AUIPC_0) == Some(Auipc(0, ImmU(AUIPC_0)))
    ensures Decode(addr, AUIPC_0) == Insn(addr, AUIPC_0, 4, PcRel, {}, {})
  {
  }

  /** The same word twice. */
  const TWICE := [Line(0, HINT2, 2, ""), Line(2, ADDI_5, 4, ""), Line(6, ADDI_5, 4, "")]

  /** A hint longer than any the hardware honours. */
  const LONG := [Line(0, HINT5, 2, ""), Line(2, ADDI_5, 4, "")]

  /** AUIPC without a destination behind lane 0. */
  const IDLE := [Line(0, HINT2, 2, ""), Line(2, ADDI_5, 4, ""), Line(6, AUIPC_0, 4, "")]

  /** A listing with one hint, at its head, of length 2. */
  lemma {:induction false} PairReport(lines: seq<Line>, x: Insn, y: Insn) returns (f: Found)
    requires WellFormed(lines) && |lines| == 3 && HintAt(lines[0]) == Some(2)
    requires HintAt(lines[1]).None? && HintAt(lines[2]).None?
    requires DecodeLine(lines[1]) == x && DecodeLine(lines[2]) == y
    ensures Scan(lines, 0) == [f] && f.declared == 2 && f.members == [x, y]
  {
    f := FoundAt(lines, 0, 2);
    assert f.members == [x, y];
    assert Scan(lines, 3) == [];
  }

  lemma {:induction false} PairRefines(lines: seq<Line>, x: Insn, y: Insn)
    requires WellFormed(lines) && |lines| == 3 && HintAt(lines[0]) == Some(2)
    requires HintAt(lines[1]).None? && HintAt(lines[2]).None?
    requires DecodeLine(lines[0]).addr + DecodeLine(lines[0]).size == x.addr && EndOf(x) == y.addr
    requires DecodeLine(lines[1]) == x && DecodeLine(lines[2]) == y && SoundRules([x, y])
    ensures AlwaysRefines(ProgramOf(lines))
  {
    var p := ProgramOf(lines);
    ProgramShape(lines);
    assert MembersAt(p, 0, 2) == [x, y];
    forall i | 0 <= i < |p| && Forms(p, i) ensures HintExact(p, i) {
      assert p[i].hint == HintAt(lines[i]) && i == 0;
    }
    ListingRefinesExactly(lines);
  }

  lemma {:induction false} TwiceDefined()
    ensures WellFormed(TWICE) && Defined(TWICE)
  {
    Hint2Word(0);
    Addi5Word(2);
  }

  lemma {:induction false} TwiceRefines(x: Insn, y: Insn)
    requires x == Insn(2, ADDI_5, 4, Alu, {}, {5}) && y == Insn(6, ADDI_5, 4, Alu, {}, {5})
    ensures AlwaysRefines(ProgramOf(TWICE))
  {
    Hint2Word(0);
    Addi5Word(2);
    Addi5Word(6);
    PairRefines(TWICE, x, y);
  }

  lemma {:induction false} TwiceReport(x: Insn, y: Insn) returns (f: Found)
    requires x == Insn(2, ADDI_5, 4, Alu, {}, {5}) && y == Insn(6, ADDI_5, 4, Alu, {}, {5})
    ensures Scan(TWICE, 0) == [f] && TwinWaw(f.members) && !FoundSafe(f)
  {
    Hint2Word(0);
    Addi5Word(2);
    Addi5Word(6);
    f := PairReport(TWICE, x, y);
    assert Waw(f.members[0], f.members[1]) by { assert 5 in x.dsts && 5 in y.dsts; }
    SafeIffAccepted(f.declared, f.members);
  }

  /** Two equal additions into one register: either may win. */
  lemma {:induction false} TwinsAreHarmless() returns (f: Found)
    ensures WellFormed(TWICE) && Defined(TWICE) && AlwaysRefines(ProgramOf(TWICE))
    ensures Scan(TWICE, 0) == [f] && TwinWaw(f.members) && !FoundSafe(f)
  {
    var x, y := Insn(2, ADDI_5, 4, Alu, {}, {5}), Insn(6, ADDI_5, 4, Alu, {}, {5});
    TwiceDefined();
    TwiceRefines(x, y);
    f := TwiceReport(x, y);
  }

  lemma {:induction false} LongDefined()
    ensures WellFormed(LONG) && Defined(LONG)
  {
    Hint5Word(0);
    Addi5Word(2);
  }

  lemma {:induction false} LongRefines()
    requires WellFormed(LONG)
    ensures AlwaysRefines(ProgramOf(LONG))
  {
    Hint5Word(0);
    Addi5Word(2);
    var p := ProgramOf(LONG);
    ProgramShape(LONG);
    assert forall i :: 0 <= i < |p| ==> !Forms(p, i);
    ListingRefinesExactly(LONG);
  }

  lemma {:induction false} LongReport() returns (f: Found)
    ensures Scan(LONG, 0) == [f] && Errors(f.declared, f.members) == [TooLong(5)]
  {
    Hint5Word(0);
    f := FoundAt(LONG, 0, 5);
    assert Scan(LONG, 2) == [];
    assert Scan(LONG, 0) == [f];
  }

  /** A hint of length five is read as a NOP. */
  lemma {:induction false} LongHintIsHarmless() returns (f: Found)
    ensures WellFormed(LONG) && Defined(LONG) && AlwaysRefines(ProgramOf(LONG))
    ensures Scan(LONG, 0) == [f] && Errors(f.declared, f.members) == [TooLong(5)]
  {
    LongDefined();
    LongRefines();
    f := LongReport();
  }

  lemma {:induction false} IdleDefined()
    ensures WellFormed(IDLE) && Defined(IDLE)
  {
    Hint2Word(0);
    Addi5Word(2);
    Auipc0Word(6);
  }

  lemma {:induction false} IdleLines(x: Insn, y: Insn)
    requires x == Insn(2, ADDI_5, 4, Alu, {}, {5}) && y == Insn(6, AUIPC_0, 4, PcRel, {}, {})
    ensures WellFormed(IDLE) && |IDLE| == 3
    ensures HintAt(IDLE[0]) == Some(2) && HintAt(IDLE[1]).None? && HintAt(IDLE[2]).None?
    ensures DecodeLine(IDLE[0]).addr == 0 && DecodeLine(IDLE[0]).size == 2
    ensures DecodeLine(IDLE[1]) == x && DecodeLine(IDLE[2]) == y
  {
    Hint2Word(0);
    Addi5Word(2);
    Auipc0Word(6);
  }

  lemma {:induction false} IdleRefines(x: Insn, y: Insn)
    requires x == Insn(2, ADDI_5, 4, Alu, {}, {5}) && y == Insn(6, AUIPC_0, 4, PcRel, {}, {})
    ensures AlwaysRefines(ProgramOf(IDLE))
  {
    IdleLines(x, y);
    PairRefines(IDLE, x, y);
  }

  lemma {:induction false} IdleReport(x: Insn, y: Insn) returns (f: Found)
    requires x == Insn(2, ADDI_5, 4, Alu, {}, {5}) && y == Insn(6, AUIPC_0, 4, PcRel, {}, {})
    ensures Scan(IDLE, 0) == [f] && IdlePcRel(f.members) && !FoundSafe(f)
  {
    Hint2Word(0);
    Addi5Word(2);
    Auipc0Word(6);
    f := PairReport(IDLE, x, y);
    assert f.members[1].cls == PcRel && !Worker(f.members[1]);
    SafeIffAccepted(f.declared, f.members);
  }

  /** AUIPC without a destination does nothing in any lane. */
  lemma {:induction false} IdlePcRelIsHarmless() returns (f: Found)
    ensures WellFormed(IDLE) && Defined(IDLE) && AlwaysRefines(ProgramOf(IDLE))
    ensures Scan(IDLE, 0) == [f] && IdlePcRel(f.members) && !FoundSafe(f)
  {
    var x, y := Insn(2, ADDI_5, 4, Alu, {}, {5}), Insn(6, AUIPC_0, 4, PcRel, {}, {});
    IdleDefined();
    IdleRefines(x, y);
    f := IdleReport(x, y);
  }

  // ----- a jump onto a bundle member -----

  const JAL_6 := 0x0060_006F  // jal x0, .+6

  const ENTERED := [Line(0, JAL_6, 4, ""), Line(4, HINT2, 2, ""), Line(6, ADDI_6, 4, ""), Line(10, ADDI_5, 4, "")]

  const ENTERED_PROGRAM := [
    Cell(Insn(0, JAL_6, 4, Jump, {}, {}), None),
    Cell(Insn(4, HINT2, 2, Alu, {}, {}), Some(2)),
    Cell(Insn(6, ADDI_6, 4, Alu, {5}, {6}), None),
    Cell(Insn(10, ADDI_5, 4, Alu, {}, {5}), None)]

  /** What the run executes: the jump and both members, but not their hint. */
  const ENTERED_HIST: map<nat, nat> := map[0 := 1, 6 := 1, 10 := 1]

  lemma {:induction false} JalParse()
    ensures HintLength(JAL_6) == None && Parse(JAL_6) == Some(Jal(0, ImmJ(JAL_6)))
  {
  }

  lemma {:induction false} JalOffset()
    ensures Value(ImmJ(JAL_6)) == 6
  {
  }

  lemma {:induction false} JalWord(addr: nat)
    ensures HintLength(JAL_6) == None && Parse(JAL_6) == Some(Jal(0, ImmJ(JAL_6)))
    ensures Decode(addr, JAL_6) == Insn(addr, JAL_6, 4, Jump, {}, {})
    ensures Value(ImmJ(JAL_6)) == 6
  {
    JalParse();
    JalOffset();
  }

  lemma {:induction false} JalEffect(host: Host, a: Arch)
    ensures var m := Insn(0, JAL_6, 4, Jump, {}, {});
            After(Rv32Semantics(host)(m, a), m, a) == State(6, a)
  {
    JalWord(0);
    SemExec(host, Insn(0, JAL_6, 4, Jump, {}, {}), Jal(0, ImmJ(JAL_6)), a);
    assert WriteRegs(a.regs, map[]) == a.regs && a.flags + {} == a.flags;
  }

  lemma {:induction false} EnteredScan() returns (f: Found)
    ensures Scan(ENTERED, 0) == [f] && FoundSafe(f)
    ensures f.head == 1 && f.addr == 4 && f.members == [ENTERED_PROGRAM[2].insn, ENTERED_PROGRAM[3].insn]
  {
    JalWord(0);
    Hint2Word(4);
    Addi6Word(6);
    Addi5Word(10);
    f := FoundAt(ENTERED, 1, 2);
    assert f.members == [ENTERED_PROGRAM[2].insn, ENTERED_PROGRAM[3].insn];
    SafeIffAccepted(2, f.members);
    assert Scan(ENTERED, 4) == [];
    assert Scan(ENTERED, 1) == [f];
  }

  lemma {:induction false} EnteredWellFormed()
    ensures WellFormed(ENTERED)
  {
  }

  lemma {:induction false} EnteredProgram()
    ensures ProgramOf(ENTERED) == ENTERED_PROGRAM
  {
    JalWord(0);
    Hint2Word(4);
    Addi6Word(6);
    Addi5Word(10);
  }

  lemma {:induction false} EnteredDefined()
    ensures Defined(ENTERED)
  {
    JalParse();
    Hint2Word(4);
    Addi6Word(6);
    Addi5Word(10);
  }

  lemma {:induction false} EnteredStraight()
    ensures BundlesStraight(ENTERED_PROGRAM)
  {
    assert UntestedOk(ENTERED_PROGRAM, 1);
  }

  lemma {:induction false} EnteredIsClean()
    ensures WellFormed(ENTERED) && Defined(ENTERED) && ProgramOf(ENTERED) == ENTERED_PROGRAM
    ensures BundlesStraight(ENTERED_PROGRAM)
  {
    EnteredWellFormed();
    EnteredProgram();
    EnteredDefined();
    EnteredStraight();
  }

  lemma {:induction false} EnteredRun(host: Host) returns (t: State)
    ensures var sem, p, s := Rv32Semantics(host), ENTERED_PROGRAM, State(0, RESET);
            && Reaches(sem, p, s, 3, t) && Halted(p, t)
            && PcAt(sem, p, s, 0) == Some(0) && PcAt(sem, p, s, 1) == Some(6) && PcAt(sem, p, s, 2) == Some(10)
  {
    var sem, p, s := Rv32Semantics(host), ENTERED_PROGRAM, State(0, RESET);
    var a6 := Set(RESET, 6, 1);
    JalEffect(host, RESET);
    Addi6Effect(host, RESET, 6);
    Addi5Effect(host, a6, 10);
    assert Reaches(sem, p, s, 0, s);
    Step(sem, p, s, 0, 0, s, State(6, RESET));
    Step(sem, p, s, 1, 2, State(6, RESET), State(10, a6));
    Step(sem, p, s, 2, 3, State(10, a6), State(14, Set(a6, 5, 1)));
    t := State(14, Set(a6, 5, 1));
  }

  lemma {:induction false} ThreeVisits(sem: Semantics, p: Program, s: State)
    requires PcAt(sem, p, s, 0) == Some(0) && PcAt(sem, p, s, 1) == Some(6) && PcAt(sem, p, s, 2) == Some(10)
    ensures IsHistogram(sem, p, s, 3, ENTERED_HIST)
  {
    forall a: nat ensures At(ENTERED_HIST, a) == Visits.Count(sem, p, s, 3, a) {
      assert Visits.Count(sem, p, s, 0, a) == 0;
      assert Visits.Count(sem, p, s, 1, a) == if a == 0 then 1 else 0;
      assert Visits.Count(sem, p, s, 2, a) == if a == 0 || a == 6 then 1 else 0;
    }
  }

  lemma {:induction false} EnteredCounts()
    ensures Executed(ENTERED, ENTERED_HIST, 0, 4) == 3
  {
    assert Executed(ENTERED, ENTERED_HIST, 0, 0) == 0;
    assert Executed(ENTERED, ENTERED_HIST, 0, 1) == 1;
    assert Executed(ENTERED, ENTERED_HIST, 0, 2) == 1;
    assert Executed(ENTERED, ENTERED_HIST, 0, 3) == 2;
  }

  lemma {:induction false} EnteredCredits(f: Found)
    requires FoundSafe(f) && f.addr == 4 && f.members == [ENTERED_PROGRAM[2].insn, ENTERED_PROGRAM[3].insn]
    ensures AllCredits([f], ENTERED_HIST) == 0 && AllMemberCounts([f], ENTERED_HIST) == 2
  {
    assert [f][1..] == [] && AllCredits([], ENTERED_HIST) == 0 && AllMemberCounts([], ENTERED_HIST) == 0;
    var x, y := ENTERED_PROGRAM[2].insn, ENTERED_PROGRAM[3].insn;
    assert f.members[..1] == [x] && [x][..0] == [];
    assert MemberCounts(ENTERED_HIST, []) == 0;
    assert MemberCounts(ENTERED_HIST, [x]) == 1;
  }

  /** A complete run that jumps onto a bundle's first member: three instructions are executed and
      the profile accounts for one. */
  lemma {:induction false} SideEntryFallsShort(host: Host) returns (f: Found, t: State)
    ensures var sem, p, s := Rv32Semantics(host), ProgramOf(ENTERED), State(0, RESET);
            var r := Profile.Accounted(ENTERED, ENTERED_HIST, BundleAt([f]), MemberAddrs([f]));
            && WellFormed(ENTERED) && Defined(ENTERED) && BundlesStraight(p)
            && Scan(ENTERED, 0) == [f] && FoundSafe(f) && f.members != []
            && Reaches(sem, p, s, 3, t) && Halted(p, t) && IsHistogram(sem, p, s, 3, ENTERED_HIST)
            && Strays(In, sem, p, s, 1, f, 0) && Payload(r) + r.hints == 1
  {
    EnteredIsClean();
    f := EnteredScan();
    t := EnteredRun(host);
    ThreeVisits(Rv32Semantics(host), ENTERED_PROGRAM, State(0, RESET));
    ProfileIdentity(ENTERED, ENTERED_HIST);
    EnteredCounts();
    EnteredCredits(f);
  }

  // ----- a branch out of a bundle -----

  /** What the run executes of the listing whose bundle a taken branch heads. */
  const BRANCHY_HIST: map<nat, nat> := map[0 := 1, 2 := 1]

  lemma {:induction false} TwoVisits(sem: Semantics, p: Program, s: State)
    requires PcAt(sem, p, s, 0) == Some(0) && PcAt(sem, p, s, 1) == Some(2)
    ensures IsHistogram(sem, p, s, 2, BRANCHY_HIST)
  {
    forall a: nat ensures At(BRANCHY_HIST, a) == Visits.Count(sem, p, s, 2, a) {
      assert Visits.Count(sem, p, s, 0, a) == 0;
      assert Visits.Count(sem, p, s, 1, a) == if a == 0 then 1 else 0;
    }
  }

  lemma {:induction false} BranchyScan() returns (f: Found)
    ensures Scan(BRANCHY, 0) == [f] && FoundSafe(f)
    ensures f.addr == 0 && f.members == [BRANCHY_PROGRAM[1].insn, BRANCHY_PROGRAM[2].insn]
  {
    Hint2Word(0);
    BeqWord(2);
    Addi5Word(6);
    f := FoundAt(BRANCHY, 0, 2);
    assert f.members == [BRANCHY_PROGRAM[1].insn, BRANCHY_PROGRAM[2].insn];
    SafeIffAccepted(2, f.members);
    assert Scan(BRANCHY, 3) == [];
  }

  lemma {:induction false} BranchyCounts()
    ensures Executed(BRANCHY, BRANCHY_HIST, 0, 3) == 2
  {
    assert Executed(BRANCHY, BRANCHY_HIST, 0, 0) == 0;
    assert Executed(BRANCHY, BRANCHY_HIST, 0, 1) == 1;
    assert Executed(BRANCHY, BRANCHY_HIST, 0, 2) == 2;
  }

  lemma {:induction false} BranchyCredits(f: Found)
    requires FoundSafe(f) && f.addr == 0 && f.members == [BRANCHY_PROGRAM[1].insn, BRANCHY_PROGRAM[2].insn]
    ensures AllCredits([f], BRANCHY_HIST) == 2 && AllMemberCounts([f], BRANCHY_HIST) == 1
  {
    assert [f][1..] == [] && AllCredits([], BRANCHY_HIST) == 0 && AllMemberCounts([], BRANCHY_HIST) == 0;
    var x := BRANCHY_PROGRAM[1].insn;
    assert f.members[..1] == [x] && [x][..0] == [];
    assert MemberCounts(BRANCHY_HIST, []) == 0;
    assert MemberCounts(BRANCHY_HIST, [x]) == 1;
  }

  lemma {:induction false} BranchyVisits(host: Host)
    ensures PcAt(Rv32Semantics(host), BRANCHY_PROGRAM, State(0, RESET), 0) == Some(0)
    ensures PcAt(Rv32Semantics(host), BRANCHY_PROGRAM, State(0, RESET), 1) == Some(2)
  {
    var sem, s := Rv32Semantics(host), State(0, RESET);
    HintEffect(host, RESET, 0);
    assert Reaches(sem, BRANCHY_PROGRAM, s, 0, s);
    Step(sem, BRANCHY_PROGRAM, s, 0, 0, s, State(2, RESET));
  }

  lemma {:induction false} BranchyEntered(sem: Semantics, p: Program, s: State, f: Found)
    requires PcAt(sem, p, s, 0) == Some(0) && PcAt(sem, p, s, 1) == Some(2)
    requires f.addr == 0 && f.members == [BRANCHY_PROGRAM[1].insn, BRANCHY_PROGRAM[2].insn]
    ensures AllClean(In, sem, p, s, 2, [f])
  {
    forall j, t | 0 <= j < 2 && 0 <= t < 2 ensures !Strays(In, sem, p, s, t, f, j) {
      assert j == 0 || j == 1;
      assert t == 0 || t == 1;
    }
    assert NeverStrays(In, sem, p, s, 2, f, 0) && NeverStrays(In, sem, p, s, 2, f, 1);
  }

  lemma {:induction false} BranchyTotal(f: Found)
    requires WellFormed(BRANCHY) && Scan(BRANCHY, 0) == [f] && FoundSafe(f)
    requires f.addr == 0 && f.members == [BRANCHY_PROGRAM[1].insn, BRANCHY_PROGRAM[2].insn]
    ensures var r := Profile.Accounted(BRANCHY, BRANCHY_HIST, BundleAt([f]), MemberAddrs([f]));
            Payload(r) + r.hints == 3
  {
    ProfileIdentity(BRANCHY, BRANCHY_HIST);
    BranchyCounts();
    BranchyCredits(f);
  }

  lemma {:induction false} BranchyProfiled(host: Host, f: Found)
    requires f.addr == 0 && f.members == [BRANCHY_PROGRAM[1].insn, BRANCHY_PROGRAM[2].insn]
    ensures var sem, p, s := Rv32Semantics(host), BRANCHY_PROGRAM, State(0, RESET);
            && IsHistogram(sem, p, s, 2, BRANCHY_HIST)
            && AllClean(In, sem, p, s, 2, [f]) && Strays(Out, sem, p, s, 1, f, 1)
  {
    var sem, p, s := Rv32Semantics(host), BRANCHY_PROGRAM, State(0, RESET);
    BranchyInOrder(host);
    BranchyVisits(host);
    TwoVisits(sem, p, s);
    BranchyEntered(sem, p, s, f);
  }

  /** A complete run in which the branch that heads the bundle is taken, so that the bundle is entered
      through its hint and left ahead of its second member: two instructions are executed and the
      profile accounts for three. */
  lemma {:induction false} ExitOverCounts(host: Host) returns (f: Found, t: State)
    ensures var sem, p, s := Rv32Semantics(host), ProgramOf(BRANCHY), State(0, RESET);
            var r := Profile.Accounted(BRANCHY, BRANCHY_HIST, BundleAt([f]), MemberAddrs([f]));
            && WellFormed(BRANCHY) && Defined(BRANCHY) && Scan(BRANCHY, 0) == [f] && FoundSafe(f)
            && Reaches(sem, p, s, 2, t) && Halted(p, t) && IsHistogram(sem, p, s, 2, BRANCHY_HIST)
            && |f.members| == 2 && AllClean(In, sem, p, s, 2, [f]) && Strays(Out, sem, p, s, 1, f, 1)
            && Payload(r) + r.hints == 3
  {
    BranchyIsClean();
    f := BranchyScan();
    t := State(18, RESET);
    BranchyInOrder(host);
    BranchyProfiled(host, f);
    BranchyTotal(f);
  }

  // ----- a packet of two -----

  /** `addi reg, x0, 1` as the pass sees it. */
  function LoadOne(reg: Reg, word: nat): MInstr {
    MInstr(false, false, false, false, false, false, false, false, false, false, false, false,
           [RegOperand(LlvmReg(reg), true), RegOperand(LlvmReg(0), false), OtherOperand], AluAddSub, [word])
  }

  const BLOCK := [LoadOne(5, ADDI_5), LoadOne(7, ADDI_7)]

  lemma {:induction false} LoadOneSets(reg: Reg, word: nat)
    ensures Uses(LoadOne(reg, word)) == {1} && Defs(LoadOne(reg, word)) == {LlvmReg(reg)}
  {
    var m := LoadOne(reg, word);
    assert m.operands[0] in m.operands && m.operands[1] in m.operands;
  }

  lemma {:induction false} LoadOneFaithful(reg: Reg, word: nat)
    requires PlainWord(word) && Decode(0, word) == Insn(0, word, 4, Alu, {}, {reg}) && reg != 0
    ensures Faithful(LoadOne(reg, word))
  {
    LoadOneSets(reg, word);
  }

  lemma {:induction false} BlockWords()
    ensures PlainWord(ADDI_5) && PlainWord(ADDI_7) && PlaceFreeCode([ADDI_5, ADDI_7])
  {
    Addi5Word(0);
    Addi7Word(0);
  }

  lemma {:induction false} BlockCode()
    ensures Code(Instrs(BLOCK)) == [ADDI_5, ADDI_7]
  {
    PacketCode(BLOCK);
  }

  lemma {:induction false} BlockIsFaithful()
    ensures FaithfulBlock(BLOCK) && PlaceFreeCode(Code(Instrs(BLOCK))) && Code(Instrs(BLOCK)) == [ADDI_5, ADDI_7]
  {
    Addi5Word(0);
    Addi7Word(0);
    BlockWords();
    LoadOneFaithful(5, ADDI_5);
    LoadOneFaithful(7, ADDI_7);
    BlockCode();
  }

  lemma {:induction false} BlockIsLegal(c: Config)
    requires Standard(c) && c.numLanes >= 2
    ensures Legal(c, BLOCK)
  {
    LoadOneSets(5, ADDI_5);
    LoadOneSets(7, ADDI_7);
    LaneIsPosition(c, BLOCK);
    assert ClassAt(BLOCK, 1) == AluAddSub;
  }

  /** With the default options a block of two independent additions becomes one hinted packet. */
  lemma {:induction false} BlockIsHinted(c: Config)
    requires Standard(c) && c.numLanes == 4 && c.allowShort && !c.emitSingle
    ensures FaithfulBlock(BLOCK) && PlaceFreeCode(Code(Instrs(BLOCK)))
    ensures Emit(c, Munch(c, BLOCK)) == [Hint(2), Instr(BLOCK[0]), Instr(BLOCK[1])]
  {
    BlockIsFaithful();
    BlockIsLegal(c);
    assert BLOCK[..2] == BLOCK && BLOCK[2..] == [];
    MunchPacket(c, BLOCK, 2);
    assert Munch(c, []) == [];
    assert Munch(c, BLOCK) == [Packet(BLOCK)];
    assert EmitGroup(c, Packet(BLOCK)) == [Hint(2), Instr(BLOCK[0]), Instr(BLOCK[1])];
    assert Emit(c, [Packet(BLOCK)][1..]) == [];
  }

  lemma {:induction false} OneLaneGroup(c: Config, rest: seq<MInstr>, m: MInstr)
    requires Standard(c) && c.numLanes == 1 && Packetizable(m)
    ensures Munch(c, [m] + rest) == [Packet([m])] + Munch(c, rest)
    ensures Emit(c, Munch(c, [m] + rest)) == [Hint(1), Instr(m)] + Emit(c, Munch(c, rest))
  {
    var block := [m] + rest;
    SingletonLegal(c, m);
    assert block[..1] == [m] && block[1..] == rest;
    MunchPacket(c, block, 1);
    assert EmitGroup(c, Packet([m])) == [Hint(1), Instr(m)];
    assert Munch(c, block)[1..] == Munch(c, rest);
  }

  /** On one lane the same block gets a hint before each addition, with single hints off. */
  lemma {:induction false} OneLaneHintsSingles(c: Config)
    requires Standard(c) && c.numLanes == 1 && c.allowShort && !c.emitSingle
    ensures Emit(c, Munch(c, BLOCK)) == [Hint(1), Instr(BLOCK[0]), Hint(1), Instr(BLOCK[1])]
  {
    assert BLOCK == [BLOCK[0]] + [BLOCK[1]] && [BLOCK[1]] + [] == [BLOCK[1]];
    OneLaneGroup(c, [BLOCK[1]], BLOCK[0]);
    OneLaneGroup(c, [], BLOCK[1]);
    assert Munch(c, []) == [] && Emit(c, []) == [];
  }
}
