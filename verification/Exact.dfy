/** Exactly which programs may have their hints honoured: the condition on the listing under which
    every step of the STARBUG machine is made of steps of the stock core, whatever the
    instructions compute. */
module Exact {
  import opened Wrappers
  import opened Isa
  import opened Machine
  import opened Bundles
  import opened Tight
  import opened Run

  /** Every step of the STARBUG machine is one or more steps of the stock core, for every semantics
      that respects the decoder's read and write sets. */
  ghost predicate AlwaysRefines(p: Program) {
    forall sem: Semantics, s, t :: ProgramFramed(sem, p) && StarbugStep(sem, p, s, t) ==> Advances(sem, p, s, t)
  }

  /** The bundle at `i` may be honoured: its members are there, and they obey the rules. */
  ghost predicate HintExact(p: Program, i: nat)
    requires i < |p| && Forms(p, i)
  {
    Adjacent(p, i, Len(p, i)) && SoundRules(MembersAt(p, i, Len(p, i)))
  }

  ghost predicate HintsExact(p: Program) {
    forall i :: 0 <= i < |p| && Forms(p, i) ==> HintExact(p, i)
  }

  /** What every listing gives: instructions in order, none empty, hints that are NOPs, AUIPC
      without a source, and one instruction to an encoding. */
  ghost predicate Proper(p: Program) {
    && Sorted(p) && HintsAreNops(p)
    && (forall c :: c in p ==> c.insn.size > 0 && (c.insn.cls == PcRel ==> c.insn.srcs == {}))
    && (forall c, d :: c in p && d in p && c.insn.word == d.insn.word ==> Twins(c.insn, d.insn))
  }

  // ----- the stock core runs a bundle -----

  /** After `j` steps the pc is not past `last`. */
  ghost predicate BeforeEnd(sem: Semantics, p: Program, s: State, j: nat, last: nat) {
    var r := Steps(sem, p, s, j);
    r.Some? && r.value.pc <= last
  }

  /** So it is for the first `k` states of the run. */
  ghost predicate Within(sem: Semantics, p: Program, s: State, k: nat, last: nat) {
    forall j :: 0 <= j < k ==> BeforeEnd(sem, p, s, j, last)
  }

  lemma {:induction false} WithinCons(sem: Semantics, p: Program, s: State, u: State, k: nat, last: nat)
    requires Reaches(sem, p, s, 1, u) && Within(sem, p, u, k, last) && s.pc <= last
    ensures Within(sem, p, s, 1 + k, last)
  {
    forall j | 0 <= j < 1 + k ensures BeforeEnd(sem, p, s, j, last) {
      if j > 0 {
        var i := j - 1;
        StepsAdd(sem, p, s, 1, u, i);
        assert BeforeEnd(sem, p, u, i, last);
      }
    }
  }

  /** From the first of `n` adjacent instructions the stock core gets to where `RunBlock` says, and
      before that it is at one of the instructions. */
  lemma {:induction false} RunBlockSteps(sem: Semantics, p: Program, i: nat, n: nat, a: Arch) returns (k: nat)
    requires Sorted(p) && n >= 1 && Adjacent(p, i, n)
    ensures 1 <= k <= n && Reaches(sem, p, State(p[i + 1].insn.addr, a), k, RunBlock(sem, MembersAt(p, i, n), a))
    ensures Within(sem, p, State(p[i + 1].insn.addr, a), k, p[i + n].insn.addr)
    decreases n
  {
    var ms, s := MembersAt(p, i, n), State(p[i + 1].insn.addr, a);
    var e := sem(ms[0], a);
    OneStep(sem, p, i + 1, a);
    assert Steps(sem, p, s, 0) == Some(s);
    assert Steps(sem, p, s, 1) == Some(After(e, ms[0], a));
    assert p[i + 1].insn.addr <= p[i + n].insn.addr;
    if e.target.Some? || n == 1 {
      k := 1;
    } else {
      assert ms[1..] == MembersAt(p, i + 1, n - 1);
      var u := State(p[i + 2].insn.addr, Apply(e, a));
      assert EndOf(p[i + 1].insn) == p[i + 2].insn.addr;
      var l := RunBlockSteps(sem, p, i + 1, n - 1, Apply(e, a));
      ReachesAdd(sem, p, s, 1, u, l, RunBlock(sem, ms, a));
      k := 1 + l;
      WithinCons(sem, p, s, u, l, p[i + n].insn.addr);
    }
  }

  lemma {:induction false} HintSteps(sem: Semantics, p: Program, i: nat, a: Arch)
    requires Sorted(p) && HintsAreNops(p) && ProgramFramed(sem, p)
    requires i + 1 < |p| && p[i].hint.Some? && EndOf(p[i].insn) == p[i + 1].insn.addr
    ensures Reaches(sem, p, State(p[i].insn.addr, a), 1, State(p[i + 1].insn.addr, a))
  {
    HintIsNop(sem, p, i, a);
    OneStep(sem, p, i, a);
    assert Steps(sem, p, State(p[i].insn.addr, a), 0) == Some(State(p[i].insn.addr, a));
  }

  lemma {:induction false} MembersAfterHint(sem: Semantics, p: Program, i: nat, n: nat, a: Arch, s: State, b: State)
      returns (k: nat)
    requires Sorted(p) && n >= 1 && Adjacent(p, i, n) && s == State(p[i].insn.addr, a)
    requires Reaches(sem, p, s, 1, State(p[i + 1].insn.addr, a)) && b == RunBlock(sem, MembersAt(p, i, n), a)
    ensures k >= 1 && Reaches(sem, p, s, k, b) && Within(sem, p, s, k, p[i + n].insn.addr)
  {
    var u := State(p[i + 1].insn.addr, a);
    var l := RunBlockSteps(sem, p, i, n, a);
    ReachesAdd(sem, p, s, 1, u, l, b);
    k := 1 + l;
    assert p[i].insn.addr < p[i + n].insn.addr;
    WithinCons(sem, p, s, u, l, p[i + n].insn.addr);
  }

  /** The hint and the members behind it. */
  lemma {:induction false} BundleSteps(sem: Semantics, p: Program, i: nat, n: nat, a: Arch, s: State, b: State)
      returns (k: nat)
    requires Sorted(p) && HintsAreNops(p) && ProgramFramed(sem, p)
    requires i < |p| && p[i].hint.Some? && n >= 1 && Adjacent(p, i, n)
    requires s == State(p[i].insn.addr, a) && b == RunBlock(sem, MembersAt(p, i, n), a)
    ensures k >= 1 && Reaches(sem, p, s, k, b) && Within(sem, p, s, k, p[i + n].insn.addr)
  {
    HintSteps(sem, p, i, a);
    k := MembersAfterHint(sem, p, i, n, a, s, b);
  }

  // ----- the condition suffices -----

  lemma {:induction false} ExactHonourRefines(sem: Semantics, p: Program, i: nat, s: State, t: State) returns (k: nat)
    requires Sorted(p) && HintsAreNops(p) && ProgramFramed(sem, p)
    requires i < |p| && p[i].insn.addr == s.pc && Forms(p, i) && HintExact(p, i) && HonourStep(sem, p, i, s, t)
    ensures k >= 1 && Reaches(sem, p, s, k, t)
  {
    var ms := MembersAt(p, i, Len(p, i));
    MembersFramed(sem, p, i, Len(p, i));
    RulesSuffice(sem, ms, s.arch, t);
    k := BundleSteps(sem, p, i, Len(p, i), s.arch, s, t);
  }

  lemma {:induction false} ExactStepRefines(sem: Semantics, p: Program, s: State, t: State)
    requires Sorted(p) && HintsAreNops(p) && HintsExact(p) && ProgramFramed(sem, p) && StarbugStep(sem, p, s, t)
    ensures Advances(sem, p, s, t)
  {
    var i := Fetch(p, s.pc).value;
    if ScalarStep(sem, p, s) == Some(t) {
      assert Steps(sem, p, s, 0) == Some(s);
      assert Reaches(sem, p, s, 1, t);
    } else {
      var k := ExactHonourRefines(sem, p, i, s, t);
    }
  }

  // ----- the condition is needed -----

  /** The state is never reached again once the pc is past it. */
  lemma {:induction false} PcGrows(sem: Semantics, p: Program, b: State, d: nat, t: State)
    requires NeverJumps(sem) && (forall c :: c in p ==> c.insn.size > 0) && d >= 1 && Reaches(sem, p, b, d, t)
    ensures t.pc > b.pc
    decreases d
  {
    var u := Steps(sem, p, b, d - 1).value;
    assert Fetch(p, u.pc).Some?;
    assert p[Fetch(p, u.pc).value] in p;
    if d > 1 { PcGrows(sem, p, b, d - 1, u); }
  }

  ghost predicate NeverReached(sem: Semantics, p: Program, s: State, t: State) {
    forall k :: !Reaches(sem, p, s, k, t)
  }

  lemma {:induction false} NotPast(sem: Semantics, p: Program, s: State, k: nat, last: nat, j: nat, t: State)
    requires Within(sem, p, s, k, last) && j < k && Reaches(sem, p, s, j, t)
    ensures t.pc <= last
  {
    assert BeforeEnd(sem, p, s, j, last);
  }

  lemma {:induction false} NotAfter(sem: Semantics, p: Program, b: State, d: nat, t: State)
    requires Steps(sem, p, b, d) == Some(t) && (forall c :: c in p ==> c.insn.size > 0)
    requires (NeverJumps(sem) && t.pc == b.pc) || Halted(p, b)
    ensures t == b
  {
    if d > 0 {
      if Halted(p, b) {
        assert Steps(sem, p, b, 0) == Some(b) && Steps(sem, p, b, 1).None?;
        StepsStop(sem, p, b, 1, d);
      } else {
        PcGrows(sem, p, b, d, t);
      }
    }
  }

  /** A state past the bundle, other than the one the stock core leaves the bundle in. */
  lemma {:induction false} UnreachedAt(sem: Semantics, p: Program, s: State, k: nat, b: State, last: nat, t: State,
                                       j: nat)
    requires Reaches(sem, p, s, k, b) && t != b && t.pc > last
    requires Within(sem, p, s, k, last)
    requires forall c :: c in p ==> c.insn.size > 0
    requires (NeverJumps(sem) && t.pc == b.pc) || Halted(p, b)
    ensures !Reaches(sem, p, s, j, t)
  {
    if Reaches(sem, p, s, j, t) {
      if j < k {
        NotPast(sem, p, s, k, last, j, t);
      } else {
        StepsAdd(sem, p, s, k, b, j - k);
        NotAfter(sem, p, b, j - k, t);
      }
    }
  }

  lemma {:induction false} Unreached(sem: Semantics, p: Program, s: State, k: nat, b: State, last: nat, t: State)
    requires Reaches(sem, p, s, k, b) && t != b && t.pc > last
    requires Within(sem, p, s, k, last)
    requires forall c :: c in p ==> c.insn.size > 0
    requires (NeverJumps(sem) && t.pc == b.pc) || Halted(p, b)
    ensures NeverReached(sem, p, s, t)
  {
    forall j: nat ensures !Reaches(sem, p, s, j, t) {
      UnreachedAt(sem, p, s, k, b, last, t, j);
    }
  }

  /** No instruction does anything. */
  function Still(): Semantics {
    (m: Insn, a: Arch) => Effect(map[], a.mem, a.frm, Accrue({}), a.sys, None)
  }

  lemma {:induction false} StillFramedAt(m: Insn)
    ensures Framed(Still(), m)
  {
  }

  lemma {:induction false} StillFramed()
    ensures FullyFramed(Still()) && NeverJumps(Still())
  {
    forall m ensures Framed(Still(), m) { StillFramedAt(m); }
  }

  lemma {:induction false} StillKeeps(p: Program, s: State, k: nat, t: State)
    requires Reaches(Still(), p, s, k, t)
    ensures t.arch == s.arch
    decreases k
  {
    if k > 0 {
      var u := Steps(Still(), p, s, k - 1).value;
      StillKeeps(p, s, k - 1, u);
      assert WriteRegs(u.arch.regs, map[]) == u.arch.regs;
    }
  }

  lemma {:induction false} FullyIsProgram(sem: Semantics, p: Program)
    requires FullyFramed(sem)
    ensures ProgramFramed(sem, p)
  {
  }

  /** One honoured step to a state never reached by the stock core refutes refinement. */
  lemma {:induction false} HonouredCounts(sem: Semantics, p: Program, i: nat, s: State, t: State)
    requires Sorted(p) && i < |p| && Forms(p, i) && s.pc == p[i].insn.addr && HonourStep(sem, p, i, s, t)
    requires ProgramFramed(sem, p) && NeverReached(sem, p, s, t)
    ensures !AlwaysRefines(p)
  {
    FetchAt(p, i);
    assert StarbugStep(sem, p, s, t) && !Advances(sem, p, s, t);
  }

  /** Members that are not where the hint says: anything may happen. */
  lemma {:induction false} ScatteredIsFatal(p: Program, i: nat)
    requires Sorted(p) && i < |p| && Forms(p, i) && !Adjacent(p, i, Len(p, i))
    ensures !AlwaysRefines(p)
  {
    var sem, s, t := Still(), State(p[i].insn.addr, RESET), State(0, RESET.(flags := {0}));
    StillFramed();
    forall k: nat ensures !Reaches(sem, p, s, k, t) {
      if Reaches(sem, p, s, k, t) { StillKeeps(p, s, k, t); }
    }
    FullyIsProgram(sem, p);
    HonouredCounts(sem, p, i, s, t);
  }

  lemma {:induction false} MemberIn(p: Program, i: nat, n: nat, x: Insn) returns (c: Cell)
    requires i + n < |p| && x in MembersAt(p, i, n)
    ensures c in p && c.insn == x
  {
    var k :| 0 <= k < n && MembersAt(p, i, n)[k] == x;
    c := p[i + 1 + k];
  }

  lemma {:induction false} MembersContiguous(p: Program, i: nat, n: nat)
    requires Proper(p) && Adjacent(p, i, n)
    ensures Contiguous(MembersAt(p, i, n))
  {
    var ms := MembersAt(p, i, n);
    forall k | 0 <= k < n ensures ms[k].size > 0 { assert p[i + 1 + k] in p; }
    forall k | 0 <= k < n - 1 ensures EndOf(ms[k]) == ms[k + 1].addr {
      var j := i + 1 + k;
      assert EndOf(p[j].insn) == p[j + 1].insn.addr;
    }
  }

  lemma {:induction false} MembersCoherent(p: Program, i: nat, n: nat)
    requires Proper(p) && i + n < |p|
    ensures Coherent(MembersAt(p, i, n))
  {
    var ms := MembersAt(p, i, n);
    forall x, y | x in ms && y in ms && x.word == y.word ensures Twins(x, y) {
      var c := MemberIn(p, i, n, x);
      var d := MemberIn(p, i, n, y);
    }
    forall x | x in ms && x.cls == PcRel ensures x.srcs == {} {
      var c := MemberIn(p, i, n, x);
    }
  }

  lemma {:induction false} MembersProper(p: Program, i: nat, n: nat)
    requires Proper(p) && Adjacent(p, i, n)
    ensures Contiguous(MembersAt(p, i, n)) && Coherent(MembersAt(p, i, n))
  {
    MembersContiguous(p, i, n);
    MembersCoherent(p, i, n);
  }

  /** An address past the program, where the stock core halts. */
  lemma {:induction false} PastTheEnd(p: Program, a: Arch, out: nat)
    requires Sorted(p) && p != [] && out > p[|p| - 1].insn.addr
    ensures Halted(p, State(out, a))
  {
  }

  /** An outcome of the bundle that breaks it is a state the stock core never gets to. */
  lemma {:induction false} BreakIsFatal(sem: Semantics, p: Program, i: nat, n: nat, ms: seq<Insn>, out: nat, s: State,
                                        t: State)
    requires Sorted(p) && HintsAreNops(p) && ProgramFramed(sem, p) && (forall c :: c in p ==> c.insn.size > 0)
    requires i < |p| && p[i].hint.Some? && n >= 1 && Adjacent(p, i, n) && ms == MembersAt(p, i, n)
    requires s == State(p[i].insn.addr, RESET) && Breaks(sem, ms, RESET, out, t)
    requires out > p[|p| - 1].insn.addr && out > p[i + n].insn.addr
    ensures NeverReached(sem, p, s, t)
  {
    var b, last := RunBlock(sem, ms, RESET), p[i + n].insn;
    var k := BundleSteps(sem, p, i, n, RESET, s, b);
    assert ms[n - 1] == last && last.size > 0 by { assert p[i + n] in p; }
    assert t.pc > last.addr;
    if !NeverJumps(sem) { PastTheEnd(p, b.arch, out); }
    Unreached(sem, p, s, k, b, last.addr, t);
  }

  lemma {:induction false} BrokenBundle(sem: Semantics, p: Program, i: nat, n: nat, ms: seq<Insn>, out: nat, s: State,
                                        t: State)
    requires Proper(p) && i < |p| && Forms(p, i) && n == Len(p, i) && Adjacent(p, i, n) && ms == MembersAt(p, i, n)
    requires s == State(p[i].insn.addr, RESET) && out == p[|p| - 1].insn.addr + EndOf(p[i + n].insn) + 1
    requires Breaks(sem, ms, RESET, out, t)
    ensures !AlwaysRefines(p)
  {
    FullyIsProgram(sem, p);
    BreakIsFatal(sem, p, i, n, ms, out, s, t);
    assert HonourStep(sem, p, i, s, t);
    HonouredCounts(sem, p, i, s, t);
  }

  lemma {:induction false} UnsoundMembers(p: Program, i: nat, n: nat, ms: seq<Insn>, out: nat)
    requires Proper(p) && i < |p| && Forms(p, i) && n == Len(p, i) && Adjacent(p, i, n) && ms == MembersAt(p, i, n)
    requires Contiguous(ms) && Coherent(ms) && !SoundRules(ms) && out > EndOf(ms[n - 1])
    requires out == p[|p| - 1].insn.addr + EndOf(p[i + n].insn) + 1
    ensures !AlwaysRefines(p)
  {
    var sem, t := RulesAreNeeded(ms, out);
    BrokenBundle(sem, p, i, n, ms, out, State(p[i].insn.addr, RESET), t);
  }

  lemma {:induction false} LastOf(p: Program, i: nat, n: nat)
    requires n >= 1 && i + n < |p|
    ensures MembersAt(p, i, n)[n - 1] == p[i + n].insn
  {
  }

  lemma {:induction false} UnsoundIsFatal(p: Program, i: nat)
    requires Proper(p) && i < |p| && Forms(p, i)
    requires Adjacent(p, i, Len(p, i)) && !SoundRules(MembersAt(p, i, Len(p, i)))
    ensures !AlwaysRefines(p)
  {
    var n := Len(p, i);
    MembersProper(p, i, n);
    LastOf(p, i, n);
    UnsoundMembers(p, i, n, MembersAt(p, i, n), p[|p| - 1].insn.addr + EndOf(p[i + n].insn) + 1);
  }

  // ----- the condition is exact -----

  /** A program always refines the stock core if and only if every hint the hardware would form, at
      whatever depth, is followed by adjacent members that obey the rules. */
  lemma {:induction false} RefinesExactly(p: Program)
    requires Proper(p)
    ensures AlwaysRefines(p) <==> HintsExact(p)
  {
    if HintsExact(p) {
      forall sem: Semantics, s, t | ProgramFramed(sem, p) && StarbugStep(sem, p, s, t)
        ensures Advances(sem, p, s, t)
      {
        ExactStepRefines(sem, p, s, t);
      }
    } else {
      var i :| 0 <= i < |p| && Forms(p, i) && !HintExact(p, i);
      if Adjacent(p, i, Len(p, i)) { UnsoundIsFatal(p, i); } else { ScatteredIsFatal(p, i); }
    }
  }

  /** Whole runs under the exact condition: each state reached is one the stock core reaches, in at
      least as many steps. */
  lemma {:induction false} ExactRunRefines(sem: Semantics, p: Program, tr: seq<State>) returns (k: nat)
    requires Sorted(p) && HintsAreNops(p) && HintsExact(p) && ProgramFramed(sem, p) && StarbugRun(sem, p, tr)
    ensures k >= |tr| - 1 && Reaches(sem, p, tr[0], k, tr[|tr| - 1])
  {
    forall j | 0 <= j < |tr| - 1 ensures Advances(sem, p, tr[j], tr[j + 1]) {
      ExactStepRefines(sem, p, tr[j], tr[j + 1]);
    }
    k := AdvancingReaches(sem, p, tr);
  }

  /** If the stock core halts, no such run is longer, each can be completed to the same final state,
      and each halted one is in it. */
  lemma {:induction false} ExactRunsAgree(sem: Semantics, p: Program, tr: seq<State>, k: nat, t: State)
      returns (rest: nat)
    requires Sorted(p) && HintsAreNops(p) && HintsExact(p) && ProgramFramed(sem, p) && StarbugRun(sem, p, tr)
    requires Reaches(sem, p, tr[0], k, t) && Halted(p, t)
    ensures |tr| - 1 <= k && Reaches(sem, p, tr[|tr| - 1], rest, t)
    ensures Halted(p, tr[|tr| - 1]) ==> tr[|tr| - 1] == t
  {
    var last := tr[|tr| - 1];
    var j := ExactRunRefines(sem, p, tr);
    rest := StillToGo(sem, p, tr[0], j, last, k, t);
  }
}
