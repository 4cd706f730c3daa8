/** Whole programs: the STARBUG machine, which may honour or decline each hint, against a stock
    core, which executes every hint as a NOP. */
module Run {
  import opened Wrappers
  import opened Isa
  import opened Machine
  import opened Bundles

  /** One instruction of a program, and the length of the bundle it announces if it is a hint. */
  datatype Cell = Cell(insn: Insn, hint: Option<nat>)

  type Program = seq<Cell>

  /** A hint decodes as an instruction that names no register. */
  ghost predicate HintsAreNops(p: Program) {
    forall c :: c in p && c.hint.Some? ==> c.insn.cls == Alu && c.insn.srcs == {} && c.insn.dsts == {}
  }

  // ----- fetching -----

  ghost predicate Sorted(p: Program) {
    forall i, j :: 0 <= i < j < |p| ==> p[i].insn.addr < p[j].insn.addr
  }

  function FetchFrom(p: Program, pc: nat, i: nat): (r: Option<nat>)
    ensures r.Some? ==> i <= r.value < |p| && p[r.value].insn.addr == pc
    ensures r.None? ==> forall k :: i <= k < |p| ==> p[k].insn.addr != pc
    decreases |p| - i
  {
    if i >= |p| then None
    else if p[i].insn.addr == pc then Some(i)
    else FetchFrom(p, pc, i + 1)
  }

  /** The instruction the pc points at. */
  function Fetch(p: Program, pc: nat): (r: Option<nat>)
    ensures r.Some? ==> r.value < |p| && p[r.value].insn.addr == pc
    ensures r.None? ==> forall k :: 0 <= k < |p| ==> p[k].insn.addr != pc
  {
    FetchFrom(p, pc, 0)
  }

  lemma {:induction false} FetchAt(p: Program, i: nat)
    requires Sorted(p) && i < |p|
    ensures Fetch(p, p[i].insn.addr) == Some(i)
  {
    var r := Fetch(p, p[i].insn.addr);
    assert r.Some?;
  }

  ghost predicate Halted(p: Program, s: State) {
    Fetch(p, s.pc).None?
  }

  // ----- the stock core -----

  function After(e: Effect, m: Insn, a: Arch): State {
    State(if e.target.Some? then e.target.value else EndOf(m), Apply(e, a))
  }

  function ScalarStep(sem: Semantics, p: Program, s: State): Option<State> {
    match Fetch(p, s.pc)
    case None => None
    case Some(i) =>
      var m := p[i].insn;
      Some(After(sem(m, s.arch), m, s.arch))
  }

  function Steps(sem: Semantics, p: Program, s: State, k: nat): Option<State> {
    if k == 0 then Some(s)
    else match Steps(sem, p, s, k - 1)
      case None => None
      case Some(u) => ScalarStep(sem, p, u)
  }

  /** The stock core gets from `s` to `t` in `k` steps. */
  predicate Reaches(sem: Semantics, p: Program, s: State, k: nat, t: State) {
    Steps(sem, p, s, k) == Some(t)
  }

  lemma {:induction false} StepsAdd(sem: Semantics, p: Program, s: State, j: nat, u: State, k: nat)
    requires Steps(sem, p, s, j) == Some(u)
    ensures Steps(sem, p, s, j + k) == Steps(sem, p, u, k)
    decreases k
  {
    if k > 0 {
      StepsAdd(sem, p, s, j, u, k - 1);
    }
  }

  lemma {:induction false} ReachesAdd(sem: Semantics, p: Program, s: State, j: nat, u: State, k: nat, t: State)
    requires Reaches(sem, p, s, j, u) && Reaches(sem, p, u, k, t)
    ensures Reaches(sem, p, s, j + k, t)
  {
    StepsAdd(sem, p, s, j, u, k);
  }

  lemma {:induction false} StepsStop(sem: Semantics, p: Program, s: State, k: nat, m: nat)
    requires k <= m && Steps(sem, p, s, k).None?
    ensures Steps(sem, p, s, m).None?
    decreases m
  {
    if k < m {
      StepsStop(sem, p, s, k, m - 1);
    }
  }

  // ----- the STARBUG machine -----

  /** The hardware considers forming a bundle here. */
  predicate Forms(p: Program, i: nat)
    requires i < |p|
  {
    var h := p[i].hint;
    h.Some? && 1 <= h.value <= MAX_BUNDLE
  }

  function Len(p: Program, i: nat): nat
    requires i < |p| && Forms(p, i)
  {
    p[i].hint.value
  }

  /** Instructions `i .. i + n` are adjacent in memory. */
  ghost predicate Adjacent(p: Program, i: nat, n: nat) {
    i + n < |p| && forall k :: i <= k < i + n ==> EndOf(p[k].insn) == p[k + 1].insn.addr
  }

  function MembersAt(p: Program, i: nat, n: nat): (ms: seq<Insn>)
    requires i + n < |p|
    ensures |ms| == n && forall k :: 0 <= k < n ==> ms[k] == p[i + 1 + k].insn
  {
    seq(n, k requires 0 <= k < n => p[i + 1 + k].insn)
  }

  /** An honoured hint. If the bytes after it are not the listed members, anything may happen. */
  ghost predicate HonourStep(sem: Semantics, p: Program, i: nat, s: State, t: State)
    requires i < |p| && Forms(p, i)
  {
    Adjacent(p, i, Len(p, i)) ==> Issue(sem, MembersAt(p, i, Len(p, i)), s.arch, t)
  }

  /** Every step is a free choice between honouring a hint and stepping like a stock core. */
  ghost predicate StarbugStep(sem: Semantics, p: Program, s: State, t: State) {
    var r := Fetch(p, s.pc);
    r.Some? && (|| ScalarStep(sem, p, s) == Some(t)
                || (Forms(p, r.value) && HonourStep(sem, p, r.value, s, t)))
  }

  ghost predicate StarbugRun(sem: Semantics, p: Program, tr: seq<State>) {
    tr != [] && forall k :: 0 <= k < |tr| - 1 ==> StarbugStep(sem, p, tr[k], tr[k + 1])
  }

  // ----- safe programs -----

  /** The bundle at `i` may be honoured: its members are there, are accepted, and in a bundle of
      two or more the first does not transfer control. */
  ghost predicate HintSafe(p: Program, i: nat)
    requires i < |p| && Forms(p, i)
  {
    var n := Len(p, i);
    && Adjacent(p, i, n)
    && Accepted(n, MembersAt(p, i, n))
    && (n >= 2 ==> !Control(MembersAt(p, i, n)[0]))
  }

  ghost predicate ProgramSafe(p: Program) {
    && Sorted(p) && HintsAreNops(p)
    && forall i :: 0 <= i < |p| && Forms(p, i) ==> HintSafe(p, i)
  }

  ghost predicate ProgramFramed(sem: Semantics, p: Program) {
    forall c :: c in p ==> Framed(sem, c.insn)
  }

  // ----- one step -----

  ghost predicate RunsSafely(sem: Semantics, p: Program) {
    ProgramSafe(p) && ProgramFramed(sem, p)
  }

  lemma {:induction false} HintIsNop(sem: Semantics, p: Program, i: nat, a: Arch)
    requires i < |p| && p[i].hint.Some? && ProgramFramed(sem, p) && HintsAreNops(p)
    ensures sem(p[i].insn, a).target.None?
    ensures Apply(sem(p[i].insn, a), a) == a
  {
    var m := p[i].insn;
    assert p[i] in p;
    assert Framed(sem, m) && Worker(m);
    var e := sem(m, a);
    assert e.wb.Keys == {} && WriteRegs(a.regs, e.wb) == a.regs;
  }

  lemma {:induction false} OneStep(sem: Semantics, p: Program, i: nat, a: Arch)
    requires Sorted(p) && i < |p|
    ensures ScalarStep(sem, p, State(p[i].insn.addr, a)) == Some(After(sem(p[i].insn, a), p[i].insn, a))
  {
    FetchAt(p, i);
  }

  lemma {:induction false} LastMember(sem: Semantics, p: Program, i: nat, n: nat, j: nat, b: Arch)
    requires Sorted(p) && n >= 1 && Adjacent(p, i, n) && j == i + n
    requires NoTransfers(MembersAt(p, i, n)) && AllFramed(sem, MembersAt(p, i, n))
    ensures MembersAt(p, i, n)[n - 1] == p[j].insn
    ensures ScalarStep(sem, p, State(p[j].insn.addr, b)) == Some(State(EndOf(p[j].insn), Apply(sem(p[j].insn, b), b)))
  {
    var m := p[j].insn;
    assert MembersAt(p, i, n)[n - 1] == m;
    FallsThrough(sem, m, b);
    OneStep(sem, p, j, b);
  }

  /** Consecutive instructions that do not transfer control run to the end. */
  lemma {:induction false} StraightSteps(sem: Semantics, p: Program, i: nat, n: nat, a: Arch)
    requires Sorted(p) && n >= 1 && Adjacent(p, i, n)
    requires NoTransfers(MembersAt(p, i, n)) && AllFramed(sem, MembersAt(p, i, n))
    ensures Steps(sem, p, State(p[i + 1].insn.addr, a), n) == Some(SequentialEnd(sem, MembersAt(p, i, n), a))
    decreases n
  {
    var ms, s := MembersAt(p, i, n), State(p[i + 1].insn.addr, a);
    if n == 1 {
      assert Steps(sem, p, s, 0) == Some(s);
      assert ms[..0] == [] && ExecAll(sem, [], a) == a;
      LastMember(sem, p, i, n, i + n, a);
    } else {
      var init := MembersAt(p, i, n - 1);
      assert init == ms[..n - 1];
      assert init[n - 2] == p[i + n - 1].insn;
      StraightSteps(sem, p, i, n - 1, a);
      LastMember(sem, p, i, n, i + n, ExecAll(sem, init, a));
    }
  }

  lemma {:induction false} MembersFramed(sem: Semantics, p: Program, i: nat, n: nat)
    requires i + n < |p| && ProgramFramed(sem, p)
    ensures AllFramed(sem, MembersAt(p, i, n))
  {
    forall m | m in MembersAt(p, i, n) ensures Framed(sem, m) {
      var k :| 0 <= k < n && m == MembersAt(p, i, n)[k];
      assert m == p[i + 1 + k].insn && p[i + 1 + k] in p;
    }
  }

  lemma {:induction false} SingleWrites(pre: RegFile, e: Effect, post: RegFile)
    requires WriteBack(pre, [e], post)
    ensures post == WriteRegs(pre, e.wb)
  {
    var es := [e];
    forall r | 0 <= r < 64 ensures post[r] == WriteRegs(pre, e.wb)[r] {
      var reg: Reg := r;
      if r in e.wb {
        assert es[0] == e && Written(es, reg);
      } else {
        assert !Written(es, reg);
      }
    }
    assert post == WriteRegs(pre, e.wb);
  }

  /** A bundle of one is the instruction itself, whatever its class. */
  lemma {:induction false} SingleIssue(sem: Semantics, m: Insn, a: Arch, t: State)
    ensures Issue(sem, [m], a, t) <==> t == After(sem(m, a), m, a)
  {
    var es := Lanes(sem, [m], a);
    var e := sem(m, a);
    assert es == [] + [e];
    WriteBackSnoc(a.regs, [], a.regs, e);
    if Issue(sem, [m], a, t) {
      SingleWrites(a.regs, e, t.arch.regs);
    }
  }

  lemma {:induction false} PassesHint(sem: Semantics, p: Program, i: nat, s: State)
    requires ProgramFramed(sem, p) && HintsAreNops(p) && Sorted(p) && i < |p| - 1 && p[i].insn.addr == s.pc
    requires p[i].hint.Some? && EndOf(p[i].insn) == p[i + 1].insn.addr
    ensures Steps(sem, p, s, 1) == Some(State(p[i + 1].insn.addr, s.arch))
  {
    HintIsNop(sem, p, i, s.arch);
    FetchAt(p, i);
    assert Steps(sem, p, s, 0) == Some(s);
  }

  lemma {:induction false} OneMember(sem: Semantics, p: Program, i: nat, a: Arch, t: State)
    requires Sorted(p) && i + 1 < |p|
    ensures Issue(sem, MembersAt(p, i, 1), a, t) <==> Steps(sem, p, State(p[i + 1].insn.addr, a), 1) == Some(t)
  {
    var m, u := p[i + 1].insn, State(p[i + 1].insn.addr, a);
    assert MembersAt(p, i, 1) == [m];
    SingleIssue(sem, m, a, t);
    OneStep(sem, p, i + 1, a);
    assert Steps(sem, p, u, 0) == Some(u);
  }

  /** The members of a safe bundle, in parallel and in order. */
  lemma {:induction false} MembersRefine(sem: Semantics, p: Program, i: nat, n: nat, a: Arch, t: State)
    requires Sorted(p) && n >= 1 && Adjacent(p, i, n) && AllFramed(sem, MembersAt(p, i, n))
    requires Accepted(n, MembersAt(p, i, n)) && (n >= 2 ==> !Control(MembersAt(p, i, n)[0]))
    ensures Issue(sem, MembersAt(p, i, n), a, t) <==> Steps(sem, p, State(p[i + 1].insn.addr, a), n) == Some(t)
  {
    if n == 1 {
      OneMember(sem, p, i, a, t);
    } else {
      var ms := MembersAt(p, i, n);
      OneBundleSound(sem, ms, a, t);
      MembersStraight(ms);
      StraightSteps(sem, p, i, n, a);
    }
  }

  lemma {:induction false} BundleRefines(sem: Semantics, p: Program, i: nat, n: nat, s: State, t: State)
    requires Sorted(p) && n >= 1 && Adjacent(p, i, n) && AllFramed(sem, MembersAt(p, i, n))
    requires Accepted(n, MembersAt(p, i, n)) && (n >= 2 ==> !Control(MembersAt(p, i, n)[0]))
    requires Steps(sem, p, s, 1) == Some(State(p[i + 1].insn.addr, s.arch))
    ensures Issue(sem, MembersAt(p, i, n), s.arch, t) <==> Steps(sem, p, s, 1 + n) == Some(t)
  {
    MembersRefine(sem, p, i, n, s.arch, t);
    StepsAdd(sem, p, s, 1, State(p[i + 1].insn.addr, s.arch), n);
  }

  /** An honoured bundle is the stock core's hint step followed by its member steps, and can end
      nowhere else. */
  lemma {:induction false} HonourRefines(sem: Semantics, p: Program, i: nat, s: State, t: State)
    requires ProgramSafe(p) && ProgramFramed(sem, p)
    requires i < |p| && p[i].insn.addr == s.pc && Forms(p, i)
    ensures HonourStep(sem, p, i, s, t) <==> Steps(sem, p, s, 1 + Len(p, i)) == Some(t)
  {
    var n := Len(p, i);
    assert HintSafe(p, i);
    MembersFramed(sem, p, i, n);
    PassesHint(sem, p, i, s);
    BundleRefines(sem, p, i, n, s, t);
  }

  /** Every step of the STARBUG machine is one or two to five steps of the stock core. */
  lemma {:induction false} StepRefines(sem: Semantics, p: Program, s: State, t: State) returns (k: nat)
    requires ProgramSafe(p) && ProgramFramed(sem, p) && StarbugStep(sem, p, s, t)
    ensures 1 <= k <= 1 + MAX_BUNDLE && Reaches(sem, p, s, k, t)
  {
    var i := Fetch(p, s.pc).value;
    if ScalarStep(sem, p, s) == Some(t) {
      k := 1;
      assert Steps(sem, p, s, 0) == Some(s);
    } else {
      k := 1 + Len(p, i);
      HonourRefines(sem, p, i, s, t);
    }
  }

  // ----- whole runs -----

  /** One or more steps of the stock core. */
  ghost predicate Advances(sem: Semantics, p: Program, s: State, t: State) {
    exists k :: k >= 1 && Reaches(sem, p, s, k, t)
  }

  ghost predicate AdvancingRun(sem: Semantics, p: Program, tr: seq<State>) {
    forall k :: 0 <= k < |tr| - 1 ==> Advances(sem, p, tr[k], tr[k + 1])
  }

  lemma {:induction false} RunAdvances(sem: Semantics, p: Program, tr: seq<State>)
    requires ProgramSafe(p) && ProgramFramed(sem, p) && StarbugRun(sem, p, tr)
    ensures AdvancingRun(sem, p, tr)
  {
    forall k | 0 <= k < |tr| - 1 ensures Advances(sem, p, tr[k], tr[k + 1]) {
      var j := StepRefines(sem, p, tr[k], tr[k + 1]);
    }
  }

  lemma {:induction false} AdvancingReaches(sem: Semantics, p: Program, tr: seq<State>) returns (k: nat)
    requires tr != [] && AdvancingRun(sem, p, tr)
    ensures k >= |tr| - 1 && Reaches(sem, p, tr[0], k, tr[|tr| - 1])
    decreases |tr|
  {
    if |tr| == 1 {
      k := 0;
    } else {
      var n := |tr| - 1;
      var j := AdvancingReaches(sem, p, tr[..n]);
      assert Advances(sem, p, tr[n - 1], tr[n - 1 + 1]);
      var l :| l >= 1 && Reaches(sem, p, tr[n - 1], l, tr[n]);
      StepsAdd(sem, p, tr[0], j, tr[n - 1], l);
      k := j + l;
    }
  }

  /** Whole-run refinement. Whatever hints are honoured or declined, each state the STARBUG
      machine reaches is one the stock core reaches, in at least as many steps. */
  lemma {:induction false} RunRefines(sem: Semantics, p: Program, tr: seq<State>) returns (k: nat)
    requires ProgramSafe(p) && ProgramFramed(sem, p) && StarbugRun(sem, p, tr)
    ensures k >= |tr| - 1 && Reaches(sem, p, tr[0], k, tr[|tr| - 1])
  {
    RunAdvances(sem, p, tr);
    k := AdvancingReaches(sem, p, tr);
  }

  lemma {:induction false} NothingAfter(sem: Semantics, p: Program, s: State, k: nat, t: State, j: nat)
    requires Reaches(sem, p, s, k, t) && Halted(p, t) && Steps(sem, p, s, j).Some?
    ensures j <= k
  {
    assert Steps(sem, p, s, k + 1).None?;
    if j > k { StepsStop(sem, p, s, k + 1, j); }
  }

  /** The stock core is deterministic and stops when it halts. */
  lemma {:induction false} HaltIsFinal(sem: Semantics, p: Program, s: State, j: nat, u: State, k: nat, t: State)
    requires Reaches(sem, p, s, j, u) && Reaches(sem, p, s, k, t) && Halted(p, t)
    ensures j <= k && Reaches(sem, p, u, k - j, t)
    ensures Halted(p, u) ==> u == t
  {
    NothingAfter(sem, p, s, k, t, j);
    StepsAdd(sem, p, s, j, u, k - j);
    if Halted(p, u) { NothingAfter(sem, p, s, j, u, k); }
  }

  lemma {:induction false} StillToGo(sem: Semantics, p: Program, s: State, j: nat, u: State, k: nat, t: State)
      returns (rest: nat)
    requires Reaches(sem, p, s, j, u) && Reaches(sem, p, s, k, t) && Halted(p, t)
    ensures j <= k && Reaches(sem, p, u, rest, t) && (Halted(p, u) ==> u == t)
    ensures j + rest == k
  {
    HaltIsFinal(sem, p, s, j, u, k, t);
    rest := k - j;
  }

  /** If the stock core halts, no STARBUG run is longer, every one can still be completed to the
      same final state, and every one that has halted is in it. */
  lemma {:induction false} HaltingRunsAgree(sem: Semantics, p: Program, tr: seq<State>, k: nat, t: State)
      returns (rest: nat)
    requires ProgramSafe(p) && ProgramFramed(sem, p) && StarbugRun(sem, p, tr)
    requires Reaches(sem, p, tr[0], k, t) && Halted(p, t)
    ensures |tr| - 1 <= k
    ensures Reaches(sem, p, tr[|tr| - 1], rest, t)
    ensures Halted(p, tr[|tr| - 1]) ==> tr[|tr| - 1] == t
  {
    var last := tr[|tr| - 1];
    var j := RunRefines(sem, p, tr);
    rest := StillToGo(sem, p, tr[0], j, last, k, t);
  }

  /** A run that has not halted can always go on, and a stock run is itself a STARBUG run. */
  lemma {:induction false} DecliningIsAllowed(sem: Semantics, p: Program, s: State)
    ensures Halted(p, s) <==> ScalarStep(sem, p, s).None?
    ensures !Halted(p, s) ==> StarbugStep(sem, p, s, ScalarStep(sem, p, s).value)
  {
  }
}
