/** Issue cycles: what honouring a bundle saves, over whole runs, for any fixed choice of which
    hints the hardware honours. */
module Cycles {
  import opened Wrappers
  import opened Isa
  import Counters
  import opened Machine
  import opened Bundles
  import opened Run
  import opened Visits

  /** A fixed choice, from a hint's address and its members, of what the hardware honours. */
  type Policy = (nat, seq<Insn>) -> bool

  predicate Honours(p: Program, acc: Policy, i: nat)
    requires i < |p|
  {
    Forms(p, i) && i + Len(p, i) < |p| && acc(p[i].insn.addr, MembersAt(p, i, Len(p, i)))
  }

  ghost predicate PolicyStep(sem: Semantics, p: Program, acc: Policy, s: State, t: State) {
    var r := Fetch(p, s.pc);
    r.Some? && if Honours(p, acc, r.value) then HonourStep(sem, p, r.value, s, t)
               else ScalarStep(sem, p, s) == Some(t)
  }

  ghost predicate PolicyRun(sem: Semantics, p: Program, acc: Policy, tr: seq<State>) {
    tr != [] && forall k :: 0 <= k < |tr| - 1 ==> PolicyStep(sem, p, acc, tr[k], tr[k + 1])
  }

  /** Each run under a policy is a run of the STARBUG machine. */
  lemma {:induction false} PolicyRunIsRun(sem: Semantics, p: Program, acc: Policy, tr: seq<State>)
    requires PolicyRun(sem, p, acc, tr)
    ensures StarbugRun(sem, p, tr)
  {
    forall k | 0 <= k < |tr| - 1 ensures StarbugStep(sem, p, tr[k], tr[k + 1]) {
      assert PolicyStep(sem, p, acc, tr[k], tr[k + 1]);
    }
  }

  /** No member of an honoured bundle heads an honoured bundle. */
  ghost predicate NoneInside(p: Program, acc: Policy) {
    forall i, j :: 0 <= i < |p| && Honours(p, acc, i) && i < j <= i + Len(p, i) ==> !Honours(p, acc, j)
  }

  /** Members behind the hint at `j`, if it is honoured, once for each visit to it. */
  function CellSaved(sem: Semantics, p: Program, acc: Policy, s: State, k: nat, j: nat): nat
    requires j < |p|
  {
    if Honours(p, acc, j) then Count(sem, p, s, k, p[j].insn.addr) * Len(p, j) else 0
  }

  /** The same for the first `n` cells. */
  function Saved(sem: Semantics, p: Program, acc: Policy, s: State, k: nat, n: nat): nat
    requires n <= |p|
  {
    if n == 0 then 0
    else Saved(sem, p, acc, s, k, n - 1) + CellSaved(sem, p, acc, s, k, n - 1)
  }

  function Gain(p: Program, acc: Policy, i: nat): nat
    requires i < |p|
  {
    if Honours(p, acc, i) then Len(p, i) else 0
  }

  lemma {:induction false} SavedNothing(sem: Semantics, p: Program, acc: Policy, s: State, n: nat)
    requires n <= |p|
    ensures Saved(sem, p, acc, s, 0, n) == 0
    decreases n
  {
    if n > 0 { SavedNothing(sem, p, acc, s, n - 1); }
  }

  lemma {:induction false} CountStep(sem: Semantics, p: Program, s: State, k: nat, i: nat, j: nat)
    requires Sorted(p) && i < |p| && j < |p| && PcAt(sem, p, s, k) == Some(p[i].insn.addr)
    ensures Count(sem, p, s, k + 1, p[j].insn.addr)
            == Count(sem, p, s, k, p[j].insn.addr) + if i == j then 1 else 0
  {
    if i < j { assert p[i].insn.addr < p[j].insn.addr; }
    if j < i { assert p[j].insn.addr < p[i].insn.addr; }
  }

  lemma {:induction false} SavedCell(sem: Semantics, p: Program, acc: Policy, s: State, k: nat, j: nat, i: nat)
    requires Sorted(p) && i < |p| && j < |p| && PcAt(sem, p, s, k) == Some(p[i].insn.addr)
    ensures CellSaved(sem, p, acc, s, k + 1, j)
            == CellSaved(sem, p, acc, s, k, j) + if i == j then Gain(p, acc, i) else 0
  {
    CountStep(sem, p, s, k, i, j);
    if Honours(p, acc, j) {
      Counters.Distribute(Len(p, j), Count(sem, p, s, k, p[j].insn.addr), 1);
    }
  }

  /** One more scalar step, at cell `i`. */
  lemma {:induction false} SavedStep(sem: Semantics, p: Program, acc: Policy, s: State, k: nat, n: nat, i: nat)
    requires Sorted(p) && n <= |p| && i < |p| && PcAt(sem, p, s, k) == Some(p[i].insn.addr)
    ensures Saved(sem, p, acc, s, k + 1, n) == Saved(sem, p, acc, s, k, n) + if i < n then Gain(p, acc, i) else 0
    decreases n
  {
    if n > 0 {
      SavedStep(sem, p, acc, s, k, n - 1, i);
      SavedCell(sem, p, acc, s, k, n - 1, i);
    }
  }

  lemma {:induction false} PrefixStraight(sem: Semantics, p: Program, i: nat, n: nat, j: nat)
    requires 1 <= j <= n && Adjacent(p, i, n)
    requires NoTransfers(MembersAt(p, i, n)) && AllFramed(sem, MembersAt(p, i, n))
    ensures Adjacent(p, i, j) && NoTransfers(MembersAt(p, i, j)) && AllFramed(sem, MembersAt(p, i, j))
  {
    var ms, ns := MembersAt(p, i, n), MembersAt(p, i, j);
    forall m | m in ns ensures m in ms {
      var k :| 0 <= k < j && ns[k] == m;
      assert ms[k] == m;
    }
  }

  lemma {:induction false} EndsBefore(p: Program, i: nat, j: nat, m: nat)
    requires 0 < j && Adjacent(p, i, j + 1) && m == i + 1 + j
    ensures EndOf(MembersAt(p, i, j)[j - 1]) == p[m].insn.addr
  {
    assert MembersAt(p, i, j)[j - 1] == p[m - 1].insn;
    assert EndOf(p[m - 1].insn) == p[m - 1 + 1].insn.addr;
  }

  lemma {:induction false} HintRunsStraight(sem: Semantics, p: Program, i: nat, j: nat)
    requires RunsSafely(sem, p) && i < |p| && Forms(p, i) && 1 <= j < Len(p, i)
    ensures Sorted(p) && Adjacent(p, i, j) && Adjacent(p, i, j + 1)
    ensures NoTransfers(MembersAt(p, i, j)) && AllFramed(sem, MembersAt(p, i, j))
  {
    var n := Len(p, i);
    assert HintSafe(p, i);
    MembersFramed(sem, p, i, n);
    MembersStraight(MembersAt(p, i, n));
    PrefixStraight(sem, p, i, n, j);
  }

  /** Where the stock core is while it runs the members of a safe bundle. */
  lemma {:induction false} MemberPc(sem: Semantics, p: Program, i: nat, j: nat, m: nat, a: Arch)
    requires RunsSafely(sem, p) && i < |p| && Forms(p, i) && j < Len(p, i) && m == i + 1 + j < |p|
    ensures Steps(sem, p, State(p[i + 1].insn.addr, a), j).Some?
    ensures Steps(sem, p, State(p[i + 1].insn.addr, a), j).value.pc == p[m].insn.addr
  {
    if j > 0 {
      HintRunsStraight(sem, p, i, j);
      StraightSteps(sem, p, i, j, a);
      EndsBefore(p, i, j, m);
    }
  }

  /** After `j` of its members, a bundle honoured once has gained once. */
  ghost predicate SavedSoFar(sem: Semantics, p: Program, acc: Policy, s0: State, k: nat, i: nat, j: nat)
    requires i < |p|
  {
    Saved(sem, p, acc, s0, k + 1 + j, |p|) == Saved(sem, p, acc, s0, k, |p|) + Gain(p, acc, i)
  }

  /** After the hint at step `k`, the stock core is at member `j`. */
  predicate AtMember(sem: Semantics, p: Program, s0: State, k: nat, i: nat, j: nat)
    requires i < |p|
  {
    i + 1 + j < |p| && PcAt(sem, p, s0, k + 1 + j) == Some(p[i + 1 + j].insn.addr)
  }

  lemma {:induction false} MemberSaves(sem: Semantics, p: Program, acc: Policy, s0: State, k: nat, i: nat, j: nat)
    requires Sorted(p) && i < |p| && AtMember(sem, p, s0, k, i, j) && !Honours(p, acc, i + 1 + j)
    requires SavedSoFar(sem, p, acc, s0, k, i, j)
    ensures SavedSoFar(sem, p, acc, s0, k, i, j + 1)
  {
    SavedStep(sem, p, acc, s0, k + 1 + j, |p|, i + 1 + j);
  }

  lemma {:induction false} MembersSave(sem: Semantics, p: Program, acc: Policy, s0: State, k: nat, i: nat, j: nat)
    requires Sorted(p) && i < |p| && Honours(p, acc, i) && NoneInside(p, acc) && j <= Len(p, i)
    requires forall l :: 0 <= l < Len(p, i) ==> AtMember(sem, p, s0, k, i, l)
    requires SavedSoFar(sem, p, acc, s0, k, i, 0)
    ensures SavedSoFar(sem, p, acc, s0, k, i, j)
    decreases j
  {
    if j > 0 {
      MembersSave(sem, p, acc, s0, k, i, j - 1);
      assert AtMember(sem, p, s0, k, i, j - 1) && !Honours(p, acc, i + j);
      MemberSaves(sem, p, acc, s0, k, i, j - 1);
    }
  }

  lemma {:induction false} HintStep(sem: Semantics, p: Program, i: nat, s: State)
    requires ProgramSafe(p) && ProgramFramed(sem, p) && i < |p| && p[i].insn.addr == s.pc && Forms(p, i)
    ensures i + 1 < |p| && Steps(sem, p, s, 1) == Some(State(p[i + 1].insn.addr, s.arch))
  {
    assert HintSafe(p, i);
    HintIsNop(sem, p, i, s.arch);
    FetchAt(p, i);
    assert Steps(sem, p, s, 0) == Some(s);
  }

  lemma {:induction false} ToFirstMember(sem: Semantics, p: Program, i: nat, s: State)
    requires RunsSafely(sem, p) && i < |p| && Forms(p, i) && s.pc == p[i].insn.addr
    ensures i + 1 < |p| && Steps(sem, p, s, 1) == Some(State(p[i + 1].insn.addr, s.arch))
  {
    HintStep(sem, p, i, s);
  }

  lemma {:induction false} BundleFits(sem: Semantics, p: Program, i: nat)
    requires RunsSafely(sem, p) && i < |p| && Forms(p, i)
    ensures i + Len(p, i) < |p| && HintSafe(p, i) && Sorted(p)
  {
  }

  lemma {:induction false} BundleRoom(sem: Semantics, p: Program, i: nat)
    requires RunsSafely(sem, p) && i < |p| && Forms(p, i)
    ensures i + Len(p, i) < |p|
  {
    BundleFits(sem, p, i);
  }

  lemma {:induction false} StepsAfter(sem: Semantics, p: Program, s: State, k: nat, u: State, j: nat, l: nat)
    requires Steps(sem, p, s, k) == Some(u) && l == k + j
    ensures Steps(sem, p, s, l) == Steps(sem, p, u, j)
  {
    StepsAdd(sem, p, s, k, u, j);
  }

  lemma {:induction false} LandOnMember(sem: Semantics, p: Program, s0: State, k: nat, s: State, u: State, i: nat,
                                        j: nat, m: nat, l: nat)
    requires m == i + 1 + j < |p| && l == k + 1 + j
    requires Steps(sem, p, s0, k) == Some(s) && Steps(sem, p, s, 1) == Some(u)
    requires Steps(sem, p, u, j).Some? && Steps(sem, p, u, j).value.pc == p[m].insn.addr
    ensures AtMember(sem, p, s0, k, i, j)
  {
    StepsAfter(sem, p, s0, k, s, 1, k + 1);
    StepsAfter(sem, p, s0, k + 1, u, j, l);
    assert PcAt(sem, p, s0, l) == Some(p[m].insn.addr);
  }

  lemma {:induction false} ReachMember(sem: Semantics, p: Program, s0: State, k: nat, s: State, i: nat, j: nat, m: nat)
    requires RunsSafely(sem, p) && i < |p| && p[i].insn.addr == s.pc && Forms(p, i)
    requires Steps(sem, p, s0, k) == Some(s) && j < Len(p, i) && m == i + 1 + j < |p|
    ensures AtMember(sem, p, s0, k, i, j)
  {
    ToFirstMember(sem, p, i, s);
    MemberPc(sem, p, i, j, m, s.arch);
    LandOnMember(sem, p, s0, k, s, State(p[i + 1].insn.addr, s.arch), i, j, m, k + 1 + j);
  }

  lemma {:induction false} VisitsMembers(sem: Semantics, p: Program, s0: State, k: nat, s: State, i: nat)
    requires RunsSafely(sem, p) && i < |p| && p[i].insn.addr == s.pc
    requires Steps(sem, p, s0, k) == Some(s) && Forms(p, i)
    ensures forall j :: 0 <= j < Len(p, i) ==> AtMember(sem, p, s0, k, i, j)
  {
    BundleRoom(sem, p, i);
    forall j | 0 <= j < Len(p, i) ensures AtMember(sem, p, s0, k, i, j) {
      ReachMember(sem, p, s0, k, s, i, j, i + 1 + j);
    }
  }

  /** A visit to an honoured hint and to all its members is worth the members. */
  lemma {:induction false} HonourSaves(sem: Semantics, p: Program, acc: Policy, s0: State, k: nat, i: nat)
    requires Sorted(p) && NoneInside(p, acc) && i < |p| && Honours(p, acc, i)
    requires PcAt(sem, p, s0, k) == Some(p[i].insn.addr)
    requires forall l :: 0 <= l < Len(p, i) ==> AtMember(sem, p, s0, k, i, l)
    ensures Saved(sem, p, acc, s0, k + 1 + Len(p, i), |p|) == Saved(sem, p, acc, s0, k, |p|) + Len(p, i)
  {
    SavedStep(sem, p, acc, s0, k, |p|, i);
    MembersSave(sem, p, acc, s0, k, i, Len(p, i));
  }

  ghost predicate Accounted(sem: Semantics, p: Program, acc: Policy, s0: State, m: nat, k: nat) {
    k == m + Saved(sem, p, acc, s0, k, |p|)
  }

  lemma {:induction false} HonourAccounted(sem: Semantics, p: Program, acc: Policy, s0: State, m: nat, j: nat, s: State,
                                           t: State, n: nat, k: nat)
    requires Steps(sem, p, s0, j) == Some(s) && Steps(sem, p, s, 1 + n) == Some(t) && k == j + 1 + n
    requires Saved(sem, p, acc, s0, k, |p|) == Saved(sem, p, acc, s0, j, |p|) + n
    requires Accounted(sem, p, acc, s0, m, j)
    ensures Reaches(sem, p, s0, k, t) && Accounted(sem, p, acc, s0, m + 1, k)
  {
    StepsAdd(sem, p, s0, j, s, 1 + n);
  }

  lemma {:induction false} PlainAccounted(sem: Semantics, p: Program, acc: Policy, s0: State, m: nat, j: nat,
                                          s: State, t: State)
    requires Sorted(p) && Fetch(p, s.pc).Some? && !Honours(p, acc, Fetch(p, s.pc).value)
    requires Reaches(sem, p, s0, j, s) && ScalarStep(sem, p, s) == Some(t) && Accounted(sem, p, acc, s0, m, j)
    ensures Reaches(sem, p, s0, j + 1, t) && Accounted(sem, p, acc, s0, m + 1, j + 1)
  {
    SavedStep(sem, p, acc, s0, j, |p|, Fetch(p, s.pc).value);
  }

  lemma {:induction false} VisitSaves(sem: Semantics, p: Program, acc: Policy, s0: State, m: nat, j: nat, s: State,
                                      t: State, i: nat, n: nat, k: nat)
    requires Sorted(p) && NoneInside(p, acc) && i < |p| && p[i].insn.addr == s.pc && Honours(p, acc, i)
    requires n == Len(p, i) && k == j + 1 + n && Reaches(sem, p, s0, j, s) && Steps(sem, p, s, 1 + n) == Some(t)
    requires forall l :: 0 <= l < Len(p, i) ==> AtMember(sem, p, s0, j, i, l)
    requires Accounted(sem, p, acc, s0, m, j)
    ensures Reaches(sem, p, s0, k, t) && Accounted(sem, p, acc, s0, m + 1, k)
  {
    HonourSaves(sem, p, acc, s0, j, i);
    HonourAccounted(sem, p, acc, s0, m, j, s, t, n, k);
  }

  /** The program is safe to run with its hints honoured as the policy says. */
  ghost predicate Fit(sem: Semantics, p: Program, acc: Policy) {
    ProgramSafe(p) && ProgramFramed(sem, p) && NoneInside(p, acc)
  }

  lemma {:induction false} HonouredSaves(sem: Semantics, p: Program, acc: Policy, s0: State, m: nat, j: nat, s: State,
                                         t: State, i: nat)
      returns (k: nat)
    requires Fit(sem, p, acc)
    requires i < |p| && p[i].insn.addr == s.pc && Honours(p, acc, i) && HonourStep(sem, p, i, s, t)
    requires Reaches(sem, p, s0, j, s) && Accounted(sem, p, acc, s0, m, j)
    ensures Reaches(sem, p, s0, k, t) && Accounted(sem, p, acc, s0, m + 1, k)
  {
    var n := Len(p, i);
    k := j + 1 + n;
    HonourRefines(sem, p, i, s, t);
    VisitsMembers(sem, p, s0, j, s, i);
    VisitSaves(sem, p, acc, s0, m, j, s, t, i, n, k);
  }

  /** One step under the policy, and the stock steps it stands for. */
  lemma {:induction false} StepSaves(sem: Semantics, p: Program, acc: Policy, s0: State, m: nat, j: nat, s: State,
                                     t: State, i: nat)
      returns (k: nat)
    requires Fit(sem, p, acc) && PolicyStep(sem, p, acc, s, t) && Fetch(p, s.pc) == Some(i)
    requires Reaches(sem, p, s0, j, s) && Accounted(sem, p, acc, s0, m, j)
    ensures Reaches(sem, p, s0, k, t) && Accounted(sem, p, acc, s0, m + 1, k)
  {
    if Honours(p, acc, i) {
      k := HonouredSaves(sem, p, acc, s0, m, j, s, t, i);
    } else {
      k := j + 1;
      PlainAccounted(sem, p, acc, s0, m, j, s, t);
    }
  }

  /** The identity: a run under a policy is shorter than the stock run to the same state by the
      members behind the hints it honours, counted once for each time the stock run visits the
      hint. */
  lemma {:induction false} PolicySaves(sem: Semantics, p: Program, acc: Policy, tr: seq<State>) returns (k: nat)
    requires Fit(sem, p, acc) && PolicyRun(sem, p, acc, tr)
    ensures Reaches(sem, p, tr[0], k, tr[|tr| - 1]) && Accounted(sem, p, acc, tr[0], |tr| - 1, k)
    decreases |tr|
  {
    var n := |tr| - 1;
    if n == 0 {
      k := 0;
      SavedNothing(sem, p, acc, tr[0], |p|);
    } else {
      var j := PolicySaves(sem, p, acc, tr[..n]);
      assert PolicyStep(sem, p, acc, tr[n - 1], tr[n - 1 + 1]);
      k := StepSaves(sem, p, acc, tr[0], n - 1, j, tr[n - 1], tr[n], Fetch(p, tr[n - 1].pc).value);
    }
  }

  lemma {:induction false} PolicyRunCons(sem: Semantics, p: Program, acc: Policy, s: State, tr: seq<State>)
    requires PolicyRun(sem, p, acc, tr) && PolicyStep(sem, p, acc, s, tr[0])
    ensures PolicyRun(sem, p, acc, [s] + tr) && ([s] + tr)[|tr|] == tr[|tr| - 1]
  {
    var all := [s] + tr;
    forall k | 0 <= k < |all| - 1 ensures PolicyStep(sem, p, acc, all[k], all[k + 1]) {
      if k > 0 { assert PolicyStep(sem, p, acc, tr[k - 1], tr[k - 1 + 1]); }
    }
  }

  lemma {:induction false} StepOn(sem: Semantics, p: Program, s: State, v: State, m: nat, w: State, j: nat, l: nat)
    requires Sorted(p) && j < |p| && w.pc == p[j].insn.addr && l == m + 2
    requires Reaches(sem, p, s, 1, v) && Reaches(sem, p, v, m, w)
    ensures Steps(sem, p, s, l).Some?
  {
    OneStep(sem, p, j, w.arch);
    StepsAdd(sem, p, s, 1, v, m + 1);
  }

  /** The stock core gets past an honoured hint and all its members. */
  lemma {:induction false} HonourEnd(sem: Semantics, p: Program, i: nat, s: State, m: nat, j: nat, l: nat)
      returns (u: State)
    requires RunsSafely(sem, p) && i < |p| && p[i].insn.addr == s.pc && Forms(p, i)
    requires m + 1 == Len(p, i) && j == i + 1 + m && l == m + 2
    ensures Steps(sem, p, s, l) == Some(u)
  {
    BundleFits(sem, p, i);
    ToFirstMember(sem, p, i, s);
    MemberPc(sem, p, i, m, j, s.arch);
    var v := State(p[i + 1].insn.addr, s.arch);
    var w := Steps(sem, p, v, m).value;
    StepOn(sem, p, s, v, m, w, j, l);
    u := Steps(sem, p, s, l).value;
  }

  lemma {:induction false} HonourHere(sem: Semantics, p: Program, acc: Policy, s: State, u: State, i: nat)
    requires Sorted(p) && i < |p| && p[i].insn.addr == s.pc && Honours(p, acc, i) && HonourStep(sem, p, i, s, u)
    ensures PolicyStep(sem, p, acc, s, u)
  {
    FetchAt(p, i);
  }

  /** What is left of a halting stock run of `k` steps after one step of the policy. */
  ghost predicate Closer(sem: Semantics, p: Program, acc: Policy, s: State, k: nat, t: State, u: State, rest: nat) {
    PolicyStep(sem, p, acc, s, u) && rest < k && Reaches(sem, p, u, rest, t)
  }

  lemma {:induction false} LeftAfter(sem: Semantics, p: Program, s: State, d: nat, u: State, k: nat, t: State)
      returns (rest: nat)
    requires d >= 1 && Reaches(sem, p, s, d, u) && Reaches(sem, p, s, k, t) && Halted(p, t)
    ensures rest < k && Reaches(sem, p, u, rest, t)
  {
    rest := StillToGo(sem, p, s, d, u, k, t);
  }

  /** Honouring a safe hint has an outcome. */
  lemma {:induction false} HonourSettles(sem: Semantics, p: Program, i: nat, s: State, d: nat) returns (u: State)
    requires RunsSafely(sem, p) && i < |p| && p[i].insn.addr == s.pc && Forms(p, i) && d == 1 + Len(p, i)
    ensures HonourStep(sem, p, i, s, u) && Reaches(sem, p, s, d, u)
  {
    u := HonourEnd(sem, p, i, s, d - 2, i + d - 1, d);
    HonourRefines(sem, p, i, s, u);
  }

  lemma {:induction false} HonourTo(sem: Semantics, p: Program, acc: Policy, s: State, i: nat)
      returns (u: State, d: nat)
    requires Fit(sem, p, acc) && i < |p| && p[i].insn.addr == s.pc && Honours(p, acc, i)
    ensures PolicyStep(sem, p, acc, s, u) && d >= 1 && Reaches(sem, p, s, d, u)
  {
    d := 1 + Len(p, i);
    u := HonourSettles(sem, p, i, s, d);
    HonourHere(sem, p, acc, s, u, i);
  }

  /** Honouring the hint at `i` has an outcome, and it is on the stock core's way. */
  lemma {:induction false} HonouredStep(sem: Semantics, p: Program, acc: Policy, s: State, k: nat, t: State, i: nat)
      returns (u: State, rest: nat)
    requires Fit(sem, p, acc) && i < |p| && p[i].insn.addr == s.pc && Honours(p, acc, i)
    requires Reaches(sem, p, s, k, t) && Halted(p, t)
    ensures Closer(sem, p, acc, s, k, t, u, rest)
  {
    var d;
    u, d := HonourTo(sem, p, acc, s, i);
    rest := LeftAfter(sem, p, s, d, u, k, t);
  }

  lemma {:induction false} PlainStep(sem: Semantics, p: Program, acc: Policy, s: State, k: nat, t: State)
      returns (u: State, rest: nat)
    requires Fetch(p, s.pc).Some? && !Honours(p, acc, Fetch(p, s.pc).value)
    requires Reaches(sem, p, s, k, t) && Halted(p, t)
    ensures Closer(sem, p, acc, s, k, t, u, rest)
  {
    u := ScalarStep(sem, p, s).value;
    assert Steps(sem, p, s, 0) == Some(s);
    HaltIsFinal(sem, p, s, 1, u, k, t);
    rest := k - 1;
  }

  lemma {:induction false} PolicyMoves(sem: Semantics, p: Program, acc: Policy, s: State, k: nat, t: State)
      returns (u: State, rest: nat)
    requires Fit(sem, p, acc) && !Halted(p, s) && Reaches(sem, p, s, k, t) && Halted(p, t)
    ensures Closer(sem, p, acc, s, k, t, u, rest)
  {
    var i := Fetch(p, s.pc).value;
    if Honours(p, acc, i) {
      u, rest := HonouredStep(sem, p, acc, s, k, t, i);
    } else {
      u, rest := PlainStep(sem, p, acc, s, k, t);
    }
  }

  /** Where the stock core halts, every policy has a complete run. */
  lemma {:induction false} PolicyRunExists(sem: Semantics, p: Program, acc: Policy, s: State, k: nat, t: State)
      returns (tr: seq<State>)
    requires Fit(sem, p, acc) && Reaches(sem, p, s, k, t) && Halted(p, t)
    ensures PolicyRun(sem, p, acc, tr) && StarbugRun(sem, p, tr) && tr[0] == s && tr[|tr| - 1] == t
    decreases k
  {
    if Halted(p, s) {
      assert Steps(sem, p, s, 0) == Some(s);
      HaltIsFinal(sem, p, s, 0, s, k, t);
      tr := [s];
    } else {
      var u, rest := PolicyMoves(sem, p, acc, s, k, t);
      tr := PolicyRunExists(sem, p, acc, u, rest, t);
      PolicyRunCons(sem, p, acc, s, tr);
      tr := [s] + tr;
    }
    PolicyRunIsRun(sem, p, acc, tr);
  }

  /** The same for complete runs, whose length is fixed. */
  lemma {:induction false} CompleteRunSaves(sem: Semantics, p: Program, acc: Policy, tr: seq<State>, k: nat, t: State)
    requires Fit(sem, p, acc) && PolicyRun(sem, p, acc, tr)
    requires Halted(p, tr[|tr| - 1]) && Reaches(sem, p, tr[0], k, t) && Halted(p, t)
    ensures tr[|tr| - 1] == t && Accounted(sem, p, acc, tr[0], |tr| - 1, k)
  {
    var j := PolicySaves(sem, p, acc, tr);
    HaltIsFinal(sem, p, tr[0], j, tr[|tr| - 1], k, t);
    HaltIsFinal(sem, p, tr[0], k, t, j, tr[|tr| - 1]);
  }
}
