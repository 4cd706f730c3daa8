/** A program with hints against the same program without them: the instructions stand elsewhere and
    transfers are relocated, and still every run of the one is a run of the other. */
module Relocation {
  import opened Wrappers
  import opened Isa
  import opened Machine
  import opened Run
  import opened BlockRun

  // ----- where the two programs are in step -----

  /** The instructions, hints not counted, ahead of cell `i`. */
  function Rank(p: Program, i: nat): nat
    requires i <= |p|
  {
    if i == 0 then 0 else Rank(p, i - 1) + if p[i - 1].hint.Some? then 0 else 1
  }

  /** Cell `e` of the hinted program is instruction `j` of the other, or a hint in front of it. */
  ghost predicate Facing(p: Program, q: Program, e: nat, j: nat) {
    e < |p| && j < |q| && Rank(p, e) == j
  }

  ghost predicate Together(p: Program, q: Program, a: nat, b: nat) {
    exists e: nat, j: nat :: Facing(p, q, e, j) && p[e].insn.addr == a && q[j].insn.addr == b
  }

  /** Both programs have been left: for the same address, or at their ends. */
  ghost predicate Outside(p: Program, q: Program, a: nat, b: nat)
    requires p != [] && q != []
  {
    && Fetch(p, a).None? && Fetch(q, b).None?
    && (a == b || (a == BlockEnd(p) && b == BlockEnd(q)))
  }

  ghost predicate PcMatch(p: Program, q: Program, a: nat, b: nat)
    requires p != [] && q != []
  {
    Together(p, q, a, b) || Outside(p, q, a, b)
  }

  /** The same registers and memory, at corresponding places. */
  ghost predicate Match(p: Program, q: Program, u: State, v: State)
    requires p != [] && q != []
  {
    u.arch == v.arch && PcMatch(p, q, u.pc, v.pc)
  }

  /** Two instructions that do the same from `a`, transfers leading to corresponding places. */
  ghost predicate Alike(sem: Semantics, p: Program, q: Program, x: Insn, y: Insn, a: Arch)
    requires p != [] && q != []
  {
    var e, f := sem(x, a), sem(y, a);
    && Apply(e, a) == Apply(f, a) && (e.target.Some? <==> f.target.Some?)
    && (e.target.Some? ==> PcMatch(p, q, e.target.value, f.target.value))
  }

  /** The instruction at `v` does the same in both programs. */
  ghost predicate AlikeAt(sem: Semantics, p: Program, q: Program, v: State)
    requires p != [] && q != []
  {
    forall e: nat, j: nat :: Facing(p, q, e, j) && p[e].hint.None? && q[j].insn.addr == v.pc ==>
      Alike(sem, p, q, p[e].insn, q[j].insn, v.arch)
  }

  /** And so at every step of the run of the unhinted program from `s`. */
  ghost predicate AlikeAlong(sem: Semantics, p: Program, q: Program, s: State)
    requires p != [] && q != []
  {
    forall m, v :: Reaches(sem, q, s, m, v) ==> AlikeAt(sem, p, q, v)
  }

  /** Both programs without gaps, the first with hints that only advance the pc, each in front of an
      instruction, and with as many instructions as the second. */
  ghost predicate Paired(sem: Semantics, p: Program, q: Program) {
    && p != [] && q != [] && Sorted(p) && Sorted(q) && Touching(p) && Touching(q)
    && SkipsHints(sem, p) && p[|p| - 1].hint.None? && Rank(p, |p|) == |q|
    && EndOf(p[|p| - 1].insn) > p[|p| - 1].insn.addr && EndOf(q[|q| - 1].insn) > q[|q| - 1].insn.addr
  }

  // ----- ranks -----

  lemma {:induction false} RankGrows(p: Program, i: nat, j: nat)
    requires i <= j <= |p|
    ensures Rank(p, i) <= Rank(p, j)
    decreases j
  {
    if i < j { RankGrows(p, i, j - 1); }
  }

  /** In front of the last instruction every cell faces one. */
  lemma {:induction false} RankBelow(p: Program, q: Program, e: nat)
    requires e < |p| && p[|p| - 1].hint.None? && Rank(p, |p|) == |q|
    ensures Rank(p, e) < |q|
  {
    RankGrows(p, e, |p| - 1);
  }

  /** The instruction after the last one that faces something. */
  lemma {:induction false} RankLast(p: Program, q: Program, e: nat, j: nat)
    requires Facing(p, q, e, j) && p[e].hint.None? && p[|p| - 1].hint.None? && Rank(p, |p|) == |q|
    ensures e + 1 == |p| <==> j + 1 == |q|
    ensures e + 1 < |p| ==> Facing(p, q, e + 1, j + 1)
  {
    assert Rank(p, e + 1) == j + 1;
    if e + 1 < |p| { RankBelow(p, q, e + 1); }
  }

  // ----- one step -----

  lemma {:induction false} FacesHere(p: Program, q: Program, a: nat, b: nat, i: nat) returns (j: nat)
    requires p != [] && q != [] && Sorted(p) && PcMatch(p, q, a, b) && Fetch(p, a) == Some(i)
    ensures Facing(p, q, i, j) && q[j].insn.addr == b
  {
    assert Together(p, q, a, b);
    var e: nat, l: nat :| Facing(p, q, e, l) && p[e].insn.addr == a && q[l].insn.addr == b;
    FetchAt(p, e);
    j := l;
  }

  /** Passing over a hint changes nothing on the other side. */
  lemma {:induction false} HintPassed(sem: Semantics, p: Program, q: Program, e: nat, j: nat, u: State, t: State)
    requires Paired(sem, p, q) && Facing(p, q, e, j) && p[e].hint.Some? && u.pc == p[e].insn.addr
    requires ScalarStep(sem, p, u) == Some(t)
    ensures e + 1 < |p| && Facing(p, q, e + 1, j) && t == State(p[e + 1].insn.addr, u.arch)
  {
    OneStep(sem, p, e, u.arch);
    assert Skips(sem, p[e].insn, u.arch);
    assert Rank(p, e + 1) == j;
  }

  lemma {:induction false} EndMatches(p: Program, q: Program)
    requires p != [] && q != [] && Sorted(p) && Sorted(q)
    requires EndOf(p[|p| - 1].insn) > p[|p| - 1].insn.addr && EndOf(q[|q| - 1].insn) > q[|q| - 1].insn.addr
    ensures PcMatch(p, q, BlockEnd(p), BlockEnd(q))
  {
    assert Outside(p, q, BlockEnd(p), BlockEnd(q));
  }

  lemma {:induction false} FallMatches(sem: Semantics, p: Program, q: Program, e: nat, j: nat)
    requires Paired(sem, p, q) && Facing(p, q, e, j) && p[e].hint.None?
    ensures PcMatch(p, q, EndOf(p[e].insn), EndOf(q[j].insn))
  {
    RankLast(p, q, e, j);
    if e + 1 == |p| {
      EndMatches(p, q);
    } else {
      assert Facing(p, q, e + 1, j + 1);
      assert Together(p, q, EndOf(p[e].insn), EndOf(q[j].insn));
    }
  }

  /** An instruction on both sides. */
  lemma {:induction false} BothStep(sem: Semantics, p: Program, q: Program, e: nat, j: nat, u: State, v: State)
      returns (t: State, w: State)
    requires Paired(sem, p, q) && Facing(p, q, e, j) && p[e].hint.None?
    requires u == State(p[e].insn.addr, v.arch) && v.pc == q[j].insn.addr && AlikeAt(sem, p, q, v)
    ensures ScalarStep(sem, p, u) == Some(t) && ScalarStep(sem, q, v) == Some(w) && Match(p, q, t, w)
  {
    var x, y, a := p[e].insn, q[j].insn, v.arch;
    t, w := After(sem(x, a), x, a), After(sem(y, a), y, a);
    OneStep(sem, p, e, a);
    OneStep(sem, q, j, a);
    assert Alike(sem, p, q, x, y, a);
    FallMatches(sem, p, q, e, j);
  }

  // ----- whole runs -----

  /** One more step of the hinted program: the other follows, or waits while a hint is passed. */
  lemma {:induction false} FollowStep(sem: Semantics, p: Program, q: Program, u: State, v: State, t: State)
      returns (d: nat, w: State)
    requires Paired(sem, p, q) && Match(p, q, u, v) && AlikeAt(sem, p, q, v) && ScalarStep(sem, p, u) == Some(t)
    ensures d <= 1 && Reaches(sem, q, v, d, w) && Match(p, q, t, w)
  {
    var e := Fetch(p, u.pc).value;
    var j := FacesHere(p, q, u.pc, v.pc, e);
    assert Steps(sem, q, v, 0) == Some(v);
    if p[e].hint.Some? {
      HintPassed(sem, p, q, e, j, u, t);
      d, w := 0, v;
      assert Together(p, q, t.pc, w.pc);
    } else {
      var r;
      r, w := BothStep(sem, p, q, e, j, u, v);
      d := 1;
    }
  }

  lemma {:induction false} LastStep(sem: Semantics, p: Program, s: State, i: nat, k: nat, t: State) returns (u: State)
    requires Reaches(sem, p, s, k, t) && k == i + 1
    ensures Reaches(sem, p, s, i, u) && ScalarStep(sem, p, u) == Some(t)
  {
    u := Steps(sem, p, s, i).value;
  }

  lemma {:induction false} Along(sem: Semantics, p: Program, q: Program, s: State, m: nat, v: State)
    requires p != [] && q != [] && AlikeAlong(sem, p, q, s) && Reaches(sem, q, s, m, v)
    ensures AlikeAt(sem, p, q, v)
  {
  }

  /** Every state of the hinted program on the stock core is one of the unhinted program. */
  lemma {:induction false} Follow(sem: Semantics, p: Program, q: Program, u0: State, v0: State, k: nat, u: State)
      returns (m: nat, v: State)
    requires Paired(sem, p, q) && Match(p, q, u0, v0) && AlikeAlong(sem, p, q, v0) && Reaches(sem, p, u0, k, u)
    ensures m <= k && Reaches(sem, q, v0, m, v) && Match(p, q, u, v)
    decreases k
  {
    if k == 0 {
      m, v := 0, v0;
    } else {
      var u1 := LastStep(sem, p, u0, k - 1, k, u);
      var m1, v1 := Follow(sem, p, q, u0, v0, k - 1, u1);
      Along(sem, p, q, v0, m1, v1);
      var d;
      d, v := FollowStep(sem, p, q, u1, v1, u);
      m := m1 + d;
      Onward(sem, q, v0, m1, v1, d, v, m);
    }
  }

  /** The stock core passes the hints in front of an instruction. */
  lemma {:induction false} ToInstruction(sem: Semantics, p: Program, q: Program, e: nat, j: nat, u: State)
      returns (d: nat, i: nat)
    requires Paired(sem, p, q) && Facing(p, q, e, j) && u.pc == p[e].insn.addr
    ensures e <= i && Facing(p, q, i, j) && p[i].hint.None?
    ensures Reaches(sem, p, u, d, State(p[i].insn.addr, u.arch))
    decreases |p| - e
  {
    assert Steps(sem, p, u, 0) == Some(u);
    if p[e].hint.None? {
      d, i := 0, e;
    } else {
      OneStep(sem, p, e, u.arch);
      var t := ScalarStep(sem, p, u).value;
      HintPassed(sem, p, q, e, j, u, t);
      var l;
      l, i := ToInstruction(sem, p, q, e + 1, j, t);
      ReachesAdd(sem, p, u, 1, t, l, State(p[i].insn.addr, u.arch));
      d := 1 + l;
    }
  }

  lemma {:induction false} FacesThere(p: Program, q: Program, a: nat, b: nat) returns (e: nat, j: nat)
    requires p != [] && q != [] && PcMatch(p, q, a, b) && Fetch(q, b).Some?
    ensures Facing(p, q, e, j) && p[e].insn.addr == a && q[j].insn.addr == b
  {
    e, j :| Facing(p, q, e, j) && p[e].insn.addr == a && q[j].insn.addr == b;
  }

  /** One more step of the unhinted program. */
  lemma {:induction false} LeadStep(sem: Semantics, p: Program, q: Program, u: State, v: State, w: State)
      returns (d: nat, t: State)
    requires Paired(sem, p, q) && Match(p, q, u, v) && AlikeAt(sem, p, q, v) && ScalarStep(sem, q, v) == Some(w)
    ensures d >= 1 && Reaches(sem, p, u, d, t) && Match(p, q, t, w)
  {
    var e, j := FacesThere(p, q, u.pc, v.pc);
    var l, i := ToInstruction(sem, p, q, e, j, u);
    var s, r := State(p[i].insn.addr, u.arch), w;
    t, r := BothStep(sem, p, q, i, j, s, v);
    d := l + 1;
    OneMore(sem, p, u, l, s, t, d);
  }

  /** Every run of the unhinted program is one of the hinted program on the stock core. */
  lemma {:induction false} Lead(sem: Semantics, p: Program, q: Program, u0: State, v0: State, k: nat, v: State)
      returns (m: nat, u: State)
    requires Paired(sem, p, q) && Match(p, q, u0, v0) && AlikeAlong(sem, p, q, v0) && Reaches(sem, q, v0, k, v)
    ensures k <= m && Reaches(sem, p, u0, m, u) && Match(p, q, u, v)
    decreases k
  {
    if k == 0 {
      m, u := 0, u0;
    } else {
      var v1 := LastStep(sem, q, v0, k - 1, k, v);
      var m1, u1 := Lead(sem, p, q, u0, v0, k - 1, v1);
      Along(sem, p, q, v0, k - 1, v1);
      var d;
      d, u := LeadStep(sem, p, q, u1, v1, v);
      m := m1 + d;
      Onward(sem, p, u0, m1, u1, d, u, m);
    }
  }

  lemma {:induction false} RunsTogether(p: Program, q: Program, e: nat, j: nat)
    requires Sorted(p) && Sorted(q) && Facing(p, q, e, j)
    ensures Fetch(p, p[e].insn.addr).Some? && Fetch(q, q[j].insn.addr).Some?
  {
    FetchAt(p, e);
    FetchAt(q, j);
  }

  lemma {:induction false} HaltsTogether(p: Program, q: Program, u: State, v: State)
    requires p != [] && q != [] && Sorted(p) && Sorted(q) && Match(p, q, u, v)
    ensures Halted(p, u) <==> Halted(q, v)
  {
    if Together(p, q, u.pc, v.pc) {
      var e: nat, j: nat :| Facing(p, q, e, j) && p[e].insn.addr == u.pc && q[j].insn.addr == v.pc;
      RunsTogether(p, q, e, j);
    }
  }

  /** Whatever the hardware honours in the hinted program, the state it reaches corresponds to one the
      stock core reaches in the unhinted program, through loops and without end. */
  lemma {:induction false} RelocatedRunRefines(sem: Semantics, p: Program, q: Program, tr: seq<State>, v0: State)
      returns (m: nat, v: State)
    requires RunsSafely(sem, p) && Paired(sem, p, q) && StarbugRun(sem, p, tr)
    requires Match(p, q, tr[0], v0) && AlikeAlong(sem, p, q, v0)
    ensures Reaches(sem, q, v0, m, v) && Match(p, q, tr[|tr| - 1], v)
    ensures Halted(p, tr[|tr| - 1]) <==> Halted(q, v)
  {
    var k := RunRefines(sem, p, tr);
    m, v := Follow(sem, p, q, tr[0], v0, k, tr[|tr| - 1]);
    HaltsTogether(p, q, tr[|tr| - 1], v);
  }

  /** And where the unhinted program halts, in `v`, every such run can be completed to the one state
      that corresponds to it; a halted run is in it. */
  lemma {:induction false} RelocatedRunsHalt(sem: Semantics, p: Program, q: Program, tr: seq<State>, v0: State,
                                             k: nat, v: State)
      returns (final: State)
    requires RunsSafely(sem, p) && Paired(sem, p, q) && StarbugRun(sem, p, tr)
    requires Match(p, q, tr[0], v0) && AlikeAlong(sem, p, q, v0) && Reaches(sem, q, v0, k, v) && Halted(q, v)
    ensures Match(p, q, final, v) && Halted(p, final) && CanReach(sem, p, tr[|tr| - 1], final)
    ensures Halted(p, tr[|tr| - 1]) ==> tr[|tr| - 1] == final
  {
    var m;
    m, final := Lead(sem, p, q, tr[0], v0, k, v);
    HaltsTogether(p, q, final, v);
    var rest := HaltingRunsAgree(sem, p, tr, m, final);
    assert Reaches(sem, p, tr[|tr| - 1], rest, final);
  }
}
