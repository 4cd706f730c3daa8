/** Counting how often a run of the stock core visits each address. */
module Visits {
  import opened Wrappers
  import opened Isa
  import opened Machine
  import opened Bundles
  import opened Run

  /** Where the run from `s` is after `t` steps. */
  function PcAt(sem: Semantics, p: Program, s: State, t: nat): Option<nat> {
    match Steps(sem, p, s, t)
    case None => None
    case Some(u) => Some(u.pc)
  }

  /** How many of the first `k` executed instructions are at `pc`. */
  function Count(sem: Semantics, p: Program, s: State, k: nat, pc: nat): nat {
    if k == 0 then 0
    else Count(sem, p, s, k - 1, pc) + if PcAt(sem, p, s, k - 1) == Some(pc) then 1 else 0
  }

  /** Instruction `t` of the run is at `pc` and was not reached by falling through from `prev`. */
  predicate Enters(sem: Semantics, p: Program, s: State, t: nat, prev: nat, pc: nat) {
    PcAt(sem, p, s, t) == Some(pc) && (t == 0 || PcAt(sem, p, s, t - 1) != Some(prev))
  }

  /** Instruction `t` of the run is at `prev` and `pc` does not come next. */
  predicate Leaves(sem: Semantics, p: Program, s: State, t: nat, prev: nat, pc: nat) {
    PcAt(sem, p, s, t) == Some(prev) && PcAt(sem, p, s, t + 1) != Some(pc)
  }

  /** The two ways past the edge from `prev` to `pc`: into `pc` from elsewhere, and from `prev` to
      elsewhere. */
  datatype Side = In | Out

  predicate Crosses(side: Side, sem: Semantics, p: Program, s: State, t: nat, prev: nat, pc: nat) {
    match side
    case In => Enters(sem, p, s, t, prev, pc)
    case Out => Leaves(sem, p, s, t, prev, pc)
  }

  /** How often that happens in the first `k` instructions. */
  function Crossings(side: Side, sem: Semantics, p: Program, s: State, k: nat, prev: nat, pc: nat): nat {
    if k == 0 then 0
    else Crossings(side, sem, p, s, k - 1, prev, pc) + if Crosses(side, sem, p, s, k - 1, prev, pc) then 1 else 0
  }

  lemma {:induction false} CrossingsZero(side: Side, sem: Semantics, p: Program, s: State, k: nat, prev: nat, pc: nat)
    ensures Crossings(side, sem, p, s, k, prev, pc) == 0
            <==> forall t :: 0 <= t < k ==> !Crosses(side, sem, p, s, t, prev, pc)
    decreases k
  {
    if k > 0 {
      CrossingsZero(side, sem, p, s, k - 1, prev, pc);
    }
  }

  /** The last step leads from `prev` to `pc`, where the run ends. */
  function Pending(sem: Semantics, p: Program, s: State, k: nat, prev: nat, pc: nat): nat {
    if k > 0 && PcAt(sem, p, s, k - 1) == Some(prev) && PcAt(sem, p, s, k) == Some(pc) then 1 else 0
  }

  /** Conservation of flow, for any two addresses: every visit to `pc` comes from `prev` or is an
      entry, and every visit to `prev` goes on to `pc` or is an exit. */
  lemma {:induction false} FlowBalance(sem: Semantics, p: Program, s: State, k: nat, prev: nat, pc: nat)
    ensures Count(sem, p, s, k, pc) + Crossings(Out, sem, p, s, k, prev, pc) + Pending(sem, p, s, k, prev, pc)
            == Count(sem, p, s, k, prev) + Crossings(In, sem, p, s, k, prev, pc)
    decreases k
  {
    if k > 0 {
      FlowBalance(sem, p, s, k - 1, prev, pc);
    }
  }

  ghost predicate StepsTo(sem: Semantics, p: Program, s: State, pc: nat) {
    var r := ScalarStep(sem, p, s);
    r.Some? && r.value.pc == pc
  }

  /** From `prev` the only way on is to `pc`. */
  ghost predicate FlowsTo(sem: Semantics, p: Program, prev: nat, pc: nat) {
    prev != pc && forall a :: StepsTo(sem, p, State(prev, a), pc)
  }

  lemma {:induction false} NeverLeaves(sem: Semantics, p: Program, s: State, t: nat, prev: nat, pc: nat)
    requires FlowsTo(sem, p, prev, pc)
    ensures !Leaves(sem, p, s, t, prev, pc)
  {
    if PcAt(sem, p, s, t) == Some(prev) {
      var u := Steps(sem, p, s, t).value;
      assert StepsTo(sem, p, State(prev, u.arch), pc);
    }
  }

  /** An instruction that does not transfer control flows to its neighbour. */
  lemma {:induction false} FallsToNeighbour(sem: Semantics, p: Program, i: nat)
    requires Sorted(p) && ProgramFramed(sem, p) && i + 1 < |p|
    requires !Control(p[i].insn) && EndOf(p[i].insn) == p[i + 1].insn.addr
    ensures FlowsTo(sem, p, p[i].insn.addr, p[i + 1].insn.addr)
  {
    assert p[i] in p;
    forall a ensures StepsTo(sem, p, State(p[i].insn.addr, a), p[i + 1].insn.addr) {
      FallsThrough(sem, p[i].insn, a);
      OneStep(sem, p, i, a);
    }
  }

  // ----- all visits -----

  /** The visits to the first `n` instructions of the program. */
  function CountFirst(sem: Semantics, p: Program, s: State, k: nat, n: nat): nat
    requires n <= |p|
  {
    if n == 0 then 0
    else CountFirst(sem, p, s, k, n - 1) + Count(sem, p, s, k, p[n - 1].insn.addr)
  }

  lemma {:induction false} CountFirstZero(sem: Semantics, p: Program, s: State, n: nat)
    requires n <= |p|
    ensures CountFirst(sem, p, s, 0, n) == 0
    decreases n
  {
    if n > 0 { CountFirstZero(sem, p, s, n - 1); }
  }

  /** One more step adds one visit, to the instruction executed. */
  lemma {:induction false} CountFirstStep(sem: Semantics, p: Program, s: State, k: nat, n: nat, i: nat)
    requires Sorted(p) && n <= |p| && i < |p| && PcAt(sem, p, s, k) == Some(p[i].insn.addr)
    ensures CountFirst(sem, p, s, k + 1, n) == CountFirst(sem, p, s, k, n) + if i < n then 1 else 0
    decreases n
  {
    if n > 0 {
      CountFirstStep(sem, p, s, k, n - 1, i);
      if i < n - 1 { assert p[i].insn.addr < p[n - 1].insn.addr; }
      if n - 1 < i { assert p[n - 1].insn.addr < p[i].insn.addr; }
    }
  }

  /** Every instruction executed is an instruction of the program. */
  lemma {:induction false} EveryStepIsCounted(sem: Semantics, p: Program, s: State, k: nat)
    requires Sorted(p) && Steps(sem, p, s, k).Some?
    ensures CountFirst(sem, p, s, k, |p|) == k
    decreases k
  {
    if k == 0 {
      CountFirstZero(sem, p, s, |p|);
    } else {
      EveryStepIsCounted(sem, p, s, k - 1);
      var u := Steps(sem, p, s, k - 1).value;
      CountFirstStep(sem, p, s, k - 1, |p|, Fetch(p, u.pc).value);
    }
  }
}
