/** What follows from, and what is needed beside, one-bundle soundness: bundles headed by a
    transfer, splitting a bundle, and permuting its members. */
module Bundles {
  import opened Isa
  import opened Machine

  // ----- straight-line execution that stops at a transfer -----

  /** A stock core on consecutive instructions, until one of them redirects the pc. */
  function RunBlock(sem: Semantics, ms: seq<Insn>, a: Arch): State
    requires ms != []
  {
    var e := sem(ms[0], a);
    if e.target.Some? then State(e.target.value, Apply(e, a))
    else if |ms| == 1 then State(EndOf(ms[0]), Apply(e, a))
    else RunBlock(sem, ms[1..], Apply(e, a))
  }

  ghost predicate NoTransfers(ms: seq<Insn>) {
    forall m :: m in ms ==> !Control(m)
  }

  lemma {:induction false} MembersStraight(ms: seq<Insn>)
    requires ms != [] && WorkersSound(ms) && !Control(ms[0])
    ensures NoTransfers(ms)
  {
    forall m | m in ms ensures !Control(m) {
      var k :| 0 <= k < |ms| && m == ms[k];
      assert k > 0 ==> Worker(ms[k]) || Nop(ms[k]);
    }
  }

  lemma {:induction false} FallsThrough(sem: Semantics, m: Insn, a: Arch)
    requires Framed(sem, m) && !Control(m)
    ensures sem(m, a).target.None?
  {
  }

  function Exec(sem: Semantics, m: Insn, a: Arch): Arch {
    Apply(sem(m, a), a)
  }

  lemma {:induction false} ExecOne(sem: Semantics, m: Insn, a: Arch)
    ensures ExecAll(sem, [m], a) == Exec(sem, m, a)
  {
    assert [m][..0] == [];
  }

  /** `ExecAll` peeled at the front. */
  lemma {:induction false} ExecHead(sem: Semantics, ms: seq<Insn>, a: Arch)
    requires ms != []
    ensures ExecAll(sem, ms, a) == ExecAll(sem, ms[1..], Exec(sem, ms[0], a))
  {
    ExecOne(sem, ms[0], a);
    ExecConcat(sem, [ms[0]], ms[1..], a);
    assert [ms[0]] + ms[1..] == ms;
  }

  lemma {:induction false} RunBlockStraight(sem: Semantics, ms: seq<Insn>, a: Arch)
    requires ms != [] && NoTransfers(ms) && AllFramed(sem, ms)
    ensures RunBlock(sem, ms, a) == SequentialEnd(sem, ms, a)
    decreases |ms|
  {
    FallsThrough(sem, ms[0], a);
    ExecHead(sem, ms, a);
    if |ms| > 1 {
      RunBlockStraight(sem, ms[1..], Exec(sem, ms[0], a));
    }
  }

  // ----- a transfer in lane 0 -----

  ghost predicate IdleRegs(e: Effect, pre: RegFile) {
    forall r :: r in e.wb ==> e.wb[r] == pre[r]
  }

  /** A lane that changes nothing: its results are already there. */
  ghost predicate Idle(e: Effect, a: Arch) {
    IdleRegs(e, a.regs) && e.flags.Accrue? && e.flags.raised <= a.flags
  }

  ghost predicate WorkersIdle(sem: Semantics, ms: seq<Insn>, a: Arch) {
    forall k :: 0 < k < |ms| ==> Idle(LaneEffect(sem, ms, k, a), a)
  }

  lemma {:induction false} MergeFlagsBounds(flags: set<nat>, es: seq<Effect>)
    requires forall k :: 0 < k < |es| ==> es[k].flags.Accrue?
    requires es != [] && es[0].flags == Accrue({})
    ensures flags <= MergeFlags(flags, es)
    ensures forall k :: 0 < k < |es| ==> es[k].flags.raised <= MergeFlags(flags, es)
    ensures (forall k :: 0 < k < |es| ==> es[k].flags.raised <= flags) ==> MergeFlags(flags, es) == flags
    decreases |es|
  {
    if |es| > 1 {
      MergeFlagsBounds(flags, es[..|es| - 1]);
    }
  }

  lemma {:induction false} LanesDisjoint(sem: Semantics, ms: seq<Insn>, a: Arch)
    requires ms != [] && WorkersOk(ms) && PairsOk(ms) && AllFramed(sem, ms) && KnownHead(ms)
    ensures var es := Lanes(sem, ms, a);
            forall i, j :: 0 <= i < j < |es| ==> es[i].wb.Keys !! es[j].wb.Keys
  {
    forall i, j | 0 <= i < j < |ms|
      ensures LaneEffect(sem, ms, i, a).wb.Keys !! LaneEffect(sem, ms, j, a).wb.Keys
    {
      LaneWrites(sem, ms, i, a);
      LaneWrites(sem, ms, j, a);
      assert !Waw(ms[i], ms[j]);
    }
  }

  /** The one parallel outcome of a bundle headed by anything with a known write set. */
  lemma {:induction false} OutcomeIsWriteBack(sem: Semantics, ms: seq<Insn>, a: Arch, t: State)
    requires ms != [] && Accepted(|ms|, ms) && AllFramed(sem, ms) && KnownHead(ms)
    requires Issue(sem, ms, a, t)
    ensures t.arch == ExecAll(sem, ms, a)
    ensures WriteBack(a.regs, Lanes(sem, ms, a), t.arch.regs)
    ensures t.arch.flags == MergeFlags(a.flags, Lanes(sem, ms, a))
  {
    SequentialIsWriteBack(sem, ms, a);
    SoundLanesAgree(sem, ms, a);
    WriteBackUnique(a.regs, Lanes(sem, ms, a), t.arch.regs, ExecAll(sem, ms, a).regs);
  }

  lemma {:induction false} IdleRegisters(pre: RegFile, es: seq<Effect>, post: RegFile)
    requires es != [] && WriteBack(pre, es, post)
    requires forall i, j :: 0 <= i < j < |es| ==> es[i].wb.Keys !! es[j].wb.Keys
    ensures post == WriteRegs(pre, es[0].wb) <==> forall k :: 0 < k < |es| ==> IdleRegs(es[k], pre)
  {
    var head := WriteRegs(pre, es[0].wb);
    if forall k :: 0 < k < |es| ==> IdleRegs(es[k], pre) {
      forall r | 0 <= r < 64 ensures post[r] == head[r] {
        var reg: Reg := r;
        if Written(es, reg) {
          var j :| 0 <= j < |es| && reg in es[j].wb && es[j].wb[reg] == post[reg];
          if j > 0 { assert IdleRegs(es[j], pre); assert reg !in es[0].wb; }
        } else {
          assert reg !in es[0].wb;
        }
      }
    }
    if post == head {
      forall k, r | 0 < k < |es| && r in es[k].wb ensures es[k].wb[r] == pre[r] {
        assert Written(es, r);
        var j :| 0 <= j < |es| && r in es[j].wb && es[j].wb[r] == post[r];
        assert j == k && r !in es[0].wb;
      }
    }
  }

  /** On top of lane 0's own effect the workers add nothing exactly when they are idle. */
  lemma {:induction false} IdleWorkersAddNothing(sem: Semantics, ms: seq<Insn>, a: Arch, s: Arch)
    requires |ms| >= 2 && Accepted(|ms|, ms) && AllFramed(sem, ms) && ms[0].cls in {Branch, Jump}
    requires var es := Lanes(sem, ms, a);
             WriteBack(a.regs, es, s.regs) && s.flags == MergeFlags(a.flags, es)
    ensures (s.regs == Exec(sem, ms[0], a).regs && s.flags == a.flags) <==> WorkersIdle(sem, ms, a)
  {
    var es := Lanes(sem, ms, a);
    assert es[0].flags == Accrue({}) by { assert Framed(sem, ms[0]); }
    LanesDisjoint(sem, ms, a);
    forall k | 0 < k < |es| ensures es[k].flags.Accrue? { WorkerLane(sem, ms, k, a); }
    MergeFlagsBounds(a.flags, es);
    IdleRegisters(a.regs, es, s.regs);
    forall k | 0 < k < |es|
      ensures Idle(LaneEffect(sem, ms, k, a), a) <==> IdleRegs(es[k], a.regs) && es[k].flags.raised <= a.flags
    {
    }
  }

  lemma {:induction false} TailOfTransfer(sem: Semantics, ms: seq<Insn>)
    requires ms != [] && WorkersOk(ms) && AllFramed(sem, ms)
    ensures NoTransfers(ms[1..]) && AllFramed(sem, ms[1..])
  {
    forall m | m in ms[1..] ensures !Control(m) {
      var k :| 0 < k < |ms| && m == ms[k];
      assert Worker(ms[k]);
    }
  }

  /** The checker does not look at lane 0, but a bundle of two or more headed by a branch or
      jump commits its workers even when the transfer is taken. It agrees with a stock core in
      a given state exactly when the transfer falls through or the workers change nothing. */
  lemma {:induction false} Lane0TransferExact(sem: Semantics, ms: seq<Insn>, a: Arch, t: State)
    requires |ms| >= 2 && Accepted(|ms|, ms) && AllFramed(sem, ms)
    requires ms[0].cls in {Branch, Jump}
    requires Issue(sem, ms, a, t)
    ensures t == RunBlock(sem, ms, a) <==> sem(ms[0], a).target.None? || WorkersIdle(sem, ms, a)
  {
    OutcomeIsWriteBack(sem, ms, a, t);
    assert Framed(sem, ms[0]);
    if sem(ms[0], a).target.None? {
      TailOfTransfer(sem, ms);
      ExecHead(sem, ms, a);
      RunBlockStraight(sem, ms[1..], Exec(sem, ms[0], a));
    } else {
      IdleWorkersAddNothing(sem, ms, a, t.arch);
    }
  }

  // ----- splitting -----

  ghost predicate Increasing(idx: seq<nat>, n: nat) {
    (forall i, j :: 0 <= i < j < |idx| ==> idx[i] < idx[j]) && (forall i :: 0 <= i < |idx| ==> idx[i] < n)
  }

  function Select(ms: seq<Insn>, idx: seq<nat>): (r: seq<Insn>)
    requires forall i :: 0 <= i < |idx| ==> idx[i] < |ms|
    ensures |r| == |idx| && forall i :: 0 <= i < |idx| ==> r[i] == ms[idx[i]]
  {
    seq(|idx|, i requires 0 <= i < |idx| => ms[idx[i]])
  }

  lemma {:induction false} IncreasingIsShort(idx: seq<nat>, n: nat)
    requires Increasing(idx, n)
    ensures |idx| <= n
    decreases |idx|
  {
    if idx != [] {
      var k := |idx| - 1;
      IncreasingIsShort(idx[..k], idx[k]);
    }
  }

  /** A selection of members in their order is itself an accepted bundle. */
  lemma {:induction false} SubsequenceAccepted(ms: seq<Insn>, idx: seq<nat>)
    requires Accepted(|ms|, ms) && Increasing(idx, |ms|)
    ensures Accepted(|idx|, Select(ms, idx))
  {
    IncreasingIsShort(idx, |ms|);
    var sub := Select(ms, idx);
    forall k | 0 < k < |sub| ensures Worker(sub[k]) {
      assert idx[0] < idx[k];
      assert Worker(ms[idx[k]]);
    }
    forall i, j | 0 <= i < j < |sub| ensures !Raw(sub[i], sub[j]) && !Waw(sub[i], sub[j]) {
      assert idx[i] < idx[j];
    }
  }

  lemma {:induction false} SplitAccepted(ms: seq<Insn>, k: nat)
    requires 0 < k < |ms| && Accepted(|ms|, ms)
    ensures Accepted(k, ms[..k]) && Accepted(|ms| - k, ms[k..]) && Worker(ms[k..][0])
  {
    var li, ri := seq(k, i => i), seq(|ms| - k, i => k + i);
    SubsequenceAccepted(ms, li);
    SubsequenceAccepted(ms, ri);
    assert Select(ms, li) == ms[..k] && Select(ms, ri) == ms[k..];
    assert Worker(ms[k]);
  }

  lemma {:induction false} AcceptedEnd(sem: Semantics, ms: seq<Insn>, a: Arch, t: State)
    requires ms != [] && Accepted(|ms|, ms) && AllFramed(sem, ms) && !Control(ms[0]) && Issue(sem, ms, a, t)
    ensures t == SequentialEnd(sem, ms, a)
  {
    OneBundleSound(sem, ms, a, t);
  }

  lemma {:induction false} PartsFramed(sem: Semantics, ms: seq<Insn>, k: nat)
    requires k <= |ms| && AllFramed(sem, ms)
    ensures AllFramed(sem, ms[..k]) && AllFramed(sem, ms[k..])
  {
  }

  /** Cutting an accepted bundle in two, each part issued in parallel behind its own hint, ends
      in the one state the whole bundle ends in. */
  lemma {:induction false} SplitSound(sem: Semantics, ms: seq<Insn>, k: nat, a: Arch, t: State, mid: State, t': State)
    requires 0 < k < |ms| && Accepted(|ms|, ms) && AllFramed(sem, ms) && !Control(ms[0])
    requires Issue(sem, ms, a, t)
    requires Issue(sem, ms[..k], a, mid) && Issue(sem, ms[k..], mid.arch, t')
    ensures Accepted(k, ms[..k]) && Accepted(|ms| - k, ms[k..])
    ensures t' == t
  {
    SplitAccepted(ms, k);
    PartsFramed(sem, ms, k);
    AcceptedEnd(sem, ms, a, t);
    AcceptedEnd(sem, ms[..k], a, mid);
    AcceptedEnd(sem, ms[k..], mid.arch, t');
    ExecConcat(sem, ms[..k], ms[k..], a);
    assert ms[..k] + ms[k..] == ms;
  }

  // ----- permuting -----

  /** No dependence in either direction, and not two users of the memory port. */
  ghost predicate Commutes(x: Insn, y: Insn) {
    && !Raw(x, y) && !Waw(x, y) && !War(x, y)
    && (Worker(x) || Worker(y))
  }

  ghost predicate Independent(ms: seq<Insn>) {
    forall i, j :: 0 <= i < j < |ms| ==> Commutes(ms[i], ms[j])
  }

  lemma {:induction false} EffectUndisturbed(sem: Semantics, x: Insn, y: Insn, a: Arch)
    requires Commutes(x, y) && Framed(sem, x) && Framed(sem, y) && !Control(x) && !Control(y)
    ensures var e, f := sem(y, a), sem(y, Exec(sem, x, a));
            e.wb == f.wb && e.flags == f.flags
            && (!Worker(y) ==> e.mem == f.mem && e.sys == f.sys)
  {
    var b := Exec(sem, x, a);
    assert Agree(y.srcs, a, b);
  }

  lemma {:induction false} SwapAdjacent(sem: Semantics, x: Insn, y: Insn, a: Arch)
    requires Commutes(x, y) && Framed(sem, x) && Framed(sem, y) && !Control(x) && !Control(y)
    ensures Exec(sem, y, Exec(sem, x, a)) == Exec(sem, x, Exec(sem, y, a))
  {
    EffectUndisturbed(sem, x, y, a);
    EffectUndisturbed(sem, y, x, a);
    var p, q := Exec(sem, y, Exec(sem, x, a)), Exec(sem, x, Exec(sem, y, a));
    forall r | 0 <= r < 64 ensures p.regs[r] == q.regs[r] {
    }
    assert p.regs == q.regs;
  }

  function Without(ms: seq<Insn>, j: nat): seq<Insn>
    requires j < |ms|
  {
    ms[..j] + ms[j + 1..]
  }

  lemma {:induction false} TailKeeps(sem: Semantics, ms: seq<Insn>)
    requires ms != [] && AllFramed(sem, ms) && NoTransfers(ms) && Independent(ms)
    ensures AllFramed(sem, ms[1..]) && NoTransfers(ms[1..]) && Independent(ms[1..])
  {
  }

  lemma {:induction false} WithoutTail(ms: seq<Insn>, j: nat)
    requires 0 < j < |ms|
    ensures Without(ms, j) != [] && Without(ms, j)[0] == ms[0] && Without(ms, j)[1..] == Without(ms[1..], j - 1)
  {
  }

  lemma {:induction false} SwapWith(sem: Semantics, ms: seq<Insn>, j: nat, a: Arch)
    requires 0 < j < |ms| && AllFramed(sem, ms) && NoTransfers(ms) && Independent(ms)
    ensures Exec(sem, ms[j], Exec(sem, ms[0], a)) == Exec(sem, ms[0], Exec(sem, ms[j], a))
  {
    assert Commutes(ms[0], ms[j]);
    SwapAdjacent(sem, ms[0], ms[j], a);
  }

  /** A member that commutes with everything before it may go first. */
  lemma {:induction false} MoveToFront(sem: Semantics, ms: seq<Insn>, j: nat, a: Arch)
    requires j < |ms| && AllFramed(sem, ms) && NoTransfers(ms) && Independent(ms)
    ensures ExecAll(sem, ms, a) == ExecAll(sem, Without(ms, j), Exec(sem, ms[j], a))
    decreases |ms|
  {
    ExecHead(sem, ms, a);
    if j == 0 {
      assert Without(ms, 0) == ms[1..];
    } else {
      var b := Exec(sem, ms[j], a);
      TailKeeps(sem, ms);
      MoveToFront(sem, ms[1..], j - 1, Exec(sem, ms[0], a));
      SwapWith(sem, ms, j, a);
      WithoutTail(ms, j);
      ExecHead(sem, Without(ms, j), b);
    }
  }

  lemma {:induction false} WithoutCounts(ms: seq<Insn>, j: nat)
    requires j < |ms|
    ensures multiset(Without(ms, j)) == multiset(ms) - multiset{ms[j]}
  {
    assert ms == ms[..j] + [ms[j]] + ms[j + 1..];
  }

  lemma {:induction false} WithoutIndependent(ms: seq<Insn>, j: nat)
    requires j < |ms| && Independent(ms)
    ensures Independent(Without(ms, j))
  {
    var ns := Without(ms, j);
    forall k, l | 0 <= k < l < |ns| ensures Commutes(ns[k], ns[l]) {
      assert ns[k] == ms[if k < j then k else k + 1] && ns[l] == ms[if l < j then l else l + 1];
    }
  }

  lemma {:induction false} WithoutKeeps(ms: seq<Insn>, j: nat)
    requires j < |ms|
    ensures multiset(Without(ms, j)) == multiset(ms) - multiset{ms[j]}
    ensures Independent(ms) ==> Independent(Without(ms, j))
    ensures forall m :: m in Without(ms, j) ==> m in ms
  {
    WithoutCounts(ms, j);
    if Independent(ms) { WithoutIndependent(ms, j); }
  }

  /** Where the first of one order stands in the other. */
  lemma {:induction false} FirstOf(ms: seq<Insn>, ps: seq<Insn>) returns (j: nat)
    requires multiset(ms) == multiset(ps) && ps != []
    ensures j < |ms| && ms[j] == ps[0] && multiset(Without(ms, j)) == multiset(ps[1..])
  {
    assert ps[0] in multiset(ps);
    assert ps[0] in ms;
    j :| 0 <= j < |ms| && ms[j] == ps[0];
    WithoutKeeps(ms, j);
    assert ps == [ps[0]] + ps[1..];
  }

  /** Reordering freedom. A fully independent packet may be permuted in any way: every order
      runs sequentially to the same state. */
  lemma {:induction false} PermutationSound(sem: Semantics, ms: seq<Insn>, ps: seq<Insn>, a: Arch)
    requires multiset(ms) == multiset(ps)
    requires AllFramed(sem, ms) && NoTransfers(ms) && Independent(ms)
    ensures ExecAll(sem, ps, a) == ExecAll(sem, ms, a)
    decreases |ps|
  {
    assert |ms| == |multiset(ms)| == |multiset(ps)| == |ps|;
    if ps != [] {
      var j := FirstOf(ms, ps);
      MoveToFront(sem, ms, j, a);
      ExecHead(sem, ps, a);
      WithoutKeeps(ms, j);
      PermutationSound(sem, Without(ms, j), ps[1..], Exec(sem, ps[0], a));
    }
  }
}
