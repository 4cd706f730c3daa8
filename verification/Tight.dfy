/** Exactly when a bundle may be issued in parallel. The rules are sufficient, and for each kind of
    bundle that breaks one there is a framed semantics under which the parallel outcome is wrong. */
module Tight {
  import opened Wrappers
  import opened Isa
  import opened Machine
  import opened Bundles

  /** Parallel issue has one outcome, the stock core's, whatever the instructions compute. */
  ghost predicate AlwaysSound(ms: seq<Insn>)
    requires ms != []
  {
    forall sem: Semantics, a, t ::
      AllFramed(sem, ms) ==> (Issue(sem, ms, a, t) <==> t == RunBlock(sem, ms, a))
  }

  ghost predicate NopWorkers(ms: seq<Insn>) {
    forall k :: 0 < k < |ms| ==> Nop(ms[k])
  }

  /** Arithmetic and NOPs behind lane 0, no RAW, WAW only between twins, and nothing but NOPs
      behind an instruction that may redirect the pc or touch privileged state. */
  ghost predicate SoundRules(ms: seq<Insn>)
    requires ms != []
  {
    WorkersSound(ms) && PairsSound(ms) && (Control(ms[0]) ==> NopWorkers(ms))
  }

  // ----- the rules suffice -----

  lemma {:induction false} NopDoesNothing(sem: Semantics, m: Insn, a: Arch)
    requires Nop(m) && Framed(sem, m)
    ensures sem(m, a).wb == map[] && sem(m, a).flags == Accrue({}) && sem(m, a).target.None?
    ensures Apply(sem(m, a), a) == a
  {
    NopFramed(sem, m);
    assert WriteRegs(a.regs, map[]) == a.regs;
  }

  lemma {:induction false} NopsRun(sem: Semantics, ms: seq<Insn>, a: Arch)
    requires ms != [] && AllFramed(sem, ms) && forall m :: m in ms ==> Nop(m)
    ensures RunBlock(sem, ms, a) == State(EndOf(ms[|ms| - 1]), a)
    decreases |ms|
  {
    NopDoesNothing(sem, ms[0], a);
    if |ms| > 1 { NopsRun(sem, ms[1..], a); }
  }

  lemma {:induction false} NopLane(sem: Semantics, ms: seq<Insn>, k: nat, a: Arch)
    requires 0 < k < |ms| && NopWorkers(ms) && AllFramed(sem, ms)
    ensures LaneEffect(sem, ms, k, a).wb == map[] && LaneEffect(sem, ms, k, a).flags == Accrue({})
  {
    WorkerLane(sem, ms, k, a);
    NopDoesNothing(sem, ms[k], a);
  }

  /** Lanes behind lane 0 that contribute nothing. */
  ghost predicate Silent(es: seq<Effect>) {
    forall k :: 0 < k < |es| ==> es[k].wb == map[] && es[k].flags == Accrue({})
  }

  lemma {:induction false} SilentFlags(flags: set<nat>, es: seq<Effect>)
    requires es != [] && Silent(es)
    ensures MergeFlags(flags, es) == UpdateFlags(flags, es[0].flags)
    decreases |es|
  {
    if |es| > 1 { SilentFlags(flags, es[..|es| - 1]); }
  }

  lemma {:induction false} SilentRegs(pre: RegFile, es: seq<Effect>, post: RegFile)
    requires es != [] && Silent(es)
    ensures WriteBack(pre, es, post) <==> post == WriteRegs(pre, es[0].wb)
  {
    var head := WriteRegs(pre, es[0].wb);
    forall r: Reg ensures Written(es, r) <==> r in es[0].wb { }
    if WriteBack(pre, es, post) {
      forall r | 0 <= r < 64 ensures post[r] == head[r] {
        var reg: Reg := r;
        assert Written(es, reg) <==> reg in es[0].wb;
      }
    }
    if post == head {
      forall r: Reg ensures if Written(es, r) then WinsAt(es, r, post[r]) else post[r] == pre[r] {
        if r in es[0].wb { assert WinsAt(es, r, post[r]); }
      }
    }
  }

  /** Lane 0 with nothing but NOPs beside it. */
  lemma {:induction false} NopWorkersIssue(sem: Semantics, ms: seq<Insn>, a: Arch, t: State)
    requires ms != [] && NopWorkers(ms) && AllFramed(sem, ms)
    ensures Issue(sem, ms, a, t) <==> t == RunBlock(sem, ms, a)
  {
    var es, e := Lanes(sem, ms, a), sem(ms[0], a);
    forall k | 0 < k < |es| ensures es[k].wb == map[] && es[k].flags == Accrue({}) { NopLane(sem, ms, k, a); }
    SilentFlags(a.flags, es);
    SilentRegs(a.regs, es, t.arch.regs);
    if |ms| > 1 {
      forall m | m in ms[1..] ensures Nop(m) {
        var k :| 0 <= k < |ms[1..]| && ms[1..][k] == m;
        assert Nop(ms[k + 1]);
      }
      NopsRun(sem, ms[1..], Apply(e, a));
    }
  }

  lemma {:induction false} RulesSuffice(sem: Semantics, ms: seq<Insn>, a: Arch, t: State)
    requires ms != [] && SoundRules(ms) && AllFramed(sem, ms)
    ensures Issue(sem, ms, a, t) <==> t == RunBlock(sem, ms, a)
  {
    if Control(ms[0]) {
      NopWorkersIssue(sem, ms, a, t);
    } else {
      MembersStraight(ms);
      RunBlockStraight(sem, ms, a);
      OneBundleSound(sem, ms, a, t);
    }
  }

  // ----- outcomes and semantics that break a bundle -----

  /** The write-back in which later lanes win. */
  function FoldRegs(pre: RegFile, es: seq<Effect>): RegFile {
    if es == [] then pre else WriteRegs(FoldRegs(pre, es[..|es| - 1]), es[|es| - 1].wb)
  }

  lemma {:induction false} FoldIsWriteBack(pre: RegFile, es: seq<Effect>)
    ensures WriteBack(pre, es, FoldRegs(pre, es))
    decreases |es|
  {
    if es != [] {
      var n := |es| - 1;
      FoldIsWriteBack(pre, es[..n]);
      WriteBackSnoc(pre, es[..n], FoldRegs(pre, es[..n]), es[n]);
      assert es == es[..n] + [es[n]];
    }
  }

  /** There is always some parallel outcome. */
  lemma {:induction false} SomeOutcome(sem: Semantics, ms: seq<Insn>, a: Arch) returns (t: State)
    requires ms != []
    ensures Issue(sem, ms, a, t)
  {
    var es := Lanes(sem, ms, a);
    FoldIsWriteBack(a.regs, es);
    t := State(if es[0].target.Some? then es[0].target.value else EndOf(ms[|ms| - 1]),
               Arch(FoldRegs(a.regs, es), es[0].mem, es[0].frm, MergeFlags(a.flags, es), es[0].sys));
  }

  ghost predicate FullyFramed(sem: Semantics) {
    forall m :: Framed(sem, m)
  }

  ghost predicate NeverJumps(sem: Semantics) {
    forall m, a :: sem(m, a).target.None?
  }

  /** Issuing the bundle under `sem` from `a` may end in `t`, which is not where the stock core gets:
      both fall through and differ, or the stock core leaves for `out`. */
  ghost predicate Breaks(sem: Semantics, ms: seq<Insn>, a: Arch, out: nat, t: State)
    requires ms != []
  {
    && FullyFramed(sem) && Issue(sem, ms, a, t) && t != RunBlock(sem, ms, a)
    && (t.pc == out || t.pc == EndOf(ms[|ms| - 1]))
    && (NeverJumps(sem) ==> t.pc == RunBlock(sem, ms, a).pc == EndOf(ms[|ms| - 1]))
    && (!NeverJumps(sem) ==> RunBlock(sem, ms, a).pc == out)
  }

  lemma {:induction false} RunBlockFalls(sem: Semantics, ms: seq<Insn>, a: Arch)
    requires ms != [] && NeverJumps(sem)
    ensures RunBlock(sem, ms, a) == SequentialEnd(sem, ms, a)
    decreases |ms|
  {
    ExecHead(sem, ms, a);
    if |ms| > 1 { RunBlockFalls(sem, ms[1..], Exec(sem, ms[0], a)); }
  }

  // ----- read after write -----

  function WriteAll(rs: set<Reg>, v: int): (wb: map<Reg, int>)
    ensures wb.Keys == rs
  {
    map r | r in rs :: v
  }

  /** The classes whose frame admits flags. */
  predicate Raises(m: Insn) {
    !Control(m) && m.cls != PcRel
  }

  /** Writes one more than register `q`, and raises the value of `q` as a flag when it reads it. */
  function Counting(q: Reg): Semantics {
    (m: Insn, a: Arch) =>
      Effect(WriteAll(m.dsts, if q in m.srcs then a.regs[q] + 1 else 1), a.mem, a.frm,
             Accrue(if Raises(m) && q in m.srcs && a.regs[q] >= 0 then {a.regs[q]} else {}), a.sys, None)
  }

  lemma {:induction false} CountingFramedAt(q: Reg, m: Insn)
    ensures Framed(Counting(q), m)
  {
    var sem := Counting(q);
    forall a
      ensures var e := sem(m, a);
              && e.wb == WriteAll(m.dsts, if q in m.srcs then a.regs[q] + 1 else 1)
              && e.flags == Accrue(if Raises(m) && q in m.srcs && a.regs[q] >= 0 then {a.regs[q]} else {})
              && e.mem == a.mem && e.frm == a.frm && e.sys == a.sys && e.target.None?
    {
    }
    forall d, a ensures sem(m.(addr := d), a).wb == sem(m, a).wb && sem(m.(addr := d), a).flags == sem(m, a).flags {
      var n := m.(addr := d);
      assert n.srcs == m.srcs && n.dsts == m.dsts && n.cls == m.cls && (Raises(n) <==> Raises(m));
    }
    forall a, b | Agree(m.srcs, a, b)
      ensures sem(m, a).wb == sem(m, b).wb && sem(m, a).flags == sem(m, b).flags
    {
      assert q in m.srcs ==> a.regs[q] == b.regs[q];
    }
  }

  lemma {:induction false} CountingFramed(q: Reg)
    ensures FullyFramed(Counting(q)) && NeverJumps(Counting(q))
  {
    forall m ensures Framed(Counting(q), m) { CountingFramedAt(q, m); }
  }

  lemma {:induction false} CountingSequential(q: Reg, ms: seq<Insn>)
    ensures var s := ExecAll(Counting(q), ms, RESET);
            && s.regs[q] >= 0
            && ((exists i :: 0 <= i < |ms| && q in ms[i].dsts) ==> s.regs[q] >= 1)
            && ((exists i, j :: 0 <= i < j < |ms| && q in ms[i].dsts && q in ms[j].srcs && Raises(ms[j])) ==>
                  exists v :: v in s.flags && v >= 1)
    decreases |ms|
  {
    if ms != [] {
      var k := |ms| - 1;
      var init := ms[..k];
      CountingSequential(q, init);
      var s0, s := ExecAll(Counting(q), init, RESET), ExecAll(Counting(q), ms, RESET);
      if i, j :| 0 <= i < j < |ms| && q in ms[i].dsts && q in ms[j].srcs && Raises(ms[j]) {
        assert init[i] == ms[i];
        if j < k {
          assert init[j] == ms[j];
          var v :| v in s0.flags && v >= 1;
          assert v in s.flags;
        } else {
          assert s0.regs[q] in s.flags;
        }
      }
      if i :| 0 <= i < |ms| && q in ms[i].dsts {
        if i < k { assert init[i] == ms[i]; }
      }
    }
  }

  lemma {:induction false} OnlyZeroRaised(es: seq<Effect>)
    requires forall e :: e in es ==> e.flags.Accrue? && e.flags.raised <= {0}
    ensures MergeFlags({}, es) <= {0}
    decreases |es|
  {
    if |es| > 1 {
      OnlyZeroRaised(es[..|es| - 1]);
    }
  }

  lemma {:induction false} RawIsFatal(ms: seq<Insn>, i: nat, j: nat, out: nat) returns (sem: Semantics, t: State)
    requires i < j < |ms| && Raw(ms[i], ms[j]) && Raises(ms[j])
    ensures Breaks(sem, ms, RESET, out, t)
  {
    var q :| q in ms[i].dsts && q in ms[j].srcs;
    sem := Counting(q);
    CountingFramed(q);
    RunBlockFalls(sem, ms, RESET);
    CountingSequential(q, ms);
    OnlyZeroRaised(Lanes(sem, ms, RESET));
    t := SomeOutcome(sem, ms, RESET);
  }

  // ----- write after write -----

  /** Every instruction writes its own encoding. */
  function Tagging(): Semantics {
    (m: Insn, a: Arch) =>
      Effect(WriteAll(m.dsts, m.word), a.mem, a.frm, Accrue({}), a.sys, None)
  }

  lemma {:induction false} TaggingSequential(ms: seq<Insn>)
    ensures var s := ExecAll(Tagging(), ms, RESET);
            && s.mem == RESET.mem && s.frm == RESET.frm && s.sys == RESET.sys && s.flags == {}
            && WriteBack(RESET.regs, Lanes(Tagging(), ms, RESET), s.regs)
    requires WorkersSound(ms)
    decreases |ms|
  {
    var sem := Tagging();
    if ms != [] {
      var k := |ms| - 1;
      var init := ms[..k];
      TaggingSequential(init);
      var s0 := ExecAll(sem, init, RESET);
      var es := Lanes(sem, ms, RESET);
      LanesPrefix(sem, ms, k, RESET);
      assert es[k].wb == sem(ms[k], s0).wb by { if k > 0 { assert Worker(ms[k]) || Nop(ms[k]); } }
      WriteBackSnoc(RESET.regs, es[..k], s0.regs, es[k]);
      assert es == es[..k] + [es[k]];
    }
  }

  lemma {:induction false} NoFlags(es: seq<Effect>)
    requires forall e :: e in es ==> e.flags == Accrue({})
    ensures MergeFlags({}, es) == {}
    decreases |es|
  {
    if |es| > 1 {
      NoFlags(es[..|es| - 1]);
    }
  }

  /** Another lane that writes `q` may equally well have won it. */
  lemma {:induction false} OtherWinner(pre: RegFile, es: seq<Effect>, post: RegFile, q: Reg, w: nat)
    requires WriteBack(pre, es, post) && w < |es| && q in es[w].wb
    ensures WriteBack(pre, es, post[q := es[w].wb[q]])
  {
    var p := post[q := es[w].wb[q]];
    forall r: Reg
      ensures if Written(es, r) then WinsAt(es, r, p[r]) else p[r] == pre[r]
    {
      if r == q {
        assert p[q] == es[w].wb[q];
        assert Written(es, q) && WinsAt(es, q, p[q]);
      } else {
        assert p[r] == post[r];
      }
    }
  }

  lemma {:induction false} TaggingFramedAt(m: Insn)
    ensures Framed(Tagging(), m)
  {
    assert WriteAll(m.dsts, m.word).Keys == m.dsts;
    forall a ensures Tagging()(m, a).wb == WriteAll(m.dsts, m.word) { }
  }

  lemma {:induction false} TaggingFramed()
    ensures FullyFramed(Tagging()) && NeverJumps(Tagging())
  {
    forall m ensures Framed(Tagging(), m) { TaggingFramedAt(m); }
  }

  lemma {:induction false} TagLane(ms: seq<Insn>, w: nat)
    requires w < |ms| && WorkersSound(ms)
    ensures LaneEffect(Tagging(), ms, w, RESET).wb == WriteAll(ms[w].dsts, ms[w].word)
    ensures LaneEffect(Tagging(), ms, w, RESET).target.None?
  {
    if w > 0 { assert Worker(ms[w]) || Nop(ms[w]); }
  }

  /** What running in order leaves, with `q` as lane `w` writes it, is a parallel outcome. */
  lemma {:induction false} TagOutcome(ms: seq<Insn>, q: Reg, w: nat, s: Arch, t: State)
    requires w < |ms| && q in ms[w].dsts && WorkersSound(ms) && s == ExecAll(Tagging(), ms, RESET)
    requires t == State(EndOf(ms[|ms| - 1]), s.(regs := s.regs[q := ms[w].word]))
    ensures Issue(Tagging(), ms, RESET, t)
  {
    var es := Lanes(Tagging(), ms, RESET);
    TaggingSequential(ms);
    NoFlags(es);
    TagLane(ms, w);
    TagLane(ms, 0);
    OtherWinner(RESET.regs, es, s.regs, q, w);
  }

  /** Two different instructions writing one register: either may win, so the outcome is not unique. */
  lemma {:induction false} WawIsFatal(ms: seq<Insn>, i: nat, j: nat, out: nat) returns (sem: Semantics, t: State)
    requires i < j < |ms| && Waw(ms[i], ms[j]) && ms[i].word != ms[j].word && WorkersSound(ms)
    ensures Breaks(sem, ms, RESET, out, t)
  {
    var q :| q in ms[i].dsts && q in ms[j].dsts;
    sem := Tagging();
    var s := ExecAll(sem, ms, RESET);
    var w := if s.regs[q] == ms[i].word then j else i;
    t := State(EndOf(ms[|ms| - 1]), s.(regs := s.regs[q := ms[w].word]));
    TagOutcome(ms, q, w, s, t);
    TaggingFramed();
    RunBlockFalls(sem, ms, RESET);
    assert t.arch.regs[q] != s.regs[q];
  }

  // ----- a memory operation in a worker lane -----

  function Count(mem: map<nat, nat>): nat {
    if 0 in mem then mem[0] else 0
  }

  /** Every memory operation increments cell 0. */
  function Storing(): Semantics {
    (m: Insn, a: Arch) =>
      Effect(map[], if UsesLsu(m) then a.mem[0 := Count(a.mem) + 1] else a.mem, a.frm,
             Accrue({}), a.sys, None)
  }

  lemma {:induction false} StoringSequential(ms: seq<Insn>, k: nat)
    requires k < |ms| && UsesLsu(ms[k])
    ensures Count(ExecAll(Storing(), ms, RESET).mem) >= if k > 0 && UsesLsu(ms[0]) then 2 else 1
    decreases |ms|
  {
    var init := ms[..|ms| - 1];
    if k < |init| {
      assert init[k] == ms[k] && init[0] == ms[0];
      StoringSequential(init, k);
    } else if k > 0 && UsesLsu(ms[0]) {
      assert init[0] == ms[0];
      StoringSequential(init, 0);
    }
  }

  lemma {:induction false} StoringFramedAt(m: Insn)
    ensures Framed(Storing(), m)
  {
  }

  lemma {:induction false} StoringFramed()
    ensures FullyFramed(Storing()) && NeverJumps(Storing())
  {
    forall m ensures Framed(Storing(), m) { StoringFramedAt(m); }
  }

  /** Lane 0's memory is the bundle's: what a worker lane does to memory is lost. */
  lemma {:induction false} MemoryInWorkerIsFatal(ms: seq<Insn>, k: nat, out: nat) returns (sem: Semantics, t: State)
    requires 0 < k < |ms| && UsesLsu(ms[k])
    ensures Breaks(sem, ms, RESET, out, t)
  {
    sem := Storing();
    StoringFramed();
    StoringSequential(ms, k);
    RunBlockFalls(sem, ms, RESET);
    t := SomeOutcome(sem, ms, RESET);
  }

  // ----- AUIPC: every lane is fed lane 0's pc -----

  /** AUIPC as the ISA has it: the instruction's own address is written. */
  function Locating(): Semantics {
    (m: Insn, a: Arch) =>
      Effect(if m.cls == PcRel then WriteAll(m.dsts, m.addr) else map[], a.mem, a.frm, Accrue({}), a.sys, None)
  }

  lemma {:induction false} LocatingFramedAt(m: Insn)
    ensures Framed(Locating(), m)
  {
    assert WriteAll(m.dsts, m.addr).Keys == m.dsts;
    forall a ensures Locating()(m, a).wb == if m.cls == PcRel then WriteAll(m.dsts, m.addr) else map[] { }
    forall d: nat, a ensures Locating()(m.(addr := d), a).wb == if m.cls == PcRel then WriteAll(m.dsts, d) else map[] {
      var n := m.(addr := d);
      assert n.cls == m.cls && n.dsts == m.dsts && n.addr == d;
    }
  }

  lemma {:induction false} LocatingFramed()
    ensures FullyFramed(Locating()) && NeverJumps(Locating())
  {
    forall m ensures Framed(Locating(), m) { LocatingFramedAt(m); }
  }

  lemma {:induction false} LocatingLane(ms: seq<Insn>, j: nat)
    requires j < |ms|
    ensures LaneEffect(Locating(), ms, j, RESET).wb
            == if ms[j].cls == PcRel then WriteAll(ms[j].dsts, ms[0].addr) else map[]
  {
  }

  /** AUIPC that writes a register. */
  predicate Locates(m: Insn) {
    m.cls == PcRel && m.dsts != {}
  }

  lemma {:induction false} LocatingWrites(ms: seq<Insn>, k: nat, q: Reg)
    requires k < |ms| && ms[k].cls == PcRel && q in ms[k].dsts
    requires forall j :: k < j < |ms| ==> !Locates(ms[j])
    ensures ExecAll(Locating(), ms, RESET).regs[q] == ms[k].addr
    decreases |ms|
  {
    var n := |ms| - 1;
    if k < n {
      assert ms[..n][k] == ms[k];
      forall j | k < j < n ensures !Locates(ms[..n][j]) { assert ms[..n][j] == ms[j]; }
      LocatingWrites(ms[..n], k, q);
      assert !Locates(ms[n]);
    }
  }

  /** The last AUIPC to write a register, in a worker lane, computes against the bundle's pc instead
      of its own. */
  lemma {:induction false} PcRelInWorkerIsFatal(ms: seq<Insn>, k: nat, out: nat) returns (sem: Semantics, t: State)
    requires 0 < k < |ms| && Locates(ms[k]) && ms[k].addr != ms[0].addr
    requires forall j :: k < j < |ms| ==> !Locates(ms[j])
    ensures sem == Locating() && Breaks(sem, ms, RESET, out, t)
  {
    var q :| q in ms[k].dsts;
    sem := Locating();
    LocatingFramed();
    RunBlockFalls(sem, ms, RESET);
    t := SomeOutcome(sem, ms, RESET);
    var es := Lanes(sem, ms, RESET);
    forall j | 0 <= j < |ms| ensures q in es[j].wb ==> es[j].wb[q] == ms[0].addr { LocatingLane(ms, j); }
    LocatingLane(ms, k);
    assert q in es[k].wb && |es| == |ms|;
    assert Written(es, q);
    assert t.arch.regs[q] == ms[0].addr;
    LocatingWrites(ms, k, q);
  }

  lemma {:induction false} LastLocates(ms: seq<Insn>, i: nat) returns (k: nat)
    requires i < |ms| && Locates(ms[i])
    ensures i <= k < |ms| && Locates(ms[k]) && forall j :: k < j < |ms| ==> !Locates(ms[j])
    decreases |ms| - i
  {
    k := i;
    if j :| i < j < |ms| && Locates(ms[j]) { k := LastLocates(ms, j); }
  }

  // ----- a transfer in a worker lane -----

  /** Only `x` does anything: it leaves for `out`. */
  function Jumping(x: Insn, out: nat): Semantics {
    (m: Insn, a: Arch) =>
      Effect(map[], a.mem, a.frm, Accrue({}), a.sys, if m == x then Some(out) else None)
  }

  lemma {:induction false} JumpingFramedAt(x: Insn, out: nat, m: Insn)
    requires Control(x)
    ensures Framed(Jumping(x, out), m)
  {
    var sem := Jumping(x, out);
    assert m == x ==> !Worker(m);
    forall d, a ensures sem(m.(addr := d), a).wb == map[] && sem(m.(addr := d), a).flags == Accrue({}) { }
    if !Control(m) {
      forall d, a ensures sem(m.(addr := d), a).target.None? { assert m.(addr := d).cls == m.cls; }
      forall a ensures sem(m, a).target.None? { }
    }
  }

  lemma {:induction false} JumpingFramed(x: Insn, out: nat)
    requires Control(x)
    ensures FullyFramed(Jumping(x, out)) && !NeverJumps(Jumping(x, out))
  {
    forall m ensures Framed(Jumping(x, out), m) { JumpingFramedAt(x, out, m); }
    assert Jumping(x, out)(x, RESET).target.Some?;
  }

  lemma {:induction false} JumpingRun(x: Insn, out: nat, ms: seq<Insn>, a: Arch)
    requires x in ms
    ensures RunBlock(Jumping(x, out), ms, a).pc == out
    decreases |ms|
  {
    if ms[0] != x { JumpingRun(x, out, ms[1..], Apply(Jumping(x, out)(ms[0], a), a)); }
  }

  /** A worker lane cannot redirect the pc. */
  lemma {:induction false} ControlInWorkerIsFatal(ms: seq<Insn>, k: nat, out: nat) returns (sem: Semantics, t: State)
    requires 0 < k < |ms| && Control(ms[k]) && ms[k].addr != ms[0].addr && out != EndOf(ms[|ms| - 1])
    ensures Breaks(sem, ms, RESET, out, t)
  {
    sem := Jumping(ms[k], out);
    JumpingFramed(ms[k], out);
    JumpingRun(ms[k], out, ms, RESET);
    t := SomeOutcome(sem, ms, RESET);
    assert LaneEffect(sem, ms, 0, RESET).target.None?;
  }

  // ----- a transfer in lane 0 -----

  /** `x` leaves for `out`; every other instruction that may raise a flag raises one. */
  function Escaping(x: Insn, out: nat): Semantics {
    (m: Insn, a: Arch) =>
      Effect(map[], a.mem, a.frm, Accrue(if Worker(m) && !Nop(m) then {1} else {}), a.sys,
             if m == x then Some(out) else None)
  }

  lemma {:induction false} EscapingFramedAt(x: Insn, out: nat, m: Insn)
    requires Control(x)
    ensures Framed(Escaping(x, out), m)
  {
    var sem := Escaping(x, out);
    forall d, a ensures sem(m.(addr := d), a).wb == sem(m, a).wb && sem(m.(addr := d), a).flags == sem(m, a).flags {
      var n := m.(addr := d);
      assert n.srcs == m.srcs && n.dsts == m.dsts && n.cls == m.cls;
      assert (Worker(n) <==> Worker(m)) && (Nop(n) <==> Nop(m));
    }
  }

  lemma {:induction false} EscapingFramed(x: Insn, out: nat)
    requires Control(x)
    ensures FullyFramed(Escaping(x, out)) && !NeverJumps(Escaping(x, out))
  {
    forall m ensures Framed(Escaping(x, out), m) { EscapingFramedAt(x, out, m); }
    assert Escaping(x, out)(x, RESET).target.Some?;
  }

  lemma {:induction false} RaisedIsMerged(flags: set<nat>, es: seq<Effect>, k: nat)
    requires 0 < k < |es| && es[k].flags == Accrue({1})
    ensures 1 in MergeFlags(flags, es)
    decreases |es|
  {
    var n := |es| - 1;
    if k < n { RaisedIsMerged(flags, es[..n], k); }
  }

  lemma {:induction false} EscapingHead(ms: seq<Insn>, out: nat)
    requires ms != [] && Control(ms[0])
    ensures RunBlock(Escaping(ms[0], out), ms, RESET).pc == out
    ensures RunBlock(Escaping(ms[0], out), ms, RESET).arch.flags == {}
  {
    var e := Escaping(ms[0], out)(ms[0], RESET);
    assert !Worker(ms[0]) && e.flags == Accrue({}) && e.target == Some(out);
  }

  lemma {:induction false} EscapingWorker(ms: seq<Insn>, k: nat, out: nat, t: State)
    requires 0 < k < |ms| && Control(ms[0]) && Worker(ms[k]) && !Nop(ms[k])
    requires Issue(Escaping(ms[0], out), ms, RESET, t)
    ensures 1 in t.arch.flags && t.pc == out
  {
    var sem, m := Escaping(ms[0], out), ms[k].(addr := ms[0].addr);
    assert Worker(m) && !Nop(m) && sem(m, RESET).flags == Accrue({1});
    assert Lanes(sem, ms, RESET)[0] == sem(ms[0], RESET);
    RaisedIsMerged({}, Lanes(sem, ms, RESET), k);
  }

  /** The workers commit even when lane 0 redirects the pc. */
  lemma {:induction false} ControlHeadIsFatal(ms: seq<Insn>, k: nat, out: nat) returns (sem: Semantics, t: State)
    requires 0 < k < |ms| && Control(ms[0]) && Worker(ms[k]) && !Nop(ms[k])
    ensures Breaks(sem, ms, RESET, out, t)
  {
    sem := Escaping(ms[0], out);
    EscapingFramed(ms[0], out);
    t := SomeOutcome(sem, ms, RESET);
    EscapingWorker(ms, k, out, t);
    EscapingHead(ms, out);
  }

  // ----- the rules are exact -----

  /** Members stand in memory one after the other. */
  ghost predicate Contiguous(ms: seq<Insn>) {
    && (forall k :: 0 <= k < |ms| ==> ms[k].size > 0)
    && (forall k :: 0 <= k < |ms| - 1 ==> EndOf(ms[k]) == ms[k + 1].addr)
  }

  /** One encoding is one instruction, and AUIPC reads no register. */
  ghost predicate Coherent(ms: seq<Insn>) {
    && (forall x, y :: x in ms && y in ms && x.word == y.word ==> Twins(x, y))
    && forall x :: x in ms && x.cls == PcRel ==> x.srcs == {}
  }

  lemma {:induction false} ContiguousAddresses(ms: seq<Insn>, i: nat, j: nat)
    requires Contiguous(ms) && i < j < |ms|
    ensures ms[i].addr < ms[j].addr
    decreases j
  {
    assert EndOf(ms[j - 1]) == ms[j - 1 + 1].addr;
    if i < j - 1 { ContiguousAddresses(ms, i, j - 1); }
  }

  lemma {:induction false} SoundWorkers(ms: seq<Insn>, out: nat) returns (sem: Semantics, t: State)
    requires ms != [] && Coherent(ms) && !SoundRules(ms) && out > EndOf(ms[|ms| - 1])
    requires forall k :: 0 < k < |ms| ==> Aside(ms[k])
    ensures Breaks(sem, ms, RESET, out, t)
  {
    assert WorkersSound(ms);
    if k :| 0 < k < |ms| && Control(ms[0]) && !Nop(ms[k]) {
      sem, t := ControlHeadIsFatal(ms, k, out);
    } else {
      var i, j :| 0 <= i < j < |ms| && (Raw(ms[i], ms[j]) || (Waw(ms[i], ms[j]) && !Twins(ms[i], ms[j])));
      if Raw(ms[i], ms[j]) {
        assert !Nop(ms[j]);
        sem, t := RawIsFatal(ms, i, j, out);
      } else {
        assert ms[i] in ms && ms[j] in ms;
        sem, t := WawIsFatal(ms, i, j, out);
      }
    }
  }

  /** What may not stand in a worker lane is one of three kinds. */
  lemma {:induction false} NotAside(ms: seq<Insn>, k: nat)
    requires k < |ms| && Coherent(ms) && !Aside(ms[k])
    ensures Control(ms[k]) || UsesLsu(ms[k]) || Locates(ms[k])
  {
    assert ms[k] in ms;
  }

  lemma {:induction false} WorkerIsFatal(ms: seq<Insn>, k: nat, out: nat) returns (sem: Semantics, t: State)
    requires 0 < k < |ms| && Contiguous(ms) && Coherent(ms) && !Aside(ms[k]) && out > EndOf(ms[|ms| - 1])
    ensures Breaks(sem, ms, RESET, out, t)
  {
    NotAside(ms, k);
    if Control(ms[k]) {
      ContiguousAddresses(ms, 0, k);
      sem, t := ControlInWorkerIsFatal(ms, k, out);
    } else if UsesLsu(ms[k]) {
      sem, t := MemoryInWorkerIsFatal(ms, k, out);
    } else {
      var l := LastLocates(ms, k);
      ContiguousAddresses(ms, 0, l);
      sem, t := PcRelInWorkerIsFatal(ms, l, out);
    }
  }

  /** A bundle that breaks a rule goes wrong under some framed semantics. */
  lemma {:induction false} RulesAreNeeded(ms: seq<Insn>, out: nat) returns (sem: Semantics, t: State)
    requires ms != [] && Contiguous(ms) && Coherent(ms) && !SoundRules(ms) && out > EndOf(ms[|ms| - 1])
    ensures Breaks(sem, ms, RESET, out, t)
  {
    if k :| 0 < k < |ms| && !Aside(ms[k]) {
      sem, t := WorkerIsFatal(ms, k, out);
    } else {
      sem, t := SoundWorkers(ms, out);
    }
  }

  /** The rules are exactly what parallel issue needs to be right whatever the instructions compute. */
  lemma {:induction false} RulesAreExact(ms: seq<Insn>)
    requires ms != [] && Contiguous(ms) && Coherent(ms)
    ensures SoundRules(ms) <==> AlwaysSound(ms)
  {
    if SoundRules(ms) {
      forall sem: Semantics, a, t | AllFramed(sem, ms)
        ensures Issue(sem, ms, a, t) <==> t == RunBlock(sem, ms, a)
      {
        RulesSuffice(sem, ms, a, t);
      }
    } else {
      var sem, t := RulesAreNeeded(ms, EndOf(ms[|ms| - 1]) + 1);
      assert AllFramed(sem, ms);
    }
  }

  /** Two equal instructions that write. */
  ghost predicate TwinWaw(ms: seq<Insn>) {
    exists i, j :: 0 <= i < j < |ms| && Waw(ms[i], ms[j]) && Twins(ms[i], ms[j])
  }

  /** An AUIPC in a worker lane, with no destination. */
  ghost predicate IdlePcRel(ms: seq<Insn>) {
    exists k :: 0 < k < |ms| && ms[k].cls == PcRel
  }

  /** Where the checker is stricter than the rules. */
  lemma {:induction false} StricterThanNeeded(declared: nat, ms: seq<Insn>)
    requires WorkersSound(ms) && PairsSound(ms) && declared <= |ms|
    ensures Accepted(declared, ms) <==> declared <= MAX_BUNDLE && !TwinWaw(ms) && !IdlePcRel(ms)
  {
    if !TwinWaw(ms) { assert PairsOk(ms); }
    if k :| 0 < k < |ms| && ms[k].cls == PcRel { assert !Worker(ms[k]); }
    if !IdlePcRel(ms) {
      forall k | 0 < k < |ms| ensures Worker(ms[k]) { assert Worker(ms[k]) || Nop(ms[k]); }
    }
  }

  /** Where the checker and the hardware part: the checker accepts exactly what is always sound,
      unless a transfer or system instruction heads workers that do something (wrongly accepted), or
      the bundle is longer than four, twins write one register, or an AUIPC in a worker lane writes
      none (needlessly rejected). */
  lemma {:induction false} CheckerIsExact(ms: seq<Insn>)
    requires ms != [] && Contiguous(ms) && Coherent(ms)
    ensures Accepted(|ms|, ms) ==> (AlwaysSound(ms) <==> !Control(ms[0]) || NopWorkers(ms))
    ensures AlwaysSound(ms) ==> (Accepted(|ms|, ms) <==> |ms| <= MAX_BUNDLE && !TwinWaw(ms) && !IdlePcRel(ms))
  {
    RulesAreExact(ms);
    if AlwaysSound(ms) {
      StricterThanNeeded(|ms|, ms);
    }
  }
}
