/** One STARBUG bundle as the hardware issues it, and the same instructions one at a time.

    What an instruction computes is a parameter: a `Semantics`, constrained only by `Framed`.
    Every theorem holds for each semantics that respects the decoder's read and write sets,
    whatever its floating-point results, CSRs and memory do. */
module Machine {
  import opened Wrappers
  import opened Isa

  // ----- architectural state -----

  type RegFile = s: seq<int> | |s| == 64 witness seq(64, i => 0)

  datatype Sys = Sys(csrs: map<nat, int>, reserved: Option<nat>)

  /** Everything but the pc. `frm` is the dynamic rounding mode, `flags` the accrued exceptions. */
  datatype Arch = Arch(regs: RegFile, mem: map<nat, nat>, frm: nat, flags: set<nat>, sys: Sys)

  const RESET := Arch(seq(64, i => 0), map[], 0, {}, Sys(map[], None))

  datatype State = State(pc: nat, arch: Arch)

  datatype FlagOp = Accrue(raised: set<nat>) | Assign(value: set<nat>)

  /** What one instruction does: registers written, and the new value of everything else. */
  datatype Effect = Effect(wb: map<Reg, int>, mem: map<nat, nat>, frm: nat, flags: FlagOp,
                           sys: Sys, target: Option<nat>)

  type Semantics = (Insn, Arch) -> Effect

  function WriteRegs(regs: RegFile, wb: map<Reg, int>): RegFile {
    seq(64, i requires 0 <= i < 64 => if i in wb then wb[i] else regs[i])
  }

  function UpdateFlags(flags: set<nat>, op: FlagOp): set<nat> {
    match op
    case Accrue(f) => flags + f
    case Assign(f) => f
  }

  function Apply(e: Effect, a: Arch): Arch {
    Arch(WriteRegs(a.regs, e.wb), e.mem, e.frm, UpdateFlags(a.flags, e.flags), e.sys)
  }

  // ----- the frame each class must respect -----

  predicate Worker(m: Insn) {
    !Lane0Only(m)
  }

  ghost predicate Agree(rs: set<Reg>, a: Arch, b: Arch) {
    forall r :: r in rs ==> a.regs[r] == b.regs[r]
  }

  /** Integer and floating-point arithmetic: no memory, no pc, no privileged state. An integer
      instruction that names no register is a NOP. */
  ghost predicate WorkerFramed(sem: Semantics, m: Insn) {
    && (forall a :: var e := sem(m, a);
          e.wb.Keys <= m.dsts && e.mem == a.mem && e.frm == a.frm && e.sys == a.sys
          && e.flags.Accrue? && e.target.None?)
    && (forall a, b :: Agree(m.srcs, a, b) && a.frm == b.frm ==>
          sem(m, a).wb == sem(m, b).wb && sem(m, a).flags == sem(m, b).flags)
    && (forall d, a :: sem(m.(addr := d), a).wb == sem(m, a).wb
                       && sem(m.(addr := d), a).flags == sem(m, a).flags)
    && (m.cls == Alu && m.srcs == {} && m.dsts == {} ==> forall a :: sem(m, a).flags == Accrue({}))
  }

  /** AUIPC: a destination, from its own address and whatever pc it is fed. */
  ghost predicate PcRelFramed(sem: Semantics, m: Insn) {
    && (forall d, a :: var e := sem(m.(addr := d), a);
          e.wb.Keys <= m.dsts && e.mem == a.mem && e.frm == a.frm && e.sys == a.sys
          && e.flags == Accrue({}) && e.target.None?)
    && (forall a, b :: Agree(m.srcs, a, b) ==> sem(m, a).wb == sem(m, b).wb)
  }

  /** Loads, stores and atomics: these may use memory, the reservation and their own address. */
  ghost predicate MemoryFramed(sem: Semantics, m: Insn) {
    && (forall a :: var e := sem(m, a);
          e.wb.Keys <= m.dsts && e.frm == a.frm && e.flags.Accrue? && e.target.None?)
    && (forall a, b :: Agree(m.srcs, a, b) && a.mem == b.mem && a.sys == b.sys ==>
          var e, f := sem(m, a), sem(m, b);
          e.wb == f.wb && e.mem == f.mem && e.sys == f.sys && e.flags == f.flags)
  }

  /** Branches and jumps: a link register and a target. */
  ghost predicate TransferFramed(sem: Semantics, m: Insn) {
    forall a :: var e := sem(m, a);
      e.wb.Keys <= m.dsts && e.mem == a.mem && e.frm == a.frm && e.sys == a.sys
      && e.flags == Accrue({})
  }

  /** SYSTEM and UNKNOWN instructions are not constrained at all. */
  ghost predicate Framed(sem: Semantics, m: Insn) {
    if Worker(m) then WorkerFramed(sem, m)
    else if m.cls in {Branch, Jump} then TransferFramed(sem, m)
    else if m.cls in {System, Unknown} then true
    else if m.cls == PcRel then PcRelFramed(sem, m)
    else MemoryFramed(sem, m)
  }

  ghost predicate AllFramed(sem: Semantics, ms: seq<Insn>) {
    forall m :: m in ms ==> Framed(sem, m)
  }

  // ----- sequential execution -----

  /** The members one after the other, as a stock core executes them; transfers are ignored. */
  function ExecAll(sem: Semantics, ms: seq<Insn>, a: Arch): Arch {
    if ms == [] then a
    else
      var s := ExecAll(sem, ms[..|ms| - 1], a);
      Apply(sem(ms[|ms| - 1], s), s)
  }

  lemma {:induction false} ExecConcat(sem: Semantics, ms: seq<Insn>, ns: seq<Insn>, a: Arch)
    ensures ExecAll(sem, ms + ns, a) == ExecAll(sem, ns, ExecAll(sem, ms, a))
    decreases |ns|
  {
    if ns == [] {
      assert ms + ns == ms;
    } else {
      ExecConcat(sem, ms, ns[..|ns| - 1], a);
      assert (ms + ns)[..|ms + ns| - 1] == ms + ns[..|ns| - 1];
    }
  }

  function EndOf(m: Insn): nat {
    m.addr + m.size
  }

  // ----- parallel issue -----

  /** What lane `k` computes from the state before the bundle. Every lane is fed the pc of the
      bundle's first member; a memory operation in a worker lane is dropped and its
      destination keeps the stale value. */
  function LaneEffect(sem: Semantics, ms: seq<Insn>, k: nat, a: Arch): Effect
    requires k < |ms|
  {
    if k == 0 then sem(ms[0], a)
    else
      var e := sem(ms[k].(addr := ms[0].addr), a);
      if UsesLsu(ms[k]) then e.(wb := map[], flags := Accrue({})) else e
  }

  function Lanes(sem: Semantics, ms: seq<Insn>, a: Arch): seq<Effect> {
    seq(|ms|, k requires 0 <= k < |ms| => LaneEffect(sem, ms, k, a))
  }

  ghost predicate Written(es: seq<Effect>, r: Reg) {
    exists j :: 0 <= j < |es| && r in es[j].wb
  }

  ghost predicate WinsAt(es: seq<Effect>, r: Reg, v: int) {
    exists j :: 0 <= j < |es| && r in es[j].wb && es[j].wb[r] == v
  }

  /** Simultaneous write-back. When two lanes write one register either may win. */
  ghost predicate WriteBack(pre: RegFile, es: seq<Effect>, post: RegFile) {
    forall r: Reg :: if Written(es, r) then WinsAt(es, r, post[r]) else post[r] == pre[r]
  }

  /** Exception flags are ORed across the lanes. */
  function MergeFlags(flags: set<nat>, es: seq<Effect>): set<nat> {
    if es == [] then flags
    else if |es| == 1 then UpdateFlags(flags, es[0].flags)
    else
      var f := es[|es| - 1].flags;
      MergeFlags(flags, es[..|es| - 1]) + (if f.Accrue? then f.raised else f.value)
  }

  /** The honoured bundle: memory, rounding mode, system state and the pc come from lane 0. */
  ghost predicate Issue(sem: Semantics, ms: seq<Insn>, a: Arch, t: State)
    requires ms != []
  {
    var es := Lanes(sem, ms, a);
    && t.arch.mem == es[0].mem && t.arch.frm == es[0].frm && t.arch.sys == es[0].sys
    && t.arch.flags == MergeFlags(a.flags, es)
    && WriteBack(a.regs, es, t.arch.regs)
    && t.pc == if es[0].target.Some? then es[0].target.value else EndOf(ms[|ms| - 1])
  }

  // ----- what the checker tests -----

  predicate Raw(x: Insn, y: Insn) { !(x.dsts !! y.srcs) }
  predicate Waw(x: Insn, y: Insn) { !(x.dsts !! y.dsts) }
  predicate War(x: Insn, y: Insn) { !(x.srcs !! y.dsts) }

  ghost predicate PairsOk(ms: seq<Insn>) {
    forall i, j :: 0 <= i < j < |ms| ==> !Raw(ms[i], ms[j]) && !Waw(ms[i], ms[j])
  }

  /** The same instruction at two places. */
  predicate Twins(x: Insn, y: Insn) {
    x.(addr := y.addr) == y
  }

  /** No RAW, and WAW only between twins, which write the same value. */
  ghost predicate PairsSound(ms: seq<Insn>) {
    forall i, j :: 0 <= i < j < |ms| ==> !Raw(ms[i], ms[j]) && (Waw(ms[i], ms[j]) ==> Twins(ms[i], ms[j]))
  }

  ghost predicate WorkersOk(ms: seq<Insn>) {
    forall k :: 0 < k < |ms| ==> Worker(ms[k])
  }

  /** An integer instruction or AUIPC that names no register. */
  predicate Nop(m: Insn) {
    m.cls in {Alu, PcRel} && m.srcs == {} && m.dsts == {}
  }

  /** What may stand in a worker lane: arithmetic and NOPs. */
  predicate Aside(m: Insn) {
    Worker(m) || Nop(m)
  }

  ghost predicate WorkersSound(ms: seq<Insn>) {
    forall k :: 0 < k < |ms| ==> Aside(ms[k])
  }

  /** The properties a bundle with an empty error list has (see `Checker.SafeIffAccepted`). */
  ghost predicate Accepted(declared: nat, ms: seq<Insn>) {
    declared <= MAX_BUNDLE && declared <= |ms| && WorkersOk(ms) && PairsOk(ms)
  }

  // ----- one-bundle soundness -----

  lemma {:induction false} LanesPrefix(sem: Semantics, ms: seq<Insn>, k: nat, a: Arch)
    requires k <= |ms|
    ensures Lanes(sem, ms[..k], a) == Lanes(sem, ms, a)[..k]
  {
  }

  lemma {:induction false} NopFramed(sem: Semantics, m: Insn)
    requires Nop(m) && Framed(sem, m)
    ensures WorkerFramed(sem, m) && forall a :: sem(m, a).wb == map[] && sem(m, a).flags == Accrue({})
  {
    if m.cls == PcRel {
      assert m.(addr := m.addr) == m;
      forall d, a ensures sem(m.(addr := d), a).wb == map[] && sem(m.(addr := d), a).flags == Accrue({}) {
        assert sem(m.(addr := d), a).wb.Keys <= {};
      }
      forall a ensures sem(m, a).wb == map[] && sem(m, a).flags == Accrue({}) {
        assert sem(m.(addr := m.addr), a) == sem(m, a);
      }
    } else {
      assert Worker(m);
    }
  }

  /** In a worker-legal lane the shared pc makes no difference and nothing is dropped. */
  lemma {:induction false} WorkerLane(sem: Semantics, ms: seq<Insn>, k: nat, a: Arch)
    requires 0 < k < |ms| && WorkersSound(ms) && AllFramed(sem, ms)
    ensures WorkerFramed(sem, ms[k])
    ensures LaneEffect(sem, ms, k, a).wb == sem(ms[k], a).wb
    ensures LaneEffect(sem, ms, k, a).flags == sem(ms[k], a).flags
  {
    assert Framed(sem, ms[k]);
    if Nop(ms[k]) { NopFramed(sem, ms[k]); }
  }

  /** Lane 0 may hold anything whose write set is known. */
  predicate KnownHead(ms: seq<Insn>)
    requires ms != []
  {
    ms[0].cls !in {System, Unknown}
  }

  lemma {:induction false} LaneWrites(sem: Semantics, ms: seq<Insn>, k: nat, a: Arch)
    requires k < |ms| && WorkersSound(ms) && AllFramed(sem, ms) && KnownHead(ms)
    ensures LaneEffect(sem, ms, k, a).wb.Keys <= ms[k].dsts
  {
    if k == 0 {
      assert Framed(sem, ms[0]);
    } else {
      WorkerLane(sem, ms, k, a);
    }
  }

  /** A worker's effect on the pre-state is its effect after the earlier members have run. */
  lemma {:induction false} WorkerSeesPreState(sem: Semantics, ms: seq<Insn>, a: Arch, s: Arch)
    requires |ms| >= 2 && WorkersSound(ms) && PairsSound(ms) && AllFramed(sem, ms) && KnownHead(ms)
    requires s.frm == a.frm
    requires WriteBack(a.regs, Lanes(sem, ms[..|ms| - 1], a), s.regs)
    ensures var k := |ms| - 1;
            sem(ms[k], s).wb == LaneEffect(sem, ms, k, a).wb
            && sem(ms[k], s).flags == LaneEffect(sem, ms, k, a).flags
  {
    var k := |ms| - 1;
    var es := Lanes(sem, ms[..k], a);
    forall r | r in ms[k].srcs
      ensures s.regs[r] == a.regs[r]
    {
      forall j | 0 <= j < k
        ensures r !in es[j].wb
      {
        LaneWrites(sem, ms, j, a);
        assert !Raw(ms[j], ms[k]);
      }
      assert !Written(es, r);
    }
    WorkerLane(sem, ms, k, a);
    assert Agree(ms[k].srcs, s, a);
  }

  /** Writing one more lane back on top of the earlier ones. */
  lemma {:induction false} WriteBackSnoc(pre: RegFile, es: seq<Effect>, mid: RegFile, e: Effect)
    requires WriteBack(pre, es, mid)
    ensures WriteBack(pre, es + [e], WriteRegs(mid, e.wb))
  {
    var fs, post := es + [e], WriteRegs(mid, e.wb);
    forall r: Reg
      ensures if Written(fs, r) then WinsAt(fs, r, post[r]) else post[r] == pre[r]
    {
      if r in e.wb {
        assert fs[|es|] == e;
        assert WinsAt(fs, r, post[r]);
      } else if Written(es, r) {
        var j :| 0 <= j < |es| && r in es[j].wb && es[j].wb[r] == mid[r];
        assert fs[j] == es[j];
      } else {
        assert forall j :: 0 <= j < |es| ==> fs[j] == es[j];
        assert !Written(fs, r);
      }
    }
  }

  /** Lanes that write the same register write the same value. */
  ghost predicate LanesAgree(es: seq<Effect>) {
    forall i, j, r :: 0 <= i < j < |es| && r in es[i].wb && r in es[j].wb ==> es[i].wb[r] == es[j].wb[r]
  }

  /** Then there is only one outcome, whoever wins. */
  lemma {:induction false} WriteBackUnique(pre: RegFile, es: seq<Effect>, p: RegFile, q: RegFile)
    requires WriteBack(pre, es, p) && WriteBack(pre, es, q)
    requires LanesAgree(es)
    ensures p == q
  {
    forall r | 0 <= r < 64
      ensures p[r] == q[r]
    {
      var reg: Reg := r;
      if Written(es, reg) {
        var i :| 0 <= i < |es| && reg in es[i].wb && es[i].wb[reg] == p[reg];
        var j :| 0 <= j < |es| && reg in es[j].wb && es[j].wb[reg] == q[reg];
        assert es[i].wb[reg] == es[j].wb[reg];
      }
    }
  }

  /** In lane 0 or in a worker lane, a worker-legal instruction writes back the same. */
  lemma {:induction false} LaneWriteBack(sem: Semantics, ms: seq<Insn>, k: nat, a: Arch)
    requires k < |ms| && WorkersSound(ms) && AllFramed(sem, ms)
    ensures LaneEffect(sem, ms, k, a).wb == sem(ms[k], a).wb
  {
    if k > 0 { WorkerLane(sem, ms, k, a); }
  }

  lemma {:induction false} TwinsWriteAlike(sem: Semantics, x: Insn, y: Insn, a: Arch)
    requires Twins(x, y) && Worker(y) && Framed(sem, x)
    ensures sem(x, a).wb == sem(y, a).wb
  {
    assert WorkerFramed(sem, x) && y == x.(addr := y.addr);
  }

  lemma {:induction false} PairAgrees(sem: Semantics, ms: seq<Insn>, i: nat, j: nat, r: Reg, a: Arch)
    requires WorkersSound(ms) && PairsSound(ms) && AllFramed(sem, ms) && i < j < |ms| && KnownHead(ms)
    requires r in LaneEffect(sem, ms, i, a).wb && r in LaneEffect(sem, ms, j, a).wb
    ensures LaneEffect(sem, ms, i, a).wb[r] == LaneEffect(sem, ms, j, a).wb[r]
  {
    LaneWrites(sem, ms, i, a);
    LaneWrites(sem, ms, j, a);
    LaneWriteBack(sem, ms, i, a);
    LaneWriteBack(sem, ms, j, a);
    assert Waw(ms[i], ms[j]);
    TwinsWriteAlike(sem, ms[i], ms[j], a);
  }

  lemma {:induction false} SoundLanesAgree(sem: Semantics, ms: seq<Insn>, a: Arch)
    requires ms != [] && WorkersSound(ms) && PairsSound(ms) && AllFramed(sem, ms) && KnownHead(ms)
    ensures LanesAgree(Lanes(sem, ms, a))
  {
    var es := Lanes(sem, ms, a);
    forall i, j, r | 0 <= i < j < |ms| && r in es[i].wb && r in es[j].wb ensures es[i].wb[r] == es[j].wb[r] {
      PairAgrees(sem, ms, i, j, r, a);
    }
  }

  /** Running the members in order performs exactly the simultaneous write-back. */
  lemma {:induction false} SequentialIsWriteBack(sem: Semantics, ms: seq<Insn>, a: Arch)
    requires ms != [] && WorkersSound(ms) && PairsSound(ms) && AllFramed(sem, ms) && KnownHead(ms)
    ensures var es, s := Lanes(sem, ms, a), ExecAll(sem, ms, a);
            && WriteBack(a.regs, es, s.regs)
            && s.mem == es[0].mem && s.frm == es[0].frm && s.sys == es[0].sys
            && s.flags == MergeFlags(a.flags, es)
    decreases |ms|
  {
    var k := |ms| - 1;
    var es := Lanes(sem, ms, a);
    assert Framed(sem, ms[0]);
    if k == 0 {
      assert ExecAll(sem, ms[..0], a) == a;
      WriteBackSnoc(a.regs, [], a.regs, es[0]);
      assert es == [] + [es[0]];
    } else {
      var init := ms[..k];
      SequentialIsWriteBack(sem, init, a);
      var s := ExecAll(sem, init, a);
      LanesPrefix(sem, ms, k, a);
      WorkerSeesPreState(sem, ms, a, s);
      WorkerLane(sem, ms, k, a);
      WriteBackSnoc(a.regs, es[..k], s.regs, es[k]);
      assert es == es[..k] + [es[k]];
      assert WriteRegs(s.regs, sem(ms[k], s).wb) == WriteRegs(s.regs, es[k].wb);
    }
  }

  /** The fall-through pc and state after the members have run in order. */
  function SequentialEnd(sem: Semantics, ms: seq<Insn>, a: Arch): State
    requires ms != []
  {
    State(EndOf(ms[|ms| - 1]), ExecAll(sem, ms, a))
  }

  /** One-bundle soundness. A bundle with arithmetic and NOPs behind lane 0, with no RAW and no WAW
      but between twins, whose first member does not transfer control, has exactly one parallel
      outcome, whichever lane wins a write; and it is the outcome of running its members in order.
      Anti-dependences are allowed. Every bundle the checker accepts is of this kind. */
  lemma {:induction false} OneBundleSound(sem: Semantics, ms: seq<Insn>, a: Arch, t: State)
    requires ms != [] && WorkersSound(ms) && PairsSound(ms) && AllFramed(sem, ms)
    requires !Control(ms[0])
    ensures Issue(sem, ms, a, t) <==> t == SequentialEnd(sem, ms, a)
  {
    SequentialIsWriteBack(sem, ms, a);
    SoundLanesAgree(sem, ms, a);
    assert Framed(sem, ms[0]);
    if Issue(sem, ms, a, t) {
      WriteBackUnique(a.regs, Lanes(sem, ms, a), t.arch.regs, ExecAll(sem, ms, a).regs);
    }
  }
}
