/** What the packetizer works on, and which runs of instructions make a legal packet. */
module Packets {
  import opened Wrappers
  import opened VliwConfig

  /** A register operand; register 0 is LLVM's "no register". */
  datatype Operand = RegOperand(reg: nat, isDef: bool) | OtherOperand

  /** A machine instruction as the pass sees it. `nameClass` is the class its name selects, `code`
      the encodings the assembly printer emits for it. */
  datatype MInstr = MInstr(
    debug: bool, meta: bool, bundle: bool, inlineAsm: bool, call: bool, terminator: bool,
    pseudo: bool, sideEffects: bool, branch: bool, ret: bool, mayLoad: bool, mayStore: bool,
    operands: seq<Operand>, nameClass: OpClass, code: seq<nat>)

  predicate Packetizable(m: MInstr) {
    if m.debug || m.meta || m.bundle then false
    else if m.inlineAsm || m.call || m.terminator || m.pseudo then false
    else if m.sideEffects then false
    else true
  }

  function ClassifyOpClass(m: MInstr): OpClass {
    if m.branch || m.terminator || m.call || m.ret then BranchClass
    else if m.mayLoad then LoadClass
    else if m.mayStore then StoreClass
    else m.nameClass
  }

  // ----- register accesses -----

  function Uses(m: MInstr): set<nat> {
    set o | o in m.operands && o.RegOperand? && o.reg != 0 && !o.isDef :: o.reg
  }

  function Defs(m: MInstr): set<nat> {
    set o | o in m.operands && o.RegOperand? && o.reg != 0 && o.isDef :: o.reg
  }

  method CollectRegAccesses(m: MInstr) returns (uses: set<nat>, defs: set<nat>)
    ensures uses == Uses(m) && defs == Defs(m)
  {
    uses, defs := {}, {};
    for k := 0 to |m.operands|
      invariant uses == set o | o in m.operands[..k] && o.RegOperand? && o.reg != 0 && !o.isDef :: o.reg
      invariant defs == set o | o in m.operands[..k] && o.RegOperand? && o.reg != 0 && o.isDef :: o.reg
    {
      var mo := m.operands[k];
      assert m.operands[..k + 1] == m.operands[..k] + [mo];
      if mo.RegOperand? && mo.reg != 0 {
        if mo.isDef {
          defs := defs + {mo.reg};
        } else {
          uses := uses + {mo.reg};
        }
      }
    }
    assert m.operands[..|m.operands|] == m.operands;
  }

  /** Read-after-write, write-after-write or write-after-read against the packet so far. */
  predicate HasPacketDependency(uses: set<nat>, defs: set<nat>, packetUses: set<nat>, packetDefs: set<nat>) {
    !(uses !! packetDefs) || !(defs !! packetDefs) || !(defs !! packetUses)
  }

  function AllUses(ms: seq<MInstr>): set<nat> {
    if ms == [] then {} else AllUses(ms[..|ms| - 1]) + Uses(ms[|ms| - 1])
  }

  function AllDefs(ms: seq<MInstr>): set<nat> {
    if ms == [] then {} else AllDefs(ms[..|ms| - 1]) + Defs(ms[|ms| - 1])
  }

  /** `y` may stand after `x` in a packet: no RAW, no WAW, no WAR. */
  ghost predicate MayFollow(x: MInstr, y: MInstr) {
    Uses(y) !! Defs(x) && Defs(y) !! Defs(x) && Defs(y) !! Uses(x)
  }

  ghost predicate PairwiseFree(ms: seq<MInstr>) {
    forall i, j :: 0 <= i < j < |ms| ==> MayFollow(ms[i], ms[j])
  }

  // ----- lanes -----

  /** The first lane from `lane` on that is legal for the class and not in use. */
  function TryLaneFrom(c: Config, busy: seq<nat>, cls: OpClass, lane: nat): (r: Option<nat>)
    ensures r.Some? ==> lane <= r.value < c.numLanes && IsLaneLegal(c, r.value, cls) && r.value !in busy
    ensures r.Some? ==> forall l :: lane <= l < r.value && IsLaneLegal(c, l, cls) ==> l in busy
    ensures r.None? ==> forall l :: lane <= l < c.numLanes && IsLaneLegal(c, l, cls) ==> l in busy
    decreases c.numLanes - lane
  {
    if lane >= c.numLanes then None
    else if IsLaneLegal(c, lane, cls) && lane !in busy then Some(lane)
    else TryLaneFrom(c, busy, cls, lane + 1)
  }

  /** The first legal lane not in use; without one, every legal lane is in use. */
  function TryAssignLane(c: Config, busy: seq<nat>, cls: OpClass): (r: Option<nat>)
    ensures r.Some? ==> r.value < c.numLanes && IsLaneLegal(c, r.value, cls) && r.value !in busy
    ensures r.Some? ==> forall l :: 0 <= l < r.value && IsLaneLegal(c, l, cls) ==> l in busy
    ensures r.None? ==> forall l :: 0 <= l < c.numLanes && IsLaneLegal(c, l, cls) ==> l in busy
  {
    TryLaneFrom(c, busy, cls, 0)
  }

  /** The lanes first-fit gives to the members in order. */
  function AssignLanes(c: Config, ms: seq<MInstr>): Option<seq<nat>> {
    if ms == [] then Some([])
    else match AssignLanes(c, ms[..|ms| - 1])
      case None => None
      case Some(busy) =>
        match TryAssignLane(c, busy, ClassifyOpClass(ms[|ms| - 1]))
        case None => None
        case Some(lane) => Some(busy + [lane])
  }

  // ----- legal packets -----

  ghost predicate Legal(c: Config, ms: seq<MInstr>) {
    && |ms| <= c.numLanes
    && (forall m :: m in ms ==> Packetizable(m))
    && PairwiseFree(ms)
    && AssignLanes(c, ms).Some?
  }

  lemma {:induction false} AllUsesHas(ms: seq<MInstr>, r: nat)
    ensures r in AllUses(ms) <==> exists m :: m in ms && r in Uses(m)
    ensures r in AllDefs(ms) <==> exists m :: m in ms && r in Defs(m)
    decreases |ms|
  {
    if ms != [] {
      var k := |ms| - 1;
      AllUsesHas(ms[..k], r);
      assert forall m :: m in ms <==> m in ms[..k] || m == ms[k];
    }
  }

  /** The test against the running unions is the pairwise test against every member. */
  lemma {:induction false} IncrementalIsPairwise(ms: seq<MInstr>, m: MInstr)
    ensures !HasPacketDependency(Uses(m), Defs(m), AllUses(ms), AllDefs(ms))
            <==> forall x :: x in ms ==> MayFollow(x, m)
  {
    forall r { AllUsesHas(ms, r); }
    if !HasPacketDependency(Uses(m), Defs(m), AllUses(ms), AllDefs(ms)) {
      forall x | x in ms ensures MayFollow(x, m) {
        assert Defs(x) <= AllDefs(ms) && Uses(x) <= AllUses(ms);
      }
    }
  }

  lemma {:induction false} PairwiseSnoc(ms: seq<MInstr>, m: MInstr)
    ensures PairwiseFree(ms + [m]) <==> PairwiseFree(ms) && forall x :: x in ms ==> MayFollow(x, m)
  {
    var all := ms + [m];
    if PairwiseFree(all) {
      forall i, j | 0 <= i < j < |ms| ensures MayFollow(ms[i], ms[j]) {
        assert MayFollow(all[i], all[j]);
      }
      forall x | x in ms ensures MayFollow(x, m) {
        var i :| 0 <= i < |ms| && ms[i] == x;
        assert MayFollow(all[i], all[|ms|]);
      }
    }
  }

  /** Appending to a packet: exactly the tests the packetizer makes. */
  lemma {:induction false} LegalSnoc(c: Config, ms: seq<MInstr>, m: MInstr)
    requires AssignLanes(c, ms).Some?
    ensures Legal(c, ms + [m]) <==>
            && Legal(c, ms) && |ms| < c.numLanes && Packetizable(m)
            && !HasPacketDependency(Uses(m), Defs(m), AllUses(ms), AllDefs(ms))
            && TryAssignLane(c, AssignLanes(c, ms).value, ClassifyOpClass(m)).Some?
  {
    var all := ms + [m];
    assert all[..|all| - 1] == ms && all[|ms|] == m;
    IncrementalIsPairwise(ms, m);
    PairwiseSnoc(ms, m);
    assert forall x :: x in all <==> x in ms || x == m;
  }

  lemma {:induction false} LegalPrefix(c: Config, ms: seq<MInstr>, k: nat)
    requires Legal(c, ms) && k <= |ms|
    ensures Legal(c, ms[..k])
    decreases |ms|
  {
    if k < |ms| {
      var init := ms[..|ms| - 1];
      assert AssignLanes(c, init).Some?;
      LegalSnoc(c, init, ms[|ms| - 1]);
      assert init + [ms[|ms| - 1]] == ms;
      LegalPrefix(c, init, k);
      assert init[..k] == ms[..k];
    } else {
      assert ms[..k] == ms;
    }
  }

  // ----- the greedy grouping -----

  /** One issue group of a block: an instruction on its own, or a packet. */
  datatype Group = Alone(m: MInstr) | Packet(ms: seq<MInstr>)

  /** The length of the longest legal packet at the front of the block, which is at least `k`. */
  ghost function Longest(c: Config, block: seq<MInstr>, k: nat): (r: nat)
    requires k <= |block|
    ensures k <= r <= |block|
    ensures r > k ==> Legal(c, block[..r])
    ensures r < |block| ==> !Legal(c, block[..r + 1])
    decreases |block| - k
  {
    if k < |block| && Legal(c, block[..k + 1]) then Longest(c, block, k + 1) else k
  }

  /** Maximal munch: always the longest legal packet next. */
  ghost function Munch(c: Config, block: seq<MInstr>): seq<Group>
    decreases |block|
  {
    if block == [] then []
    else
      var k := Longest(c, block, 0);
      if k == 0 then [Alone(block[0])] + Munch(c, block[1..])
      else [Packet(block[..k])] + Munch(c, block[k..])
  }

  /** A legal run that cannot be extended is the longest packet. */
  lemma {:induction false} LongestIs(c: Config, block: seq<MInstr>, k: nat, j: nat)
    requires j <= k <= |block| && (k > 0 ==> Legal(c, block[..k]))
    requires k < |block| ==> !Legal(c, block[..k + 1])
    ensures Longest(c, block, j) == k
    decreases k - j
  {
    if j < k {
      LegalPrefix(c, block[..k], j + 1);
      assert block[..k][..j + 1] == block[..j + 1];
      LongestIs(c, block, k, j + 1);
    }
  }

  // ----- the hinted block -----

  datatype Item = Instr(m: MInstr) | Hint(n: nat)

  predicate ShouldEmitHint(c: Config, size: nat) {
    if size == c.numLanes then true
    else if size != 1 && c.allowShort then true
    else if size == 1 && c.emitSingle then true
    else false
  }

  function Instrs(ms: seq<MInstr>): (r: seq<Item>)
    ensures |r| == |ms| && forall k :: 0 <= k < |ms| ==> r[k] == Instr(ms[k])
  {
    seq(|ms|, k requires 0 <= k < |ms| => Instr(ms[k]))
  }

  function EmitGroup(c: Config, g: Group): seq<Item> {
    match g
    case Alone(m) => [Instr(m)]
    case Packet(ms) => (if ShouldEmitHint(c, |ms|) then [Hint(|ms|)] else []) + Instrs(ms)
  }

  function Emit(c: Config, gs: seq<Group>): seq<Item> {
    if gs == [] then [] else EmitGroup(c, gs[0]) + Emit(c, gs[1..])
  }

  predicate Hinted(c: Config, g: Group) {
    g.Packet? && ShouldEmitHint(c, |g.ms|)
  }
}
