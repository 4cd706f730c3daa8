/** What the greedy grouping achieves under the standard lanes. */
module Packing {
  import opened Wrappers
  import opened VliwConfig
  import opened Packets

  // ----- the munch covers the block -----

  function Members(g: Group): seq<MInstr> {
    match g
    case Alone(m) => [m]
    case Packet(ms) => ms
  }

  function Flatten(gs: seq<Group>): seq<MInstr> {
    if gs == [] then [] else Members(gs[0]) + Flatten(gs[1..])
  }

  /** A partition of the block, in order, into single instructions and legal packets. */
  ghost predicate Grouping(c: Config, gs: seq<Group>, block: seq<MInstr>) {
    && Flatten(gs) == block
    && forall g :: g in gs && g.Packet? ==> g.ms != [] && Legal(c, g.ms)
  }

  /** The munch, one group at a time. */
  lemma {:induction false} MunchHead(c: Config, block: seq<MInstr>)
    requires block != []
    ensures var k := Longest(c, block, 0);
            var g := if k == 0 then Alone(block[0]) else Packet(block[..k]);
            var n := if k == 0 then 1 else k;
            && Members(g) == block[..n] && Munch(c, block) == [g] + Munch(c, block[n..])
            && (k == 0 ==> !Legal(c, [block[0]])) && (k > 0 ==> Legal(c, block[..k]))
  {
    assert block[..1] == [block[0]];
  }

  /** Nothing is lost, moved or repeated; every packet is legal, and what is alone could not even
      start a packet. */
  lemma {:induction false} MunchIsGrouping(c: Config, block: seq<MInstr>)
    ensures Grouping(c, Munch(c, block), block)
    ensures forall g :: g in Munch(c, block) && g.Alone? ==> !Legal(c, [g.m])
    decreases |block|
  {
    if block != [] {
      MunchHead(c, block);
      var k := Longest(c, block, 0);
      var n := if k == 0 then 1 else k;
      MunchIsGrouping(c, block[n..]);
      assert block == block[..n] + block[n..];
      assert Munch(c, block)[1..] == Munch(c, block[n..]);
    }
  }

  // ----- lanes are positions -----

  function ClassAt(ms: seq<MInstr>, k: nat): OpClass
    requires k < |ms|
  {
    ClassifyOpClass(ms[k])
  }

  lemma {:induction false} NoLaneBeyond(c: Config, busy: seq<nat>, cls: OpClass, lane: nat)
    requires Standard(c) && lane >= 1
    ensures cls !in ARITHMETIC ==> TryLaneFrom(c, busy, cls, lane).None?
    decreases c.numLanes - lane
  {
    if lane < c.numLanes {
      StandardLanes(c, lane, cls);
      NoLaneBeyond(c, busy, cls, lane + 1);
    }
  }

  /** With lanes 0..n-1 busy, first-fit finds lane `n` or nothing. */
  lemma {:induction false} FirstFreeLane(c: Config, busy: seq<nat>, cls: OpClass, n: nat, lane: nat)
    requires Standard(c) && busy == seq(n, k => k) && lane <= n <= c.numLanes
    ensures TryLaneFrom(c, busy, cls, lane) ==
            if n < c.numLanes && (n == 0 || cls in ARITHMETIC) then Some(n) else None
    decreases c.numLanes - lane
  {
    StandardLanes(c, lane, cls);
    if lane < n {
      assert busy[lane] == lane;
      FirstFreeLane(c, busy, cls, n, lane + 1);
    } else if lane < c.numLanes {
      assert lane !in busy;
      NoLaneBeyond(c, busy, cls, lane + 1);
    }
  }

  lemma {:induction false} ClassSnoc(ms: seq<MInstr>, n: nat)
    requires |ms| == n + 1
    ensures (forall k :: 0 < k < |ms| ==> ClassAt(ms, k) in ARITHMETIC) <==>
            (forall k :: 0 < k < n ==> ClassAt(ms[..n], k) in ARITHMETIC) && (n > 0 ==> ClassAt(ms, n) in ARITHMETIC)
  {
    assert forall k :: 0 <= k < n ==> ClassAt(ms[..n], k) == ClassAt(ms, k);
  }

  lemma {:induction false} CountingSnoc(n: nat)
    ensures seq(n + 1, k => k) == seq(n, k => k) + [n]
  {
  }

  /** The last member goes to the lane after the others, if it may. */
  lemma {:induction false} LaneSnoc(c: Config, ms: seq<MInstr>, n: nat)
    requires Standard(c) && |ms| == n + 1
    requires AssignLanes(c, ms[..n]).Some? ==> n <= c.numLanes && AssignLanes(c, ms[..n]).value == seq(n, k => k)
    ensures AssignLanes(c, ms).Some? <==>
            AssignLanes(c, ms[..n]).Some? && n < c.numLanes && (n == 0 || ClassAt(ms, n) in ARITHMETIC)
    ensures AssignLanes(c, ms).Some? ==> AssignLanes(c, ms).value == seq(n + 1, k => k)
  {
    if AssignLanes(c, ms[..n]).Some? {
      FirstFreeLane(c, seq(n, k => k), ClassAt(ms, n), n, 0);
      CountingSnoc(n);
    }
  }

  /** Under the standard lanes first-fit succeeds exactly when every member but the first is
      integer arithmetic and there are enough lanes, and then member `k` is in lane `k`. */
  lemma {:induction false} LaneIsPosition(c: Config, ms: seq<MInstr>)
    requires Standard(c)
    ensures AssignLanes(c, ms).Some? <==>
            |ms| <= c.numLanes && forall k :: 0 < k < |ms| ==> ClassAt(ms, k) in ARITHMETIC
    ensures AssignLanes(c, ms).Some? ==> AssignLanes(c, ms).value == seq(|ms|, k => k)
    decreases |ms|
  {
    if ms != [] {
      var n := |ms| - 1;
      LaneIsPosition(c, ms[..n]);
      ClassSnoc(ms, n);
      LaneSnoc(c, ms, n);
    }
  }

  /** An empty packet takes any packetizable instruction: the second lane test never fails. */
  lemma {:induction false} SingletonLegal(c: Config, m: MInstr)
    requires Standard(c)
    ensures Legal(c, [m]) <==> Packetizable(m)
  {
    LaneIsPosition(c, [m]);
    assert m in [m];
  }

  // ----- the greedy grouping is optimal -----

  /** Any contiguous part of a legal packet is a legal packet. */
  lemma {:induction false} LegalSlice(c: Config, ms: seq<MInstr>, i: nat, j: nat)
    requires Standard(c) && Legal(c, ms) && i <= j <= |ms|
    ensures Legal(c, ms[i..j])
  {
    var sub := ms[i..j];
    LaneIsPosition(c, ms);
    LaneIsPosition(c, sub);
    forall k | 0 < k < |sub| ensures ClassAt(sub, k) in ARITHMETIC {
      assert ClassAt(sub, k) == ClassAt(ms, i + k);
    }
    forall p, q | 0 <= p < q < |sub| ensures MayFollow(sub[p], sub[q]) {
      assert MayFollow(ms[i + p], ms[i + q]);
    }
  }

  ghost function Cost(c: Config, block: seq<MInstr>): nat {
    |Munch(c, block)|
  }

  lemma {:induction false} PrefixLegal(c: Config, block: seq<MInstr>, a: nat, j: nat)
    requires j <= a <= |block| && Legal(c, block[..a])
    ensures Legal(c, block[..j])
  {
    LegalPrefix(c, block[..a], j);
    assert block[..a][..j] == block[..j];
  }

  /** No legal packet at the front is longer than the munch's. */
  lemma {:induction false} LongestBounds(c: Config, block: seq<MInstr>, a: nat)
    requires a <= |block| && Legal(c, block[..a])
    ensures a <= Longest(c, block, 0)
  {
    var k := Longest(c, block, 0);
    if k < a {
      PrefixLegal(c, block, a, k + 1);
    }
  }

  /** Without its first instruction, the first packet of the munch still reaches as far. */
  lemma {:induction false} TailMunch(c: Config, block: seq<MInstr>, k: nat) returns (j: nat)
    requires Standard(c) && 2 <= k <= |block| && Legal(c, block[..k])
    ensures j <= |block| - k && Cost(c, block[1..]) == 1 + Cost(c, block[k..][j..])
  {
    var tail := block[1..];
    LegalSlice(c, block[..k], 1, k);
    assert block[..k][1..k] == tail[..k - 1];
    LongestBounds(c, tail, k - 1);
    var l := Longest(c, tail, 0);
    j := l + 1 - k;
    MunchHead(c, tail);
    assert tail[l..] == block[k..][j..];
  }

  /** Removing the first instruction never costs an issue group. */
  lemma {:induction false} DropOne(c: Config, block: seq<MInstr>)
    requires Standard(c) && block != []
    ensures Cost(c, block[1..]) <= Cost(c, block)
    decreases |block|, 0
  {
    MunchHead(c, block);
    var k := Longest(c, block, 0);
    if k >= 2 {
      var j := TailMunch(c, block, k);
      DropMany(c, block[k..], j);
    }
  }

  lemma {:induction false} DropMany(c: Config, block: seq<MInstr>, j: nat)
    requires Standard(c) && j <= |block|
    ensures Cost(c, block[j..]) <= Cost(c, block)
    decreases |block|, 1, j
  {
    if j > 0 {
      DropOne(c, block);
      DropMany(c, block[1..], j - 1);
      assert block[1..][j - 1..] == block[j..];
    } else {
      assert block[0..] == block;
    }
  }

  /** Greedy optimality: no other order-preserving partition of the block into single
      instructions and legal packets has fewer issue groups. */
  lemma {:induction false} GreedyIsOptimal(c: Config, block: seq<MInstr>, gs: seq<Group>)
    requires Standard(c) && Grouping(c, gs, block)
    ensures |Munch(c, block)| <= |gs|
    decreases |gs|
  {
    if block != [] {
      var g := gs[0];
      var a := |Members(g)|;
      assert block == Members(g) + Flatten(gs[1..]);
      assert block[..a] == Members(g) && block[a..] == Flatten(gs[1..]);
      assert g in gs;
      MunchHead(c, block);
      var k := Longest(c, block, 0);
      var n := if k == 0 then 1 else k;
      if g.Packet? { LongestBounds(c, block, a); }
      GreedyIsOptimal(c, block[a..], gs[1..]);
      DropMany(c, block[a..], n - a);
      assert block[a..][n - a..] == block[n..];
    }
  }
}
