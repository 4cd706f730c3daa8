/** `packetizeBasicBlock` of `StarbugVLIWPacketizer.cpp`: one pass over the block that keeps a
    packet, its lanes and its accumulated accesses, and inserts hints in place. */
module Packetizer {
  import opened Wrappers
  import opened VliwConfig
  import opened Packets

  /** The rest of the munch after a maximal packet. */
  lemma {:induction false} MunchPacket(c: Config, block: seq<MInstr>, k: nat)
    requires 0 < k <= |block| && Legal(c, block[..k])
    requires k < |block| ==> !Legal(c, block[..k + 1])
    ensures Munch(c, block) == [Packet(block[..k])] + Munch(c, block[k..])
  {
    LongestIs(c, block, k, 0);
  }

  lemma {:induction false} MunchAlone(c: Config, block: seq<MInstr>)
    requires block != [] && !Legal(c, [block[0]])
    ensures Munch(c, block) == [Alone(block[0])] + Munch(c, block[1..])
  {
    assert block[..1] == [block[0]];
    LongestIs(c, block, 0, 0);
  }

  lemma {:induction false} EmitConcat(c: Config, gs: seq<Group>, hs: seq<Group>)
    ensures Emit(c, gs + hs) == Emit(c, gs) + Emit(c, hs)
    decreases |gs|
  {
    if gs == [] {
      assert gs + hs == hs;
    } else {
      assert (gs + hs)[1..] == gs[1..] + hs;
      EmitConcat(c, gs[1..], hs);
    }
  }

  lemma {:induction false} EmitSnoc(c: Config, gs: seq<Group>, g: Group)
    ensures Emit(c, gs + [g]) == Emit(c, gs) + EmitGroup(c, g)
  {
    EmitConcat(c, gs, [g]);
    assert [g][1..] == [];
    assert Emit(c, [g]) == EmitGroup(c, g) + [];
  }

  ghost predicate AnyHinted(c: Config, gs: seq<Group>) {
    exists g :: g in gs && Hinted(c, g)
  }

  lemma {:induction false} AnyHintedSnoc(c: Config, gs: seq<Group>, g: Group)
    ensures AnyHinted(c, gs + [g]) <==> AnyHinted(c, gs) || Hinted(c, g)
  {
    assert forall h :: h in gs + [g] <==> h in gs || h == g;
  }

  /** A block split as the pass sees it: finished groups, the open packet, the rest. */
  ghost predicate Split(c: Config, block: seq<Item>, gs: seq<Group>, ms: seq<MInstr>, rest: seq<MInstr>) {
    block == Emit(c, gs) + Instrs(ms) + Instrs(rest)
  }

  lemma {:induction false} Insert<T>(a: seq<T>, h: seq<T>, b: seq<T>, r: seq<T>)
    ensures var s := a + b + r;
            && s[..|a|] + h + s[|a|..] == a + (h + b) + [] + r
            && |a| <= |s|
  {
    var s := a + b + r;
    assert s[..|a|] == a && s[|a|..] == b + r;
    assert a + h + (b + r) == a + (h + b) + [] + r;
  }

  /** The block with the open packet's hint, if it gets one, before position `first`. */
  function Flushed(c: Config, block: seq<Item>, first: nat, size: nat): seq<Item>
    requires first <= |block|
  {
    if ShouldEmitHint(c, size) then block[..first] + [Hint(size)] + block[first..] else block
  }

  /** Inserting the hint before the first member finishes the packet. */
  lemma {:induction false} FlushSplit(c: Config, block: seq<Item>, gs: seq<Group>, ms: seq<MInstr>, rest: seq<MInstr>)
    requires Split(c, block, gs, ms, rest)
    ensures |Emit(c, gs)| <= |block|
    ensures Split(c, Flushed(c, block, |Emit(c, gs)|, |ms|), gs + [Packet(ms)], [], rest)
    ensures AnyHinted(c, gs + [Packet(ms)]) <==> AnyHinted(c, gs) || ShouldEmitHint(c, |ms|)
  {
    var h := if ShouldEmitHint(c, |ms|) then [Hint(|ms|)] else [];
    var e := Emit(c, gs);
    EmitSnoc(c, gs, Packet(ms));
    AnyHintedSnoc(c, gs, Packet(ms));
    Insert(e, h, Instrs(ms), Instrs(rest));
    if h == [] {
      assert block[..|e|] + h + block[|e|..] == block;
    }
  }

  lemma {:induction false} PacketMunch(c: Config, ms: seq<MInstr>, rest: seq<MInstr>)
    requires ms != [] && Legal(c, ms) && (rest != [] ==> !Legal(c, ms + [rest[0]]))
    ensures Munch(c, ms + rest) == [Packet(ms)] + Munch(c, rest)
  {
    var all, k := ms + rest, |ms|;
    assert all[..k] == ms && all[k..] == rest;
    if rest != [] { assert all[..k + 1] == ms + [rest[0]]; }
    MunchPacket(c, all, k);
  }

  lemma {:induction false} Join<T>(g: seq<T>, p: seq<T>, m: seq<T>)
    ensures g + (p + m) == g + p + m && (p == [] ==> g + m == g + p + m)
  {
  }

  /** Flushing a packet that the next instruction cannot join follows the maximal munch. */
  lemma {:induction false} FlushMunch(c: Config, gs: seq<Group>, ms: seq<MInstr>, rest: seq<MInstr>)
    requires ms != [] ==> Legal(c, ms)
    requires ms != [] && rest != [] ==> !Legal(c, ms + [rest[0]])
    ensures gs + Munch(c, ms + rest) == gs + (if ms == [] then [] else [Packet(ms)]) + Munch(c, [] + rest)
  {
    assert [] + rest == rest;
    if ms != [] {
      PacketMunch(c, ms, rest);
      Join(gs, [Packet(ms)], Munch(c, rest));
    } else {
      assert ms + rest == rest;
      Join(gs, [], Munch(c, rest));
    }
  }

  lemma {:induction false} AloneMunch(c: Config, gs: seq<Group>, rest: seq<MInstr>)
    requires rest != [] && !Legal(c, [rest[0]])
    ensures gs + Munch(c, [] + rest) == (gs + [Alone(rest[0])]) + Munch(c, [] + rest[1..])
  {
    MunchAlone(c, rest);
    assert [] + rest == rest && [] + rest[1..] == rest[1..];
    var g, m := [Alone(rest[0])], Munch(c, rest[1..]);
    assert gs + (g + m) == (gs + g) + m;
  }

  lemma {:induction false} MoveOne<T>(e: seq<T>, m: seq<T>, i: seq<T>, r: seq<T>)
    ensures e + m + (i + r) == e + (m + i) + r
    ensures e + [] + (i + r) == (e + i) + [] + r
  {
  }

  lemma {:induction false} InstrsHead(rest: seq<MInstr>)
    requires rest != []
    ensures Instrs(rest) == [Instr(rest[0])] + Instrs(rest[1..])
  {
  }

  lemma {:induction false} AloneSplit(c: Config, block: seq<Item>, gs: seq<Group>, rest: seq<MInstr>)
    requires Split(c, block, gs, [], rest) && rest != []
    ensures Split(c, block, gs + [Alone(rest[0])], [], rest[1..])
  {
    EmitSnoc(c, gs, Alone(rest[0]));
    InstrsHead(rest);
    MoveOne(Emit(c, gs), [], [Instr(rest[0])], Instrs(rest[1..]));
    assert Instrs([]) == [];
  }

  lemma {:induction false} CursorItem(c: Config, block: seq<Item>, gs: seq<Group>, ms: seq<MInstr>, rest: seq<MInstr>)
    requires Split(c, block, gs, ms, rest) && rest != []
    ensures |block| - |rest| == |Emit(c, gs)| + |ms| && block[|block| - |rest|] == Instr(rest[0])
  {
  }

  lemma {:induction false} AppendSplit(c: Config, block: seq<Item>, gs: seq<Group>, ms: seq<MInstr>, rest: seq<MInstr>)
    requires Split(c, block, gs, ms, rest) && rest != []
    ensures Split(c, block, gs, ms + [rest[0]], rest[1..])
    ensures (ms + [rest[0]]) + rest[1..] == ms + rest
  {
    InstrsHead(rest);
    assert Instrs(ms + [rest[0]]) == Instrs(ms) + [Instr(rest[0])];
    MoveOne(Emit(c, gs), Instrs(ms), [Instr(rest[0])], Instrs(rest[1..]));
  }

  lemma {:induction false} TakeInit<T>(xs: seq<T>, x: T)
    ensures (xs + [x])[..|xs|] == xs && (xs + [x])[|xs|] == x && |xs + [x]| == |xs| + 1
  {
  }

  /** The packet's positions from `base` on, its lanes and its running sets are those of its members,
      and it is legal. */
  ghost predicate Tracked(c: Config, base: nat, ms: seq<MInstr>, packet: seq<nat>, lanes: seq<nat>, uses: set<nat>,
                          defs: set<nat>) {
    && |packet| == |ms| && (forall k :: 0 <= k < |packet| ==> packet[k] == base + k)
    && AssignLanes(c, ms) == Some(lanes) && uses == AllUses(ms) && defs == AllDefs(ms)
    && (ms != [] ==> Legal(c, ms))
  }

  /** One member on. */
  lemma {:induction false} TrackedSnoc(c: Config, base: nat, ms: seq<MInstr>, packet: seq<nat>, lanes: seq<nat>,
                                       uses: set<nat>, defs: set<nat>, mi: MInstr, lane: nat, pos: nat)
    requires Tracked(c, base, ms, packet, lanes, uses, defs) && Legal(c, ms + [mi]) && pos == base + |ms|
    requires TryAssignLane(c, lanes, ClassifyOpClass(mi)) == Some(lane)
    ensures Tracked(c, base, ms + [mi], packet + [pos], lanes + [lane], uses + Uses(mi), defs + Defs(mi))
  {
    TakeInit(ms, mi);
  }

  /** What appending leaves: the packet is still the run before the cursor. */
  lemma {:induction false} Appended(c: Config, block: seq<Item>, gs: seq<Group>, ms: seq<MInstr>, rest: seq<MInstr>,
                                    packet: seq<nat>, lanes: seq<nat>, uses: set<nat>, defs: set<nat>, mi: MInstr,
                                    lane: nat, pos: nat, ms': seq<MInstr>, rest': seq<MInstr>, packet': seq<nat>,
                                    lanes': seq<nat>, uses': set<nat>, defs': set<nat>)
    requires Split(c, block, gs, ms, rest) && Tracked(c, |Emit(c, gs)|, ms, packet, lanes, uses, defs)
    requires rest != [] && rest[0] == mi && pos == |block| - |rest| && Legal(c, ms + [mi])
    requires TryAssignLane(c, lanes, ClassifyOpClass(mi)) == Some(lane)
    requires ms' == ms + [mi] && rest' == rest[1..] && packet' == packet + [pos] && lanes' == lanes + [lane]
    requires uses' == uses + Uses(mi) && defs' == defs + Defs(mi)
    ensures Split(c, block, gs, ms', rest') && Tracked(c, |Emit(c, gs)|, ms', packet', lanes', uses', defs')
    ensures ms' + rest' == ms + rest
  {
    CursorItem(c, block, gs, ms, rest);
    AppendSplit(c, block, gs, ms, rest);
    TrackedSnoc(c, |Emit(c, gs)|, ms, packet, lanes, uses, defs, mi, lane, pos);
  }

  class BlockPacketizer {
    const config: Config
    var block: seq<Item>
    /** Positions of the packet's members in the block. */
    var packet: seq<nat>
    var packetLanes: seq<nat>
    var packetUses: set<nat>
    var packetDefs: set<nat>
    var changed: bool
    /** The groups emitted so far, and the instructions not yet emitted. */
    ghost var groups: seq<Group>
    ghost var members: seq<MInstr>
    ghost var rest: seq<MInstr>

    constructor (config: Config, ms: seq<MInstr>)
      ensures this.config == config && Valid() && members == [] && rest == ms && groups == []
      ensures block == Instrs(ms) && !changed
    {
      this.config := config;
      block := Instrs(ms);
      packet, packetLanes, packetUses, packetDefs, changed := [], [], {}, {}, false;
      groups, members, rest := [], [], ms;
      new;
      assert Split(config, block, groups, members, rest);
    }

    /** The packet is the contiguous run just before the cursor and it is legal. */
    ghost predicate Flushable()
      reads this
    {
      && Split(config, block, groups, members, rest) && changed == AnyHinted(config, groups)
      && Tracked(config, |Emit(config, groups)|, members, packet, packetLanes, packetUses, packetDefs)
    }

    /** Between instructions the packet is not full either. */
    ghost predicate Valid()
      reads this
    {
      Flushable() && (members != [] ==> |members| < config.numLanes)
    }

    /** The position of the next instruction to look at. */
    ghost function Cursor(): int
      reads this
    {
      |block| - |rest|
    }

    /** Puts the hint before the packet's first member, if the packet gets one. */
    method EmitHint()
      requires Flushable() && packet != []
      modifies this`block, this`changed
      ensures Split(config, block, groups + [Packet(members)], [], rest)
      ensures changed == AnyHinted(config, groups + [Packet(members)])
    {
      var first := packet[0];
      FlushSplit(config, block, groups, members, rest);
      if ShouldEmitHint(config, |packet|) {
        block := block[..first] + [Hint(|packet|)] + block[first..];
        changed := true;
      }
    }

    /** Forgets the packet once its hint is out. */
    method ClearPacket()
      requires Split(config, block, groups + [Packet(members)], [], rest)
      requires changed == AnyHinted(config, groups + [Packet(members)])
      modifies `packet, `packetLanes, `packetUses, `packetDefs, `groups, `members
      ensures Valid() && members == [] && groups == old(groups + [Packet(members)])
    {
      groups, members := groups + [Packet(members)], [];
      packet, packetLanes, packetUses, packetDefs := [], [], {}, {};
    }

    /** Ends the packet. */
    method FlushPacket()
      requires Flushable()
      modifies this
      ensures Valid() && members == [] && rest == old(rest)
      ensures groups == old(groups) + if old(members) == [] then [] else [Packet(old(members))]
    {
      if packet != [] {
        EmitHint();
        ClearPacket();
      }
    }

    /** What the finished groups, the open packet and the rest still owe the maximal munch. */
    ghost predicate Owes(all: seq<MInstr>)
      reads this
    {
      Munch(config, all) == groups + Munch(config, members + rest)
    }

    /** Flushing is right when the next instruction cannot join the packet. */
    method FlushMaximal(ghost all: seq<MInstr>)
      requires Flushable() && Owes(all)
      requires members != [] && rest != [] ==> !Legal(config, members + [rest[0]])
      modifies this
      ensures Valid() && Owes(all) && members == [] && rest == old(rest)
    {
      FlushMunch(config, groups, members, rest);
      FlushPacket();
      assert [] + rest == rest;
    }

    /** The instruction stays on its own. */
    ghost method LeaveAlone(all: seq<MInstr>)
      requires Valid() && Owes(all) && members == [] && rest != [] && !Legal(config, [rest[0]])
      modifies `groups, `rest
      ensures Valid() && Owes(all) && members == [] && rest == old(rest)[1..]
    {
      AloneSplit(config, block, groups, rest);
      AloneMunch(config, groups, rest);
      AnyHintedSnoc(config, groups, Alone(rest[0]));
      groups, rest := groups + [Alone(rest[0])], rest[1..];
    }

    method Take(positions: seq<nat>, lanes: seq<nat>, uses: set<nat>, defs: set<nat>, ghost ms: seq<MInstr>,
                ghost tail: seq<MInstr>)
      modifies `packet, `packetLanes, `packetUses, `packetDefs, `members, `rest
      ensures packet == positions && packetLanes == lanes && packetUses == uses && packetDefs == defs
      ensures members == ms && rest == tail
    {
      packet, packetLanes, packetUses, packetDefs := positions, lanes, uses, defs;
      members, rest := ms, tail;
    }

    /** The instruction at `pos` joins the packet in lane `lane`. */
    method Append(pos: nat, mi: MInstr, lane: nat, uses: set<nat>, defs: set<nat>)
      requires Valid() && rest != [] && rest[0] == mi && pos == Cursor()
      requires uses == Uses(mi) && defs == Defs(mi) && Legal(config, members + [mi])
      requires TryAssignLane(config, packetLanes, ClassifyOpClass(mi)) == Some(lane)
      modifies `packet, `packetLanes, `packetUses, `packetDefs, `members, `rest
      ensures Flushable() && members == old(members) + [mi] && rest == old(rest)[1..]
      ensures members + rest == old(members + rest)
    {
      ghost var ms, tail := members + [mi], rest[1..];
      var positions, lanes := packet + [pos], packetLanes + [lane];
      var allUses, allDefs := packetUses + uses, packetDefs + defs;
      Appended(config, block, groups, members, rest, packet, packetLanes, packetUses, packetDefs, mi, lane, pos, ms,
               tail, positions, lanes, allUses, allDefs);
      Take(positions, lanes, allUses, allDefs, ms, tail);
    }

    /** An instruction that is never packetized ends the packet and stays on its own. */
    method Barrier(ghost all: seq<MInstr>, mi: MInstr)
      requires Valid() && Owes(all) && rest != [] && rest[0] == mi && !Packetizable(mi)
      modifies this
      ensures Valid() && Owes(all) && rest == old(rest)[1..]
    {
      assert !Legal(config, members + [mi]) by { assert mi in members + [mi]; }
      assert !Legal(config, [mi]) by { assert mi in [mi]; }
      FlushMaximal(all);
      LeaveAlone(all);
    }

    /** Flushes for a dependence or for want of a lane, and says which lane is free then. */
    method MakeRoom(ghost all: seq<MInstr>, mi: MInstr, uses: set<nat>, defs: set<nat>) returns (lane: Option<nat>)
      requires Valid() && Owes(all) && rest != [] && rest[0] == mi && Packetizable(mi)
      requires uses == Uses(mi) && defs == Defs(mi)
      modifies this
      ensures Valid() && Owes(all) && rest == old(rest)
      ensures lane == TryAssignLane(config, packetLanes, ClassifyOpClass(mi))
      ensures lane.None? ==> members == [] && !Legal(config, [mi])
      ensures lane.Some? ==> Legal(config, members + [mi])
    {
      if packet != [] && HasPacketDependency(uses, defs, packetUses, packetDefs) {
        assert !Legal(config, members + [mi]) by { LegalSnoc(config, members, mi); }
        FlushMaximal(all);
      }
      lane := TryAssignLane(config, packetLanes, ClassifyOpClass(mi));
      if lane.None? {
        assert !Legal(config, members + [mi]) by { LegalSnoc(config, members, mi); }
        FlushMaximal(all);
        lane := TryAssignLane(config, packetLanes, ClassifyOpClass(mi));
      }
      LegalSnoc(config, members, mi);
      assert members == [] ==> members + [mi] == [mi];
    }

    /** A packet that has reached the lane count is flushed at once. */
    method FlushIfFull(ghost all: seq<MInstr>)
      requires Flushable() && Owes(all)
      modifies this
      ensures Valid() && Owes(all) && rest == old(rest)
    {
      if |packet| >= config.numLanes {
        FlushMaximal(all);
      }
    }

    /** One iteration of the loop over the block. The cursor moves with the inserted hints. */
    method Step(ghost all: seq<MInstr>, pos: nat) returns (next: nat)
      requires Valid() && Owes(all) && rest != [] && pos == Cursor()
      modifies this
      ensures Valid() && Owes(all) && rest == old(rest)[1..] && next == Cursor()
    {
      var size := |block|;
      CursorItem(config, block, groups, members, rest);
      var mi := block[pos].m;
      if !Packetizable(mi) {
        Barrier(all, mi);
      } else {
        var uses, defs := CollectRegAccesses(mi);
        var lane := MakeRoom(all, mi, uses, defs);
        if lane.None? {
          LeaveAlone(all);
        } else {
          Append(pos + (|block| - size), mi, lane.value, uses, defs);
          FlushIfFull(all);
        }
      }
      next := pos + (|block| - size) + 1;
    }

    /** The pass over one basic block. The result is the hinted form of its maximal munch. */
    method PacketizeBasicBlock()
      requires Valid() && members == [] && groups == []
      modifies this
      ensures block == Emit(config, Munch(config, old(rest)))
      ensures changed <==> AnyHinted(config, Munch(config, old(rest)))
    {
      ghost var all := rest;
      assert [] + rest == rest && groups + Munch(config, all) == Munch(config, all);
      var pos := 0;
      while pos < |block|
        invariant Valid() && Owes(all) && pos == Cursor()
        decreases |rest|
      {
        pos := Step(all, pos);
      }
      FlushMaximal(all);
      assert Munch(config, []) == [] && groups + [] == groups && members + rest == [];
      assert Emit(config, groups) + [] + [] == Emit(config, groups);
    }
  }

  /** The pass as a function from a block to its hinted form. */
  method PacketizeBlock(c: Config, ms: seq<MInstr>) returns (out: seq<Item>, changed: bool)
    ensures out == Emit(c, Munch(c, ms))
    ensures changed <==> AnyHinted(c, Munch(c, ms))
  {
    var p := new BlockPacketizer(c, ms);
    p.PacketizeBasicBlock();
    out, changed := p.block, p.changed;
  }
}
