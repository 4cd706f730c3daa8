/** Which instructions the pass packs together and hints, told from the instructions' flags, operands
    and names alone. */
module Sharing {
  import opened Wrappers
  import opened VliwConfig
  import opened Packets
  import opened Packetizer
  import opened Packing

  /** None of the flags that keep an instruction out of packets is set. */
  predicate Unflagged(m: MInstr) {
    && !m.debug && !m.meta && !m.bundle && !m.inlineAsm && !m.call && !m.terminator && !m.pseudo
    && !m.sideEffects
  }

  /** No register operand of the one is written by the other, nor by both. */
  ghost predicate NoSharedWrite(x: MInstr, y: MInstr) {
    forall a, b :: a in x.operands && b in y.operands && a.RegOperand? && b.RegOperand? && a.reg == b.reg != 0 ==>
      !a.isDef && !b.isDef
  }

  /** Integer arithmetic by name, and neither control flow nor memory by flag. */
  predicate ArithmeticByName(m: MInstr) {
    && !m.branch && !m.ret && !m.mayLoad && !m.mayStore
    && (m.nameClass == AluAddSub || m.nameClass == AluMulDiv || m.nameClass == AluShift)
  }

  /** What the options in their default form let share a packet, all of it written out. */
  ghost predicate MayShare(ms: seq<MInstr>, lanes: nat) {
    && 0 < |ms| <= lanes && (forall m :: m in ms ==> Unflagged(m))
    && (forall i, j :: 0 <= i < j < |ms| ==> NoSharedWrite(ms[i], ms[j]))
    && (forall k :: 0 < k < |ms| ==> ArithmeticByName(ms[k]))
  }

  lemma {:induction false} UnflaggedMay(m: MInstr)
    ensures Packetizable(m) <==> Unflagged(m)
  {
  }

  lemma {:induction false} RegistersOf(m: MInstr, r: nat)
    ensures r in Uses(m) <==> exists a :: a in m.operands && a.RegOperand? && a.reg == r != 0 && !a.isDef
    ensures r in Defs(m) <==> exists a :: a in m.operands && a.RegOperand? && a.reg == r != 0 && a.isDef
  {
  }

  lemma {:induction false} SharedRegister(x: MInstr, y: MInstr, r: nat)
    requires NoSharedWrite(x, y)
    ensures !(r in Uses(y) && r in Defs(x)) && !(r in Defs(y) && r in Defs(x)) && !(r in Defs(y) && r in Uses(x))
  {
  }

  lemma {:induction false} FreeOfShared(x: MInstr, y: MInstr)
    ensures MayFollow(x, y) <==> NoSharedWrite(x, y)
  {
    if MayFollow(x, y) {
      forall a, b | a in x.operands && b in y.operands && a.RegOperand? && b.RegOperand? && a.reg == b.reg != 0
        ensures !a.isDef && !b.isDef
      {
        RegistersOf(x, a.reg);
        RegistersOf(y, a.reg);
      }
    }
    if NoSharedWrite(x, y) {
      forall r
        ensures !(r in Uses(y) && r in Defs(x)) && !(r in Defs(y) && r in Defs(x)) && !(r in Defs(y) && r in Uses(x))
      {
        SharedRegister(x, y, r);
      }
    }
  }

  lemma {:induction false} ArithmeticClass(m: MInstr)
    requires Unflagged(m)
    ensures ClassifyOpClass(m) in ARITHMETIC <==> ArithmeticByName(m)
  {
  }

  lemma {:induction false} LegalIsMayShare(c: Config, ms: seq<MInstr>)
    requires Standard(c) && ms != []
    ensures Legal(c, ms) <==> MayShare(ms, c.numLanes)
  {
    LaneIsPosition(c, ms);
    forall m ensures Packetizable(m) <==> Unflagged(m) { UnflaggedMay(m); }
    forall x, y ensures MayFollow(x, y) <==> NoSharedWrite(x, y) { FreeOfShared(x, y); }
    forall k | 0 < k < |ms| && Unflagged(ms[k]) ensures ClassAt(ms, k) in ARITHMETIC <==> ArithmeticByName(ms[k]) {
      ArithmeticClass(ms[k]);
    }
    assert forall k :: 0 < k < |ms| ==> ms[k] in ms;
  }

  /** Under the default lanes a block is one packet exactly if its instructions may share one: the
      flags, the operands and the names decide. */
  lemma {:induction false} PacketsExactly(c: Config, ms: seq<MInstr>)
    requires Standard(c) && ms != []
    ensures Munch(c, ms) == [Packet(ms)] <==> MayShare(ms, c.numLanes)
  {
    LegalIsMayShare(c, ms);
    if Munch(c, ms) == [Packet(ms)] {
      MunchIsGrouping(c, ms);
      assert Packet(ms) in Munch(c, ms);
    }
    if Legal(c, ms) {
      assert ms[..|ms|] == ms && ms[|ms|..] == [] && Munch(c, []) == [];
      MunchPacket(c, ms, |ms|);
    }
  }

  lemma {:induction false} LongerByOne<T>(x: T, s: seq<T>)
    ensures [x] + s != s && [] + s == s
  {
    assert |[x] + s| == |s| + 1;
  }

  lemma {:induction false} GroupForms(c: Config, ms: seq<MInstr>)
    ensures EmitGroup(c, Packet(ms)) == (if ShouldEmitHint(c, |ms|) then [Hint(|ms|)] else []) + Instrs(ms)
    ensures EmitGroup(c, Packet(ms)) == Instrs(ms) <==> !ShouldEmitHint(c, |ms|)
    ensures EmitGroup(c, Packet(ms)) == Instrs(ms) || EmitGroup(c, Packet(ms)) == [Hint(|ms|)] + Instrs(ms)
  {
    LongerByOne(Hint(|ms|), Instrs(ms));
  }

  lemma {:induction false} PacketSize(c: Config, block: seq<MInstr>, ms: seq<MInstr>)
    requires Standard(c) && Packet(ms) in Munch(c, block)
    ensures 0 < |ms| <= c.numLanes
  {
    MunchIsGrouping(c, block);
  }

  /** A packet of a block stays without a hint exactly if it is not full and the option for its size is
      off. */
  lemma {:induction false} UnhintedExactly(c: Config, block: seq<MInstr>, ms: seq<MInstr>)
    requires Standard(c) && Packet(ms) in Munch(c, block)
    ensures EmitGroup(c, Packet(ms)) == Instrs(ms) || EmitGroup(c, Packet(ms)) == [Hint(|ms|)] + Instrs(ms)
    ensures EmitGroup(c, Packet(ms)) == Instrs(ms) <==>
            0 < |ms| < c.numLanes && if |ms| == 1 then !c.emitSingle else !c.allowShort
  {
    PacketSize(c, block, ms);
    GroupForms(c, ms);
  }
}
