/** The packetizer end to end: what it emits is safe on the STARBUG machine and means what the
    original block means. */
module Emitted {
  import opened Wrappers
  import opened Isa
  import opened Machine
  import opened Checker
  import opened Run
  import opened Report
  import opened VliwConfig
  import opened Packets
  import opened Packing
  import opened Lowering
  import opened RoundTrip

  // ----- every group of the munch can be emitted -----

  lemma {:induction false} FlattenHas(gs: seq<Group>, g: Group, m: MInstr)
    requires g in gs && m in Members(g)
    ensures m in Flatten(gs)
    decreases |gs|
  {
    if g != gs[0] {
      assert g in gs[1..];
      FlattenHas(gs[1..], g, m);
    }
  }

  lemma {:induction false} MunchEmittable(c: Config, block: seq<MInstr>)
    requires Standard(c) && c.numLanes < 32 && FaithfulBlock(block)
    ensures AllEmittable(c, Munch(c, block))
  {
    MunchIsGrouping(c, block);
    var gs := Munch(c, block);
    forall g | g in gs ensures Emittable(c, g) {
      forall m | m in Members(g) ensures Faithful(m) {
        FlattenHas(gs, g, m);
      }
      if g.Alone? { assert g.m in Members(g); }
    }
  }

  // ----- what the scan of an emitted block finds -----

  lemma {:induction false} ExpectedFrom(c: Config, gs: seq<Group>, idx: nat, addr: nat, func: string, f: Found)
      returns (g: Group)
    requires f in Expected(c, gs, idx, addr, func)
    ensures g in gs && Hinted(c, g) && f == ExpectedBundle(g.ms, f.head, f.addr, func)
    decreases |gs|
  {
    var j, next := idx + |GroupCode(c, gs[0])|, addr + Bytes(GroupCode(c, gs[0]));
    ExpectedHead(c, gs, idx, addr, func, j, next);
    if f in BundleOf(c, gs[0], idx, addr, func) {
      g := gs[0];
    } else {
      g := ExpectedFrom(c, gs[1..], j, next, func, f);
    }
  }

  /** The hinted form of a block as lines of a listing. */
  ghost function HintedLines(c: Config, block: seq<MInstr>, addr: nat, func: string): seq<Line> {
    EmittedLines(c, Munch(c, block), addr, func)
  }

  /** Groups fit to be emitted whose packets are legal, such as those of any number of blocks. */
  ghost predicate Packed(c: Config, gs: seq<Group>) {
    AllEmittable(c, gs) && forall g :: g in gs && g.Packet? ==> Legal(c, g.ms)
  }

  lemma {:induction false} MunchPacked(c: Config, block: seq<MInstr>)
    requires Standard(c) && c.numLanes < 32 && FaithfulBlock(block)
    ensures Packed(c, Munch(c, block))
  {
    MunchEmittable(c, block);
    MunchIsGrouping(c, block);
  }

  /** A bundle of the emitted code is a packet: whole, fully independent, without transfers, and safe
      to the checker exactly when it is no longer than four. */
  lemma {:induction false} PackedBundle(c: Config, gs: seq<Group>, addr: nat, func: string, f: Found)
      returns (ms: seq<MInstr>)
    requires Standard(c) && Packed(c, gs) && f in Scan(EmittedLines(c, gs, addr, func), 0)
    ensures Packet(ms) in gs && Legal(c, ms) && FaithfulBlock(ms)
    ensures f.members == DecodeLines(PacketLines(ms, f.addr + 2, func))
    ensures PacketOk(f.members) && |f.members| == f.declared == |ms| >= 1
    ensures FoundSafe(f) <==> f.declared <= MAX_BUNDLE
  {
    EmitThenScan(c, gs, addr, func);
    var g := ExpectedFrom(c, gs, 0, addr, func, f);
    ms := g.ms;
    assert Emittable(c, g);
    PacketIndependent(c, ms, f.addr + 2, func);
    SafeIffAccepted(f.declared, f.members);
  }

  /** In an emitted block it is a packet of the munch. */
  lemma {:induction false} EmittedBundle(c: Config, block: seq<MInstr>, addr: nat, func: string, f: Found)
      returns (ms: seq<MInstr>)
    requires Standard(c) && c.numLanes < 32 && FaithfulBlock(block)
    requires f in Scan(HintedLines(c, block, addr, func), 0)
    ensures Packet(ms) in Munch(c, block) && Legal(c, ms) && FaithfulBlock(ms)
    ensures f.members == DecodeLines(PacketLines(ms, f.addr + 2, func))
    ensures PacketOk(f.members) && |f.members| == f.declared == |ms|
    ensures FoundSafe(f) <==> f.declared <= MAX_BUNDLE
  {
    MunchPacked(c, block);
    ms := PackedBundle(c, Munch(c, block), addr, func, f);
  }

  /** Emit and re-parse, for the packetizer's own output: with at most four lanes the checker passes
      every bundle. */
  lemma {:induction false} PacketizedReportIsClean(c: Config, block: seq<MInstr>, addr: nat, func: string)
    requires Standard(c) && c.numLanes <= MAX_BUNDLE && FaithfulBlock(block)
    ensures AllSafe(Scan(HintedLines(c, block, addr, func), 0))
  {
    MunchIsGrouping(c, block);
    forall f | f in Scan(HintedLines(c, block, addr, func), 0) ensures FoundSafe(f) {
      var ms := EmittedBundle(c, block, addr, func, f);
    }
  }

  // ----- which packets get a hint -----

  lemma {:induction false} HintsOfGroup(c: Config, g: Group, n: nat)
    ensures Hint(n) in EmitGroup(c, g) <==> Hinted(c, g) && |g.ms| == n
  {
    forall ms: seq<MInstr> ensures Hint(n) !in Instrs(ms) {
      assert forall k :: 0 <= k < |ms| ==> Instrs(ms)[k] == Instr(ms[k]);
    }
    if g.Packet? {
      assert Hinted(c, g) ==> EmitGroup(c, g)[0] == Hint(|g.ms|);
    }
  }

  ghost predicate HintsSome(c: Config, gs: seq<Group>, n: nat) {
    exists g :: g in gs && Hinted(c, g) && |g.ms| == n
  }

  /** A hint of length `n` is emitted for a hinted packet of `n`, and for nothing else. */
  lemma {:induction false} HintsOfGroups(c: Config, gs: seq<Group>, n: nat)
    ensures Hint(n) in Emit(c, gs) <==> HintsSome(c, gs, n)
    decreases |gs|
  {
    if gs != [] {
      HintsOfGroup(c, gs[0], n);
      HintsOfGroups(c, gs[1..], n);
      assert forall g :: g in gs <==> g == gs[0] || g in gs[1..];
    }
  }

  lemma {:induction false} GroupOf(gs: seq<Group>, m: MInstr) returns (g: Group)
    requires m in Flatten(gs)
    ensures g in gs && m in Members(g)
    decreases |gs|
  {
    if m in Members(gs[0]) {
      g := gs[0];
    } else {
      g := GroupOf(gs[1..], m);
    }
  }

  /** With short packets allowed and single hints off, packets of two or more are hinted on any
      number of lanes, and what is packed alone only on one lane, where it fills the packet. */
  lemma {:induction false} DefaultHints(c: Config, block: seq<MInstr>, g: Group)
    requires Standard(c) && c.allowShort && !c.emitSingle && g in Munch(c, block)
    ensures Hinted(c, g) <==> g.Packet? && (|g.ms| >= 2 || c.numLanes == 1)
  {
    MunchIsGrouping(c, block);
  }

  /** With single hints off, a block gets a hint of length one if and only if there is one lane and
      something to packetize. */
  lemma {:induction false} SingleHintsExactly(c: Config, block: seq<MInstr>)
    requires Standard(c) && c.allowShort && !c.emitSingle
    ensures Hint(1) in Emit(c, Munch(c, block)) <==> c.numLanes == 1 && exists m :: m in block && Packetizable(m)
  {
    var gs := Munch(c, block);
    MunchIsGrouping(c, block);
    HintsOfGroups(c, gs, 1);
    if HintsSome(c, gs, 1) {
      var g :| g in gs && Hinted(c, g) && |g.ms| == 1;
      DefaultHints(c, block, g);
      FlattenHas(gs, g, g.ms[0]);
    }
    if m :| c.numLanes == 1 && m in block && Packetizable(m) {
      var g := GroupOf(gs, m);
      SingletonLegal(c, m);
      DefaultHints(c, block, g);
    }
  }

  // ----- the emitted listing is well formed and nests no hints -----

  predicate WholeWord(w: nat) {
    IsCompressed(w) ==> w < 0x1_0000
  }

  lemma {:induction false} GroupsCodeShort(c: Config, gs: seq<Group>)
    requires AllEmittable(c, gs)
    ensures forall w :: w in GroupsCode(c, gs) ==> WholeWord(w)
    decreases |gs|
  {
    if gs != [] {
      assert gs[0] in gs;
      GroupCodeShape(c, gs[0]);
      if Hinted(c, gs[0]) { HintRoundTrip(|gs[0].ms|); }
      GroupsCodeShort(c, gs[1..]);
    }
  }

  lemma {:induction false} LayoutWellFormed(code: seq<nat>, addr: nat, func: string)
    requires forall w :: w in code ==> WholeWord(w)
    ensures WellFormed(Layout(code, addr, func))
  {
    forall i, j | 0 <= i < j < |code| ensures Layout(code, addr, func)[i].addr < Layout(code, addr, func)[j].addr {
      LayoutAddresses(code, addr, func, i, j);
    }
    forall i | 0 <= i < |code| ensures WholeWord(code[i]) {
      assert code[i] in code;
    }
  }

  lemma {:induction false} PackedWellFormed(c: Config, gs: seq<Group>, addr: nat, func: string)
    requires Packed(c, gs)
    ensures WellFormed(EmittedLines(c, gs, addr, func))
  {
    EmittedCode(c, gs);
    GroupsCodeShort(c, gs);
    LayoutWellFormed(Code(Emit(c, gs)), addr, func);
  }

  /** Two lines with the same decoding have the same encoding. */
  lemma {:induction false} SameDecoding(x: Line, y: Line)
    requires DecodeLine(x) == DecodeLine(y) && WholeWord(x.word) && WholeWord(y.word)
    ensures x.word == y.word
  {
    DecodeKeepsWord(x.addr, x.word);
    DecodeKeepsWord(y.addr, y.word);
  }

  lemma {:induction false} SliceAt<T>(s: seq<T>, lo: nat, hi: nat, k: nat, i: nat)
    requires lo <= hi <= |s| && i == lo + k < hi
    ensures s[lo..hi][k] == s[i]
  {
  }

  lemma {:induction false} MemberLine(lines: seq<Line>, f: Found, i: nat)
    requires FromLines(lines, f) && f.head < i <= f.head + |f.members|
    ensures i < |lines| && DecodeLine(lines[i]) == f.members[i - f.head - 1]
  {
    SliceAt(lines, f.head + 1, StopAt(lines, f.head, f.declared), i - f.head - 1, i);
  }

  lemma {:induction false} MemberIsPlain(lines: seq<Line>, f: Found, i: nat, l: Line)
    requires WellFormed(lines) && FromLines(lines, f) && f.head < i <= f.head + |f.members|
    requires f.members[i - f.head - 1] == DecodeLine(l) && PlainWord(l.word)
    ensures i < |lines| && HintAt(lines[i]).None?
  {
    MemberLine(lines, f, i);
    SameDecoding(lines[i], l);
  }

  lemma {:induction false} PacketIsPlain(ms: seq<MInstr>, at: nat, func: string, k: nat)
    requires FaithfulBlock(ms) && k < |PacketLines(ms, at, func)|
    ensures PlainWord(PacketLines(ms, at, func)[k].word)
  {
    PlainCode(ms);
    assert Code(Instrs(ms))[k] in Code(Instrs(ms));
  }

  lemma {:induction false} PackedMemberIsPlain(c: Config, gs: seq<Group>, addr: nat, func: string, f: Found, i: nat)
    requires Standard(c) && Packed(c, gs) && f in Scan(EmittedLines(c, gs, addr, func), 0)
    requires f.head < i <= f.head + |f.members|
    ensures var lines := EmittedLines(c, gs, addr, func); i < |lines| && HintAt(lines[i]).None?
  {
    var lines, k := EmittedLines(c, gs, addr, func), i - f.head - 1;
    assert FromLines(lines, f) by { ScanPartitions(lines, 0); }
    PackedWellFormed(c, gs, addr, func);
    var ms := PackedBundle(c, gs, addr, func, f);
    PacketIsPlain(ms, f.addr + 2, func, k);
    MemberIsPlain(lines, f, i, PacketLines(ms, f.addr + 2, func)[k]);
  }

  lemma {:induction false} PackedNestsNothing(c: Config, gs: seq<Group>, addr: nat, func: string)
    requires Standard(c) && Packed(c, gs)
    ensures NoNestedHints(EmittedLines(c, gs, addr, func))
  {
    var lines := EmittedLines(c, gs, addr, func);
    forall i | 0 <= i < |lines| && Inside(Scan(lines, 0), i) ensures HintAt(lines[i]).None? {
      var f :| f in Scan(lines, 0) && f.head < i <= f.head + |f.members|;
      PackedMemberIsPlain(c, gs, addr, func, f, i);
    }
  }

  lemma {:induction false} HintedNestsNothing(c: Config, block: seq<MInstr>, addr: nat, func: string)
    requires Standard(c) && c.numLanes < 32 && FaithfulBlock(block)
    ensures NoNestedHints(HintedLines(c, block, addr, func))
  {
    MunchPacked(c, block);
    PackedNestsNothing(c, Munch(c, block), addr, func);
  }

  // ----- the emitted program is safe -----

  lemma {:induction false} LayoutAdjacent(code: seq<nat>, addr: nat, func: string, i: nat, n: nat)
    requires i + n < |code|
    ensures Adjacent(ProgramOf(Layout(code, addr, func)), i, n)
  {
    var lines := Layout(code, addr, func);
    var p := ProgramOf(lines);
    forall k | i <= k < i + n ensures EndOf(p[k].insn) == p[k + 1].insn.addr {
      DecodeKeepsPlace(lines[k].addr, lines[k].word);
      DecodeKeepsPlace(lines[k + 1].addr, lines[k + 1].word);
      LayoutAddresses(code, addr, func, k, k + 1);
    }
  }

  lemma {:induction false} BundleIsMembers(lines: seq<Line>, f: Found)
    requires FromLines(lines, f) && |f.members| == f.declared
    ensures f.head + f.declared < |lines|
    ensures f.members == MembersAt(ProgramOf(lines), f.head, f.declared)
  {
    assert f.head + f.declared < |lines|;
    MembersAgree(lines, f.head, f.declared);
  }

  /** A hint of the emitted code that the hardware would honour heads a packet. */
  lemma {:induction false} PackedHintAt(c: Config, gs: seq<Group>, addr: nat, func: string, i: nat, n: nat)
    requires Standard(c) && Packed(c, gs)
    requires var lines := EmittedLines(c, gs, addr, func); i < |lines| && HintAt(lines[i]) == Some(n)
    ensures var lines := EmittedLines(c, gs, addr, func);
            && i + n < |lines| && PacketOk(MembersAt(ProgramOf(lines), i, n)) && n >= 1
  {
    var lines := EmittedLines(c, gs, addr, func);
    PackedNestsNothing(c, gs, addr, func);
    ScanPartitions(lines, 0);
    assert IsHead(Scan(lines, 0), i);
    var f :| f in Scan(lines, 0) && f.head == i;
    var ms := PackedBundle(c, gs, addr, func, f);
    BundleIsMembers(lines, f);
  }

  lemma {:induction false} OkHintIsSafe(p: Program, i: nat)
    requires i < |p| && Forms(p, i) && i + Len(p, i) < |p|
    requires Adjacent(p, i, Len(p, i)) && PacketOk(MembersAt(p, i, Len(p, i)))
    ensures HintSafe(p, i)
  {
    var ms := MembersAt(p, i, Len(p, i));
    assert ms[0] in ms;
  }

  /** Whatever the lane count, what is emitted for legal packets is safe to run on the hardware: the
      barriers leave no transfer in lane 0, and the hints stand outside every packet. */
  lemma {:induction false} PackedProgramIsSafe(c: Config, gs: seq<Group>, addr: nat, func: string)
    requires Standard(c) && Packed(c, gs)
    ensures ProgramSafe(ProgramOf(EmittedLines(c, gs, addr, func)))
  {
    var lines := EmittedLines(c, gs, addr, func);
    var p := ProgramOf(lines);
    PackedWellFormed(c, gs, addr, func);
    ProgramShape(lines);
    forall i | 0 <= i < |p| && Forms(p, i) ensures HintSafe(p, i) {
      var n := Len(p, i);
      assert p[i].hint == HintAt(lines[i]);
      PackedHintAt(c, gs, addr, func, i, n);
      LayoutAdjacent(Code(Emit(c, gs)), addr, func, i, n);
      OkHintIsSafe(p, i);
    }
  }

  /** And so is the packetizer's own output. */
  lemma {:induction false} PacketizedProgramIsSafe(c: Config, block: seq<MInstr>, addr: nat, func: string)
    requires Standard(c) && c.numLanes < 32 && FaithfulBlock(block)
    ensures ProgramSafe(ProgramOf(HintedLines(c, block, addr, func)))
  {
    MunchPacked(c, block);
    PackedProgramIsSafe(c, Munch(c, block), addr, func);
  }
}
