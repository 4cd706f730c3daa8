/** The checker's scan of an emitted block recovers exactly the packets that were hinted. */
module RoundTrip {
  import opened Wrappers
  import opened Isa
  import opened Checker
  import opened VliwConfig
  import opened Packets
  import opened Packing
  import opened Lowering

  // ----- the emitted code, group by group -----

  function GroupCode(c: Config, g: Group): seq<nat> {
    Code(EmitGroup(c, g))
  }

  function GroupsCode(c: Config, gs: seq<Group>): seq<nat> {
    if gs == [] then [] else GroupCode(c, gs[0]) + GroupsCode(c, gs[1..])
  }

  lemma {:induction false} EmittedCode(c: Config, gs: seq<Group>)
    ensures Code(Emit(c, gs)) == GroupsCode(c, gs)
    decreases |gs|
  {
    if gs != [] {
      EmittedCode(c, gs[1..]);
      CodeConcat(EmitGroup(c, gs[0]), Emit(c, gs[1..]));
    }
  }

  /** The lines of an emitted block. */
  function EmittedLines(c: Config, gs: seq<Group>, addr: nat, func: string): seq<Line> {
    Layout(Code(Emit(c, gs)), addr, func)
  }

  /** Groups fit to be emitted: packets are nonempty runs of faithful packetizable instructions,
      and no hint is longer than `c.li` can encode. */
  ghost predicate Emittable(c: Config, g: Group) {
    match g
    case Alone(m) => Faithful(m)
    case Packet(ms) =>
      ms != [] && FaithfulBlock(ms) && (forall m :: m in ms ==> Packetizable(m)) && (Hinted(c, g) ==> |ms| < 32)
  }

  ghost predicate AllEmittable(c: Config, gs: seq<Group>) {
    forall g :: g in gs ==> Emittable(c, g)
  }

  // ----- the bundles the scan should find -----

  /** The bundle of a hinted packet whose hint is line `idx` at `addr`. */
  function ExpectedBundle(ms: seq<MInstr>, idx: nat, addr: nat, func: string): Found {
    Found(idx, addr, |ms|, DecodeLines(PacketLines(ms, addr + 2, func)), func)
  }

  /** The bundle a group contributes, if it is hinted. */
  function BundleOf(c: Config, g: Group, idx: nat, addr: nat, func: string): seq<Found> {
    if Hinted(c, g) then [ExpectedBundle(g.ms, idx, addr, func)] else []
  }

  function Expected(c: Config, gs: seq<Group>, idx: nat, addr: nat, func: string): seq<Found> {
    if gs == [] then []
    else
      BundleOf(c, gs[0], idx, addr, func) +
      Expected(c, gs[1..], idx + |GroupCode(c, gs[0])|, addr + Bytes(GroupCode(c, gs[0])), func)
  }

  // ----- the scan -----

  lemma {:induction false} SkipPlain(lines: seq<Line>, i: nat, j: nat)
    requires i <= j <= |lines| && forall k :: i <= k < j ==> HintAt(lines[k]).None?
    ensures Scan(lines, i) == Scan(lines, j)
    decreases j - i
  {
    if i < j {
      SkipPlain(lines, i + 1, j);
    }
  }

  lemma {:induction false} PlainCode(ms: seq<MInstr>)
    requires FaithfulBlock(ms)
    ensures forall w :: w in Code(Instrs(ms)) ==> PlainWord(w)
    decreases |ms|
  {
    if ms != [] {
      assert Instrs(ms)[1..] == Instrs(ms[1..]) && ms[0] in ms;
      assert Faithful(ms[0]);
      PlainCode(ms[1..]);
    }
  }

  /** The code of a group: a hint word if it is hinted, then plain words. */
  lemma {:induction false} GroupCodeShape(c: Config, g: Group)
    requires Emittable(c, g)
    ensures var body := Code(Instrs(Members(g)));
            && GroupCode(c, g) == (if Hinted(c, g) then [HintWord(|g.ms|)] else []) + body
            && (forall w :: w in body ==> PlainWord(w))
            && (g.Packet? ==> |body| == |g.ms|)
  {
    var ms := Members(g);
    assert FaithfulBlock(ms);
    PlainCode(ms);
    match g {
      case Alone(m) =>
        assert EmitGroup(c, g) == Instrs(ms);
      case Packet(_) =>
        forall m | m in ms ensures |m.code| == 1 { assert Faithful(m); }
        PacketCode(ms);
        var h := if ShouldEmitHint(c, |ms|) then [Hint(|ms|)] else [];
        CodeConcat(h, Instrs(ms));
        if h != [] { assert Code(h[1..]) == []; assert Code(h) == [HintWord(|ms|)]; }
    }
  }

  lemma {:induction false} LayoutSlice(code: seq<nat>, addr: nat, func: string, i: nat, j: nat, slice: seq<nat>,
                                       at: nat)
    requires i <= j <= |code| && code[i..j] == slice && at == addr + Bytes(code[..i])
    ensures Layout(code, addr, func)[i..j] == Layout(slice, at, func)
  {
    forall k | 0 <= k < j - i
      ensures Layout(code, addr, func)[i..j][k] == Layout(slice, at, func)[k]
    {
      BytesSlice(code, i, j, slice, k);
      assert slice[k] == code[i + k];
    }
  }

  /** A plain word is not taken for a hint. */
  lemma {:induction false} PlainLine(code: seq<nat>, addr: nat, func: string, k: nat)
    requires k < |code| && PlainWord(code[k])
    ensures HintAt(Layout(code, addr, func)[k]).None?
  {
  }

  lemma {:induction false} HintLine(code: seq<nat>, addr: nat, func: string, k: nat, n: nat)
    requires k < |code| && code[k] == HintWord(n) && 1 <= n < 32
    ensures HintAt(Layout(code, addr, func)[k]) == Some(n)
    ensures Bytes(code[..k + 1]) == Bytes(code[..k]) + 2
  {
    HintRoundTrip(n);
    assert code[..k + 1][..k] == code[..k];
  }

  /** One hint, seen by the scan. */
  lemma {:induction false} ScanHint(lines: seq<Line>, i: nat, j: nat, n: nat, body: seq<Line>, f: Found)
    requires j == i + 1 + n <= |lines| && HintAt(lines[i]) == Some(n) && lines[i + 1..j] == body
    requires f == Found(i, lines[i].addr, n, DecodeLines(body), lines[i].func)
    ensures Scan(lines, i) == [f] + Scan(lines, j)
  {
  }

  lemma {:induction false} PacketHint(code: seq<nat>, i: nat, n: nat, addr: nat, func: string, at: nat)
    requires i < |code| && at == addr + Bytes(code[..i]) && 1 <= n < 32 && code[i] == HintWord(n)
    ensures var l := Layout(code, addr, func)[i];
            l.addr == at && l.func == func && HintAt(l) == Some(n)
  {
    HintLine(code, addr, func, i, n);
  }

  lemma {:induction false} PacketMembers(code: seq<nat>, i: nat, j: nat, ms: seq<MInstr>, addr: nat, func: string,
                                         at: nat)
    requires j == i + 1 + |ms| <= |code| && at == addr + Bytes(code[..i]) && 1 <= |ms| < 32
    requires code[i] == HintWord(|ms|) && code[i + 1..j] == Code(Instrs(ms))
    ensures Layout(code, addr, func)[i + 1..j] == PacketLines(ms, at + 2, func)
  {
    HintLine(code, addr, func, i, |ms|);
    LayoutSlice(code, addr, func, i + 1, j, Code(Instrs(ms)), at + 2);
  }

  /** At a hinted packet the scan finds the expected bundle and goes on after it. */
  lemma {:induction false} ScanPacket(code: seq<nat>, i: nat, j: nat, ms: seq<MInstr>, addr: nat, func: string, at: nat)
    requires j == i + 1 + |ms| <= |code| && at == addr + Bytes(code[..i]) && 1 <= |ms| < 32
    requires code[i] == HintWord(|ms|) && code[i + 1..j] == Code(Instrs(ms))
    ensures var lines := Layout(code, addr, func);
            Scan(lines, i) == [ExpectedBundle(ms, i, at, func)] + Scan(lines, j)
  {
    var lines, body, f := Layout(code, addr, func), PacketLines(ms, at + 2, func), ExpectedBundle(ms, i, at, func);
    PacketHint(code, i, |ms|, addr, func, at);
    PacketMembers(code, i, j, ms, addr, func, at);
    ScanHint(lines, i, j, |ms|, body, f);
  }

  lemma {:induction false} ScanPlain(code: seq<nat>, i: nat, j: nat, addr: nat, func: string)
    requires i <= j <= |code| && forall w :: w in code[i..j] ==> PlainWord(w)
    ensures Scan(Layout(code, addr, func), i) == Scan(Layout(code, addr, func), j)
  {
    var lines := Layout(code, addr, func);
    forall k | i <= k < j ensures HintAt(lines[k]).None? {
      assert code[k] in code[i..j] by { assert code[i..j][k - i] == code[k]; }
      PlainLine(code, addr, func, k);
    }
    SkipPlain(lines, i, j);
  }

  lemma {:induction false} HintedShape(c: Config, code: seq<nat>, i: nat, j: nat, g: Group)
    requires Emittable(c, g) && i <= j <= |code| && code[i..j] == GroupCode(c, g) && Hinted(c, g)
    ensures j == i + 1 + |g.ms| && 1 <= |g.ms| < 32
    ensures code[i] == HintWord(|g.ms|) && code[i + 1..j] == Code(Instrs(g.ms))
  {
    GroupCodeShape(c, g);
    var mine := GroupCode(c, g);
    assert code[i] == mine[0] && code[i + 1..j] == mine[1..];
  }

  lemma {:induction false} BundleIs(c: Config, g: Group, idx: nat, at: nat, func: string)
    requires Hinted(c, g)
    ensures BundleOf(c, g, idx, at, func) == [ExpectedBundle(g.ms, idx, at, func)]
  {
  }

  lemma {:induction false} ScanHinted(c: Config, code: seq<nat>, i: nat, j: nat, g: Group, addr: nat, func: string,
                                      at: nat)
    requires Emittable(c, g) && i <= j <= |code| && code[i..j] == GroupCode(c, g) && at == addr + Bytes(code[..i])
    requires Hinted(c, g)
    ensures var lines := Layout(code, addr, func);
            Scan(lines, i) == BundleOf(c, g, i, at, func) + Scan(lines, j)
  {
    HintedShape(c, code, i, j, g);
    ScanPacket(code, i, j, g.ms, addr, func, at);
    BundleIs(c, g, i, at, func);
  }

  lemma {:induction false} ScanGroup(c: Config, code: seq<nat>, i: nat, j: nat, g: Group, addr: nat, func: string,
                                     at: nat)
    requires Emittable(c, g) && i <= j <= |code| && code[i..j] == GroupCode(c, g) && at == addr + Bytes(code[..i])
    ensures var lines := Layout(code, addr, func);
            Scan(lines, i) == BundleOf(c, g, i, at, func) + Scan(lines, j)
  {
    if Hinted(c, g) {
      ScanHinted(c, code, i, j, g, addr, func, at);
    } else {
      GroupCodeShape(c, g);
      ScanPlain(code, i, j, addr, func);
    }
  }

  lemma {:induction false} GroupsSplit(c: Config, code: seq<nat>, i: nat, gs: seq<Group>, addr: nat, at: nat)
      returns (j: nat, next: nat)
    requires gs != [] && i <= |code| && code[i..] == GroupsCode(c, gs) && at == addr + Bytes(code[..i])
    ensures j == i + |GroupCode(c, gs[0])| && next == at + Bytes(GroupCode(c, gs[0]))
    ensures i <= j <= |code| && code[i..j] == GroupCode(c, gs[0]) && code[j..] == GroupsCode(c, gs[1..])
    ensures next == addr + Bytes(code[..j])
  {
    var mine := GroupCode(c, gs[0]);
    j, next := i + |mine|, at + Bytes(mine);
    assert code[i..] == mine + GroupsCode(c, gs[1..]);
    assert code[i..j] == code[i..][..|mine|] && code[j..] == code[i..][|mine|..];
    assert code[..j] == code[..i] + mine;
    BytesConcat(code[..i], mine);
  }

  lemma {:induction false} ExpectedHead(c: Config, gs: seq<Group>, idx: nat, at: nat, func: string, j: nat, next: nat)
    requires gs != [] && j == idx + |GroupCode(c, gs[0])| && next == at + Bytes(GroupCode(c, gs[0]))
    ensures Expected(c, gs, idx, at, func) == BundleOf(c, gs[0], idx, at, func) + Expected(c, gs[1..], j, next, func)
  {
    var b, rest := BundleOf(c, gs[0], idx, at, func), Expected(c, gs[1..], j, next, func);
    assert idx + |GroupCode(c, gs[0])| == j && at + Bytes(GroupCode(c, gs[0])) == next;
    assert Expected(c, gs, idx, at, func) == b + rest;
  }

  /** The scan from the start of any suffix of groups finds exactly that suffix's hinted packets. */
  lemma {:induction false} ScanGroups(c: Config, code: seq<nat>, i: nat, gs: seq<Group>, addr: nat, func: string,
                                      at: nat)
    requires AllEmittable(c, gs) && i <= |code| && code[i..] == GroupsCode(c, gs) && at == addr + Bytes(code[..i])
    ensures Scan(Layout(code, addr, func), i) == Expected(c, gs, i, at, func)
    decreases |gs|
  {
    if gs != [] {
      assert gs[0] in gs && AllEmittable(c, gs[1..]);
      var j, next := GroupsSplit(c, code, i, gs, addr, at);
      ScanGroup(c, code, i, j, gs[0], addr, func, at);
      ScanGroups(c, code, j, gs[1..], addr, func, next);
      ExpectedHead(c, gs, i, at, func, j, next);
    } else {
      assert i == |code|;
    }
  }

  /** Emit and re-parse: the scan recovers exactly the hinted packets, in order, with their
      positions, members and declared lengths. */
  lemma {:induction false} EmitThenScan(c: Config, gs: seq<Group>, addr: nat, func: string)
    requires AllEmittable(c, gs)
    ensures Scan(EmittedLines(c, gs, addr, func), 0) == Expected(c, gs, 0, addr, func)
  {
    var code := Code(Emit(c, gs));
    EmittedCode(c, gs);
    assert code[0..] == code && code[..0] == [];
    ScanGroups(c, code, 0, gs, addr, func, addr);
  }
}
