/** Hinting a block changes nothing but where its instructions stand. */
module Unhinted {
  import opened Wrappers
  import opened Isa
  import opened Machine
  import opened Checker
  import opened Run
  import opened Rv32
  import opened Rv32Exec
  import opened Report
  import opened VliwConfig
  import opened Packets
  import opened Packing
  import opened Lowering
  import opened RoundTrip
  import opened Emitted
  import opened BlockRun

  // ----- instructions that do not use their own address -----

  /** The address shows neither in registers nor in memory: no AUIPC, no link, no privileged state. */
  predicate PlaceFreeOp(op: Op) {
    match op
    case Auipc(_, _) => false
    case Jal(rd, _) => rd == 0
    case Jalr(rd, _, _) => rd == 0
    case Priv(_) => false
    case _ => true
  }

  predicate PlaceFree(w: nat) {
    WholeWord(w) && Parse(w).Some? && PlaceFreeOp(Parse(w).value)
  }

  /** Nor does it redirect the pc. */
  predicate StraightWord(w: nat) {
    PlaceFree(w) && ClassOf(Parse(w).value) !in {Branch, Jump}
  }

  lemma {:induction false} ExecPlaceFree(host: Host, op: Op, addr: nat, addr': nat, len: nat, a: Arch)
    requires PlaceFreeOp(op)
    ensures var e, f := Exec(host, op, addr, len, a), Exec(host, op, addr', len, a);
            && e.wb == f.wb && e.mem == f.mem && e.frm == f.frm && e.flags == f.flags && e.sys == f.sys
            && (e.target.Some? <==> f.target.Some?)
            && (ClassOf(op) !in {Branch, Jump} ==> e.target.None?)
  {
  }

  lemma {:induction false} PlaceFreeIsPositionFree(host: Host, m: Insn)
    requires PlaceFree(m.word)
    ensures PositionFree(Rv32Semantics(host), m)
  {
    var sem, op := Rv32Semantics(host), Parse(m.word).value;
    forall d, a ensures SameMoved(sem, m, d, a) {
      assert sem(m, a) == Exec(host, op, m.addr, m.size, a);
      assert sem(m.(addr := d), a) == Exec(host, op, d, m.size, a);
      ExecPlaceFree(host, op, d, m.addr, m.size, a);
    }
  }

  lemma {:induction false} HintIsPlaceFree(w: nat)
    requires HintLength(w).Some? && WholeWord(w)
    ensures PlaceFree(w)
  {
    assert w / 8192 % 8 == 2;
    assert Parse(w) == ParseQ1(w) && ParseQ1(w) == Some(AluImm(Add, X5(w, 128), 0, ImmCI(w)));
  }

  // ----- the two listings hold the same instructions -----

  ghost predicate PlaceFreeCode(code: seq<nat>) {
    forall w :: w in code ==> PlaceFree(w)
  }

  lemma {:induction false} StripKeeps(code: seq<nat>, w: nat)
    requires w in code
    ensures HintLength(w).Some? || w in Strip(code)
    decreases |code|
  {
    if w != code[0] { StripKeeps(code[1..], w); }
  }

  lemma {:induction false} StripPlaceFree(code: seq<nat>)
    requires PlaceFreeCode(Strip(code)) && forall w :: w in code ==> WholeWord(w)
    ensures PlaceFreeCode(code)
  {
    forall w | w in code ensures PlaceFree(w) {
      StripKeeps(code, w);
      if HintLength(w).Some? { HintIsPlaceFree(w); }
    }
  }

  ghost predicate Decoded(ms: seq<Insn>) {
    forall k :: 0 <= k < |ms| ==> ms[k] == Decode(ms[k].addr, ms[k].word) && WholeWord(ms[k].word)
  }

  lemma {:induction false} LineDecoded(l: Line)
    requires WholeWord(l.word)
    ensures var m := DecodeLine(l); m == Decode(m.addr, m.word) && m.word == l.word && m.addr == l.addr
  {
    DecodeKeepsPlace(l.addr, l.word);
    DecodeKeepsWord(l.addr, l.word);
  }

  lemma {:induction false} PlacedDecoded(p: Program)
    requires forall i :: 0 <= i < |p| ==> Decoded([p[i].insn])
    ensures Decoded(Placed(p))
    decreases |p|
  {
    if p != [] {
      PlacedDecoded(p[1..]);
      assert Decoded([p[0].insn]);
      assert [p[0].insn][0] == p[0].insn;
    }
  }

  lemma {:induction false} WordsAt(ms: seq<Insn>)
    ensures |Words(ms)| == |ms| && forall k :: 0 <= k < |ms| ==> Words(ms)[k] == ms[k].word
    decreases |ms|
  {
    if ms != [] { WordsAt(ms[1..]); }
  }

  lemma {:induction false} MovedWord(addr: nat, addr': nat, w: nat)
    ensures Decode(addr', w) == Decode(addr, w).(addr := addr')
  {
    DecodeAt(addr, w);
    DecodeAt(addr', w);
  }

  /** Instructions with the same encodings differ only in their addresses. */
  lemma {:induction false} SameWordsMoved(ms: seq<Insn>, ns: seq<Insn>)
    requires Decoded(ms) && Decoded(ns) && Words(ms) == Words(ns)
    ensures |ms| == |ns| && forall k :: 0 <= k < |ms| ==> ns[k] == ms[k].(addr := ns[k].addr)
  {
    WordsAt(ms);
    WordsAt(ns);
    forall k | 0 <= k < |ms| ensures ns[k] == ms[k].(addr := ns[k].addr) {
      assert Words(ms)[k] == Words(ns)[k];
      MovedWord(ms[k].addr, ns[k].addr, ms[k].word);
    }
  }

  // ----- running both -----

  ghost predicate StraightInsns(ms: seq<Insn>) {
    forall k :: 0 <= k < |ms| ==> StraightWord(ms[k].word)
  }

  lemma {:induction false} StraightEnd(host: Host, ms: seq<Insn>, a: Arch, end: nat)
    requires StraightInsns(ms)
    ensures RunFrom(Rv32Semantics(host), ms, a, end).pc == end
    decreases |ms|
  {
    if ms != [] {
      var sem, m := Rv32Semantics(host), ms[0];
      assert StraightWord(m.word);
      ExecPlaceFree(host, Parse(m.word).value, m.addr, m.addr, m.size, a);
      StraightEnd(host, ms[1..], Apply(sem(m, a), a), end);
    }
  }

  lemma {:induction false} EndIsOutside(p: Program, a: Arch)
    requires p != [] && Sorted(p) && EndOf(p[|p| - 1].insn) > p[|p| - 1].insn.addr
    ensures Halted(p, State(BlockEnd(p), a))
  {
  }

  /** A listing of such code, as a program. */
  ghost predicate LaidOut(host: Host, p: Program, code: seq<nat>) {
    && p != [] && Sorted(p) && SkipsHints(Rv32Semantics(host), p) && Touching(p)
    && Words(Placed(p)) == Strip(code) && Decoded(Placed(p))
    && EndOf(p[|p| - 1].insn) > p[|p| - 1].insn.addr
  }

  lemma {:induction false} LayoutFramed(host: Host, code: seq<nat>, at: nat, func: string)
    requires PlaceFreeCode(code)
    ensures WellFormed(Layout(code, at, func)) && ProgramFramed(Rv32Semantics(host), ProgramOf(Layout(code, at, func)))
  {
    var lines := Layout(code, at, func);
    LayoutWellFormed(code, at, func);
    forall l | l in lines ensures Parse(l.word).Some? {
      var k :| 0 <= k < |lines| && lines[k] == l;
      assert code[k] in code;
    }
    ListingFramed(host, lines);
  }

  lemma {:induction false} LayoutTouches(code: seq<nat>, at: nat, func: string)
    ensures Touching(ProgramOf(Layout(code, at, func)))
  {
    if |code| > 0 {
      LayoutAdjacent(code, at, func, 0, |code| - 1);
    }
  }

  lemma {:induction false} LayoutPlaced(code: seq<nat>, at: nat, func: string)
    requires PlaceFreeCode(code)
    ensures var p := ProgramOf(Layout(code, at, func)); Words(Placed(p)) == Strip(code) && Decoded(Placed(p))
  {
    var lines := Layout(code, at, func);
    forall k | 0 <= k < |lines| ensures WholeWord(lines[k].word) { assert code[k] in code; }
    PlacedWords(lines);
    assert seq(|lines|, k requires 0 <= k < |lines| => lines[k].word) == code;
    forall i | 0 <= i < |lines| ensures Decoded([DecodeLine(lines[i])]) { LineDecoded(lines[i]); }
    PlacedDecoded(ProgramOf(lines));
  }

  lemma {:induction false} LayoutEnds(code: seq<nat>, at: nat, func: string)
    requires code != []
    ensures var p := ProgramOf(Layout(code, at, func)); EndOf(p[|p| - 1].insn) > p[|p| - 1].insn.addr
  {
    var lines, n := Layout(code, at, func), |code| - 1;
    DecodeKeepsPlace(lines[n].addr, lines[n].word);
  }

  lemma {:induction false} LayoutSkips(host: Host, code: seq<nat>, at: nat, func: string)
    requires PlaceFreeCode(code)
    ensures var p := ProgramOf(Layout(code, at, func)); Sorted(p) && SkipsHints(Rv32Semantics(host), p)
  {
    LayoutFramed(host, code, at, func);
    ProgramShape(Layout(code, at, func));
    FramedSkipsHints(Rv32Semantics(host), ProgramOf(Layout(code, at, func)));
  }

  lemma {:induction false} LayoutLaidOut(host: Host, code: seq<nat>, at: nat, func: string)
    requires PlaceFreeCode(code) && code != []
    ensures LaidOut(host, ProgramOf(Layout(code, at, func)), code)
  {
    LayoutSkips(host, code, at, func);
    LayoutTouches(code, at, func);
    LayoutPlaced(code, at, func);
    LayoutEnds(code, at, func);
  }

  ghost predicate StraightCode(code: seq<nat>) {
    forall w :: w in code ==> StraightWord(w)
  }

  lemma {:induction false} EndsAtTheEnd(host: Host, p: Program, code: seq<nat>, a: Arch)
    requires LaidOut(host, p, code) && StraightCode(Strip(code))
    ensures var end := RunFrom(Rv32Semantics(host), Placed(p), a, BlockEnd(p)); end.pc == BlockEnd(p) && Halted(p, end)
  {
    var end := RunFrom(Rv32Semantics(host), Placed(p), a, BlockEnd(p));
    WordsAt(Placed(p));
    forall k | 0 <= k < |Placed(p)| ensures StraightWord(Placed(p)[k].word) {
      assert Words(Placed(p))[k] in Strip(code);
    }
    StraightEnd(host, Placed(p), a, BlockEnd(p));
    EndIsOutside(p, end.arch);
  }

  lemma {:induction false} StockRunsThrough(sem: Semantics, p: Program, a: Arch, end: State) returns (k: nat)
    requires p != [] && Sorted(p) && SkipsHints(sem, p) && Touching(p)
    requires end == RunFrom(sem, Placed(p), a, BlockEnd(p))
    ensures Reaches(sem, p, State(p[0].insn.addr, a), k, end)
  {
    var s := State(p[0].insn.addr, a);
    assert p[0..] == p;
    var l, u := StockRunsBlock(sem, p, 0, s, end);
    k := l + 1;
    OneMore(sem, p, s, l, u, end, k);
  }

  /** The stock core runs it from its first instruction until it leaves. */
  lemma {:induction false} RunsThrough(host: Host, p: Program, code: seq<nat>, a: Arch) returns (k: nat, end: State)
    requires LaidOut(host, p, code)
    ensures end == RunFrom(Rv32Semantics(host), Placed(p), a, BlockEnd(p))
    ensures Reaches(Rv32Semantics(host), p, State(p[0].insn.addr, a), k, end)
    ensures StraightCode(Strip(code)) ==> end.pc == BlockEnd(p) && Halted(p, end)
  {
    end := RunFrom(Rv32Semantics(host), Placed(p), a, BlockEnd(p));
    k := StockRunsThrough(Rv32Semantics(host), p, a, end);
    if StraightCode(Strip(code)) { EndsAtTheEnd(host, p, code, a); }
  }

  lemma {:induction false} PlacedPositionFree(host: Host, p: Program, code: seq<nat>)
    requires Words(Placed(p)) == Strip(code) && PlaceFreeCode(Strip(code))
    ensures forall k :: 0 <= k < |Placed(p)| ==> PositionFree(Rv32Semantics(host), Placed(p)[k])
  {
    WordsAt(Placed(p));
    forall k | 0 <= k < |Placed(p)| ensures PositionFree(Rv32Semantics(host), Placed(p)[k]) {
      assert Words(Placed(p))[k] in Strip(code);
      PlaceFreeIsPositionFree(host, Placed(p)[k]);
    }
  }

  /** Two listings of one code leave the same registers and memory. */
  lemma {:induction false} SameCodeSameResult(host: Host, p: Program, cp: seq<nat>, q: Program, cq: seq<nat>, a: Arch)
    requires LaidOut(host, p, cp) && LaidOut(host, q, cq) && Strip(cp) == Strip(cq) && PlaceFreeCode(Strip(cp))
    ensures RunFrom(Rv32Semantics(host), Placed(p), a, BlockEnd(p)).arch
            == RunFrom(Rv32Semantics(host), Placed(q), a, BlockEnd(q)).arch
  {
    PlacedPositionFree(host, p, cp);
    SameWordsMoved(Placed(p), Placed(q));
    PlacementIrrelevant(Rv32Semantics(host), Placed(p), Placed(q), a, BlockEnd(p), BlockEnd(q));
  }

  lemma {:induction false} BlockPlain(block: seq<MInstr>)
    requires FaithfulBlock(block)
    ensures forall w :: w in Code(Instrs(block)) ==> PlainWord(w)
    decreases |block|
  {
    if block != [] {
      assert Instrs(block)[1..] == Instrs(block[1..]) && block[0] in block;
      BlockPlain(block[1..]);
    }
  }

  /** The hints stripped from the emitted code leave the code of the block. */
  lemma {:induction false} HintedCode(c: Config, block: seq<MInstr>)
    requires Standard(c) && c.numLanes < 32 && FaithfulBlock(block) && PlaceFreeCode(Code(Instrs(block)))
    ensures var code := Code(Emit(c, Munch(c, block)));
            Strip(code) == Code(Instrs(block)) && PlaceFreeCode(code)
    ensures Strip(Code(Instrs(block))) == Code(Instrs(block))
  {
    var gs := Munch(c, block);
    MunchEmittable(c, block);
    MunchIsGrouping(c, block);
    EmittedCode(c, gs);
    GroupsCodeShort(c, gs);
    StripGroups(c, gs);
    StripPlaceFree(Code(Emit(c, gs)));
    BlockPlain(block);
    StripPlain(Code(Instrs(block)));
  }

  /** End to end on RV32IMAFC, for every block in which no address is kept. The stock core runs the
      block as it was before packetizing, wherever it is placed, to the state `end` in which it
      leaves. The STARBUG machine on the hinted block, whatever it honours, passes through or can be
      run on to a state with the same registers and memory; without transfers that is the end of
      the block, and it stops nowhere else. */
  lemma {:induction false} PacketizedBlockAgrees(host: Host, c: Config, block: seq<MInstr>, addr: nat, at: nat,
                                                 func: string, a: Arch, tr: seq<State>)
      returns (k: nat, end: State, final: State)
    requires Standard(c) && c.numLanes < 32 && FaithfulBlock(block)
    requires Code(Instrs(block)) != [] && PlaceFreeCode(Code(Instrs(block)))
    requires var p := ProgramOf(HintedLines(c, block, addr, func));
             StarbugRun(Rv32Semantics(host), p, tr) && p != [] && tr[0] == State(p[0].insn.addr, a)
    ensures var sem, p := Rv32Semantics(host), ProgramOf(HintedLines(c, block, addr, func));
            var q := ProgramOf(Layout(Code(Instrs(block)), at, func));
            && Reaches(sem, q, State(q[0].insn.addr, a), k, end)
            && end == RunFrom(sem, Placed(q), a, BlockEnd(q))
            && final.arch == end.arch && (final in tr || CanReach(sem, p, tr[|tr| - 1], final))
            && (StraightCode(Code(Instrs(block))) ==>
                  && final.pc == BlockEnd(p) && Halted(p, final) && Halted(q, end)
                  && (Halted(p, tr[|tr| - 1]) ==> tr[|tr| - 1] == final))
  {
    var cp, cq := Code(Emit(c, Munch(c, block))), Code(Instrs(block));
    var p, q := ProgramOf(HintedLines(c, block, addr, func)), ProgramOf(Layout(cq, at, func));
    HintedCode(c, block);
    LayoutLaidOut(host, cp, addr, func);
    LayoutLaidOut(host, cq, at, func);
    LayoutFramed(host, cp, addr, func);
    k, end := RunsThrough(host, q, cq, a);
    var j;
    j, final := RunsThrough(host, p, cp, a);
    SameCodeSameResult(host, p, cp, q, cq, a);
    PacketizerPreservesMeaning(Rv32Semantics(host), c, block, addr, func, a, tr);
  }
}
