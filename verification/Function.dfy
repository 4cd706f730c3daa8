/** A whole function on RV32IMAFC: any number of blocks, packetized one by one, with loops, branches
    and jumps between them that are relocated when the hints move the code. */
module Function {
  import opened Wrappers
  import opened Isa
  import opened Machine
  import opened Checker
  import opened Run
  import opened Rv32
  import opened Rv32Exec
  import opened Report
  import opened VliwConfig
  import opened Packets
  import opened Packetizer
  import opened Packing
  import opened Lowering
  import opened RoundTrip
  import opened Emitted
  import opened BlockRun
  import opened Unhinted
  import opened Relocation

  // ----- the function, hinted -----

  function Concat(blocks: seq<seq<MInstr>>): seq<MInstr> {
    if blocks == [] then [] else blocks[0] + Concat(blocks[1..])
  }

  /** What the pass makes of the function: each block on its own. */
  ghost function HintedFunction(c: Config, blocks: seq<seq<MInstr>>): seq<Item> {
    if blocks == [] then [] else Emit(c, Munch(c, blocks[0])) + HintedFunction(c, blocks[1..])
  }

  ghost function MunchAll(c: Config, blocks: seq<seq<MInstr>>): seq<Group> {
    if blocks == [] then [] else Munch(c, blocks[0]) + MunchAll(c, blocks[1..])
  }

  ghost predicate FaithfulFunction(blocks: seq<seq<MInstr>>) {
    forall b :: b in blocks ==> FaithfulBlock(b)
  }

  lemma {:induction false} HintedIsEmitted(c: Config, blocks: seq<seq<MInstr>>)
    ensures HintedFunction(c, blocks) == Emit(c, MunchAll(c, blocks))
    decreases |blocks|
  {
    if blocks != [] {
      HintedIsEmitted(c, blocks[1..]);
      EmitConcat(c, Munch(c, blocks[0]), MunchAll(c, blocks[1..]));
    }
  }

  lemma {:induction false} PackedConcat(c: Config, gs: seq<Group>, hs: seq<Group>)
    requires Packed(c, gs) && Packed(c, hs)
    ensures Packed(c, gs + hs)
  {
    forall g | g in gs + hs ensures Emittable(c, g) && (g.Packet? ==> Legal(c, g.ms)) {
      assert g in gs || g in hs;
    }
  }

  lemma {:induction false} AllPacked(c: Config, blocks: seq<seq<MInstr>>)
    requires Standard(c) && c.numLanes < 32 && FaithfulFunction(blocks)
    ensures Packed(c, MunchAll(c, blocks))
    decreases |blocks|
  {
    if blocks != [] {
      assert blocks[0] in blocks;
      MunchPacked(c, blocks[0]);
      AllPacked(c, blocks[1..]);
      PackedConcat(c, Munch(c, blocks[0]), MunchAll(c, blocks[1..]));
    }
  }

  lemma {:induction false} FlattenConcat(gs: seq<Group>, hs: seq<Group>)
    ensures Flatten(gs + hs) == Flatten(gs) + Flatten(hs)
    decreases |gs|
  {
    if gs == [] {
      assert gs + hs == hs;
    } else {
      assert (gs + hs)[1..] == gs[1..] + hs;
      FlattenConcat(gs[1..], hs);
    }
  }

  lemma {:induction false} AllCovered(c: Config, blocks: seq<seq<MInstr>>)
    ensures Flatten(MunchAll(c, blocks)) == Concat(blocks)
    decreases |blocks|
  {
    if blocks != [] {
      MunchIsGrouping(c, blocks[0]);
      AllCovered(c, blocks[1..]);
      FlattenConcat(Munch(c, blocks[0]), MunchAll(c, blocks[1..]));
    }
  }

  /** The hinted function as a program. */
  ghost function HintedProgram(c: Config, blocks: seq<seq<MInstr>>, addr: nat, func: string): Program {
    ProgramOf(Layout(Code(HintedFunction(c, blocks)), addr, func))
  }

  // ----- its shape -----

  lemma {:induction false} RankPlaced(p: Program, i: nat)
    requires i <= |p|
    ensures Rank(p, i) + |Placed(p[i..])| == |Placed(p)|
    decreases i
  {
    if i == 0 {
      assert p[0..] == p;
    } else {
      RankPlaced(p, i - 1);
      PlacedHead(p, i - 1);
    }
  }

  lemma {:induction false} EmittedWords(c: Config, gs: seq<Group>, addr: nat, func: string)
    requires Packed(c, gs)
    ensures Words(Placed(ProgramOf(EmittedLines(c, gs, addr, func)))) == Code(Instrs(Flatten(gs)))
  {
    var lines, code := EmittedLines(c, gs, addr, func), Code(Emit(c, gs));
    EmittedCode(c, gs);
    GroupsCodeShort(c, gs);
    StripGroups(c, gs);
    forall k | 0 <= k < |lines| ensures WholeWord(lines[k].word) { assert code[k] in code; }
    PlacedWords(lines);
    assert seq(|lines|, k requires 0 <= k < |lines| => lines[k].word) == code;
  }

  lemma {:induction false} RankOfAll(p: Program)
    ensures Rank(p, |p|) == |Placed(p)| == |Words(Placed(p))|
  {
    RankPlaced(p, |p|);
    assert p[|p|..] == [];
    WordsAt(Placed(p));
  }

  /** Without its hints the hinted function has as many words as the original. */
  lemma {:induction false} RankIsLength(c: Config, gs: seq<Group>, addr: nat, func: string)
    requires Packed(c, gs)
    ensures var p := ProgramOf(EmittedLines(c, gs, addr, func));
            Words(Placed(p)) == Code(Instrs(Flatten(gs))) && Rank(p, |p|) == |Code(Instrs(Flatten(gs)))|
  {
    EmittedWords(c, gs, addr, func);
    RankOfAll(ProgramOf(EmittedLines(c, gs, addr, func)));
  }

  lemma {:induction false} LastIsPlain(c: Config, gs: seq<Group>, addr: nat, func: string)
    requires Standard(c) && Packed(c, gs) && EmittedLines(c, gs, addr, func) != []
    ensures var p := ProgramOf(EmittedLines(c, gs, addr, func)); p[|p| - 1].hint.None?
  {
    var lines := EmittedLines(c, gs, addr, func);
    var n := |lines| - 1;
    PackedWellFormed(c, gs, addr, func);
    ProgramShape(lines);
    if HintAt(lines[n]).Some? {
      PackedHintAt(c, gs, addr, func, n, HintAt(lines[n]).value);
    }
  }

  lemma {:induction false} LaidSorted(code: seq<nat>, addr: nat, func: string)
    requires code != [] && forall w :: w in code ==> WholeWord(w)
    ensures var p := ProgramOf(Layout(code, addr, func));
            Sorted(p) && HintsAreNops(p) && Touching(p) && EndOf(p[|p| - 1].insn) > p[|p| - 1].insn.addr
  {
    var lines := Layout(code, addr, func);
    LayoutWellFormed(code, addr, func);
    ProgramShape(lines);
    LayoutTouches(code, addr, func);
    DecodeKeepsPlace(lines[|lines| - 1].addr, lines[|lines| - 1].word);
  }

  // ----- relocation -----

  /** The same operation; a transfer leads to the corresponding place. No return address is kept. */
  ghost predicate OpRelocated(p: Program, q: Program, x: Insn, y: Insn, op: Op, op': Op)
    requires p != [] && q != []
  {
    match op
    case CondBranch(c, rs1, rs2, off) =>
      && op'.CondBranch? && op'.cond == c && op'.rs1 == rs1 && op'.rs2 == rs2
      && PcMatch(p, q, (x.addr + Value(off)) % WORD, (y.addr + Value(op'.off)) % WORD)
    case Jal(rd, off) =>
      && rd == 0 && op'.Jal? && op'.rd == 0
      && PcMatch(p, q, (x.addr + Value(off)) % WORD, (y.addr + Value(op'.off)) % WORD)
    case _ => op' == op && PlaceFreeOp(op)
  }

  ghost predicate InsnRelocated(p: Program, q: Program, x: Insn, y: Insn)
    requires p != [] && q != []
  {
    && Parse(x.word).Some? && Parse(y.word).Some?
    && OpRelocated(p, q, x, y, Parse(x.word).value, Parse(y.word).value)
  }

  /** `q` holds the instructions of `p`, relocated. */
  ghost predicate Relocated(p: Program, q: Program)
    requires p != [] && q != []
  {
    forall e: nat, j: nat :: Facing(p, q, e, j) && p[e].hint.None? ==> InsnRelocated(p, q, p[e].insn, q[j].insn)
  }

  predicate Indirect(m: Insn) {
    Parse(m.word).Some? && Parse(m.word).value.Jalr?
  }

  ghost predicate LeavesBoth(p: Program, q: Program, e: Effect) {
    e.target.Some? ==> Fetch(p, e.target.value).None? && Fetch(q, e.target.value).None?
  }

  /** An indirect jump at `v`, such as a return, leaves both programs. */
  ghost predicate IndirectLeaves(host: Host, p: Program, q: Program, v: State) {
    forall j :: 0 <= j < |q| && q[j].insn.addr == v.pc && Indirect(q[j].insn) ==>
      LeavesBoth(p, q, Rv32Semantics(host)(q[j].insn, v.arch))
  }

  ghost predicate IndirectsLeave(host: Host, p: Program, q: Program, s: State) {
    forall m, v :: Reaches(Rv32Semantics(host), q, s, m, v) ==> IndirectLeaves(host, p, q, v)
  }

  lemma {:induction false} Performs(host: Host, m: Insn, op: Op, a: Arch)
    requires Parse(m.word) == Some(op)
    ensures Rv32Semantics(host)(m, a) == Exec(host, op, m.addr, m.size, a)
  {
  }

  lemma {:induction false} TargetApart(e: Effect, t: Option<nat>, a: Arch)
    ensures Apply(e.(target := t), a) == Apply(e, a)
  {
  }

  /** Two effects that differ in their targets, which correspond. */
  lemma {:induction false} TargetsAlike(sem: Semantics, p: Program, q: Program, x: Insn, y: Insn, a: Arch, e: Effect,
                                        t: nat, t': nat)
    requires p != [] && q != [] && PcMatch(p, q, t, t')
    requires sem(x, a) == e.(target := Some(t)) && sem(y, a) == e.(target := Some(t'))
    ensures Alike(sem, p, q, x, y, a)
  {
    TargetApart(e, Some(t), a);
    TargetApart(e, Some(t'), a);
  }

  lemma {:induction false} SameAlike(sem: Semantics, p: Program, q: Program, x: Insn, y: Insn, a: Arch)
    requires p != [] && q != [] && sem(x, a) == sem(y, a) && sem(x, a).target.None?
    ensures Alike(sem, p, q, x, y, a)
  {
  }

  lemma {:induction false} CondEffect(host: Host, op: Op, addr: nat, len: nat, a: Arch)
    requires op.CondBranch?
    ensures Exec(host, op, addr, len, a) ==
            if Taken(op.cond, X(a, op.rs1), X(a, op.rs2))
            then Nothing(a).(target := Some((addr + Value(op.off)) % WORD)) else Nothing(a)
  {
  }

  /** `sem` performs `op` at `m`. */
  ghost predicate Does(host: Host, sem: Semantics, m: Insn, op: Op, a: Arch) {
    sem(m, a) == Exec(host, op, m.addr, m.size, a)
  }

  lemma {:induction false} CondAlike(host: Host, sem: Semantics, p: Program, q: Program, x: Insn, y: Insn, op: Op,
                                     op': Op, a: Arch)
    requires p != [] && q != [] && op.CondBranch? && OpRelocated(p, q, x, y, op, op')
    requires Does(host, sem, x, op, a) && Does(host, sem, y, op', a)
    ensures Alike(sem, p, q, x, y, a)
  {
    CondEffect(host, op, x.addr, x.size, a);
    CondEffect(host, op', y.addr, y.size, a);
    if Taken(op.cond, X(a, op.rs1), X(a, op.rs2)) {
      TargetsAlike(sem, p, q, x, y, a, Nothing(a), (x.addr + Value(op.off)) % WORD, (y.addr + Value(op'.off)) % WORD);
    } else {
      SameAlike(sem, p, q, x, y, a);
    }
  }

  lemma {:induction false} JumpEffect(host: Host, op: Op, addr: nat, len: nat, a: Arch)
    requires op.Jal? && op.rd == 0
    ensures Exec(host, op, addr, len, a) == Nothing(a).(target := Some((addr + Value(op.off)) % WORD))
  {
  }

  lemma {:induction false} JumpAlike(host: Host, sem: Semantics, p: Program, q: Program, x: Insn, y: Insn, op: Op,
                                     op': Op, a: Arch)
    requires p != [] && q != [] && op.Jal? && OpRelocated(p, q, x, y, op, op')
    requires Does(host, sem, x, op, a) && Does(host, sem, y, op', a)
    ensures Alike(sem, p, q, x, y, a)
  {
    JumpEffect(host, op, x.addr, x.size, a);
    JumpEffect(host, op', y.addr, y.size, a);
    TargetsAlike(sem, p, q, x, y, a, Nothing(a), (x.addr + Value(op.off)) % WORD, (y.addr + Value(op'.off)) % WORD);
  }

  lemma {:induction false} IndirectAlike(host: Host, sem: Semantics, p: Program, q: Program, x: Insn, y: Insn, op: Op,
                                         a: Arch)
    requires p != [] && q != [] && op.Jalr? && op.rd == 0 && LeavesBoth(p, q, sem(y, a))
    requires Does(host, sem, x, op, a) && Does(host, sem, y, op, a)
    ensures Alike(sem, p, q, x, y, a)
  {
    var t := sem(y, a).target.value;
    assert Outside(p, q, t, t);
  }

  lemma {:induction false} SizeIrrelevant(host: Host, op: Op, addr: nat, len: nat, len': nat, a: Arch)
    requires !op.Jal? && !op.Jalr?
    ensures Exec(host, op, addr, len, a) == Exec(host, op, addr, len', a)
  {
  }

  lemma {:induction false} StraightAlike(host: Host, sem: Semantics, p: Program, q: Program, x: Insn, y: Insn, op: Op,
                                         a: Arch)
    requires p != [] && q != [] && PlaceFreeOp(op) && !op.CondBranch? && !op.Jal? && !op.Jalr?
    requires Does(host, sem, x, op, a) && Does(host, sem, y, op, a)
    ensures Alike(sem, p, q, x, y, a)
  {
    assert ClassOf(op) !in {Branch, Jump};
    ExecPlaceFree(host, op, x.addr, y.addr, x.size, a);
    SizeIrrelevant(host, op, y.addr, x.size, y.size, a);
  }

  lemma {:induction false} OpsAlike(host: Host, sem: Semantics, p: Program, q: Program, x: Insn, y: Insn, op: Op,
                                    op': Op, a: Arch)
    requires p != [] && q != [] && OpRelocated(p, q, x, y, op, op')
    requires Does(host, sem, x, op, a) && Does(host, sem, y, op', a)
    requires op'.Jalr? ==> LeavesBoth(p, q, sem(y, a))
    ensures Alike(sem, p, q, x, y, a)
  {
    if op.CondBranch? {
      CondAlike(host, sem, p, q, x, y, op, op', a);
    } else if op.Jal? {
      JumpAlike(host, sem, p, q, x, y, op, op', a);
    } else if op.Jalr? {
      IndirectAlike(host, sem, p, q, x, y, op, a);
    } else {
      StraightAlike(host, sem, p, q, x, y, op, a);
    }
  }

  lemma {:induction false} InsnAlike(host: Host, p: Program, q: Program, x: Insn, y: Insn, a: Arch)
    requires p != [] && q != [] && InsnRelocated(p, q, x, y)
    requires Indirect(y) ==> LeavesBoth(p, q, Rv32Semantics(host)(y, a))
    ensures Alike(Rv32Semantics(host), p, q, x, y, a)
  {
    var op, op' := Parse(x.word).value, Parse(y.word).value;
    Performs(host, x, op, a);
    Performs(host, y, op', a);
    OpsAlike(host, Rv32Semantics(host), p, q, x, y, op, op', a);
  }

  lemma {:induction false} RelocatedAt(host: Host, p: Program, q: Program, v: State)
    requires p != [] && q != [] && Relocated(p, q) && IndirectLeaves(host, p, q, v)
    ensures AlikeAt(Rv32Semantics(host), p, q, v)
  {
    forall e: nat, j: nat | Facing(p, q, e, j) && p[e].hint.None? && q[j].insn.addr == v.pc
      ensures Alike(Rv32Semantics(host), p, q, p[e].insn, q[j].insn, v.arch)
    {
      InsnAlike(host, p, q, p[e].insn, q[j].insn, v.arch);
    }
  }

  lemma {:induction false} RelocatedAlong(host: Host, p: Program, q: Program, s: State)
    requires p != [] && q != [] && Relocated(p, q) && IndirectsLeave(host, p, q, s)
    ensures AlikeAlong(Rv32Semantics(host), p, q, s)
  {
    forall m, v | Reaches(Rv32Semantics(host), q, s, m, v) ensures AlikeAt(Rv32Semantics(host), p, q, v) {
      RelocatedAt(host, p, q, v);
    }
  }

  // ----- the packetizer's output, relocated -----

  lemma {:induction false} WordDefined(p: Program, q: Program, e: nat, w: nat)
    requires p != [] && q != [] && Relocated(p, q) && p[|p| - 1].hint.None? && Rank(p, |p|) == |q|
    requires e < |p| && p[e].insn.word == w && p[e].hint == HintLength(w) && WholeWord(w)
    ensures Parse(w).Some?
  {
    if p[e].hint.Some? {
      HintIsPlaceFree(w);
    } else {
      RankBelow(p, q, e);
      assert Facing(p, q, e, Rank(p, e));
    }
  }

  lemma {:induction false} RelocatedFramed(host: Host, c: Config, gs: seq<Group>, addr: nat, func: string, p: Program,
                                           q: Program)
    requires Packed(c, gs) && p == ProgramOf(EmittedLines(c, gs, addr, func)) && p != [] && q != []
    requires Relocated(p, q) && p[|p| - 1].hint.None? && Rank(p, |p|) == |q|
    ensures ProgramFramed(Rv32Semantics(host), p)
  {
    var lines := EmittedLines(c, gs, addr, func);
    PackedWellFormed(c, gs, addr, func);
    forall l | l in lines ensures Trusted(l.word) {
      var e :| 0 <= e < |lines| && lines[e] == l;
      DecodeKeepsWord(l.addr, l.word);
      WordDefined(p, q, e, l.word);
    }
    ListingFramed(host, lines);
  }

  /** `p` is the hinted function at `addr` and `q` the original at `at`, with as many words, each
      relocated; `code` is what the linker makes of the original there. */
  ghost predicate FunctionPair(c: Config, blocks: seq<seq<MInstr>>, addr: nat, p: Program, code: seq<nat>, at: nat,
                               q: Program, func: string) {
    && Standard(c) && c.numLanes < 32 && FaithfulFunction(blocks)
    && p == HintedProgram(c, blocks, addr, func) && q == ProgramOf(Layout(code, at, func)) && p != [] && q != []
    && |code| == |Code(Instrs(Concat(blocks)))| && (forall w :: w in code ==> WholeWord(w))
    && Relocated(p, q)
  }

  lemma {:induction false} HintedSafely(host: Host, c: Config, gs: seq<Group>, addr: nat, func: string, p: Program,
                                        q: Program)
    requires Standard(c) && Packed(c, gs) && p == ProgramOf(EmittedLines(c, gs, addr, func)) && p != [] && q != []
    requires |q| == |Code(Instrs(Flatten(gs)))| && Relocated(p, q)
    ensures RunsSafely(Rv32Semantics(host), p) && SkipsHints(Rv32Semantics(host), p)
    ensures p[|p| - 1].hint.None? && Rank(p, |p|) == |q|
  {
    LastIsPlain(c, gs, addr, func);
    RankIsLength(c, gs, addr, func);
    PackedProgramIsSafe(c, gs, addr, func);
    RelocatedFramed(host, c, gs, addr, func, p, q);
    FramedSkipsHints(Rv32Semantics(host), p);
  }

  lemma {:induction false} PackedWords(c: Config, gs: seq<Group>)
    requires Packed(c, gs)
    ensures forall w :: w in Code(Emit(c, gs)) ==> WholeWord(w)
  {
    EmittedCode(c, gs);
    GroupsCodeShort(c, gs);
  }

  lemma {:induction false} EmittedSorted(c: Config, gs: seq<Group>, addr: nat, func: string, p: Program)
    requires Packed(c, gs) && p == ProgramOf(EmittedLines(c, gs, addr, func)) && p != []
    ensures Sorted(p) && Touching(p) && EndOf(p[|p| - 1].insn) > p[|p| - 1].insn.addr
  {
    var code := Code(Emit(c, gs));
    PackedWords(c, gs);
    assert p == ProgramOf(Layout(code, addr, func)) && code != [];
    LaidSorted(code, addr, func);
  }

  lemma {:induction false} PackedPaired(host: Host, c: Config, gs: seq<Group>, addr: nat, p: Program, code: seq<nat>,
                                        at: nat, q: Program, func: string)
    requires Standard(c) && Packed(c, gs) && p == ProgramOf(EmittedLines(c, gs, addr, func)) && p != []
    requires q == ProgramOf(Layout(code, at, func)) && q != [] && (forall w :: w in code ==> WholeWord(w))
    requires |q| == |Code(Instrs(Flatten(gs)))| && Relocated(p, q)
    ensures RunsSafely(Rv32Semantics(host), p) && Paired(Rv32Semantics(host), p, q)
  {
    HintedSafely(host, c, gs, addr, func, p, q);
    EmittedSorted(c, gs, addr, func, p);
    LaidSorted(code, at, func);
  }

  lemma {:induction false} FunctionPaired(host: Host, c: Config, blocks: seq<seq<MInstr>>, addr: nat, p: Program,
                                          code: seq<nat>, at: nat, q: Program, func: string)
    requires FunctionPair(c, blocks, addr, p, code, at, q, func)
    ensures RunsSafely(Rv32Semantics(host), p) && Paired(Rv32Semantics(host), p, q)
  {
    HintedIsEmitted(c, blocks);
    AllPacked(c, blocks);
    AllCovered(c, blocks);
    PackedPaired(host, c, MunchAll(c, blocks), addr, p, code, at, q, func);
  }

  lemma {:induction false} EntriesMatch(sem: Semantics, p: Program, q: Program, a: Arch)
    requires Paired(sem, p, q)
    ensures Match(p, q, State(p[0].insn.addr, a), State(q[0].insn.addr, a))
  {
    assert Facing(p, q, 0, 0);
    assert Together(p, q, p[0].insn.addr, q[0].insn.addr);
  }

  /** The packetizer preserves the meaning of functions. Each block of the function is packetized, the
      result is placed anywhere and its branches relocated. Whatever hints the hardware honours, each
      state it reaches has the registers and memory of one the stock core reaches in the original, at
      the corresponding place: through every loop, and for runs that never end. */
  lemma {:induction false} PacketizedFunctionRefines(host: Host, c: Config, blocks: seq<seq<MInstr>>, addr: nat,
                                                     p: Program, code: seq<nat>, at: nat, q: Program, func: string,
                                                     a: Arch, tr: seq<State>)
      returns (m: nat, v: State)
    requires FunctionPair(c, blocks, addr, p, code, at, q, func)
    requires StarbugRun(Rv32Semantics(host), p, tr) && tr[0] == State(p[0].insn.addr, a)
    requires IndirectsLeave(host, p, q, State(q[0].insn.addr, a))
    ensures Reaches(Rv32Semantics(host), q, State(q[0].insn.addr, a), m, v)
    ensures Match(p, q, tr[|tr| - 1], v) && (Halted(p, tr[|tr| - 1]) <==> Halted(q, v))
  {
    FunctionPaired(host, c, blocks, addr, p, code, at, q, func);
    EntriesMatch(Rv32Semantics(host), p, q, a);
    RelocatedAlong(host, p, q, State(q[0].insn.addr, a));
    m, v := RelocatedRunRefines(Rv32Semantics(host), p, q, tr, State(q[0].insn.addr, a));
  }

  /** And where the original halts, every run of the hinted function can be completed to the one state
      that corresponds to its last, with the same registers and memory; a halted run is in it. */
  lemma {:induction false} PacketizedFunctionHalts(host: Host, c: Config, blocks: seq<seq<MInstr>>, addr: nat,
                                                   p: Program, code: seq<nat>, at: nat, q: Program, func: string,
                                                   a: Arch, tr: seq<State>, k: nat, v: State)
      returns (final: State)
    requires FunctionPair(c, blocks, addr, p, code, at, q, func)
    requires StarbugRun(Rv32Semantics(host), p, tr) && tr[0] == State(p[0].insn.addr, a)
    requires IndirectsLeave(host, p, q, State(q[0].insn.addr, a))
    requires Reaches(Rv32Semantics(host), q, State(q[0].insn.addr, a), k, v) && Halted(q, v)
    ensures Match(p, q, final, v) && Halted(p, final) && CanReach(Rv32Semantics(host), p, tr[|tr| - 1], final)
    ensures Halted(p, tr[|tr| - 1]) ==> tr[|tr| - 1] == final
  {
    FunctionPaired(host, c, blocks, addr, p, code, at, q, func);
    EntriesMatch(Rv32Semantics(host), p, q, a);
    RelocatedAlong(host, p, q, State(q[0].insn.addr, a));
    final := RelocatedRunsHalt(Rv32Semantics(host), p, q, tr, State(q[0].insn.addr, a), k, v);
  }
}
