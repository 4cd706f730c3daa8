/** The packetized block and the original block compute the same thing. */
module BlockRun {
  import opened Wrappers
  import opened Isa
  import opened Machine
  import opened Checker
  import opened Run
  import opened Bundles
  import opened Cycles
  import opened Report
  import opened VliwConfig
  import opened Packets
  import opened Packing
  import opened Lowering
  import opened RoundTrip
  import opened Emitted

  // ----- the original block -----

  /** The instructions of a program, its hints left out. */
  function Placed(p: Program): seq<Insn> {
    if p == [] then []
    else (if p[0].hint.Some? then [] else [p[0].insn]) + Placed(p[1..])
  }

  /** Consecutive instructions in order until one redirects the pc, or to the end of the block. */
  function RunFrom(sem: Semantics, ms: seq<Insn>, a: Arch, end: nat): State {
    if ms == [] then State(end, a)
    else
      var e := sem(ms[0], a);
      if e.target.Some? then State(e.target.value, Apply(e, a)) else RunFrom(sem, ms[1..], Apply(e, a), end)
  }

  function Strip(code: seq<nat>): seq<nat> {
    if code == [] then []
    else (if HintLength(code[0]).Some? then [] else [code[0]]) + Strip(code[1..])
  }

  lemma {:induction false} StripConcat(xs: seq<nat>, ys: seq<nat>)
    ensures Strip(xs + ys) == Strip(xs) + Strip(ys)
    decreases |xs|
  {
    if xs == [] {
      assert xs + ys == ys;
    } else {
      assert (xs + ys)[1..] == xs[1..] + ys;
      StripConcat(xs[1..], ys);
    }
  }

  lemma {:induction false} StripPlain(code: seq<nat>)
    requires forall w :: w in code ==> PlainWord(w)
    ensures Strip(code) == code
    decreases |code|
  {
    if code != [] {
      assert code[0] in code;
      StripPlain(code[1..]);
    }
  }

  lemma {:induction false} StripHint(n: nat)
    requires 1 <= n < 32
    ensures Strip([HintWord(n)]) == []
  {
    HintRoundTrip(n);
    assert [HintWord(n)][1..] == [];
  }

  lemma {:induction false} StripGroup(c: Config, g: Group)
    requires Emittable(c, g)
    ensures Strip(GroupCode(c, g)) == Code(Instrs(Members(g)))
  {
    var body := Code(Instrs(Members(g)));
    GroupCodeShape(c, g);
    StripPlain(body);
    if Hinted(c, g) {
      StripHint(|g.ms|);
      StripConcat([HintWord(|g.ms|)], body);
      assert [] + body == body;
    } else {
      assert [] + body == body;
    }
  }

  lemma {:induction false} InstrsCode(xs: seq<MInstr>, ys: seq<MInstr>)
    ensures Code(Instrs(xs + ys)) == Code(Instrs(xs)) + Code(Instrs(ys))
  {
    CodeConcat(Instrs(xs), Instrs(ys));
    assert Instrs(xs + ys) == Instrs(xs) + Instrs(ys);
  }

  /** Removing the hints gives back the code of the original block, in order. */
  lemma {:induction false} StripGroups(c: Config, gs: seq<Group>)
    requires AllEmittable(c, gs)
    ensures Strip(GroupsCode(c, gs)) == Code(Instrs(Flatten(gs)))
    decreases |gs|
  {
    if gs != [] {
      assert gs[0] in gs && AllEmittable(c, gs[1..]);
      StripGroup(c, gs[0]);
      StripGroups(c, gs[1..]);
      StripConcat(GroupCode(c, gs[0]), GroupsCode(c, gs[1..]));
      InstrsCode(Members(gs[0]), Flatten(gs[1..]));
    }
  }

  function Words(ms: seq<Insn>): seq<nat> {
    if ms == [] then [] else [ms[0].word] + Words(ms[1..])
  }

  lemma {:induction false} PlacedWords(lines: seq<Line>)
    requires forall k :: 0 <= k < |lines| ==> WholeWord(lines[k].word)
    ensures Words(Placed(ProgramOf(lines))) == Strip(seq(|lines|, k requires 0 <= k < |lines| => lines[k].word))
    decreases |lines|
  {
    var p := ProgramOf(lines);
    var ws := seq(|lines|, k requires 0 <= k < |lines| => lines[k].word);
    if lines != [] {
      PlacedWords(lines[1..]);
      DecodeKeepsWord(lines[0].addr, lines[0].word);
      assert p[1..] == ProgramOf(lines[1..]);
      assert ws[1..] == seq(|lines[1..]|, k requires 0 <= k < |lines[1..]| => lines[1..][k].word);
      if p[0].hint.None? {
        assert Placed(p)[1..] == Placed(p[1..]);
      } else {
        assert Placed(p) == Placed(p[1..]);
      }
    }
  }

  /** The emitted block without its hints is the original block. */
  lemma {:induction false} PlacedIsTheBlock(c: Config, block: seq<MInstr>, addr: nat, func: string)
    requires Standard(c) && c.numLanes < 32 && FaithfulBlock(block)
    ensures Words(Placed(ProgramOf(HintedLines(c, block, addr, func)))) == Code(Instrs(block))
  {
    var gs, lines := Munch(c, block), HintedLines(c, block, addr, func);
    var code := Code(Emit(c, gs));
    MunchEmittable(c, block);
    MunchIsGrouping(c, block);
    EmittedCode(c, gs);
    GroupsCodeShort(c, gs);
    StripGroups(c, gs);
    forall k | 0 <= k < |lines| ensures WholeWord(lines[k].word) { assert code[k] in code; }
    PlacedWords(lines);
    assert seq(|lines|, k requires 0 <= k < |lines| => lines[k].word) == code;
  }

  // ----- the stock core runs the block -----

  ghost predicate Touching(p: Program) {
    forall k :: 0 <= k < |p| - 1 ==> EndOf(p[k].insn) == p[k + 1].insn.addr
  }

  function BlockEnd(p: Program): nat
    requires p != []
  {
    EndOf(p[|p| - 1].insn)
  }

  lemma {:induction false} PlacedHead(p: Program, i: nat)
    requires i < |p|
    ensures Placed(p[i..]) == (if p[i].hint.Some? then [] else [p[i].insn]) + Placed(p[i + 1..])
  {
    assert p[i..][1..] == p[i + 1..] && p[i..][0] == p[i];
  }

  ghost predicate Skips(sem: Semantics, m: Insn, a: Arch) {
    sem(m, a).target.None? && Apply(sem(m, a), a) == a
  }

  /** Hints only advance the pc. */
  ghost predicate SkipsHints(sem: Semantics, p: Program) {
    forall i, a :: 0 <= i < |p| && p[i].hint.Some? ==> Skips(sem, p[i].insn, a)
  }

  lemma {:induction false} FramedSkipsHints(sem: Semantics, p: Program)
    requires HintsAreNops(p) && ProgramFramed(sem, p)
    ensures SkipsHints(sem, p)
  {
    forall i, a | 0 <= i < |p| && p[i].hint.Some? ensures Skips(sem, p[i].insn, a) {
      HintIsNop(sem, p, i, a);
    }
  }

  /** One step of the stock core, and what is left to run after it. */
  lemma {:induction false} BlockStep(sem: Semantics, p: Program, i: nat, s: State, end: nat) returns (t: State)
    requires i < |p| && Sorted(p) && SkipsHints(sem, p) && s.pc == p[i].insn.addr
    ensures ScalarStep(sem, p, s) == Some(t) && Reaches(sem, p, s, 1, t)
    ensures var left := RunFrom(sem, Placed(p[i..]), s.arch, end);
            if sem(p[i].insn, s.arch).target.Some? then left == t
            else t.pc == EndOf(p[i].insn) && left == RunFrom(sem, Placed(p[i + 1..]), t.arch, end)
  {
    t := After(sem(p[i].insn, s.arch), p[i].insn, s.arch);
    OneStep(sem, p, i, s.arch);
    assert Steps(sem, p, s, 0) == Some(s);
    PlacedHead(p, i);
    var rest := Placed(p[i + 1..]);
    if p[i].hint.Some? {
      assert Skips(sem, p[i].insn, s.arch);
      assert [] + rest == rest;
    } else {
      assert ([p[i].insn] + rest)[1..] == rest;
    }
  }

  /** The step at `u` leaves the block: it redirects the pc, or it is the block's last. */
  ghost predicate Leaving(sem: Semantics, p: Program, u: State) {
    var r := Fetch(p, u.pc);
    r.Some? && (r.value == |p| - 1 || sem(p[r.value].insn, u.arch).target.Some?)
  }

  /** The stock core on the hinted program passes over the hints and runs the original block, which
      it leaves in its last step. */
  lemma {:induction false} StockRunsBlock(sem: Semantics, p: Program, i: nat, s: State, final: State)
      returns (k: nat, u: State)
    requires i < |p| && Sorted(p) && SkipsHints(sem, p) && Touching(p)
    requires s.pc == p[i].insn.addr && final == RunFrom(sem, Placed(p[i..]), s.arch, BlockEnd(p))
    ensures Reaches(sem, p, s, k, u) && Leaving(sem, p, u) && ScalarStep(sem, p, u) == Some(final)
    decreases |p| - i
  {
    var t := BlockStep(sem, p, i, s, BlockEnd(p));
    FetchAt(p, i);
    if sem(p[i].insn, s.arch).target.Some? || i + 1 == |p| {
      k, u := 0, s;
      if i + 1 == |p| { assert p[i + 1..] == []; }
    } else {
      var l;
      l, u := StockRunsBlock(sem, p, i + 1, t, final);
      ReachesAdd(sem, p, s, 1, t, l, u);
      k := 1 + l;
    }
  }

  lemma {:induction false} HintedTouches(c: Config, block: seq<MInstr>, addr: nat, func: string)
    ensures Touching(ProgramOf(HintedLines(c, block, addr, func)))
  {
    var code := Code(Emit(c, Munch(c, block)));
    if |code| > 0 {
      LayoutAdjacent(code, addr, func, 0, |code| - 1);
    }
  }

  lemma {:induction false} PcThere(sem: Semantics, p: Program, s: State, v: State, l: nat, j: nat, u: State)
    requires Steps(sem, p, s, 1) == Some(v) && j == 1 + l && Steps(sem, p, s, j) == Some(u)
    ensures Steps(sem, p, v, l) == Some(u)
  {
    StepsAdd(sem, p, s, 1, v, l);
  }

  lemma {:induction false} Onward(sem: Semantics, p: Program, s: State, j: nat, u: State, d: nat, t: State, l: nat)
    requires Steps(sem, p, s, j) == Some(u) && Steps(sem, p, u, d) == Some(t) && l == j + d
    ensures Steps(sem, p, s, l) == Some(t)
  {
    StepsAdd(sem, p, s, j, u, d);
  }

  lemma {:induction false} MemberThere(sem: Semantics, p: Program, i: nat, l: nat, j: nat, m: nat, s: State, v: State,
                                       u: State)
    requires RunsSafely(sem, p) && i < |p| && Forms(p, i) && l < Len(p, i) && j == 1 + l && m == i + 1 + l < |p|
    requires Steps(sem, p, s, 1) == Some(v) && v == State(p[i + 1].insn.addr, s.arch) && Steps(sem, p, s, j) == Some(u)
    ensures u.pc == p[m].insn.addr
  {
    PcThere(sem, p, s, v, l, j, u);
    MemberPc(sem, p, i, l, m, s.arch);
  }

  lemma {:induction false} AtMemberPc(sem: Semantics, p: Program, i: nat, j: nat, m: nat, s: State, u: State)
    requires RunsSafely(sem, p) && i < |p| && Forms(p, i) && 0 < j < Len(p, i) && s.pc == p[i].insn.addr
    requires Steps(sem, p, s, j) == Some(u) && m == i + j
    ensures m < |p| && u.pc == p[m].insn.addr
  {
    BundleRoom(sem, p, i);
    ToFirstMember(sem, p, i, s);
    MemberThere(sem, p, i, j - 1, j, m, s, State(p[i + 1].insn.addr, s.arch), u);
  }

  lemma {:induction false} MemberFalls(sem: Semantics, p: Program, i: nat, j: nat, m: nat, a: Arch)
    requires i < |p| && Forms(p, i) && HintSafe(p, i) && ProgramFramed(sem, p) && 0 < j < Len(p, i) && m == i + j
    ensures m < |p| - 1 && sem(p[m].insn, a).target.None?
  {
    var ms := MembersAt(p, i, Len(p, i));
    assert ms[j - 1] == p[m].insn && ms[j - 1] in ms && p[m] in p;
    MembersStraight(ms);
    FallsThrough(sem, p[m].insn, a);
  }

  lemma {:induction false} NotLeavingAt(sem: Semantics, p: Program, m: nat, u: State)
    requires Sorted(p) && m < |p| - 1 && u.pc == p[m].insn.addr && sem(p[m].insn, u.arch).target.None?
    ensures !Leaving(sem, p, u)
  {
    FetchAt(p, m);
  }

  lemma {:induction false} HintNotLeaving(sem: Semantics, p: Program, i: nat, s: State)
    requires RunsSafely(sem, p) && i < |p| && Forms(p, i) && s.pc == p[i].insn.addr
    ensures !Leaving(sem, p, s)
  {
    BundleFits(sem, p, i);
    HintIsNop(sem, p, i, s.arch);
    NotLeavingAt(sem, p, i, s);
  }

  lemma {:induction false} SafeMemberFalls(sem: Semantics, p: Program, i: nat, j: nat, m: nat, a: Arch)
    requires RunsSafely(sem, p) && i < |p| && Forms(p, i) && 0 < j < Len(p, i) && m == i + j
    ensures Sorted(p) && m < |p| - 1 && sem(p[m].insn, a).target.None?
  {
    BundleFits(sem, p, i);
    MemberFalls(sem, p, i, j, m, a);
  }

  lemma {:induction false} MemberNotLeaving(sem: Semantics, p: Program, i: nat, j: nat, m: nat, s: State, u: State)
    requires RunsSafely(sem, p) && i < |p| && Forms(p, i) && 0 < j < Len(p, i) && s.pc == p[i].insn.addr
    requires Steps(sem, p, s, j) == Some(u) && m == i + j
    ensures !Leaving(sem, p, u)
  {
    AtMemberPc(sem, p, i, j, m, s, u);
    SafeMemberFalls(sem, p, i, j, m, u.arch);
    NotLeavingAt(sem, p, m, u);
  }

  /** An honoured bundle does not step over the instruction that leaves the block. */
  lemma {:induction false} NotLeavingInside(sem: Semantics, p: Program, i: nat, j: nat, s: State, u: State)
    requires RunsSafely(sem, p) && i < |p| && Forms(p, i) && j < Len(p, i) && s.pc == p[i].insn.addr
    requires Steps(sem, p, s, j) == Some(u)
    ensures !Leaving(sem, p, u)
  {
    if j == 0 { HintNotLeaving(sem, p, i, s); } else { MemberNotLeaving(sem, p, i, j, i + j, s, u); }
  }

  /** The stock core gets from `s` to `t` in at most `k` steps. */
  ghost predicate ReachesBy(sem: Semantics, p: Program, s: State, k: nat, t: State) {
    exists j: nat :: j <= k && Reaches(sem, p, s, j, t)
  }

  /** The stock core gets from `s` to `t`. */
  ghost predicate CanReach(sem: Semantics, p: Program, s: State, t: State) {
    exists k :: Reaches(sem, p, s, k, t)
  }

  lemma {:induction false} Between(sem: Semantics, p: Program, s0: State, j: nat, s: State, d: nat, k: nat, u: State)
    requires Steps(sem, p, s0, j) == Some(s) && Steps(sem, p, s0, k) == Some(u) && k == j + d
    ensures Steps(sem, p, s, d) == Some(u)
  {
    StepsAdd(sem, p, s0, j, s, d);
  }

  lemma {:induction false} TooEarly(sem: Semantics, p: Program, s0: State, j: nat, s: State, d: nat, k: nat, u: State,
                                    i: nat)
    requires RunsSafely(sem, p) && i < |p| && p[i].insn.addr == s.pc && Forms(p, i)
    requires Steps(sem, p, s0, j) == Some(s) && d < Len(p, i) && Steps(sem, p, s0, k) == Some(u) && k == j + d
    ensures !Leaving(sem, p, u)
  {
    Between(sem, p, s0, j, s, d, k, u);
    NotLeavingInside(sem, p, i, d, s, u);
  }

  lemma {:induction false} HonourReaches(sem: Semantics, p: Program, i: nat, s: State, t: State, d: nat)
    requires RunsSafely(sem, p) && i < |p| && p[i].insn.addr == s.pc && Forms(p, i) && HonourStep(sem, p, i, s, t)
    requires d == 1 + Len(p, i)
    ensures Steps(sem, p, s, d) == Some(t)
  {
    HonourRefines(sem, p, i, s, t);
  }

  /** An honoured bundle either stops short of the step that leaves the block or includes it as its
      last. */
  lemma {:induction false} MeetHonour(sem: Semantics, p: Program, s0: State, j: nat, s: State, t: State, k: nat,
                                      u: State, i: nat, n: nat, l: nat)
    requires RunsSafely(sem, p) && i < |p| && p[i].insn.addr == s.pc && Forms(p, i) && HonourStep(sem, p, i, s, t)
    requires Steps(sem, p, s0, j) == Some(s) && j <= k && Steps(sem, p, s0, k) == Some(u) && Leaving(sem, p, u)
    requires n == Len(p, i) && l == j + (1 + n)
    ensures j + n <= k && Steps(sem, p, s0, l) == Some(t)
  {
    HonourReaches(sem, p, i, s, t, 1 + n);
    Onward(sem, p, s0, j, s, 1 + n, t, l);
    if k < j + n { TooEarly(sem, p, s0, j, s, k - j, k, u, i); }
  }

  lemma {:induction false} OneMore(sem: Semantics, p: Program, s0: State, j: nat, s: State, t: State, l: nat)
    requires Steps(sem, p, s0, j) == Some(s) && ScalarStep(sem, p, s) == Some(t) && l == j + 1
    ensures Reaches(sem, p, s0, l, t)
  {
  }

  /** One more step of a run that is not yet past the step that leaves the block. */
  lemma {:induction false} MeetStep(sem: Semantics, p: Program, s0: State, j: nat, s: State, t: State, k: nat, u: State)
      returns (l: nat)
    requires RunsSafely(sem, p) && StarbugStep(sem, p, s, t)
    requires Steps(sem, p, s0, j) == Some(s) && j <= k && Steps(sem, p, s0, k) == Some(u) && Leaving(sem, p, u)
    ensures l <= k + 1 && Reaches(sem, p, s0, l, t)
  {
    var i := Fetch(p, s.pc).value;
    if ScalarStep(sem, p, s) == Some(t) {
      l := j + 1;
      OneMore(sem, p, s0, j, s, t, l);
    } else {
      var n := Len(p, i);
      l := j + (1 + n);
      MeetHonour(sem, p, s0, j, s, t, k, u, i, n, l);
    }
  }

  lemma {:induction false} NotYet(sem: Semantics, p: Program, s0: State, k: nat, s: State, u: State, final: State)
      returns (j: nat)
    requires ReachesBy(sem, p, s0, k + 1, s) && s != final
    requires Steps(sem, p, s0, k) == Some(u) && ScalarStep(sem, p, u) == Some(final)
    ensures j <= k && Steps(sem, p, s0, j) == Some(s)
  {
    j :| j <= k + 1 && Reaches(sem, p, s0, j, s);
    assert Steps(sem, p, s0, k + 1) == Some(final);
  }

  lemma {:induction false} RunMeets(sem: Semantics, p: Program, tr: seq<State>, k: nat, u: State, final: State)
    requires RunsSafely(sem, p) && StarbugRun(sem, p, tr)
    requires Reaches(sem, p, tr[0], k, u) && Leaving(sem, p, u) && ScalarStep(sem, p, u) == Some(final)
    ensures final in tr || ReachesBy(sem, p, tr[0], k + 1, tr[|tr| - 1])
    decreases |tr|
  {
    var n := |tr| - 1;
    if n == 0 {
      assert Reaches(sem, p, tr[0], 0, tr[0]);
    } else {
      var init := tr[..n];
      assert StarbugRun(sem, p, init);
      RunMeets(sem, p, init, k, u, final);
      if final !in init {
        assert init[n - 1] in init;
        var j := NotYet(sem, p, tr[0], k, tr[n - 1], u, final);
        assert StarbugStep(sem, p, tr[n - 1], tr[n - 1 + 1]);
        var l := MeetStep(sem, p, tr[0], j, tr[n - 1], tr[n], k, u);
      } else {
        assert final in tr;
      }
    }
  }

  lemma {:induction false} Onwards(sem: Semantics, p: Program, s: State, k: nat, u: State, t: State)
    requires ReachesBy(sem, p, s, k, u) && Reaches(sem, p, s, k, t)
    ensures CanReach(sem, p, u, t)
  {
    var j: nat :| j <= k && Reaches(sem, p, s, j, u);
    StepsAdd(sem, p, s, j, u, k - j);
    assert Reaches(sem, p, u, k - j, t);
  }

  lemma {:induction false} SafeRunsBlock(sem: Semantics, p: Program, a: Arch, s: State, final: State)
      returns (k: nat, u: State)
    requires RunsSafely(sem, p) && Touching(p) && p != [] && s == State(p[0].insn.addr, a)
    requires final == RunFrom(sem, Placed(p), a, BlockEnd(p))
    ensures Reaches(sem, p, s, k, u) && Leaving(sem, p, u) && ScalarStep(sem, p, u) == Some(final)
  {
    FramedSkipsHints(sem, p);
    assert p[0..] == p;
    k, u := StockRunsBlock(sem, p, 0, s, final);
  }

  lemma {:induction false} EndsAgree(sem: Semantics, p: Program, tr: seq<State>, k: nat, final: State)
    requires RunsSafely(sem, p) && StarbugRun(sem, p, tr) && Reaches(sem, p, tr[0], k, final) && Halted(p, final)
    ensures Halted(p, tr[|tr| - 1]) ==> tr[|tr| - 1] == final
  {
    var rest := HaltingRunsAgree(sem, p, tr, k, final);
  }

  lemma {:induction false} MeetsFinal(sem: Semantics, p: Program, tr: seq<State>, k: nat, u: State, final: State,
                                      n: nat, last: State)
    requires RunsSafely(sem, p) && StarbugRun(sem, p, tr) && last == tr[|tr| - 1] && n == k + 1
    requires Reaches(sem, p, tr[0], k, u) && Leaving(sem, p, u) && ScalarStep(sem, p, u) == Some(final)
    ensures Reaches(sem, p, tr[0], n, final) && (final in tr || CanReach(sem, p, last, final))
  {
    RunMeets(sem, p, tr, k, u, final);
    OneMore(sem, p, tr[0], k, u, final, n);
    if final !in tr { Onwards(sem, p, tr[0], n, last, final); }
  }

  lemma {:induction false} BlockLeaves(sem: Semantics, p: Program, a: Arch, tr: seq<State>, final: State, last: State)
      returns (n: nat)
    requires RunsSafely(sem, p) && Touching(p) && p != []
    requires StarbugRun(sem, p, tr) && tr[0] == State(p[0].insn.addr, a) && last == tr[|tr| - 1]
    requires final == RunFrom(sem, Placed(p), a, BlockEnd(p))
    ensures Reaches(sem, p, tr[0], n, final) && (final in tr || CanReach(sem, p, last, final))
  {
    var k, u := SafeRunsBlock(sem, p, a, tr[0], final);
    n := k + 1;
    MeetsFinal(sem, p, tr, k, u, final, n, last);
  }

  /** A run over a safe block, and the state in which the stock core leaves it. */
  lemma {:induction false} BlockMeets(sem: Semantics, p: Program, a: Arch, tr: seq<State>, final: State)
    requires RunsSafely(sem, p) && Touching(p) && p != []
    requires StarbugRun(sem, p, tr) && tr[0] == State(p[0].insn.addr, a)
    requires final == RunFrom(sem, Placed(p), a, BlockEnd(p))
    ensures final in tr || CanReach(sem, p, tr[|tr| - 1], final)
    ensures Halted(p, final) && Halted(p, tr[|tr| - 1]) ==> tr[|tr| - 1] == final
  {
    var n := BlockLeaves(sem, p, a, tr, final, tr[|tr| - 1]);
    if Halted(p, final) { EndsAgree(sem, p, tr, n, final); }
  }

  /** The packetizer preserves meaning, for every block. Run the hinted block on the STARBUG machine
      from its first byte, with any hints honoured and any declined. Let `final` be the state in
      which the original instructions, run in order, leave the block, by reaching its end or by a
      transfer, be it back into the block. The run passes through exactly that state, or can still
      be completed to it; and if the stock core halts there, a halted run is in it. */
  lemma {:induction false} PacketizerPreservesMeaning(sem: Semantics, c: Config, block: seq<MInstr>, addr: nat,
                                                      func: string, a: Arch, tr: seq<State>)
    requires Standard(c) && c.numLanes < 32 && FaithfulBlock(block)
    requires var p := ProgramOf(HintedLines(c, block, addr, func));
             && p != [] && ProgramFramed(sem, p)
             && StarbugRun(sem, p, tr) && tr[0] == State(p[0].insn.addr, a)
    ensures var p := ProgramOf(HintedLines(c, block, addr, func));
            var final := RunFrom(sem, Placed(p), a, BlockEnd(p));
            && Words(Placed(p)) == Code(Instrs(block))
            && (final in tr || CanReach(sem, p, tr[|tr| - 1], final))
            && (Halted(p, final) && Halted(p, tr[|tr| - 1]) ==> tr[|tr| - 1] == final)
  {
    var p := ProgramOf(HintedLines(c, block, addr, func));
    PlacedIsTheBlock(c, block, addr, func);
    PacketizedProgramIsSafe(c, block, addr, func);
    HintedTouches(c, block, addr, func);
    BlockMeets(sem, p, a, tr, RunFrom(sem, Placed(p), a, BlockEnd(p)));
  }

  // ----- where the block is placed -----

  ghost predicate SameMoved(sem: Semantics, m: Insn, d: nat, a: Arch) {
    var e, f := sem(m.(addr := d), a), sem(m, a);
    Apply(e, a) == Apply(f, a) && (e.target.Some? <==> f.target.Some?)
  }

  /** Neither what the instruction leaves in registers and memory nor whether it redirects the pc
      depends on its own address. */
  ghost predicate PositionFree(sem: Semantics, m: Insn) {
    forall d, a :: SameMoved(sem, m, d, a)
  }

  /** For a block that does not depend on its own addresses, the result is that of the unhinted block
      wherever either is placed. */
  lemma {:induction false} PlacementIrrelevant(sem: Semantics, ms: seq<Insn>, ns: seq<Insn>, a: Arch, end: nat,
                                               end': nat)
    requires |ms| == |ns|
    requires forall k :: 0 <= k < |ms| ==> PositionFree(sem, ms[k]) && ns[k] == ms[k].(addr := ns[k].addr)
    ensures RunFrom(sem, ms, a, end).arch == RunFrom(sem, ns, a, end').arch
    decreases |ms|
  {
    if ms != [] {
      assert PositionFree(sem, ms[0]) && SameMoved(sem, ms[0], ns[0].addr, a);
      PlacementIrrelevant(sem, ms[1..], ns[1..], Apply(sem(ms[0], a), a), end, end');
    }
  }
}
