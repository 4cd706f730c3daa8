/** Cutting a bundle of a listing in two: a second hint goes in front of the later members, which
    moves them and all that follows two bytes on. */
module Split {
  import opened Wrappers
  import opened Isa
  import opened Machine
  import opened Bundles
  import opened Checker
  import opened Run
  import opened Rv32
  import opened Rv32Exec
  import opened Report
  import opened Lowering
  import opened RoundTrip
  import opened Emitted
  import opened BlockRun
  import opened Unhinted

  // ----- the two codes -----

  /** Code with a bundle of the words `ms` in it. */
  function Whole(pre: seq<nat>, ms: seq<nat>, post: seq<nat>): seq<nat> {
    pre + [HintWord(|ms|)] + ms + post
  }

  /** The same, with the bundle cut before its member `k`. */
  function Cut(pre: seq<nat>, ms: seq<nat>, k: nat, post: seq<nat>): seq<nat>
    requires k <= |ms|
  {
    pre + [HintWord(k)] + ms[..k] + [HintWord(|ms| - k)] + ms[k..] + post
  }

  lemma {:induction false} StripHinted(n: nat, ws: seq<nat>)
    requires 1 <= n < 32
    ensures Strip([HintWord(n)] + ws) == Strip(ws)
  {
    StripHint(n);
    StripConcat([HintWord(n)], ws);
    assert [] + Strip(ws) == Strip(ws);
  }

  lemma {:induction false} StripParts(xs: seq<nat>, n: nat, ys: seq<nat>)
    requires 1 <= n < 32
    ensures Strip(xs + ([HintWord(n)] + ys)) == Strip(xs) + Strip(ys)
  {
    StripConcat(xs, [HintWord(n)] + ys);
    StripHinted(n, ys);
  }

  /** Without their hints they are the same code. */
  lemma {:induction false} SameStrip(pre: seq<nat>, ms: seq<nat>, k: nat, post: seq<nat>)
    requires 0 < k < |ms| < 32
    ensures Strip(Cut(pre, ms, k, post)) == Strip(Whole(pre, ms, post))
  {
    var fst, snd := ms[..k], ms[k..] + post;
    assert Cut(pre, ms, k, post) == pre + ([HintWord(k)] + (fst + ([HintWord(|ms| - k)] + snd)));
    assert Whole(pre, ms, post) == pre + ([HintWord(|ms|)] + (fst + snd));
    StripParts(pre, k, fst + ([HintWord(|ms| - k)] + snd));
    StripParts(pre, |ms|, fst + snd);
    StripParts(fst, |ms| - k, snd);
    StripConcat(fst, snd);
  }

  // ----- moved instructions -----

  /** The same cell at another address. */
  ghost predicate MovedCell(x: Cell, y: Cell) {
    y.hint == x.hint && y.insn == x.insn.(addr := y.insn.addr)
  }

  /** `q` holds `off` cells later, moved, what `p` holds from `lo` to `hi`. */
  ghost predicate Moved(p: Program, lo: nat, hi: nat, q: Program, off: nat) {
    hi <= |p| && hi + off <= |q| && forall x :: lo <= x < hi ==> MovedCell(p[x], q[x + off])
  }

  /** What makes the hint at `j` safe where nothing is between the members. */
  ghost predicate MembersFit(p: Program, j: nat, n: nat) {
    && j + n < |p| && Accepted(n, MembersAt(p, j, n))
    && (n >= 2 ==> !Control(MembersAt(p, j, n)[0]))
  }

  ghost predicate HintFits(p: Program, j: nat)
    requires j < |p|
  {
    Forms(p, j) ==> MembersFit(p, j, Len(p, j))
  }

  ghost predicate MovedInsns(xs: seq<Insn>, ys: seq<Insn>) {
    |xs| == |ys| && forall k :: 0 <= k < |xs| ==> ys[k] == xs[k].(addr := ys[k].addr)
  }

  lemma {:induction false} MovedAccepted(xs: seq<Insn>, ys: seq<Insn>, n: nat)
    requires MovedInsns(xs, ys) && Accepted(n, xs)
    ensures Accepted(n, ys)
  {
    forall k | 0 < k < |ys| ensures Worker(ys[k]) {
      assert Worker(xs[k]);
    }
    forall i, j | 0 <= i < j < |ys| ensures !Raw(ys[i], ys[j]) && !Waw(ys[i], ys[j]) {
      assert !Raw(xs[i], xs[j]) && !Waw(xs[i], xs[j]);
    }
  }

  lemma {:induction false} MembersMoved(p: Program, i: nat, lo: nat, hi: nat, q: Program, off: nat, j: nat, n: nat)
    requires Moved(p, lo, hi, q, off) && j == i + off && lo == i + 1 && lo + n <= hi
    ensures MovedInsns(MembersAt(p, i, n), MembersAt(q, j, n))
  {
    var xs, ys := MembersAt(p, i, n), MembersAt(q, j, n);
    forall k | 0 <= k < n ensures ys[k] == xs[k].(addr := ys[k].addr) {
      var x := i + 1 + k;
      assert MovedCell(p[x], q[x + off]);
    }
  }

  lemma {:induction false} MovedFits(p: Program, i: nat, lo: nat, hi: nat, q: Program, off: nat, j: nat, n: nat)
    requires Moved(p, lo, hi, q, off) && j == i + off && lo == i + 1 && lo + n <= hi && MembersFit(p, i, n)
    ensures MembersFit(q, j, n)
  {
    MembersMoved(p, i, lo, hi, q, off, j, n);
    MovedAccepted(MembersAt(p, i, n), MembersAt(q, j, n), n);
  }

  lemma {:induction false} PartsFit(p: Program, h: nat, n: nat, k: nat, m: nat, rest: nat)
    requires 0 < k < n == k + rest && m == h + k && MembersFit(p, h, n)
    ensures MembersFit(p, h, k) && MembersFit(p, m, rest)
  {
    var ms := MembersAt(p, h, n);
    SplitAccepted(ms, k);
    assert MembersAt(p, h, k) == ms[..k] && MembersAt(p, m, rest) == ms[k..];
  }

  lemma {:induction false} SafeFits(p: Program, j: nat)
    requires ProgramSafe(p) && j < |p|
    ensures HintFits(p, j)
  {
    if Forms(p, j) { assert HintSafe(p, j); }
  }

  // ----- the cut, on programs -----

  /** `q` is `p` with the bundle of `n` at `h` cut at `m` into the first `k` members, none of them a
      hint, and the other `rest`. */
  ghost predicate CutAt(p: Program, q: Program, h: nat, m: nat, n: nat, k: nat, rest: nat) {
    && 0 < k && 0 < rest && n == k + rest <= MAX_BUNDLE && m == h + 1 + k && h + n < |p| && |q| == |p| + 1
    && Moved(p, 0, h, q, 0) && Moved(p, h + 1, m, q, 0) && Moved(p, m, |p|, q, 1)
    && p[h].hint == Some(n) && q[h].hint == Some(k) && q[m].hint == Some(rest)
    && forall j :: h < j < m ==> p[j].hint.None?
  }

  /** No bundle ahead of the hint at `h` reaches it. */
  ghost predicate NoneReach(p: Program, h: nat) {
    forall j :: 0 <= j < h < |p| && Forms(p, j) ==> j + Len(p, j) < h
  }

  lemma {:induction false} MovedPart(p: Program, lo: nat, hi: nat, q: Program, off: nat, mid: nat)
    requires Moved(p, lo, hi, q, off) && lo <= mid
    ensures Moved(p, mid, hi, q, off)
  {
  }

  /** A hint that is only moved, and with it its members. */
  lemma {:induction false} KeptFits(p: Program, i: nat, lo: nat, hi: nat, q: Program, off: nat, j: nat)
    requires lo <= i < hi && j == i + off && Moved(p, lo, hi, q, off) && HintFits(p, i)
    requires Forms(p, i) ==> i + Len(p, i) < hi
    ensures HintFits(q, j)
  {
    assert MovedCell(p[i], q[i + off]);
    if Forms(p, i) {
      MovedPart(p, lo, hi, q, off, i + 1);
      MovedFits(p, i, i + 1, hi, q, off, j, Len(p, i));
    }
  }

  lemma {:induction false} EarlierFits(p: Program, q: Program, h: nat, j: nat)
    requires ProgramSafe(p) && NoneReach(p, h) && h < |p| && Moved(p, 0, h, q, 0) && j < h
    ensures HintFits(q, j)
  {
    SafeFits(p, j);
    KeptFits(p, j, 0, h, q, 0, j);
  }

  lemma {:induction false} LaterFits(p: Program, q: Program, m: nat, i: nat, j: nat)
    requires ProgramSafe(p) && Moved(p, m, |p|, q, 1) && m <= i < |p| && j == i + 1
    ensures HintFits(q, j)
  {
    SafeFits(p, i);
    if Forms(p, i) { assert MembersFit(p, i, Len(p, i)); }
    KeptFits(p, i, m, |p|, q, 1, j);
  }

  lemma {:induction false} PartsFitCut(p: Program, q: Program, h: nat, m: nat, n: nat, k: nat, rest: nat, l: nat)
    requires ProgramSafe(p) && CutAt(p, q, h, m, n, k, rest) && l == h + k
    ensures HintFits(q, h) && HintFits(q, m)
  {
    SafeFits(p, h);
    assert Forms(p, h) && Len(p, h) == n;
    PartsFit(p, h, n, k, l, rest);
    MovedFits(p, h, h + 1, m, q, 0, h, k);
    MovedFits(p, l, m, |p|, q, 1, m, rest);
  }

  lemma {:induction false} CutFits(p: Program, q: Program, h: nat, m: nat, n: nat, k: nat, rest: nat, j: nat)
    requires ProgramSafe(p) && NoneReach(p, h) && CutAt(p, q, h, m, n, k, rest) && j < |q|
    ensures HintFits(q, j)
  {
    if j < h {
      EarlierFits(p, q, h, j);
    } else if j == h || j == m {
      PartsFitCut(p, q, h, m, n, k, rest, h + k);
    } else if j < m {
      assert MovedCell(p[j], q[j + 0]);
    } else {
      LaterFits(p, q, m, j - 1, j);
    }
  }

  // ----- the cut, on listings -----

  function Laid(code: seq<nat>, addr: nat, func: string): (p: Program)
    ensures |p| == |code|
  {
    ProgramOf(Layout(code, addr, func))
  }

  lemma {:induction false} LineCell(lines: seq<Line>, i: nat, w: nat)
    requires i < |lines| && lines[i].word == w
    ensures var p := ProgramOf(lines); p[i].hint == HintLength(w) && p[i].insn == Decode(p[i].insn.addr, w)
  {
    DecodeKeepsPlace(lines[i].addr, w);
  }

  lemma {:induction false} LaidCell(code: seq<nat>, addr: nat, func: string, i: nat)
    requires i < |code|
    ensures var p := Laid(code, addr, func);
            p[i].hint == HintLength(code[i]) && p[i].insn == Decode(p[i].insn.addr, code[i])
  {
    LineCell(Layout(code, addr, func), i, code[i]);
  }

  lemma {:induction false} LaidMoved(c: seq<nat>, i: nat, d: seq<nat>, j: nat, addr: nat, func: string)
    requires i < |c| && j < |d| && c[i] == d[j]
    ensures MovedCell(Laid(c, addr, func)[i], Laid(d, addr, func)[j])
  {
    LaidCell(c, addr, func, i);
    LaidCell(d, addr, func, j);
    MovedWord(Laid(c, addr, func)[i].insn.addr, Laid(d, addr, func)[j].insn.addr, c[i]);
  }

  /** `d` holds `off` words later what `c` holds from `lo` to `hi`. */
  ghost predicate Alike(c: seq<nat>, lo: nat, hi: nat, d: seq<nat>, off: nat) {
    hi <= |c| && hi + off <= |d| && forall x :: lo <= x < hi ==> c[x] == d[x + off]
  }

  lemma {:induction false} AlikeMoved(c: seq<nat>, lo: nat, hi: nat, d: seq<nat>, off: nat, addr: nat, func: string)
    requires Alike(c, lo, hi, d, off)
    ensures Moved(Laid(c, addr, func), lo, hi, Laid(d, addr, func), off)
  {
    var p, q := Laid(c, addr, func), Laid(d, addr, func);
    forall x | lo <= x < hi ensures MovedCell(p[x], q[x + off]) {
      assert c[x] == d[x + off];
      LaidMoved(c, x, d, x + off, addr, func);
    }
  }

  lemma {:induction false} CutAlike(pre: seq<nat>, ms: seq<nat>, k: nat, post: seq<nat>, c: seq<nat>, d: seq<nat>,
                                    h: nat, m: nat, n: nat, rest: nat)
    requires 0 < k < n == |ms| && rest == n - k && h == |pre| && m == h + 1 + k
    requires c == Whole(pre, ms, post) && d == Cut(pre, ms, k, post)
    ensures |d| == |c| + 1 && h + n < |c| && m < |c|
    ensures Alike(c, 0, h, d, 0) && Alike(c, h + 1, m, d, 0) && Alike(c, m, |c|, d, 1)
    ensures c[h] == HintWord(n) && d[h] == HintWord(k) && d[m] == HintWord(rest)
    ensures forall j :: h < j < m ==> c[j] in ms
  {
    forall j | h < j < m ensures c[j] in ms {
      assert c[j] == ms[j - h - 1];
    }
  }

  lemma {:induction false} HintLaid(code: seq<nat>, addr: nat, func: string, j: nat, n: nat)
    requires j < |code| && code[j] == HintWord(n) && 1 <= n < 32
    ensures Laid(code, addr, func)[j].hint == Some(n)
  {
    LaidCell(code, addr, func, j);
    HintRoundTrip(n);
  }

  lemma {:induction false} LaidRuns(c: seq<nat>, d: seq<nat>, h: nat, m: nat, addr: nat, func: string, p: Program,
                                    q: Program)
    requires p == Laid(c, addr, func) && q == Laid(d, addr, func) && m <= |c|
    requires Alike(c, 0, h, d, 0) && Alike(c, h + 1, m, d, 0) && Alike(c, m, |c|, d, 1)
    ensures Moved(p, 0, h, q, 0) && Moved(p, h + 1, m, q, 0) && Moved(p, m, |p|, q, 1)
  {
    AlikeMoved(c, 0, h, d, 0, addr, func);
    AlikeMoved(c, h + 1, m, d, 0, addr, func);
    AlikeMoved(c, m, |c|, d, 1, addr, func);
  }

  lemma {:induction false} LaidPlain(c: seq<nat>, lo: nat, hi: nat, addr: nat, func: string, p: Program)
    requires p == Laid(c, addr, func) && hi <= |c| && forall j :: lo < j < hi ==> HintLength(c[j]).None?
    ensures forall j :: lo < j < hi ==> p[j].hint.None?
  {
    forall j | lo < j < hi ensures p[j].hint.None? {
      LaidCell(c, addr, func, j);
    }
  }

  lemma {:induction false} LaidHints(c: seq<nat>, d: seq<nat>, h: nat, m: nat, addr: nat, func: string, p: Program,
                                     q: Program, n: nat, k: nat, rest: nat)
    requires p == Laid(c, addr, func) && q == Laid(d, addr, func) && h < |c| && h < m < |d|
    requires c[h] == HintWord(n) && d[h] == HintWord(k) && d[m] == HintWord(rest)
    requires 1 <= k < n < 32 && 1 <= rest < 32
    ensures p[h].hint == Some(n) && q[h].hint == Some(k) && q[m].hint == Some(rest)
  {
    HintLaid(c, addr, func, h, n);
    HintLaid(d, addr, func, h, k);
    HintLaid(d, addr, func, m, rest);
  }

  lemma {:induction false} LaidCut(pre: seq<nat>, ms: seq<nat>, k: nat, post: seq<nat>, addr: nat, func: string,
                                   p: Program, q: Program, h: nat, m: nat, n: nat, rest: nat)
    requires 0 < k < n == |ms| <= MAX_BUNDLE && (forall w :: w in ms ==> HintLength(w).None?)
    requires p == Laid(Whole(pre, ms, post), addr, func) && q == Laid(Cut(pre, ms, k, post), addr, func)
    requires h == |pre| && m == h + 1 + k && rest == n - k
    ensures CutAt(p, q, h, m, n, k, rest)
  {
    var c, d := Whole(pre, ms, post), Cut(pre, ms, k, post);
    CutAlike(pre, ms, k, post, c, d, h, m, n, rest);
    LaidRuns(c, d, h, m, addr, func, p, q);
    LaidHints(c, d, h, m, addr, func, p, q, n, k, rest);
    LaidPlain(c, h, m, addr, func, p);
  }

  lemma {:induction false} FitIsSafe(code: seq<nat>, addr: nat, func: string, p: Program, j: nat)
    requires p == Laid(code, addr, func) && j < |p| && Forms(p, j) && HintFits(p, j)
    ensures HintSafe(p, j)
  {
    LayoutAdjacent(code, addr, func, j, Len(p, j));
  }

  lemma {:induction false} FitsAreSafe(code: seq<nat>, addr: nat, func: string, p: Program)
    requires p == Laid(code, addr, func) && (forall w :: w in code ==> WholeWord(w))
    requires forall j :: 0 <= j < |p| ==> HintFits(p, j)
    ensures ProgramSafe(p)
  {
    LayoutWellFormed(code, addr, func);
    ProgramShape(Layout(code, addr, func));
    forall j | 0 <= j < |p| && Forms(p, j) ensures HintSafe(p, j) {
      FitIsSafe(code, addr, func, p, j);
    }
  }

  /** The code, its bundle of two to four plain words, and the place of the cut. No earlier bundle
      reaches into this one. */
  ghost predicate Cuttable(pre: seq<nat>, ms: seq<nat>, k: nat, post: seq<nat>, addr: nat, func: string) {
    && 0 < k < |ms| <= MAX_BUNDLE && (forall w :: w in Whole(pre, ms, post) ==> WholeWord(w))
    && (forall w :: w in ms ==> HintLength(w).None?)
    && NoneReach(Laid(Whole(pre, ms, post), addr, func), |pre|)
  }

  lemma {:induction false} CutWords(pre: seq<nat>, ms: seq<nat>, k: nat, post: seq<nat>)
    requires 0 < k < |ms| < 32 && forall w :: w in Whole(pre, ms, post) ==> WholeWord(w)
    ensures forall w :: w in Cut(pre, ms, k, post) ==> WholeWord(w)
  {
    HintRoundTrip(k);
    HintRoundTrip(|ms| - k);
    forall w | w in Cut(pre, ms, k, post) ensures WholeWord(w) {
      assert w == HintWord(k) || w == HintWord(|ms| - k) || w in Whole(pre, ms, post);
    }
  }

  /** A safe listing stays safe when one of its bundles is cut: both parts may be honoured, and so
      may every other hint, now two bytes on. */
  lemma {:induction false} SplitIsSafe(pre: seq<nat>, ms: seq<nat>, k: nat, post: seq<nat>, addr: nat, func: string)
    requires Cuttable(pre, ms, k, post, addr, func) && ProgramSafe(Laid(Whole(pre, ms, post), addr, func))
    ensures ProgramSafe(Laid(Cut(pre, ms, k, post), addr, func))
  {
    var p, q := Laid(Whole(pre, ms, post), addr, func), Laid(Cut(pre, ms, k, post), addr, func);
    var h, m, rest := |pre|, |pre| + 1 + k, |ms| - k;
    LaidCut(pre, ms, k, post, addr, func, p, q, h, m, |ms|, rest);
    forall j | 0 <= j < |q| ensures HintFits(q, j) {
      CutFits(p, q, h, m, |ms|, k, rest, j);
    }
    CutWords(pre, ms, k, post);
    FitsAreSafe(Cut(pre, ms, k, post), addr, func, q);
  }

  // ----- and computes the same -----

  /** On RV32IMAFC, for code that keeps no address: the STARBUG machine on the cut listing, whatever
      it honours of either part, passes through or can be run on to a state with the registers and
      memory in which the stock core leaves the whole one. */
  lemma {:induction false} SplitAgrees(host: Host, pre: seq<nat>, ms: seq<nat>, k: nat, post: seq<nat>, addr: nat,
                                       func: string, a: Arch, tr: seq<State>)
      returns (l: nat, end: State, final: State)
    requires Cuttable(pre, ms, k, post, addr, func) && ProgramSafe(Laid(Whole(pre, ms, post), addr, func))
    requires PlaceFreeCode(Strip(Whole(pre, ms, post)))
    requires var q := Laid(Cut(pre, ms, k, post), addr, func);
             q != [] && StarbugRun(Rv32Semantics(host), q, tr) && tr[0] == State(q[0].insn.addr, a)
    ensures var sem := Rv32Semantics(host);
            var p, q := Laid(Whole(pre, ms, post), addr, func), Laid(Cut(pre, ms, k, post), addr, func);
            && Reaches(sem, p, State(p[0].insn.addr, a), l, end)
            && end == RunFrom(sem, Placed(p), a, BlockEnd(p))
            && final.arch == end.arch && (final in tr || CanReach(sem, q, tr[|tr| - 1], final))
            && (StraightCode(Strip(Whole(pre, ms, post))) ==>
                  && final.pc == BlockEnd(q) && Halted(q, final) && Halted(p, end)
                  && (Halted(q, tr[|tr| - 1]) ==> tr[|tr| - 1] == final))
  {
    var c, d := Whole(pre, ms, post), Cut(pre, ms, k, post);
    var p, q := Laid(c, addr, func), Laid(d, addr, func);
    SameStrip(pre, ms, k, post);
    CutWords(pre, ms, k, post);
    StripPlaceFree(c);
    StripPlaceFree(d);
    LayoutLaidOut(host, c, addr, func);
    LayoutLaidOut(host, d, addr, func);
    LayoutFramed(host, d, addr, func);
    l, end := RunsThrough(host, p, c, a);
    var j;
    j, final := RunsThrough(host, q, d, a);
    SameCodeSameResult(host, p, c, q, d, a);
    SplitIsSafe(pre, ms, k, post, addr, func);
    BlockMeets(Rv32Semantics(host), q, a, tr, final);
  }
}
