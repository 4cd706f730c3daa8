/** What every figure of `tools/starbug_profile.py` counts, line by line. */
module Breakdown {
  import opened Wrappers
  import opened Isa
  import opened Checker
  import opened Counters
  import opened Profile
  import opened Report
  import opened Conservation

  // ----- what a line is credited with -----

  /** Line `i` is the hint of a safe bundle. */
  ghost predicate Heads(lines: seq<Line>, i: nat) {
    !NoSafeHead(Scan(lines, 0), i)
  }

  /** Line `i` is a member of a safe bundle. */
  ghost predicate Lies(lines: seq<Line>, i: nat) {
    SafeInside(Scan(lines, 0), i)
  }

  /** The members the hint on line `i` announces. */
  function Width(lines: seq<Line>, i: nat): nat {
    if i < |lines| && HintAt(lines[i]).Some? then HintAt(lines[i]).value else 0
  }

  function Ran(lines: seq<Line>, hist: map<nat, nat>, i: nat): nat {
    if i < |lines| then At(hist, lines[i].addr) else 0
  }

  /** Hints: the ones that are not themselves members of a bundle. */
  ghost function Hinting(lines: seq<Line>, hist: map<nat, nat>): nat -> nat {
    (i: nat) => if i < |lines| && HintAt(lines[i]).Some? && !Lies(lines, i) then Ran(lines, hist, i) else 0
  }

  /** Instructions issued alone: no hint, and in no safe bundle. */
  ghost function Lone(lines: seq<Line>, hist: map<nat, nat>): nat -> nat {
    (i: nat) => if i < |lines| && HintAt(lines[i]).None? && !Lies(lines, i) then Ran(lines, hist, i) else 0
  }

  /** Executions of safe bundles. */
  ghost function Headed(lines: seq<Line>, hist: map<nat, nat>): nat -> nat {
    (i: nat) => if Heads(lines, i) then Ran(lines, hist, i) else 0
  }

  function Slots(count: nat, width: nat): nat {
    count * width
  }

  /** Instructions issued inside safe bundles. */
  ghost function Bundled(lines: seq<Line>, hist: map<nat, nat>): nat -> nat {
    (i: nat) => if Heads(lines, i) then Slots(Ran(lines, hist, i), Width(lines, i)) else 0
  }

  // ----- the lines a counter is about -----

  ghost function Only(p: nat -> bool, w: nat -> nat): nat -> nat {
    (i: nat) => if p(i) then w(i) else 0
  }

  function OfClass(lines: seq<Line>, cls: Class): nat -> bool {
    (i: nat) => i < |lines| && DecodeLine(lines[i]).cls == cls
  }

  function InFunction(lines: seq<Line>, func: string): nat -> bool {
    (i: nat) => i < |lines| && lines[i].func == func
  }

  function Wider(lines: seq<Line>, lane: nat): nat -> bool {
    (i: nat) => lane < Width(lines, i)
  }

  function OfWidth(lines: seq<Line>, n: nat): nat -> bool {
    (i: nat) => Width(lines, i) == n
  }

  // ----- the itemised profile -----

  /** The four totals, over the first `k` lines. */
  ghost predicate Totalled(r: Counts, lines: seq<Line>, hist: map<nat, nat>, k: nat) {
    && r.hints == SumTo(k, Hinting(lines, hist))
    && r.scalar == SumTo(k, Lone(lines, hist))
    && r.execs == SumTo(k, Headed(lines, hist))
    && r.inBundles == SumTo(k, Bundled(lines, hist))
  }

  ghost predicate ByClass(r: Counts, lines: seq<Line>, hist: map<nat, nat>, k: nat) {
    forall cls: Class :: At(r.scalarByClass, cls) == SumTo(k, Only(OfClass(lines, cls), Lone(lines, hist)))
  }

  ghost predicate FunctionHas(r: Counts, lines: seq<Line>, hist: map<nat, nat>, k: nat, func: string) {
    var own := InFunction(lines, func);
    var lone := SumTo(k, Only(own, Lone(lines, hist)));
    var bundled := SumTo(k, Only(own, Bundled(lines, hist)));
    && At(r.fnPayload, func) == lone + bundled
    && At(r.fnBundled, func) == bundled
    && At(r.fnCycles, func) == lone + SumTo(k, Only(own, Headed(lines, hist)))
  }

  /** A function is credited with its lone instructions and with the bundles whose hint it holds. */
  ghost predicate ByFunction(r: Counts, lines: seq<Line>, hist: map<nat, nat>, k: nat) {
    forall func: string :: FunctionHas(r, lines, hist, k, func)
  }

  ghost predicate ByLane(r: Counts, lines: seq<Line>, hist: map<nat, nat>, k: nat) {
    forall lane: nat :: At(r.lanes, lane) == SumTo(k, Only(Wider(lines, lane), Headed(lines, hist)))
  }

  ghost predicate BySize(r: Counts, lines: seq<Line>, hist: map<nat, nat>, k: nat) {
    forall n: nat :: At(r.sizes, n) == SumTo(k, Only(OfWidth(lines, n), Headed(lines, hist)))
  }

  ghost predicate Itemised(r: Counts, lines: seq<Line>, hist: map<nat, nat>, k: nat) {
    && Totalled(r, lines, hist, k) && ByClass(r, lines, hist, k) && ByFunction(r, lines, hist, k)
    && ByLane(r, lines, hist, k) && BySize(r, lines, hist, k)
  }

  // ----- what one line adds -----

  /** A line adds `h` hints, `x` lone instructions and `e` executions of a bundle of width `w` with
      `s` instructions in all. */
  datatype Gain = Gain(h: nat, x: nat, e: nat, w: nat, s: nat)

  ghost predicate AddsTotals(r: Counts, t: Counts, d: Gain) {
    && t.hints == r.hints + d.h && t.scalar == r.scalar + d.x
    && t.execs == r.execs + d.e && t.inBundles == r.inBundles + d.s
  }

  ghost predicate AddsClass(r: Counts, t: Counts, d: Gain, cls: Class) {
    forall c: Class :: At(t.scalarByClass, c) == At(r.scalarByClass, c) + if c == cls then d.x else 0
  }

  ghost predicate AddsTo(r: Counts, t: Counts, d: Gain, func: string, g: string) {
    && At(t.fnPayload, g) == At(r.fnPayload, g) + (if g == func then d.x + d.s else 0)
    && At(t.fnBundled, g) == At(r.fnBundled, g) + (if g == func then d.s else 0)
    && At(t.fnCycles, g) == At(r.fnCycles, g) + (if g == func then d.x + d.e else 0)
  }

  ghost predicate AddsFunction(r: Counts, t: Counts, d: Gain, func: string) {
    forall g: string :: AddsTo(r, t, d, func, g)
  }

  ghost predicate AddsLanes(r: Counts, t: Counts, d: Gain) {
    forall lane: nat :: At(t.lanes, lane) == At(r.lanes, lane) + if lane < d.w then d.e else 0
  }

  ghost predicate AddsSize(r: Counts, t: Counts, d: Gain) {
    forall n: nat :: At(t.sizes, n) == At(r.sizes, n) + if n == d.w then d.e else 0
  }

  ghost predicate Adds(r: Counts, t: Counts, d: Gain, cls: Class, func: string) {
    && AddsTotals(r, t, d) && AddsClass(r, t, d, cls) && AddsFunction(r, t, d, func)
    && AddsLanes(r, t, d) && AddsSize(r, t, d)
  }

  lemma {:induction false} BumpAt<K>(c: map<K, nat>, k: K, d: nat, j: K)
    ensures At(Bump(c, k, d), j) == At(c, j) + if j == k then d else 0
  {
  }

  lemma {:induction false} LanesAt(lanes: map<nat, nat>, n: nat, count: nat, lane: nat)
    ensures At(BumpLanes(lanes, n, count), lane) == At(lanes, lane) + if lane < n then count else 0
    decreases n
  {
    if n > 0 {
      LanesAt(lanes, n - 1, count, lane);
      BumpAt(BumpLanes(lanes, n - 1, count), n - 1, count, lane);
    }
  }

  lemma {:induction false} BundleFunctions(r: Counts, n: nat, count: nat, func: string, s: nat)
    requires s == count * n
    ensures AddsFunction(r, AddBundle(r, n, count, func), Gain(count, 0, count, n, s), func)
  {
    forall g: string ensures AddsTo(r, AddBundle(r, n, count, func), Gain(count, 0, count, n, s), func, g) {
      BumpAt(r.fnPayload, func, s, g);
      BumpAt(r.fnBundled, func, s, g);
      BumpAt(r.fnCycles, func, count, g);
    }
  }

  lemma {:induction false} BundleAdds(r: Counts, n: nat, count: nat, cls: Class, func: string, s: nat)
    requires s == count * n
    ensures Adds(r, AddBundle(r, n, count, func), Gain(count, 0, count, n, s), cls, func)
  {
    BundleFunctions(r, n, count, func, s);
    forall lane: nat ensures At(BumpLanes(r.lanes, n, count), lane)
                             == At(r.lanes, lane) + if lane < n then count else 0 {
      LanesAt(r.lanes, n, count, lane);
    }
    forall k: nat ensures At(Bump(r.sizes, n, count), k) == At(r.sizes, k) + if k == n then count else 0 {
      BumpAt(r.sizes, n, count, k);
    }
  }

  lemma {:induction false} ScalarAdds(r: Counts, w: nat, count: nat, cls: Class, func: string)
    ensures Adds(r, AddScalar(r, cls, count, func), Gain(0, count, 0, w, 0), cls, func)
  {
    forall c: Class ensures At(Bump(r.scalarByClass, cls, count), c)
                            == At(r.scalarByClass, c) + if c == cls then count else 0 {
      BumpAt(r.scalarByClass, cls, count, c);
    }
    forall g: string ensures AddsTo(r, AddScalar(r, cls, count, func), Gain(0, count, 0, w, 0), func, g) {
      BumpAt(r.fnPayload, func, count, g);
      BumpAt(r.fnCycles, func, count, g);
    }
  }

  lemma {:induction false} HintAdds(r: Counts, w: nat, count: nat, cls: Class, func: string)
    ensures Adds(r, r.(hints := r.hints + count), Gain(count, 0, 0, w, 0), cls, func)
  {
  }

  lemma {:induction false} NothingAdds(r: Counts, w: nat, cls: Class, func: string)
    ensures Adds(r, r, Gain(0, 0, 0, w, 0), cls, func)
  {
  }

  // ----- the part each line plays -----

  /** What line `i` is credited with. */
  ghost function GainAt(lines: seq<Line>, hist: map<nat, nat>, i: nat): Gain {
    Gain(Hinting(lines, hist)(i), Lone(lines, hist)(i), Headed(lines, hist)(i), Width(lines, i),
         Bundled(lines, hist)(i))
  }

  lemma {:induction false} HeadShape(lines: seq<Line>, i: nat, f: Found)
    requires i < |lines| && SafeHead(Scan(lines, 0), i, f)
    ensures HintAt(lines[i]) == Some(|f.members|) && Width(lines, i) == |f.members| && !Lies(lines, i)
  {
    ScanPartitions(lines, 0);
    SafeBundleIsWhole(lines, f);
  }

  /** The accounting of line `i` after the lines before it. */
  function Next(r: Counts, lines: seq<Line>, hist: map<nat, nat>, i: nat): Counts
    requires i < |lines|
  {
    AddLine(r, lines[i], hist, BundleAt(Scan(lines, 0)), MemberAddrs(Scan(lines, 0)))
  }

  ghost predicate LineAdds(r: Counts, lines: seq<Line>, hist: map<nat, nat>, i: nat)
    requires i < |lines|
  {
    Adds(r, Next(r, lines, hist, i), GainAt(lines, hist, i), DecodeLine(lines[i]).cls, lines[i].func)
  }

  lemma {:induction false} GainOfHead(lines: seq<Line>, hist: map<nat, nat>, i: nat, f: Found, c: nat, s: nat)
    requires i < |lines| && SafeHead(Scan(lines, 0), i, f) && c == At(hist, lines[i].addr) && s == Slots(c, |f.members|)
    ensures GainAt(lines, hist, i) == Gain(c, 0, c, |f.members|, s)
  {
    HeadShape(lines, i, f);
    assert Heads(lines, i);
  }

  lemma {:induction false} GainOfOther(lines: seq<Line>, hist: map<nat, nat>, i: nat)
    requires i < |lines| && !Heads(lines, i)
    ensures var c := At(hist, lines[i].addr);
            GainAt(lines, hist, i) == if Lies(lines, i) then Gain(0, 0, 0, Width(lines, i), 0)
              else if HintAt(lines[i]).Some? then Gain(c, 0, 0, Width(lines, i), 0)
              else Gain(0, c, 0, Width(lines, i), 0)
  {
  }

  lemma {:induction false} NextOfHead(r: Counts, lines: seq<Line>, hist: map<nat, nat>, i: nat, f: Found, c: nat)
    requires WellFormed(lines) && i < |lines| && SafeHead(Scan(lines, 0), i, f) && c == At(hist, lines[i].addr)
    ensures Next(r, lines, hist, i) == if c == 0 then r else AddBundle(r, |f.members|, c, lines[i].func)
  {
    HeadLine(lines, i, f);
  }

  lemma {:induction false} NextOfOther(r: Counts, lines: seq<Line>, hist: map<nat, nat>, i: nat, c: nat)
    requires WellFormed(lines) && i < |lines| && !Heads(lines, i) && c == At(hist, lines[i].addr)
    ensures c == 0 || Lies(lines, i) ==> Next(r, lines, hist, i) == r
    ensures c > 0 && !Lies(lines, i) ==>
              Next(r, lines, hist, i) == if HintAt(lines[i]).Some? then r.(hints := r.hints + c)
                                         else AddScalar(r, DecodeLine(lines[i]).cls, c, lines[i].func)
  {
    NotHeadLine(lines, i);
    InsideLine(lines, i);
  }

  lemma {:induction false} HeadAdds(r: Counts, t: Counts, n: nat, c: nat, cls: Class, func: string, s: nat)
    requires s == Slots(c, n) && t == if c == 0 then r else AddBundle(r, n, c, func)
    ensures Adds(r, t, Gain(c, 0, c, n, s), cls, func)
  {
    if c == 0 { NothingAdds(r, n, cls, func); } else { BundleAdds(r, n, c, cls, func, s); }
  }

  lemma {:induction false} HeadLineAdds(r: Counts, lines: seq<Line>, hist: map<nat, nat>, i: nat, f: Found)
    requires WellFormed(lines) && i < |lines| && SafeHead(Scan(lines, 0), i, f)
    ensures LineAdds(r, lines, hist, i)
  {
    var c := At(hist, lines[i].addr);
    var s := Slots(c, |f.members|);
    GainOfHead(lines, hist, i, f, c, s);
    NextOfHead(r, lines, hist, i, f, c);
    HeadAdds(r, Next(r, lines, hist, i), |f.members|, c, DecodeLine(lines[i]).cls, lines[i].func, s);
  }

  lemma {:induction false} OtherLineAdds(r: Counts, lines: seq<Line>, hist: map<nat, nat>, i: nat)
    requires WellFormed(lines) && i < |lines| && !Heads(lines, i)
    ensures LineAdds(r, lines, hist, i)
  {
    var c, w, cls, func := At(hist, lines[i].addr), Width(lines, i), DecodeLine(lines[i]).cls, lines[i].func;
    GainOfOther(lines, hist, i);
    NextOfOther(r, lines, hist, i, c);
    if c == 0 || Lies(lines, i) {
      NothingAdds(r, w, cls, func);
    } else if HintAt(lines[i]).Some? {
      HintAdds(r, w, c, cls, func);
    } else {
      ScalarAdds(r, w, c, cls, func);
    }
  }

  lemma {:induction false} EveryLineAdds(r: Counts, lines: seq<Line>, hist: map<nat, nat>, i: nat)
    requires WellFormed(lines) && i < |lines|
    ensures LineAdds(r, lines, hist, i)
  {
    if Heads(lines, i) {
      var f :| SafeHead(Scan(lines, 0), i, f);
      HeadLineAdds(r, lines, hist, i, f);
    } else {
      OtherLineAdds(r, lines, hist, i);
    }
  }

  // ----- all lines -----

  lemma {:induction false} SumSnoc(w: nat -> nat, k: nat, j: nat)
    requires j == k + 1
    ensures SumTo(j, w) == SumTo(k, w) + w(k)
  {
  }

  lemma {:induction false} SumOnly(p: nat -> bool, w: nat -> nat, k: nat, j: nat)
    requires j == k + 1
    ensures SumTo(j, Only(p, w)) == SumTo(k, Only(p, w)) + if p(k) then w(k) else 0
  {
    SumSnoc(Only(p, w), k, j);
  }

  lemma {:induction false} TotalsStep(r: Counts, t: Counts, lines: seq<Line>, hist: map<nat, nat>, k: nat, j: nat)
    requires Totalled(r, lines, hist, k) && AddsTotals(r, t, GainAt(lines, hist, k)) && j == k + 1
    ensures Totalled(t, lines, hist, j)
  {
    SumSnoc(Hinting(lines, hist), k, j);
    SumSnoc(Lone(lines, hist), k, j);
    SumSnoc(Headed(lines, hist), k, j);
    SumSnoc(Bundled(lines, hist), k, j);
  }

  lemma {:induction false} ClassStep(r: Counts, t: Counts, lines: seq<Line>, hist: map<nat, nat>, k: nat, j: nat)
    requires k < |lines| && j == k + 1
    requires ByClass(r, lines, hist, k) && AddsClass(r, t, GainAt(lines, hist, k), DecodeLine(lines[k]).cls)
    ensures ByClass(t, lines, hist, j)
  {
    forall cls: Class ensures At(t.scalarByClass, cls) == SumTo(j, Only(OfClass(lines, cls), Lone(lines, hist))) {
      SumOnly(OfClass(lines, cls), Lone(lines, hist), k, j);
    }
  }

  lemma {:induction false} FunctionStep(r: Counts, t: Counts, lines: seq<Line>, hist: map<nat, nat>, k: nat, j: nat,
                                        func: string)
    requires k < |lines| && j == k + 1
    requires FunctionHas(r, lines, hist, k, func) && AddsTo(r, t, GainAt(lines, hist, k), lines[k].func, func)
    ensures FunctionHas(t, lines, hist, j, func)
  {
    SumOnly(InFunction(lines, func), Lone(lines, hist), k, j);
    SumOnly(InFunction(lines, func), Bundled(lines, hist), k, j);
    SumOnly(InFunction(lines, func), Headed(lines, hist), k, j);
  }

  lemma {:induction false} FunctionsStep(r: Counts, t: Counts, lines: seq<Line>, hist: map<nat, nat>, k: nat, j: nat)
    requires k < |lines| && j == k + 1
    requires ByFunction(r, lines, hist, k) && AddsFunction(r, t, GainAt(lines, hist, k), lines[k].func)
    ensures ByFunction(t, lines, hist, j)
  {
    forall func: string ensures FunctionHas(t, lines, hist, j, func) {
      FunctionStep(r, t, lines, hist, k, j, func);
    }
  }

  lemma {:induction false} LaneStep(r: Counts, t: Counts, lines: seq<Line>, hist: map<nat, nat>, k: nat, j: nat)
    requires ByLane(r, lines, hist, k) && AddsLanes(r, t, GainAt(lines, hist, k)) && j == k + 1
    ensures ByLane(t, lines, hist, j)
  {
    forall lane: nat ensures At(t.lanes, lane) == SumTo(j, Only(Wider(lines, lane), Headed(lines, hist))) {
      SumOnly(Wider(lines, lane), Headed(lines, hist), k, j);
    }
  }

  lemma {:induction false} SizeStep(r: Counts, t: Counts, lines: seq<Line>, hist: map<nat, nat>, k: nat, j: nat)
    requires BySize(r, lines, hist, k) && AddsSize(r, t, GainAt(lines, hist, k)) && j == k + 1
    ensures BySize(t, lines, hist, j)
  {
    forall n: nat ensures At(t.sizes, n) == SumTo(j, Only(OfWidth(lines, n), Headed(lines, hist))) {
      SumOnly(OfWidth(lines, n), Headed(lines, hist), k, j);
    }
  }

  lemma {:induction false} ItemisedStep(r: Counts, t: Counts, lines: seq<Line>, hist: map<nat, nat>, k: nat, j: nat)
    requires k < |lines| && j == k + 1 && Itemised(r, lines, hist, k)
    requires Adds(r, t, GainAt(lines, hist, k), DecodeLine(lines[k]).cls, lines[k].func)
    ensures Itemised(t, lines, hist, j)
  {
    TotalsStep(r, t, lines, hist, k, j);
    ClassStep(r, t, lines, hist, k, j);
    FunctionsStep(r, t, lines, hist, k, j);
    LaneStep(r, t, lines, hist, k, j);
    SizeStep(r, t, lines, hist, k, j);
  }

  lemma {:induction false} NothingItemised(lines: seq<Line>, hist: map<nat, nat>)
    ensures Itemised(NOTHING, lines, hist, 0)
  {
  }

  /** The accounting of the first `k` lines. */
  function Prefix(lines: seq<Line>, hist: map<nat, nat>, k: nat): Counts
    requires k <= |lines|
  {
    Accounted(lines[..k], hist, BundleAt(Scan(lines, 0)), MemberAddrs(Scan(lines, 0)))
  }

  lemma {:induction false} PrefixNext(lines: seq<Line>, hist: map<nat, nat>, i: nat, k: nat)
    requires k == i + 1 <= |lines|
    ensures Prefix(lines, hist, k) == Next(Prefix(lines, hist, i), lines, hist, i)
  {
    assert lines[..k][..i] == lines[..i];
  }

  lemma {:induction false} NoPrefix(lines: seq<Line>, hist: map<nat, nat>)
    ensures Prefix(lines, hist, 0) == NOTHING
  {
  }

  lemma {:induction false} PrefixItemised(lines: seq<Line>, hist: map<nat, nat>, k: nat)
    requires WellFormed(lines) && k <= |lines|
    ensures Itemised(Prefix(lines, hist, k), lines, hist, k)
    decreases k
  {
    if k == 0 {
      NoPrefix(lines, hist);
      NothingItemised(lines, hist);
    } else {
      var i := k - 1;
      PrefixItemised(lines, hist, i);
      var r := Prefix(lines, hist, i);
      PrefixNext(lines, hist, i, k);
      EveryLineAdds(r, lines, hist, i);
      ItemisedStep(r, Prefix(lines, hist, k), lines, hist, i, k);
    }
  }

  /** The profile of a listing, figure by figure: hints, lone instructions and bundle executions, and each
      entry of every breakdown, as sums over the lines. */
  lemma {:induction false} ProfileItemised(lines: seq<Line>, hist: map<nat, nat>)
    requires WellFormed(lines)
    ensures var fs := Scan(lines, 0);
            Itemised(Accounted(lines, hist, BundleAt(fs), MemberAddrs(fs)), lines, hist, |lines|)
  {
    PrefixItemised(lines, hist, |lines|);
    assert lines[..|lines|] == lines;
  }
}
