/** `summarise` of `tools/starbug_bundle_check.py`: the static accounting of a report. */
module Summary {
  import opened Wrappers
  import opened Isa
  import opened Checker
  import opened Counters

  datatype Stats = Stats(
    total: nat, hints: nat, payload: int, bundled: nat, scalar: int,
    sizes: map<nat, nat>, laneUse: map<nat, nat>, classByLane: map<nat, map<Class, nat>>,
    coverage: real, issueCycles: int, staticIlp: real, unsafe: nat, warned: nat)

  // ----- what is counted -----

  /** Members of the safe bundles. */
  function Bundled(fs: seq<Found>): nat {
    if fs == [] then 0 else (if FoundSafe(fs[0]) then |fs[0].members| else 0) + Bundled(fs[1..])
  }

  function SafeCount(fs: seq<Found>): nat {
    if fs == [] then 0 else (if FoundSafe(fs[0]) then 1 else 0) + SafeCount(fs[1..])
  }

  function SizeCount(fs: seq<Found>, n: nat): nat {
    if fs == [] then 0 else (if |fs[0].members| == n then 1 else 0) + SizeCount(fs[1..], n)
  }

  /** Safe bundles that fill the lane. */
  function LaneCount(fs: seq<Found>, lane: nat): nat {
    if fs == [] then 0
    else (if FoundSafe(fs[0]) && lane < |fs[0].members| then 1 else 0) + LaneCount(fs[1..], lane)
  }

  /** Safe bundles that put an instruction of the class in the lane. */
  function ClassCount(fs: seq<Found>, lane: nat, cls: Class): nat {
    if fs == [] then 0
    else (if FoundSafe(fs[0]) && lane < |fs[0].members| && fs[0].members[lane].cls == cls then 1 else 0)
         + ClassCount(fs[1..], lane, cls)
  }

  lemma {:induction false} CountsSnoc(fs: seq<Found>, f: Found, n: nat, cls: Class)
    ensures Bundled(fs + [f]) == Bundled(fs) + if FoundSafe(f) then |f.members| else 0
    ensures SafeCount(fs + [f]) == SafeCount(fs) + if FoundSafe(f) then 1 else 0
    ensures SizeCount(fs + [f], n) == SizeCount(fs, n) + if |f.members| == n then 1 else 0
    ensures LaneCount(fs + [f], n) == LaneCount(fs, n) + if FoundSafe(f) && n < |f.members| then 1 else 0
    ensures ClassCount(fs + [f], n, cls) == ClassCount(fs, n, cls)
            + if FoundSafe(f) && n < |f.members| && f.members[n].cls == cls then 1 else 0
    decreases |fs|
  {
    if fs != [] {
      assert (fs + [f])[1..] == fs[1..] + [f];
      CountsSnoc(fs[1..], f, n, cls);
    }
  }

  // ----- the loops -----

  lemma {:induction false} TakeSnoc<T>(s: seq<T>, k: nat)
    requires k < |s|
    ensures s[..k + 1] == s[..k] + [s[k]]
  {
  }

  lemma {:induction false} TakeAll<T>(s: seq<T>, n: nat)
    requires n == |s|
    ensures s[..n] == s
  {
  }

  /** `class_by_lane`, read like the nested counter it is. */
  function ClassAt2(c: map<nat, map<Class, nat>>, lane: nat, cls: Class): nat {
    if lane in c then At(c[lane], cls) else 0
  }

  function BumpClass(c: map<nat, map<Class, nat>>, lane: nat, cls: Class): map<nat, map<Class, nat>> {
    c[lane := Bump(if lane in c then c[lane] else map[], cls, 1)]
  }

  /** The counters after one more bundle with these members. */
  ghost predicate LanesAdded(c0: map<nat, nat>, c1: map<nat, nat>, ms: seq<Insn>) {
    forall l: nat :: At(c1, l) == At(c0, l) + if l < |ms| then 1 else 0
  }

  ghost predicate ClassesAdded(c0: map<nat, map<Class, nat>>, c1: map<nat, map<Class, nat>>, ms: seq<Insn>) {
    forall l: nat, c: Class ::
      ClassAt2(c1, l, c) == ClassAt2(c0, l, c) + if l < |ms| && ms[l].cls == c then 1 else 0
  }

  /** Adds one safe bundle's members to the lane counters. */
  method CountLanes(ms: seq<Insn>, laneUse0: map<nat, nat>, classes0: map<nat, map<Class, nat>>)
      returns (laneUse: map<nat, nat>, classes: map<nat, map<Class, nat>>)
    ensures LanesAdded(laneUse0, laneUse, ms) && ClassesAdded(classes0, classes, ms)
  {
    laneUse, classes := laneUse0, classes0;
    for i := 0 to |ms|
      invariant LanesAdded(laneUse0, laneUse, ms[..i]) && ClassesAdded(classes0, classes, ms[..i])
    {
      laneUse := Bump(laneUse, i, 1);
      classes := BumpClass(classes, i, ms[i].cls);
    }
    assert ms[..|ms|] == ms;
  }

  ghost predicate LanesAre(c: map<nat, nat>, fs: seq<Found>) {
    forall l: nat :: At(c, l) == LaneCount(fs, l)
  }

  ghost predicate ClassesAre(c: map<nat, map<Class, nat>>, fs: seq<Found>) {
    forall l: nat, k: Class :: ClassAt2(c, l, k) == ClassCount(fs, l, k)
  }

  ghost predicate SizesAre(c: map<nat, nat>, fs: seq<Found>) {
    forall n: nat :: At(c, n) == SizeCount(fs, n)
  }

  ghost predicate CountersAre(laneUse: map<nat, nat>, classes: map<nat, map<Class, nat>>, fs: seq<Found>) {
    LanesAre(laneUse, fs) && ClassesAre(classes, fs)
  }

  lemma {:induction false} SafeSnoc(fs: seq<Found>, f: Found, c0: map<nat, nat>, c1: map<nat, nat>,
                                    d0: map<nat, map<Class, nat>>, d1: map<nat, map<Class, nat>>)
    requires CountersAre(c0, d0, fs) && FoundSafe(f) && LanesAdded(c0, c1, f.members) && ClassesAdded(d0, d1, f.members)
    ensures CountersAre(c1, d1, fs + [f])
  {
    forall l: nat ensures At(c1, l) == LaneCount(fs + [f], l) {
      CountsSnoc(fs, f, l, Alu);
    }
    forall l: nat, k: Class ensures ClassAt2(d1, l, k) == ClassCount(fs + [f], l, k) {
      CountsSnoc(fs, f, l, k);
    }
  }

  lemma {:induction false} UnsafeSnoc(fs: seq<Found>, f: Found, c: map<nat, nat>, d: map<nat, map<Class, nat>>)
    requires CountersAre(c, d, fs) && !FoundSafe(f)
    ensures CountersAre(c, d, fs + [f])
  {
    forall l: nat ensures At(c, l) == LaneCount(fs + [f], l) {
      CountsSnoc(fs, f, l, Alu);
    }
    forall l: nat, k: Class ensures ClassAt2(d, l, k) == ClassCount(fs + [f], l, k) {
      CountsSnoc(fs, f, l, k);
    }
  }

  lemma {:induction false} BundleFacts(bundles: seq<Bundle>, found: seq<Found>, lineBytes: nat, k: nat)
    requires lineBytes > 0 && RepresentAll(bundles, found, lineBytes) && k < |bundles|
    ensures bundles[k].members == found[k].members && bundles[k].Safe() == FoundSafe(found[k])
  {
    assert Represents(bundles[k], found[k], lineBytes);
  }

  /** The lane and class counters over the safe bundles. */
  method CountBundles(bundles: seq<Bundle>, ghost found: seq<Found>, lineBytes: nat)
      returns (laneUse: map<nat, nat>, classes: map<nat, map<Class, nat>>)
    requires lineBytes > 0 && RepresentAll(bundles, found, lineBytes)
    ensures LanesAre(laneUse, found) && ClassesAre(classes, found)
  {
    laneUse, classes := map[], map[];
    for k := 0 to |bundles|
      invariant CountersAre(laneUse, classes, found[..k])
    {
      TakeSnoc(found, k);
      ghost var c0, d0 := laneUse, classes;
      BundleFacts(bundles, found, lineBytes, k);
      if bundles[k].Safe() {
        laneUse, classes := CountLanes(bundles[k].members, laneUse, classes);
        SafeSnoc(found[..k], found[k], c0, laneUse, d0, classes);
      } else {
        UnsafeSnoc(found[..k], found[k], laneUse, classes);
      }
    }
    TakeAll(found, |bundles|);
  }

  lemma {:induction false} SizeAdds(fs: seq<Found>, f: Found, c: map<nat, nat>)
    requires SizesAre(c, fs)
    ensures SizesAre(Bump(c, |f.members|, 1), fs + [f])
    ensures Bundled(fs + [f]) == Bundled(fs) + if FoundSafe(f) then |f.members| else 0
    ensures SafeCount(fs + [f]) == SafeCount(fs) + if FoundSafe(f) then 1 else 0
  {
    forall n: nat ensures At(Bump(c, |f.members|, 1), n) == SizeCount(fs + [f], n) {
      CountsSnoc(fs, f, n, Alu);
    }
    CountsSnoc(fs, f, 0, Alu);
  }

  ghost predicate TotalsAre(bundled: nat, safe: nat, sizes: map<nat, nat>, fs: seq<Found>) {
    bundled == Bundled(fs) && safe == SafeCount(fs) && SizesAre(sizes, fs)
  }

  lemma {:induction false} TotalsSafe(bundled: nat, safe: nat, sizes: map<nat, nat>, fs: seq<Found>, f: Found)
    requires TotalsAre(bundled, safe, sizes, fs) && FoundSafe(f)
    ensures TotalsAre(bundled + |f.members|, safe + 1, Bump(sizes, |f.members|, 1), fs + [f])
  {
    SizeAdds(fs, f, sizes);
  }

  lemma {:induction false} TotalsUnsafe(bundled: nat, safe: nat, sizes: map<nat, nat>, fs: seq<Found>, f: Found)
    requires TotalsAre(bundled, safe, sizes, fs) && !FoundSafe(f)
    ensures TotalsAre(bundled, safe, Bump(sizes, |f.members|, 1), fs + [f])
  {
    SizeAdds(fs, f, sizes);
  }

  /** The totals over all bundles. */
  method CountTotals(bundles: seq<Bundle>, ghost found: seq<Found>, lineBytes: nat)
      returns (bundled: nat, safe: nat, unsafe: nat, sizes: map<nat, nat>)
    requires lineBytes > 0 && RepresentAll(bundles, found, lineBytes)
    ensures bundled == Bundled(found) && safe == SafeCount(found) && unsafe == |found| - safe
    ensures SizesAre(sizes, found)
  {
    bundled, safe, unsafe, sizes := 0, 0, 0, map[];
    for k := 0 to |bundles|
      invariant TotalsAre(bundled, safe, sizes, found[..k]) && unsafe == k - safe
    {
      TakeSnoc(found, k);
      var b := bundles[k];
      BundleFacts(bundles, found, lineBytes, k);
      if b.Safe() {
        TotalsSafe(bundled, safe, sizes, found[..k], found[k]);
        bundled, safe := bundled + |b.members|, safe + 1;
      } else {
        TotalsUnsafe(bundled, safe, sizes, found[..k], found[k]);
        unsafe := unsafe + 1;
      }
      sizes := Bump(sizes, |b.members|, 1);
    }
    TakeAll(found, |bundles|);
  }

  predicate Warned(f: Found, lineBytes: nat)
    requires lineBytes > 0
  {
    f.declared >= 1 && Warnings(f.addr, f.declared, f.members, lineBytes) != []
  }

  /** Bundles with a warning. */
  function WarnedCount(fs: seq<Found>, lineBytes: nat): nat
    requires lineBytes > 0
  {
    if fs == [] then 0
    else WarnedCount(fs[..|fs| - 1], lineBytes) + if Warned(fs[|fs| - 1], lineBytes) then 1 else 0
  }

  lemma {:induction false} WarnedFact(bundles: seq<Bundle>, found: seq<Found>, lineBytes: nat, k: nat)
    requires lineBytes > 0 && RepresentAll(bundles, found, lineBytes) && k < |bundles|
    ensures bundles[k].warnings != [] <==> Warned(found[k], lineBytes)
  {
    assert Represents(bundles[k], found[k], lineBytes);
  }

  lemma {:induction false} WarnedSnoc(fs: seq<Found>, lineBytes: nat, k: nat, n: nat)
    requires lineBytes > 0 && n == k + 1 <= |fs|
    ensures WarnedCount(fs[..n], lineBytes)
            == WarnedCount(fs[..k], lineBytes) + if Warned(fs[k], lineBytes) then 1 else 0
  {
    assert fs[..n][..k] == fs[..k];
  }

  method CountWarned(bundles: seq<Bundle>, ghost found: seq<Found>, lineBytes: nat) returns (n: nat)
    requires lineBytes > 0 && RepresentAll(bundles, found, lineBytes)
    ensures n == WarnedCount(found, lineBytes)
  {
    n := 0;
    for k := 0 to |bundles|
      invariant n == WarnedCount(found[..k], lineBytes)
    {
      WarnedFact(bundles, found, lineBytes, k);
      WarnedSnoc(found, lineBytes, k, k + 1);
      if bundles[k].warnings != [] {
        n := n + 1;
      }
    }
    TakeAll(found, |bundles|);
  }

  // ----- counts are numbers of bundles -----

  /** The members of the bundle, if it is safe. */
  function SafeSize(f: Found): nat {
    if Errors(f.declared, f.members) == [] then |f.members| else 0
  }

  lemma {:induction false} BundledIs(fs: seq<Found>)
    ensures Bundled(fs) == SumOver(fs, SafeSize)
    decreases |fs|
  {
    if fs != [] {
      BundledIs(fs[1..]);
      SumOverCons(fs[0], fs[1..], SafeSize);
      assert [fs[0]] + fs[1..] == fs;
    }
  }

  function OfSize(n: nat): Found -> bool {
    (f: Found) => |f.members| == n
  }

  /** The bundle is safe and has a member in the lane. */
  function Fills(lane: nat): Found -> bool {
    (f: Found) => FoundSafe(f) && lane < |f.members|
  }

  /** And the member is of the class. */
  function FillsWith(lane: nat, cls: Class): Found -> bool {
    (f: Found) => FoundSafe(f) && lane < |f.members| && f.members[lane].cls == cls
  }

  function Warns(lineBytes: nat): Found -> bool
    requires lineBytes > 0
  {
    (f: Found) => Warned(f, lineBytes)
  }

  lemma {:induction false} SafePlaces(fs: seq<Found>)
    ensures SafeCount(fs) == CountIf(fs, FoundSafe)
    decreases |fs|
  {
    if fs != [] { SafePlaces(fs[1..]); }
  }

  lemma {:induction false} SizePlaces(fs: seq<Found>, n: nat)
    ensures SizeCount(fs, n) == CountIf(fs, OfSize(n))
    decreases |fs|
  {
    if fs != [] { SizePlaces(fs[1..], n); }
  }

  lemma {:induction false} LanePlaces(fs: seq<Found>, lane: nat)
    ensures LaneCount(fs, lane) == CountIf(fs, Fills(lane))
    decreases |fs|
  {
    if fs != [] { LanePlaces(fs[1..], lane); }
  }

  lemma {:induction false} ClassPlaces(fs: seq<Found>, lane: nat, cls: Class)
    ensures ClassCount(fs, lane, cls) == CountIf(fs, FillsWith(lane, cls))
    decreases |fs|
  {
    if fs != [] { ClassPlaces(fs[1..], lane, cls); }
  }

  lemma {:induction false} WarnedPlaces(fs: seq<Found>, lineBytes: nat)
    requires lineBytes > 0
    ensures WarnedCount(fs, lineBytes) == CountIf(fs, Warns(lineBytes))
    decreases |fs|
  {
    if fs != [] {
      var init, f := fs[..|fs| - 1], fs[|fs| - 1];
      assert fs == init + [f];
      WarnedPlaces(init, lineBytes);
      CountIfSnoc(init, f, Warns(lineBytes));
    }
  }

  // ----- the report -----

  /** Bundles are counted by number of members, by lane and by class in the lane. */
  ghost predicate Histograms(s: Stats, fs: seq<Found>) {
    && (forall n: nat :: At(s.sizes, n) == |Places(fs, OfSize(n))|)
    && (forall l: nat :: At(s.laneUse, l) == |Places(fs, Fills(l))|)
    && (forall l: nat, k: Class :: ClassAt2(s.classByLane, l, k) == |Places(fs, FillsWith(l, k))|)
  }

  lemma {:induction false} HistogramsAre(s: Stats, fs: seq<Found>)
    requires SizesAre(s.sizes, fs) && LanesAre(s.laneUse, fs) && ClassesAre(s.classByLane, fs)
    ensures Histograms(s, fs)
  {
    forall n: nat ensures At(s.sizes, n) == |Places(fs, OfSize(n))| {
      SizePlaces(fs, n);
      CountIfIs(fs, OfSize(n));
    }
    forall l: nat ensures At(s.laneUse, l) == |Places(fs, Fills(l))| {
      LanePlaces(fs, l);
      CountIfIs(fs, Fills(l));
    }
    forall l: nat, k: Class ensures ClassAt2(s.classByLane, l, k) == |Places(fs, FillsWith(l, k))| {
      ClassPlaces(fs, l, k);
      CountIfIs(fs, FillsWith(l, k));
    }
  }

  /** `r` is the quotient of two counts, or zero where there is none. */
  predicate Quotes(r: real, x: int, y: int) {
    if y != 0 then r * y as real == x as real else r == 0.0
  }

  /** The quotient the tool reports; nothing over nothing is reported as zero. */
  function Ratio(x: int, y: int): (r: real)
    ensures Quotes(r, x, y)
  {
    if y == 0 then 0.0 else x as real / y as real
  }

  /** What the scan does not take for the head of a bundle is payload; a safe bundle takes one issue
      cycle and so does each other instruction. */
  ghost predicate Totals(s: Stats, lines: seq<Line>, fs: seq<Found>, lineBytes: nat)
    requires lineBytes > 0
  {
    var safe := |Places(fs, FoundSafe)|;
    && s.total == |lines| && s.hints == |fs| && s.payload == |lines| - |fs|
    && s.bundled == SumOver(fs, SafeSize) && s.scalar == s.payload - s.bundled
    && s.issueCycles == s.scalar + safe && s.unsafe == |fs| - safe
    && s.warned == |Places(fs, Warns(lineBytes))|
  }

  lemma {:induction false} TotalsHold(s: Stats, lines: seq<Line>, fs: seq<Found>, lineBytes: nat)
    requires lineBytes > 0
    requires s.total == |lines| && s.hints == |fs| && s.payload == |lines| - |fs|
    requires s.bundled == Bundled(fs) && s.scalar == s.payload - s.bundled
    requires s.issueCycles == s.scalar + SafeCount(fs) && s.unsafe == |fs| - SafeCount(fs)
    requires s.warned == WarnedCount(fs, lineBytes)
    ensures Totals(s, lines, fs, lineBytes)
  {
    BundledIs(fs);
    SafePlaces(fs);
    CountIfIs(fs, FoundSafe);
    WarnedPlaces(fs, lineBytes);
    CountIfIs(fs, Warns(lineBytes));
  }

  method Summarise(lines: seq<Line>, bundles: seq<Bundle>, lineBytes: nat) returns (s: Stats)
    requires lineBytes > 0 && RepresentAll(bundles, Scan(lines, 0), lineBytes)
    ensures Totals(s, lines, Scan(lines, 0), lineBytes) && Histograms(s, Scan(lines, 0))
    ensures Quotes(s.staticIlp, s.payload, s.issueCycles) && Quotes(s.coverage, 100 * s.bundled, s.payload)
  {
    ghost var fs := Scan(lines, 0);
    var bundled, safe, unsafe, sizes := CountTotals(bundles, fs, lineBytes);
    var laneUse, classes := CountBundles(bundles, fs, lineBytes);
    var warned := CountWarned(bundles, fs, lineBytes);
    var payload := |lines| - |bundles|;
    var scalar := payload - bundled;
    var issue := scalar + safe;
    var ilp := Ratio(payload, issue);
    var coverage := Ratio(100 * bundled, payload);
    s := Stats(|lines|, |bundles|, payload, bundled, scalar, sizes, laneUse, classes, coverage, issue, ilp,
               unsafe, warned);
    TotalsHold(s, lines, fs, lineBytes);
    HistogramsAre(s, fs);
  }

  // ----- static accounting bounds -----

  lemma {:induction false} BundledCons(f: Found, fs: seq<Found>)
    ensures Bundled([f] + fs) <= |f.members| + Bundled(fs)
  {
    assert ([f] + fs)[1..] == fs;
  }

  lemma {:induction false} HintFits(lines: seq<Line>, idx: nat, n: nat, rest: seq<Found>)
    requires idx < |lines| && HintAt(lines[idx]) == Some(n) && rest == Scan(lines, StopAt(lines, idx, n))
    requires Bundled(rest) + |rest| <= |lines| - StopAt(lines, idx, n)
    ensures Bundled(Scan(lines, idx)) + |Scan(lines, idx)| <= |lines| - idx
  {
    var f := FoundAt(lines, idx, n);
    assert |f.members| == StopAt(lines, idx, n) - idx - 1;
    BundledCons(f, rest);
  }

  lemma {:induction false} ScanFits(lines: seq<Line>, idx: nat)
    requires idx <= |lines|
    ensures var fs := Scan(lines, idx); Bundled(fs) + |fs| <= |lines| - idx
    decreases |lines| - idx
  {
    if idx < |lines| {
      match HintAt(lines[idx])
      case None => ScanFits(lines, idx + 1);
      case Some(n) =>
        ScanFits(lines, StopAt(lines, idx, n));
        HintFits(lines, idx, n, Scan(lines, StopAt(lines, idx, n)));
    }
  }

  lemma {:induction false} SafeSizes(fs: seq<Found>)
    requires forall f :: f in fs ==> f.declared >= 1 && |f.members| <= f.declared
    ensures SafeCount(fs) <= Bundled(fs) <= MAX_BUNDLE * SafeCount(fs)
    decreases |fs|
  {
    if fs != [] {
      SafeIffAccepted(fs[0].declared, fs[0].members);
      assert fs[0] in fs;
      SafeSizes(fs[1..]);
    }
  }

  lemma {:induction false} ScanSizes(lines: seq<Line>)
    ensures forall f :: f in Scan(lines, 0) ==> f.declared >= 1 && |f.members| <= f.declared
  {
    ScanPartitions(lines, 0);
  }

  lemma {:induction false} MulLess(r: real, s: real, y: real)
    requires r < s && y > 0.0
    ensures r * y < s * y
  {
  }

  lemma {:induction false} RatioBounds(p: nat, i: nat, r: real)
    requires 0 < i <= p <= 4 * i && r * i as real == p as real
    ensures 1.0 <= r <= 4.0
  {
    var y := i as real;
    assert 1.0 * y == y && 4.0 * y == (4 * i) as real;
    if r < 1.0 { MulLess(r, 1.0, y); }
    if r > 4.0 { MulLess(4.0, r, y); }
  }

  lemma {:induction false} ShareBounds(b: nat, p: nat, r: real)
    requires b <= p && p > 0 && r * p as real == (100 * b) as real
    ensures 0.0 <= r <= 100.0
  {
    var y := p as real;
    assert 0.0 * y == 0.0 && 100.0 * y == (100 * p) as real;
    if r < 0.0 { MulLess(r, 0.0, y); }
    if r > 100.0 { MulLess(100.0, r, y); }
  }

  lemma {:induction false} IssueBounds(lines: seq<Line>, fs: seq<Found>, payload: int, issue: int)
    requires fs == Scan(lines, 0) && payload == |lines| - |fs| && issue == payload - Bundled(fs) + SafeCount(fs)
    ensures Bundled(fs) <= payload && 0 <= issue <= payload <= 4 * issue
  {
    ScanFits(lines, 0);
    ScanSizes(lines);
    SafeSizes(fs);
  }

  lemma {:induction false} RatesBound(bundled: nat, payload: int, issue: int, ilp: real, coverage: real)
    requires bundled <= payload && 0 <= issue <= payload <= 4 * issue && payload > 0
    requires Quotes(ilp, payload, issue) && Quotes(coverage, 100 * bundled, payload)
    ensures 1.0 <= ilp <= 4.0 && 0.0 <= coverage <= 100.0
  {
    RatioBounds(payload, issue, ilp);
    ShareBounds(bundled, payload, coverage);
  }

  lemma {:induction false} TotalsBound(s: Stats, lines: seq<Line>, lineBytes: nat)
    requires lineBytes > 0 && Totals(s, lines, Scan(lines, 0), lineBytes)
    ensures s.bundled <= s.payload && 0 <= s.issueCycles <= s.payload <= 4 * s.issueCycles
  {
    var fs := Scan(lines, 0);
    BundledIs(fs);
    SafePlaces(fs);
    CountIfIs(fs, FoundSafe);
    IssueBounds(lines, fs, s.payload, s.issueCycles);
  }

  /** Of any report: bundled and scalar instructions make up the payload, and the issue cycles lie
      between a quarter of the payload and all of it, so the static ILP is between one and four, and
      the coverage between none and all. */
  lemma {:induction false} StaticAccounting(s: Stats, lines: seq<Line>, lineBytes: nat)
    requires lineBytes > 0 && Totals(s, lines, Scan(lines, 0), lineBytes)
    requires Quotes(s.staticIlp, s.payload, s.issueCycles) && Quotes(s.coverage, 100 * s.bundled, s.payload)
    ensures s.bundled <= s.payload && 0 <= s.issueCycles <= s.payload <= 4 * s.issueCycles
    ensures s.payload > 0 ==> 1.0 <= s.staticIlp <= 4.0 && 0.0 <= s.coverage <= 100.0
  {
    TotalsBound(s, lines, lineBytes);
    if s.payload > 0 {
      RatesBound(s.bundled, s.payload, s.issueCycles, s.staticIlp, s.coverage);
    }
  }

  /** Lanes fill from the front and only the four lanes are used. */
  lemma {:induction false} LanesFillFromTheFront(fs: seq<Found>, lane: nat)
    ensures LaneCount(fs, lane + 1) <= LaneCount(fs, lane)
    ensures (forall f :: f in fs ==> |f.members| <= f.declared) && lane >= MAX_BUNDLE ==> LaneCount(fs, lane) == 0
    decreases |fs|
  {
    if fs != [] {
      if forall f :: f in fs ==> |f.members| <= f.declared {
        assert fs[0] in fs;
        SafeIffAccepted(fs[0].declared, fs[0].members);
      }
      LanesFillFromTheFront(fs[1..], lane);
    }
  }

  /** The lane counts sum to the bundled instructions. */
  lemma {:induction false} LanesSumToBundled(fs: seq<Found>)
    requires forall f :: f in fs ==> |f.members| <= f.declared
    ensures LaneCount(fs, 0) + LaneCount(fs, 1) + LaneCount(fs, 2) + LaneCount(fs, 3) == Bundled(fs)
    decreases |fs|
  {
    if fs != [] {
      SafeIffAccepted(fs[0].declared, fs[0].members);
      assert fs[0] in fs;
      LanesSumToBundled(fs[1..]);
    }
  }

  const CLASSES := [Alu, Mul, Load, Store, Branch, Jump, System, Atomic, PcRel, Fpu, FpDiv, Unknown]

  function ClassSum(fs: seq<Found>, lane: nat, classes: seq<Class>): nat {
    if classes == [] then 0 else ClassCount(fs, lane, classes[0]) + ClassSum(fs, lane, classes[1..])
  }

  /** How many of the listed classes are the class of the bundle's instruction in the lane. */
  function Hits(f: Found, lane: nat, classes: seq<Class>): nat {
    if classes == [] then 0
    else (if FoundSafe(f) && lane < |f.members| && f.members[lane].cls == classes[0] then 1 else 0)
         + Hits(f, lane, classes[1..])
  }

  lemma {:induction false} ClassSumHead(fs: seq<Found>, lane: nat, classes: seq<Class>)
    requires fs != []
    ensures ClassSum(fs, lane, classes) == Hits(fs[0], lane, classes) + ClassSum(fs[1..], lane, classes)
    decreases |classes|
  {
    if classes != [] {
      ClassSumHead(fs, lane, classes[1..]);
    }
  }

  lemma {:induction false} HitsNone(f: Found, lane: nat, classes: seq<Class>)
    ensures !(FoundSafe(f) && lane < |f.members| && f.members[lane].cls in classes) ==> Hits(f, lane, classes) == 0
    decreases |classes|
  {
    if classes != [] {
      HitsNone(f, lane, classes[1..]);
    }
  }

  /** With distinct classes an instruction is counted once. */
  lemma {:induction false} HitsOnce(f: Found, lane: nat, classes: seq<Class>)
    requires FoundSafe(f) && lane < |f.members| && f.members[lane].cls in classes
    requires forall i, j :: 0 <= i < j < |classes| ==> classes[i] != classes[j]
    ensures Hits(f, lane, classes) == 1
    decreases |classes|
  {
    if f.members[lane].cls == classes[0] {
      assert forall j :: 0 <= j < |classes| - 1 ==> classes[1..][j] != classes[0];
      HitsNone(f, lane, classes[1..]);
    } else {
      HitsOnce(f, lane, classes[1..]);
    }
  }

  lemma {:induction false} AllClasses(c: Class)
    ensures c in CLASSES
  {
    assert CLASSES[0] == Alu && CLASSES[1] == Mul && CLASSES[2] == Load && CLASSES[3] == Store;
    assert CLASSES[4] == Branch && CLASSES[5] == Jump && CLASSES[6] == System && CLASSES[7] == Atomic;
    assert CLASSES[8] == PcRel && CLASSES[9] == Fpu && CLASSES[10] == FpDiv && CLASSES[11] == Unknown;
  }

  lemma {:induction false} DistinctClasses()
    ensures forall i, j :: 0 <= i < j < |CLASSES| ==> CLASSES[i] != CLASSES[j]
  {
  }

  lemma {:induction false} HitsAll(f: Found, lane: nat)
    ensures Hits(f, lane, CLASSES) == if FoundSafe(f) && lane < |f.members| then 1 else 0
  {
    if FoundSafe(f) && lane < |f.members| {
      AllClasses(f.members[lane].cls);
      DistinctClasses();
      HitsOnce(f, lane, CLASSES);
    } else {
      HitsNone(f, lane, CLASSES);
    }
  }

  lemma {:induction false} EmptySum(lane: nat, classes: seq<Class>)
    ensures ClassSum([], lane, classes) == 0
    decreases |classes|
  {
    if classes != [] {
      EmptySum(lane, classes[1..]);
    }
  }

  /** Each lane's class mix sums to its lane count. */
  lemma {:induction false} ClassesSumToLane(fs: seq<Found>, lane: nat)
    ensures ClassSum(fs, lane, CLASSES) == LaneCount(fs, lane)
    decreases |fs|
  {
    if fs == [] {
      EmptySum(lane, CLASSES);
    } else {
      ClassSumHead(fs, lane, CLASSES);
      ClassesSumToLane(fs[1..], lane);
      HitsAll(fs[0], lane);
    }
  }
}
