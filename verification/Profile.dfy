/** The dynamic accounting of `tools/starbug_profile.py`: bundles weighted by a histogram of
    executed addresses. */
module Profile {
  import opened Isa
  import opened Checker
  import opened Counters

  /** The totals the tool reports. `scalar` is `dyn_total`: instructions outside safe bundles. */
  datatype Counts = Counts(
    scalar: nat, hints: nat, inBundles: nat, execs: nat,
    lanes: map<nat, nat>, sizes: map<nat, nat>, scalarByClass: map<Class, nat>,
    fnPayload: map<string, nat>, fnBundled: map<string, nat>, fnCycles: map<string, nat>)

  const NOTHING := Counts(0, 0, 0, 0, map[], map[], map[], map[], map[], map[])

  function Payload(r: Counts): nat {
    r.scalar + r.inBundles
  }

  function IssueCycles(r: Counts): nat {
    r.scalar + r.execs
  }

  // ----- the bundle map -----

  /** Hint address to safe bundle; a later bundle at the same address wins. */
  function BundleAt(fs: seq<Found>): map<nat, Found> {
    if fs == [] then map[]
    else
      var f := fs[|fs| - 1];
      var m := BundleAt(fs[..|fs| - 1]);
      if FoundSafe(f) then m[f.addr := f] else m
  }

  function AddrSet(ms: seq<Insn>): set<nat> {
    set m | m in ms :: m.addr
  }

  function MemberAddrs(fs: seq<Found>): set<nat> {
    if fs == [] then {}
    else
      var f := fs[|fs| - 1];
      MemberAddrs(fs[..|fs| - 1]) + if FoundSafe(f) then AddrSet(f.members) else {}
  }

  method BuildMaps(fs: seq<Found>) returns (bundleAt: map<nat, Found>, memberAddrs: set<nat>)
    ensures bundleAt == BundleAt(fs) && memberAddrs == MemberAddrs(fs)
  {
    bundleAt, memberAddrs := map[], {};
    for k := 0 to |fs|
      invariant bundleAt == BundleAt(fs[..k]) && memberAddrs == MemberAddrs(fs[..k])
    {
      assert fs[..k + 1][..k] == fs[..k];
      if FoundSafe(fs[k]) {
        bundleAt := bundleAt[fs[k].addr := fs[k]];
        memberAddrs := memberAddrs + AddrSet(fs[k].members);
      }
    }
    assert fs[..|fs|] == fs;
  }

  // ----- one line -----

  function BumpLanes(lanes: map<nat, nat>, n: nat, count: nat): map<nat, nat> {
    if n == 0 then lanes else Bump(BumpLanes(lanes, n - 1, count), n - 1, count)
  }

  /** The line heads a safe bundle of `n` members executed `count` times. */
  function AddBundle(r: Counts, n: nat, count: nat, func: string): Counts {
    r.(hints := r.hints + count, execs := r.execs + count, inBundles := r.inBundles + count * n,
       sizes := Bump(r.sizes, n, count), lanes := BumpLanes(r.lanes, n, count),
       fnPayload := Bump(r.fnPayload, func, count * n), fnBundled := Bump(r.fnBundled, func, count * n),
       fnCycles := Bump(r.fnCycles, func, count))
  }

  function AddScalar(r: Counts, cls: Class, count: nat, func: string): Counts {
    r.(scalar := r.scalar + count, fnPayload := Bump(r.fnPayload, func, count),
       fnCycles := Bump(r.fnCycles, func, count), scalarByClass := Bump(r.scalarByClass, cls, count))
  }

  /** The line heads no safe bundle. */
  function AddOther(r: Counts, inside: bool, hint: bool, cls: Class, count: nat, func: string): Counts {
    if inside then r
    else if hint then r.(hints := r.hints + count)
    else AddScalar(r, cls, count, func)
  }

  function AddLine(r: Counts, l: Line, hist: map<nat, nat>, bundleAt: map<nat, Found>, memberAddrs: set<nat>): Counts {
    var count := At(hist, l.addr);
    if count == 0 then r
    else if l.addr in bundleAt then AddBundle(r, |bundleAt[l.addr].members|, count, l.func)
    else AddOther(r, l.addr in memberAddrs, HintAt(l).Some?, DecodeLine(l).cls, count, l.func)
  }

  function Accounted(lines: seq<Line>, hist: map<nat, nat>, bundleAt: map<nat, Found>, memberAddrs: set<nat>): Counts {
    if lines == [] then NOTHING
    else AddLine(Accounted(lines[..|lines| - 1], hist, bundleAt, memberAddrs), lines[|lines| - 1],
                 hist, bundleAt, memberAddrs)
  }

  // ----- the accounting loop -----

  method FillLanes(lanes0: map<nat, nat>, n: nat, count: nat) returns (lanes: map<nat, nat>)
    ensures lanes == BumpLanes(lanes0, n, count)
  {
    lanes := lanes0;
    for lane := 0 to n
      invariant lanes == BumpLanes(lanes0, lane, count)
    {
      lanes := Bump(lanes, lane, count);
    }
  }

  /** Every breakdown of the profile adds up. */
  ghost predicate Balanced(r: Counts) {
    && Total(r.fnPayload) == Payload(r)
    && Total(r.fnBundled) == r.inBundles
    && Total(r.fnCycles) == IssueCycles(r)
    && Total(r.sizes) == r.execs
    && Sum(r.sizes, (n: nat) => n) == r.inBundles
    && Total(r.lanes) == r.inBundles
    && Total(r.scalarByClass) == r.scalar
    && r.inBundles <= MAX_BUNDLE * r.execs
    && r.execs <= r.hints
  }

  lemma {:induction false} FilledSlots(n: nat, count: nat, slots: nat)
    requires n <= MAX_BUNDLE && slots == count * n
    ensures slots <= MAX_BUNDLE * count && slots == n * count
  {
  }

  lemma {:induction false} LanesTotal(lanes: map<nat, nat>, n: nat, count: nat)
    ensures Total(BumpLanes(lanes, n, count)) == Total(lanes) + n * count
    decreases n
  {
    if n > 0 {
      LanesTotal(lanes, n - 1, count);
      assert (n - 1) * count + count == n * count;
      TotalBump<nat>(BumpLanes(lanes, n - 1, count), n - 1, count);
    }
  }

  lemma {:induction false} BundleTotals(r: Counts, n: nat, count: nat, slots: nat)
    requires n <= MAX_BUNDLE && slots == count * n
    ensures Total(Bump(r.sizes, n, count)) == Total(r.sizes) + count
    ensures Sum(Bump(r.sizes, n, count), (n: nat) => n) == Sum(r.sizes, (n: nat) => n) + slots
    ensures Total(BumpLanes(r.lanes, n, count)) == Total(r.lanes) + slots
  {
    FilledSlots(n, count, slots);
    TotalBump(r.sizes, n, count);
    SumBump(r.sizes, (n: nat) => n, n, count);
    LanesTotal(r.lanes, n, count);
  }

  lemma {:induction false} BalancedBundle(r: Counts, n: nat, count: nat, slots: nat, func: string)
    requires Balanced(r) && n <= MAX_BUNDLE && slots == count * n
    ensures Balanced(AddBundle(r, n, count, func))
  {
    FilledSlots(n, count, slots);
    BundleTotals(r, n, count, slots);
    TotalBump(r.fnPayload, func, slots);
    TotalBump(r.fnBundled, func, slots);
    TotalBump(r.fnCycles, func, count);
  }

  /** The line heads a safe bundle of `n` members. */
  method CountBundle(r0: Counts, n: nat, count: nat, func: string) returns (r: Counts)
    requires Balanced(r0) && n <= MAX_BUNDLE
    ensures r == AddBundle(r0, n, count, func) && Balanced(r)
  {
    var slots := count * n;
    BalancedBundle(r0, n, count, slots, func);
    r := r0.(hints := r0.hints + count, execs := r0.execs + count);
    r := r.(sizes := Bump(r.sizes, n, count));
    var lanes := FillLanes(r.lanes, n, count);
    r := r.(lanes := lanes, inBundles := r.inBundles + slots);
    r := r.(fnPayload := Bump(r.fnPayload, func, slots), fnBundled := Bump(r.fnBundled, func, slots));
    r := r.(fnCycles := Bump(r.fnCycles, func, count));
  }

  lemma {:induction false} BalancedScalar(r: Counts, cls: Class, count: nat, func: string)
    requires Balanced(r)
    ensures Balanced(AddScalar(r, cls, count, func))
  {
    TotalBump(r.fnPayload, func, count);
    TotalBump(r.fnCycles, func, count);
    TotalBump(r.scalarByClass, cls, count);
  }

  /** One iteration of the loop over the lines. */
  method CountLine(r0: Counts, l: Line, hist: map<nat, nat>, bundleAt: map<nat, Found>, memberAddrs: set<nat>)
      returns (r: Counts)
    requires Balanced(r0) && forall a :: a in bundleAt ==> |bundleAt[a].members| <= MAX_BUNDLE
    ensures r == AddLine(r0, l, hist, bundleAt, memberAddrs) && Balanced(r)
  {
    r := r0;
    var count := At(hist, l.addr);
    if count == 0 {
      return;
    }
    if l.addr in bundleAt {
      r := CountBundle(r, |bundleAt[l.addr].members|, count, l.func);
      return;
    }
    if l.addr in memberAddrs {
      return;
    }
    if HintAt(l).Some? {
      r := r.(hints := r.hints + count);
      return;
    }
    BalancedScalar(r, DecodeLine(l).cls, count, l.func);
    r := AddScalar(r, DecodeLine(l).cls, count, l.func);
  }

  lemma {:induction false} BundleSizes(fs: seq<Found>)
    requires forall f :: f in fs ==> |f.members| <= f.declared
    ensures forall a :: a in BundleAt(fs) ==> |BundleAt(fs)[a].members| <= MAX_BUNDLE
    decreases |fs|
  {
    if fs != [] {
      var f := fs[|fs| - 1];
      BundleSizes(fs[..|fs| - 1]);
      SafeIffAccepted(f.declared, f.members);
    }
  }

  /** The whole accounting, and what always holds of it: the per-function, per-size, per-lane and
      per-class counters add up to the totals, and at most four slots per bundle are filled. */
  method Account(lines: seq<Line>, fs: seq<Found>, hist: map<nat, nat>) returns (r: Counts)
    requires forall f :: f in fs ==> |f.members| <= f.declared
    ensures r == Accounted(lines, hist, BundleAt(fs), MemberAddrs(fs))
    ensures Balanced(r)
  {
    var bundleAt, memberAddrs := BuildMaps(fs);
    BundleSizes(fs);
    r := NOTHING;
    for k := 0 to |lines|
      invariant r == Accounted(lines[..k], hist, bundleAt, memberAddrs) && Balanced(r)
    {
      assert lines[..k + 1][..k] == lines[..k];
      r := CountLine(r, lines[k], hist, bundleAt, memberAddrs);
    }
    assert lines[..|lines|] == lines;
  }
}
