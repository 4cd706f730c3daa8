/** The profiler's totals against what was executed: an identity for every histogram, and over
    complete runs the exact condition under which nothing is lost or counted twice. */
module Conservation {
  import opened Wrappers
  import opened Isa
  import opened Checker
  import opened Counters
  import opened Profile
  import opened Report

  // ----- which line belongs to which bundle -----

  ghost predicate SafeHead(fs: seq<Found>, i: nat, f: Found) {
    f in fs && FoundSafe(f) && f.head == i
  }

  ghost predicate NoSafeHead(fs: seq<Found>, i: nat) {
    forall f :: !SafeHead(fs, i, f)
  }

  ghost predicate SafeInside(fs: seq<Found>, i: nat) {
    exists f :: f in fs && FoundSafe(f) && f.head < i <= f.head + |f.members|
  }

  /** `f` is a safe bundle whose hint is at `a`. */
  predicate HeadsAt(f: Found, a: nat) {
    f.addr == a && FoundSafe(f)
  }

  ghost predicate SomeHeadsAt(fs: seq<Found>, a: nat) {
    exists f :: f in fs && HeadsAt(f, a)
  }

  /** `f` is a safe bundle with a member at `a`. */
  ghost predicate CoversAddr(f: Found, a: nat) {
    a in AddrSet(f.members) && FoundSafe(f)
  }

  ghost predicate SomeCoversAddr(fs: seq<Found>, a: nat) {
    exists f :: f in fs && CoversAddr(f, a)
  }

  lemma {:induction false} InSnoc(fs: seq<Found>, n: nat)
    requires |fs| == n + 1
    ensures forall f :: f in fs <==> f in fs[..n] || f == fs[n]
  {
  }

  lemma {:induction false} SomeHeadsSnoc(fs: seq<Found>, n: nat, a: nat)
    requires |fs| == n + 1
    ensures SomeHeadsAt(fs, a) <==> SomeHeadsAt(fs[..n], a) || HeadsAt(fs[n], a)
  {
    InSnoc(fs, n);
  }

  lemma {:induction false} SomeCoversSnoc(fs: seq<Found>, n: nat, a: nat)
    requires |fs| == n + 1
    ensures SomeCoversAddr(fs, a) <==> SomeCoversAddr(fs[..n], a) || CoversAddr(fs[n], a)
  {
    InSnoc(fs, n);
  }

  lemma {:induction false} BundleAtHas(fs: seq<Found>, a: nat)
    ensures a in BundleAt(fs) <==> SomeHeadsAt(fs, a)
    ensures a in BundleAt(fs) ==> BundleAt(fs)[a] in fs && HeadsAt(BundleAt(fs)[a], a)
    decreases |fs|
  {
    if fs != [] {
      var n := |fs| - 1;
      BundleAtHas(fs[..n], a);
      SomeHeadsSnoc(fs, n, a);
    }
  }

  lemma {:induction false} MemberAddrsHas(fs: seq<Found>, a: nat)
    ensures a in MemberAddrs(fs) <==> SomeCoversAddr(fs, a)
    decreases |fs|
  {
    if fs != [] {
      var n := |fs| - 1;
      MemberAddrsHas(fs[..n], a);
      SomeCoversSnoc(fs, n, a);
    }
  }

  /** Addresses of a well-formed listing identify lines. */
  lemma {:induction false} SameAddress(lines: seq<Line>, i: nat, j: nat)
    requires WellFormed(lines) && i < |lines| && j < |lines| && lines[i].addr == lines[j].addr
    ensures i == j
  {
  }

  lemma {:induction false} DecodedAddr(ls: seq<Line>, j: nat)
    requires j < |ls|
    ensures DecodeLines(ls)[j].addr == ls[j].addr
  {
    DecodeKeepsPlace(ls[j].addr, ls[j].word);
  }

  lemma {:induction false} MemberAddr(lines: seq<Line>, f: Found, j: nat)
    requires FromLines(lines, f) && j < |f.members|
    ensures f.head + 1 + j < |lines| && f.members[j].addr == lines[f.head + 1 + j].addr
  {
    var ls := lines[f.head + 1..StopAt(lines, f.head, f.declared)];
    assert ls[j] == lines[f.head + 1 + j];
    DecodedAddr(ls, j);
  }

  /** A hint in the bundle map is the line that heads the bundle. */
  lemma {:induction false} HeadLine(lines: seq<Line>, i: nat, f: Found)
    requires WellFormed(lines) && i < |lines| && SafeHead(Scan(lines, 0), i, f)
    ensures lines[i].addr in BundleAt(Scan(lines, 0)) && BundleAt(Scan(lines, 0))[lines[i].addr] == f
    ensures lines[i].addr == f.addr
  {
    var fs := Scan(lines, 0);
    ScanPartitions(lines, 0);
    BundleAtHas(fs, lines[i].addr);
    assert HeadsAt(f, lines[i].addr);
    var g := BundleAt(fs)[lines[i].addr];
    SameAddress(lines, i, g.head);
  }

  lemma {:induction false} NotHeadLine(lines: seq<Line>, i: nat)
    requires WellFormed(lines) && i < |lines| && NoSafeHead(Scan(lines, 0), i)
    ensures lines[i].addr !in BundleAt(Scan(lines, 0))
  {
    var fs := Scan(lines, 0);
    ScanPartitions(lines, 0);
    BundleAtHas(fs, lines[i].addr);
    if lines[i].addr in BundleAt(fs) {
      var g := BundleAt(fs)[lines[i].addr];
      SameAddress(lines, i, g.head);
      assert SafeHead(fs, i, g);
      assert false;
    }
  }

  lemma {:induction false} MemberCounted(fs: seq<Found>, f: Found, j: nat)
    requires f in fs && FoundSafe(f) && j < |f.members|
    ensures f.members[j].addr in MemberAddrs(fs)
  {
    MemberAddrsHas(fs, f.members[j].addr);
    assert f.members[j] in f.members;
    assert CoversAddr(f, f.members[j].addr);
  }

  lemma {:induction false} LineOfMember(lines: seq<Line>, f: Found, i: nat) returns (j: nat)
    requires FromLines(lines, f) && f.head < i <= f.head + |f.members|
    ensures j < |f.members| && i < |lines| && f.members[j].addr == lines[i].addr
  {
    j := i - f.head - 1;
    MemberAddr(lines, f, j);
  }

  lemma {:induction false} InsideIsMember(lines: seq<Line>, fs: seq<Found>, f: Found, i: nat)
    requires FromLines(lines, f) && f in fs && FoundSafe(f) && f.head < i <= f.head + |f.members|
    ensures i < |lines| && lines[i].addr in MemberAddrs(fs)
  {
    var j := LineOfMember(lines, f, i);
    MemberCounted(fs, f, j);
  }

  lemma {:induction false} CoveredLine(lines: seq<Line>, f: Found, i: nat)
    requires WellFormed(lines) && i < |lines| && FromLines(lines, f) && CoversAddr(f, lines[i].addr)
    ensures FoundSafe(f) && f.head < i <= f.head + |f.members|
  {
    var m :| m in f.members && m.addr == lines[i].addr;
    var j :| 0 <= j < |f.members| && f.members[j] == m;
    MemberAddr(lines, f, j);
    SameAddress(lines, i, f.head + 1 + j);
  }

  lemma {:induction false} MemberIsInside(lines: seq<Line>, fs: seq<Found>, i: nat)
    requires WellFormed(lines) && i < |lines| && forall f :: f in fs ==> FromLines(lines, f)
    requires lines[i].addr in MemberAddrs(fs)
    ensures SafeInside(fs, i)
  {
    MemberAddrsHas(fs, lines[i].addr);
    var f :| f in fs && CoversAddr(f, lines[i].addr);
    CoveredLine(lines, f, i);
  }

  lemma {:induction false} InsideLine(lines: seq<Line>, i: nat)
    requires WellFormed(lines) && i < |lines|
    ensures lines[i].addr in MemberAddrs(Scan(lines, 0)) <==> SafeInside(Scan(lines, 0), i)
  {
    var fs := Scan(lines, 0);
    assert forall f :: f in fs ==> FromLines(lines, f) by { ScanPartitions(lines, 0); }
    if SafeInside(fs, i) {
      var f :| f in fs && FoundSafe(f) && f.head < i <= f.head + |f.members|;
      InsideIsMember(lines, fs, f, i);
    }
    if lines[i].addr in MemberAddrs(fs) { MemberIsInside(lines, fs, i); }
  }

  // ----- what each line contributes -----

  /** What one line adds to payload plus hints. */
  function Contribution(l: Line, hist: map<nat, nat>, bundleAt: map<nat, Found>, memberAddrs: set<nat>): nat {
    var count := At(hist, l.addr);
    if l.addr in bundleAt then count * |bundleAt[l.addr].members| + count
    else if l.addr in memberAddrs then 0
    else count
  }

  function Contributions(lines: seq<Line>, hist: map<nat, nat>, bundleAt: map<nat, Found>, memberAddrs: set<nat>): nat {
    if lines == [] then 0
    else Contributions(lines[..|lines| - 1], hist, bundleAt, memberAddrs)
         + Contribution(lines[|lines| - 1], hist, bundleAt, memberAddrs)
  }

  lemma {:induction false} BundleTotal(r: Counts, n: nat, count: nat, func: string)
    ensures var s := AddBundle(r, n, count, func); Payload(s) + s.hints == Payload(r) + r.hints + (count * n + count)
  {
  }

  lemma {:induction false} ZeroTimes(n: nat)
    ensures 0 * n + 0 == 0
  {
  }

  lemma {:induction false} HeadTotal(r: Counts, l: Line, hist: map<nat, nat>, bundleAt: map<nat, Found>,
                                     memberAddrs: set<nat>, n: nat, count: nat)
    requires l.addr in bundleAt && n == |bundleAt[l.addr].members| && count == At(hist, l.addr)
    ensures var s := AddLine(r, l, hist, bundleAt, memberAddrs);
            Payload(s) + s.hints == Payload(r) + r.hints + (count * n + count)
  {
    BundleTotal(r, n, count, l.func);
    if count == 0 { ZeroTimes(n); }
  }

  lemma {:induction false} OtherTotal(r: Counts, inside: bool, hint: bool, cls: Class, count: nat, func: string)
    ensures var s := AddOther(r, inside, hint, cls, count, func);
            Payload(s) + s.hints == Payload(r) + r.hints + if inside then 0 else count
  {
  }

  lemma {:induction false} LineTotal(r: Counts, l: Line, hist: map<nat, nat>, bundleAt: map<nat, Found>,
                                     memberAddrs: set<nat>)
    ensures var s := AddLine(r, l, hist, bundleAt, memberAddrs);
            Payload(s) + s.hints == Payload(r) + r.hints + Contribution(l, hist, bundleAt, memberAddrs)
  {
    var count := At(hist, l.addr);
    if l.addr in bundleAt {
      HeadTotal(r, l, hist, bundleAt, memberAddrs, |bundleAt[l.addr].members|, count);
    } else {
      OtherTotal(r, l.addr in memberAddrs, HintAt(l).Some?, DecodeLine(l).cls, count, l.func);
    }
  }

  lemma {:induction false} AccountedTotal(lines: seq<Line>, hist: map<nat, nat>, bundleAt: map<nat, Found>,
                                          memberAddrs: set<nat>)
    ensures var r := Accounted(lines, hist, bundleAt, memberAddrs);
            Payload(r) + r.hints == Contributions(lines, hist, bundleAt, memberAddrs)
    decreases |lines|
  {
    if lines != [] {
      var init, l := lines[..|lines| - 1], lines[|lines| - 1];
      AccountedTotal(init, hist, bundleAt, memberAddrs);
      LineTotal(Accounted(init, hist, bundleAt, memberAddrs), l, hist, bundleAt, memberAddrs);
    }
  }

  /** The contributions of the lines from `i` to `j`. */
  function Range(lines: seq<Line>, hist: map<nat, nat>, i: nat, j: nat): nat
    requires i <= j <= |lines|
  {
    if i == j then 0
    else Range(lines, hist, i, j - 1)
         + Contribution(lines[j - 1], hist, BundleAt(Scan(lines, 0)), MemberAddrs(Scan(lines, 0)))
  }

  /** The counts of the lines from `i` to `j`. */
  function Executed(lines: seq<Line>, hist: map<nat, nat>, i: nat, j: nat): nat
    requires i <= j <= |lines|
  {
    if i == j then 0 else Executed(lines, hist, i, j - 1) + At(hist, lines[j - 1].addr)
  }

  lemma {:induction false} SplitRange(lines: seq<Line>, hist: map<nat, nat>, i: nat, j: nat, k: nat)
    requires i <= j <= k <= |lines|
    ensures Range(lines, hist, i, k) == Range(lines, hist, i, j) + Range(lines, hist, j, k)
    decreases k
  {
    if j < k { SplitRange(lines, hist, i, j, k - 1); }
  }

  lemma {:induction false} SplitExecuted(lines: seq<Line>, hist: map<nat, nat>, i: nat, j: nat, k: nat)
    requires i <= j <= k <= |lines|
    ensures Executed(lines, hist, i, k) == Executed(lines, hist, i, j) + Executed(lines, hist, j, k)
    decreases k
  {
    if j < k { SplitExecuted(lines, hist, i, j, k - 1); }
  }

  lemma {:induction false} SplitSums(lines: seq<Line>, hist: map<nat, nat>, i: nat, j: nat, k: nat)
    requires i <= j <= k <= |lines|
    ensures Range(lines, hist, i, k) == Range(lines, hist, i, j) + Range(lines, hist, j, k)
    ensures Executed(lines, hist, i, k) == Executed(lines, hist, i, j) + Executed(lines, hist, j, k)
  {
    SplitRange(lines, hist, i, j, k);
    SplitExecuted(lines, hist, i, j, k);
  }

  lemma {:induction false} RangeIsContributions(lines: seq<Line>, hist: map<nat, nat>, j: nat)
    requires j <= |lines|
    ensures Range(lines, hist, 0, j)
            == Contributions(lines[..j], hist, BundleAt(Scan(lines, 0)), MemberAddrs(Scan(lines, 0)))
    decreases j
  {
    if j > 0 {
      assert lines[..j][..j - 1] == lines[..j - 1];
      RangeIsContributions(lines, hist, j - 1);
    }
  }

  /** The counts of the members of a bundle. */
  function MemberCounts(hist: map<nat, nat>, ms: seq<Insn>): nat {
    if ms == [] then 0 else MemberCounts(hist, ms[..|ms| - 1]) + At(hist, ms[|ms| - 1].addr)
  }

  lemma {:induction false} CountsSnoc(hist: map<nat, nat>, ms: seq<Insn>, i: nat, j: nat)
    requires j == i + 1 <= |ms|
    ensures MemberCounts(hist, ms[..j]) == MemberCounts(hist, ms[..i]) + At(hist, ms[i].addr)
  {
    assert ms[..j][..i] == ms[..i];
  }

  lemma {:induction false} ExecutedSnoc(lines: seq<Line>, hist: map<nat, nat>, i: nat, j: nat, k: nat)
    requires i <= j && k == j + 1 <= |lines|
    ensures Executed(lines, hist, i, k) == Executed(lines, hist, i, j) + At(hist, lines[j].addr)
  {
  }

  lemma {:induction false} MemberAddrAt(lines: seq<Line>, f: Found, j: nat, m: nat)
    requires FromLines(lines, f) && j < |f.members| && m == f.head + 1 + j
    ensures m < |lines| && f.members[j].addr == lines[m].addr
  {
    MemberAddr(lines, f, j);
  }

  lemma {:induction false} MembersExecuted(lines: seq<Line>, hist: map<nat, nat>, f: Found, j: nat, lo: nat, end: nat)
    requires FromLines(lines, f) && j <= |f.members| && lo == f.head + 1 && end == lo + j
    ensures end <= |lines| && MemberCounts(hist, f.members[..j]) == Executed(lines, hist, lo, end)
    decreases j
  {
    if j > 0 {
      var i, mid := j - 1, end - 1;
      MembersExecuted(lines, hist, f, i, lo, mid);
      MemberAddrAt(lines, f, i, mid);
      CountsSnoc(hist, f.members, i, j);
      ExecutedSnoc(lines, hist, lo, mid, end);
    } else {
      assert f.members[..0] == [];
    }
  }

  lemma {:induction false} RangeOne(lines: seq<Line>, hist: map<nat, nat>, i: nat, mid: nat)
    requires i < |lines| && mid == i + 1
    ensures Range(lines, hist, i, mid)
            == Contribution(lines[i], hist, BundleAt(Scan(lines, 0)), MemberAddrs(Scan(lines, 0)))
    ensures Executed(lines, hist, i, mid) == At(hist, lines[i].addr)
  {
    assert Range(lines, hist, i, i) == Executed(lines, hist, i, i) == 0;
  }

  lemma {:induction false} LooseLine(lines: seq<Line>, hist: map<nat, nat>, i: nat, j: nat)
    requires WellFormed(lines) && i < |lines| && j == i + 1
    requires !SafeInside(Scan(lines, 0), i) && NoSafeHead(Scan(lines, 0), i)
    ensures Range(lines, hist, i, j) == Executed(lines, hist, i, j)
  {
    NotHeadLine(lines, i);
    InsideLine(lines, i);
    RangeOne(lines, hist, i, j);
  }

  /** Lines that belong to no safe bundle contribute their count. */
  lemma {:induction false} LooseRange(lines: seq<Line>, hist: map<nat, nat>, i: nat, j: nat)
    requires WellFormed(lines) && i <= j <= |lines|
    requires forall k :: i <= k < j ==> !SafeInside(Scan(lines, 0), k) && NoSafeHead(Scan(lines, 0), k)
    ensures Range(lines, hist, i, j) == Executed(lines, hist, i, j)
    decreases j
  {
    if i < j {
      var k := j - 1;
      LooseRange(lines, hist, i, k);
      LooseLine(lines, hist, k, j);
      SplitSums(lines, hist, i, k, j);
    }
  }

  lemma {:induction false} InsideLineRange(lines: seq<Line>, hist: map<nat, nat>, i: nat, j: nat)
    requires WellFormed(lines) && i < |lines| && j == i + 1
    requires SafeInside(Scan(lines, 0), i) && NoSafeHead(Scan(lines, 0), i)
    ensures Range(lines, hist, i, j) == 0
  {
    NotHeadLine(lines, i);
    InsideLine(lines, i);
    RangeOne(lines, hist, i, j);
  }

  /** Lines inside safe bundles contribute nothing themselves. */
  lemma {:induction false} InsideRange(lines: seq<Line>, hist: map<nat, nat>, i: nat, j: nat)
    requires WellFormed(lines) && i <= j <= |lines|
    requires forall k :: i <= k < j ==> SafeInside(Scan(lines, 0), k) && NoSafeHead(Scan(lines, 0), k)
    ensures Range(lines, hist, i, j) == 0
    decreases j
  {
    if i < j {
      var k := j - 1;
      InsideRange(lines, hist, i, k);
      InsideLineRange(lines, hist, k, j);
      SplitRange(lines, hist, i, k, j);
    }
  }

  // ----- the identity -----

  /** The counts of all members of safe bundles. */
  function AllMemberCounts(fs: seq<Found>, hist: map<nat, nat>): nat {
    if fs == [] then 0
    else (if FoundSafe(fs[0]) then MemberCounts(hist, fs[0].members) else 0) + AllMemberCounts(fs[1..], hist)
  }

  /** What the profiler credits the members of safe bundles with. */
  function AllCredits(fs: seq<Found>, hist: map<nat, nat>): nat {
    if fs == [] then 0
    else (if FoundSafe(fs[0]) then At(hist, fs[0].addr) * |fs[0].members| else 0) + AllCredits(fs[1..], hist)
  }

  /** A point of the stream where the scan looks for a hint. */
  ghost predicate ScanPoint(lines: seq<Line>, pre: seq<Found>, idx: nat) {
    && idx <= |lines| && Scan(lines, 0) == pre + Scan(lines, idx)
    && (forall f :: f in pre ==> f.head + |f.members| < idx)
  }

  /** At a scan point nothing earlier reaches past it and nothing later starts before it. */
  lemma {:induction false} PointSeparates(lines: seq<Line>, pre: seq<Found>, idx: nat, f: Found)
    requires ScanPoint(lines, pre, idx) && f in Scan(lines, 0)
    ensures f.head + |f.members| < idx || (f in Scan(lines, idx) && idx <= f.head)
  {
    if f !in pre {
      ScanPartitions(lines, idx);
      assert f in Scan(lines, idx);
      var k :| 0 <= k < |Scan(lines, idx)| && Scan(lines, idx)[k] == f;
    }
  }

  lemma {:induction false} PlainPoint(lines: seq<Line>, pre: seq<Found>, idx: nat)
    requires ScanPoint(lines, pre, idx) && idx < |lines| && HintAt(lines[idx]).None?
    ensures NoSafeHead(Scan(lines, 0), idx) && !SafeInside(Scan(lines, 0), idx)
    ensures ScanPoint(lines, pre, idx + 1)
  {
    ScanPartitions(lines, 0);
    forall f | f in Scan(lines, 0) ensures f.head != idx && !(f.head < idx <= f.head + |f.members|) {
      PointSeparates(lines, pre, idx, f);
    }
  }

  /** At a hint, exactly the bundle it heads covers the lines up to the next scan point. */
  lemma {:induction false} HintPoint(lines: seq<Line>, pre: seq<Found>, idx: nat, n: nat, f: Found, end: nat)
    requires ScanPoint(lines, pre, idx) && idx < |lines| && HintAt(lines[idx]) == Some(n)
    requires f == FoundAt(lines, idx, n) && end == StopAt(lines, idx, n)
    ensures f in Scan(lines, 0) && FromLines(lines, f) && |f.members| == end - idx - 1
    ensures Scan(lines, idx) == [f] + Scan(lines, end) && ScanPoint(lines, pre + [f], end)
    ensures forall g :: g in Scan(lines, 0) && g != f ==> g.head + |g.members| < idx || end <= g.head
  {
    assert Scan(lines, idx) == [f] + Scan(lines, end);
    assert pre + ([f] + Scan(lines, end)) == (pre + [f]) + Scan(lines, end);
    assert f in Scan(lines, idx);
    forall g | g in Scan(lines, 0) && g != f ensures g.head + |g.members| < idx || end <= g.head {
      PointSeparates(lines, pre + [f], end, g);
      if g in pre { } else { assert g in Scan(lines, end); ScanPartitions(lines, end); }
    }
  }

  /** Nothing but `f` touches its lines. */
  ghost predicate Alone(fs: seq<Found>, f: Found, end: nat) {
    forall g :: g in fs && g != f ==> g.head + |g.members| < f.head || end <= g.head
  }

  lemma {:induction false} HeadRange(lines: seq<Line>, hist: map<nat, nat>, f: Found, i: nat, mid: nat)
    requires WellFormed(lines) && i < |lines| && SafeHead(Scan(lines, 0), i, f) && mid == i + 1
    ensures Range(lines, hist, i, mid) == At(hist, f.addr) * |f.members| + At(hist, f.addr)
    ensures Executed(lines, hist, i, mid) == At(hist, f.addr)
  {
    HeadLine(lines, i, f);
    RangeOne(lines, hist, i, mid);
  }

  lemma {:induction false} MembersRange(lines: seq<Line>, hist: map<nat, nat>, f: Found, start: nat, end: nat)
    requires WellFormed(lines) && f in Scan(lines, 0) && FoundSafe(f)
    requires start == f.head + 1 && end == start + |f.members| <= |lines| && Alone(Scan(lines, 0), f, end)
    ensures Range(lines, hist, start, end) == 0
  {
    var fs := Scan(lines, 0);
    forall k | start <= k < end ensures SafeInside(fs, k) && NoSafeHead(fs, k) { }
    InsideRange(lines, hist, start, end);
  }

  /** A safe bundle is credited through its hint. */
  lemma {:induction false} SafeBundleRange(lines: seq<Line>, hist: map<nat, nat>, f: Found, i: nat, mid: nat, end: nat)
    requires WellFormed(lines) && f in Scan(lines, 0) && FromLines(lines, f) && FoundSafe(f)
    requires i == f.head && mid == i + 1 && end == mid + |f.members| <= |lines| && Alone(Scan(lines, 0), f, end)
    ensures Range(lines, hist, i, end) + Executed(lines, hist, mid, end)
            == Executed(lines, hist, i, end) + At(hist, f.addr) * |f.members|
  {
    assert SafeHead(Scan(lines, 0), i, f);
    HeadRange(lines, hist, f, i, mid);
    MembersRange(lines, hist, f, mid, end);
    SplitSums(lines, hist, i, mid, end);
  }

  /** An unsafe bundle is counted line by line. */
  lemma {:induction false} UnsafeBundleRange(lines: seq<Line>, hist: map<nat, nat>, f: Found, end: nat)
    requires WellFormed(lines) && f in Scan(lines, 0) && end == f.head + 1 + |f.members| <= |lines|
    requires Alone(Scan(lines, 0), f, end) && !FoundSafe(f)
    ensures Range(lines, hist, f.head, end) == Executed(lines, hist, f.head, end)
  {
    var fs := Scan(lines, 0);
    forall k | f.head <= k < end ensures !SafeInside(fs, k) && NoSafeHead(fs, k) { }
    LooseRange(lines, hist, f.head, end);
  }

  lemma {:induction false} BundleExecuted(lines: seq<Line>, hist: map<nat, nat>, f: Found, mid: nat, end: nat)
    requires FromLines(lines, f) && mid == f.head + 1 && end == mid + |f.members| <= |lines|
    ensures MemberCounts(hist, f.members) == Executed(lines, hist, mid, end)
  {
    MembersExecuted(lines, hist, f, |f.members|, mid, end);
    assert f.members[..|f.members|] == f.members;
  }

  lemma {:induction false} OneSum(f: Found, hist: map<nat, nat>)
    ensures AllMemberCounts([f], hist) == if FoundSafe(f) then MemberCounts(hist, f.members) else 0
    ensures AllCredits([f], hist) == if FoundSafe(f) then At(hist, f.addr) * |f.members| else 0
  {
    assert [f][1..] == [];
  }

  lemma {:induction false} BundleRange(lines: seq<Line>, hist: map<nat, nat>, f: Found, end: nat)
    requires WellFormed(lines) && f in Scan(lines, 0) && FromLines(lines, f)
    requires end == f.head + 1 + |f.members| <= |lines|
    requires Alone(Scan(lines, 0), f, end)
    ensures Range(lines, hist, f.head, end) + AllMemberCounts([f], hist)
            == Executed(lines, hist, f.head, end) + AllCredits([f], hist)
  {
    OneSum(f, hist);
    if FoundSafe(f) {
      var mid := f.head + 1;
      SafeBundleRange(lines, hist, f, f.head, mid, end);
      BundleExecuted(lines, hist, f, mid, end);
    } else {
      UnsafeBundleRange(lines, hist, f, end);
    }
  }

  lemma {:induction false} SumsHead(f: Found, fs: seq<Found>, hist: map<nat, nat>)
    ensures AllMemberCounts([f] + fs, hist) == AllMemberCounts([f], hist) + AllMemberCounts(fs, hist)
    ensures AllCredits([f] + fs, hist) == AllCredits([f], hist) + AllCredits(fs, hist)
  {
    assert [f][1..] == [] && ([f] + fs)[1..] == fs;
  }

  ghost predicate IdentityFrom(lines: seq<Line>, hist: map<nat, nat>, idx: nat)
    requires idx <= |lines|
  {
    Range(lines, hist, idx, |lines|) + AllMemberCounts(Scan(lines, idx), hist)
    == Executed(lines, hist, idx, |lines|) + AllCredits(Scan(lines, idx), hist)
  }

  lemma {:induction false} PlainRange(lines: seq<Line>, hist: map<nat, nat>, pre: seq<Found>, idx: nat)
    requires WellFormed(lines) && ScanPoint(lines, pre, idx) && idx < |lines| && HintAt(lines[idx]).None?
    ensures Range(lines, hist, idx, idx + 1) == Executed(lines, hist, idx, idx + 1)
  {
    PlainPoint(lines, pre, idx);
    LooseLine(lines, hist, idx, idx + 1);
  }

  lemma {:induction false} IdentityPlain(lines: seq<Line>, hist: map<nat, nat>, idx: nat)
    requires idx < |lines| && Scan(lines, idx) == Scan(lines, idx + 1)
    requires Range(lines, hist, idx, idx + 1) == Executed(lines, hist, idx, idx + 1)
    requires IdentityFrom(lines, hist, idx + 1)
    ensures IdentityFrom(lines, hist, idx)
  {
    SplitSums(lines, hist, idx, idx + 1, |lines|);
  }

  lemma {:induction false} IdentityBundle(lines: seq<Line>, hist: map<nat, nat>, f: Found, end: nat)
    requires WellFormed(lines) && f in Scan(lines, 0) && FromLines(lines, f)
    requires end == f.head + 1 + |f.members| <= |lines|
    requires Alone(Scan(lines, 0), f, end) && Scan(lines, f.head) == [f] + Scan(lines, end)
    requires IdentityFrom(lines, hist, end)
    ensures IdentityFrom(lines, hist, f.head)
  {
    BundleRange(lines, hist, f, end);
    SplitSums(lines, hist, f.head, end, |lines|);
    SumsHead(f, Scan(lines, end), hist);
  }

  lemma {:induction false} ScanIdentity(lines: seq<Line>, hist: map<nat, nat>, pre: seq<Found>, idx: nat)
    requires WellFormed(lines) && ScanPoint(lines, pre, idx)
    ensures IdentityFrom(lines, hist, idx)
    decreases |lines| - idx
  {
    if idx < |lines| {
      match HintAt(lines[idx])
      case None =>
        PlainPoint(lines, pre, idx);
        ScanIdentity(lines, hist, pre, idx + 1);
        PlainRange(lines, hist, pre, idx);
        IdentityPlain(lines, hist, idx);
      case Some(n) =>
        var f, end := FoundAt(lines, idx, n), StopAt(lines, idx, n);
        HintPoint(lines, pre, idx, n, f, end);
        ScanIdentity(lines, hist, pre + [f], end);
        IdentityBundle(lines, hist, f, end);
    }
  }

  /** The profiler's identity, for every listing and every histogram: payload plus hints is
      everything executed in the listing, with each member of a safe bundle credited with its
      hint's count instead of its own. */
  lemma {:induction false} ProfileIdentity(lines: seq<Line>, hist: map<nat, nat>)
    requires WellFormed(lines)
    ensures var fs := Scan(lines, 0);
            var r := Accounted(lines, hist, BundleAt(fs), MemberAddrs(fs));
            Payload(r) + r.hints + AllMemberCounts(fs, hist)
            == Executed(lines, hist, 0, |lines|) + AllCredits(fs, hist)
  {
    var fs := Scan(lines, 0);
    AccountedTotal(lines, hist, BundleAt(fs), MemberAddrs(fs));
    assert lines[..|lines|] == lines;
    RangeIsContributions(lines, hist, |lines|);
    assert [] + fs == fs;
    ScanIdentity(lines, hist, [], 0);
  }
}
