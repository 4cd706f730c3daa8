/** The profile of a complete run. */
module RunProfile {
  import opened Wrappers
  import opened Isa
  import opened Machine
  import opened Checker
  import opened Counters
  import opened Profile
  import opened Run
  import opened Report
  import opened Visits
  import opened Conservation

  /** `hist` is the histogram of the first `k` instructions the stock core executes from `s`. */
  ghost predicate IsHistogram(sem: Semantics, p: Program, s: State, k: nat, hist: map<nat, nat>) {
    forall a: nat :: At(hist, a) == Count(sem, p, s, k, a)
  }

  /** Every run has one. */
  lemma {:induction false} HistogramExists(sem: Semantics, p: Program, s: State, k: nat) returns (hist: map<nat, nat>)
    ensures IsHistogram(sem, p, s, k, hist)
    decreases k
  {
    hist := map[];
    if k > 0 {
      var before := HistogramExists(sem, p, s, k - 1);
      hist := before;
      var pc := PcAt(sem, p, s, k - 1);
      if pc.Some? { hist := Bump(before, pc.value, 1); }
      forall a: nat ensures At(hist, a) == Count(sem, p, s, k, a) {
        assert At(before, a) == Count(sem, p, s, k - 1, a);
      }
    }
  }

  /** The address a fall-through into member `j` comes from. */
  function Before(f: Found, j: nat): nat
    requires j < |f.members|
  {
    if j == 0 then f.addr else f.members[j - 1].addr
  }

  /** The run does not stop inside the bundle. */
  ghost predicate EndsOutside(sem: Semantics, p: Program, s: State, k: nat, f: Found) {
    forall j :: 0 <= j < |f.members| ==> PcAt(sem, p, s, k) != Some(f.members[j].addr)
  }

  // ----- one bundle -----

  /** Instruction `t` of the run lands on member `j` from elsewhere, or goes on to elsewhere from what
      stands before it. */
  ghost predicate Strays(side: Side, sem: Semantics, p: Program, s: State, t: nat, f: Found, j: nat)
    requires j < |f.members|
  {
    Crosses(side, sem, p, s, t, Before(f, j), f.members[j].addr)
  }

  ghost predicate NeverStrays(side: Side, sem: Semantics, p: Program, s: State, k: nat, f: Found, j: nat)
    requires j < |f.members|
  {
    forall t :: 0 <= t < k ==> !Strays(side, sem, p, s, t, f, j)
  }

  /** That never happens at the first `j` members. */
  ghost predicate CleanUpTo(side: Side, sem: Semantics, p: Program, s: State, k: nat, f: Found, j: nat)
    requires j <= |f.members|
  {
    forall i :: 0 <= i < j ==> NeverStrays(side, sem, p, s, k, f, i)
  }

  ghost predicate Clean(side: Side, sem: Semantics, p: Program, s: State, k: nat, f: Found) {
    CleanUpTo(side, sem, p, s, k, f, |f.members|)
  }

  /** How often it happens at member `j`. */
  function StraysAt(side: Side, sem: Semantics, p: Program, s: State, k: nat, f: Found, j: nat): nat
    requires j < |f.members|
  {
    Crossings(side, sem, p, s, k, Before(f, j), f.members[j].addr)
  }

  /** And at the first `j` members. */
  function StraysBefore(side: Side, sem: Semantics, p: Program, s: State, k: nat, f: Found, j: nat): nat
    requires j <= |f.members|
  {
    if j == 0 then 0
    else StraysBefore(side, sem, p, s, k, f, j - 1) + StraysAt(side, sem, p, s, k, f, j - 1)
  }

  /** The sum of that over the first `j` members: an entry at a member or an exit ahead of it counts
      once for each member from there on. */
  function Weighted(side: Side, sem: Semantics, p: Program, s: State, k: nat, f: Found, j: nat): nat
    requires j <= |f.members|
  {
    if j == 0 then 0
    else Weighted(side, sem, p, s, k, f, j - 1) + StraysBefore(side, sem, p, s, k, f, j)
  }

  lemma {:induction false} StraysSnoc(side: Side, sem: Semantics, p: Program, s: State, k: nat, f: Found, j: nat)
    requires j < |f.members|
    ensures StraysBefore(side, sem, p, s, k, f, j + 1)
            == StraysBefore(side, sem, p, s, k, f, j) + StraysAt(side, sem, p, s, k, f, j)
  {
  }

  lemma {:induction false} MemberFlow(sem: Semantics, p: Program, s: State, k: nat, f: Found, j: nat)
    requires EndsOutside(sem, p, s, k, f) && j < |f.members|
    ensures Count(sem, p, s, k, f.members[j].addr) + StraysAt(Out, sem, p, s, k, f, j)
            == Count(sem, p, s, k, Before(f, j)) + StraysAt(In, sem, p, s, k, f, j)
  {
    FlowBalance(sem, p, s, k, Before(f, j), f.members[j].addr);
  }

  /** A member is executed as often as its hint, plus once for each entry at or before it, less once
      for each exit ahead of it. */
  lemma {:induction false} MemberCount(sem: Semantics, p: Program, s: State, k: nat, f: Found, j: nat)
    requires EndsOutside(sem, p, s, k, f) && j < |f.members|
    ensures Count(sem, p, s, k, f.members[j].addr) + StraysBefore(Out, sem, p, s, k, f, j + 1)
            == Count(sem, p, s, k, f.addr) + StraysBefore(In, sem, p, s, k, f, j + 1)
    decreases j
  {
    MemberFlow(sem, p, s, k, f, j);
    StraysSnoc(In, sem, p, s, k, f, j);
    StraysSnoc(Out, sem, p, s, k, f, j);
    if j > 0 {
      MemberCount(sem, p, s, k, f, j - 1);
    } else {
      assert StraysBefore(In, sem, p, s, k, f, 0) == 0 == StraysBefore(Out, sem, p, s, k, f, 0);
    }
  }

  lemma {:induction false} WeightedSnoc(side: Side, sem: Semantics, p: Program, s: State, k: nat, f: Found, j: nat)
    requires j < |f.members|
    ensures Weighted(side, sem, p, s, k, f, j + 1)
            == Weighted(side, sem, p, s, k, f, j) + StraysBefore(side, sem, p, s, k, f, j + 1)
  {
  }

  /** What the profiler credits the first `j` members with. */
  function Credit(hist: map<nat, nat>, f: Found, j: nat): nat {
    At(hist, f.addr) * j
  }

  lemma {:induction false} CreditSnoc(hist: map<nat, nat>, f: Found, j: nat)
    ensures Credit(hist, f, j + 1) == Credit(hist, f, j) + At(hist, f.addr) && Credit(hist, f, 0) == 0
  {
    Distribute(At(hist, f.addr), j, 1);
  }

  /** The first `j` members' executions against their credit. */
  ghost predicate CreditedUpTo(sem: Semantics, p: Program, s: State, k: nat, f: Found, hist: map<nat, nat>, j: nat)
    requires j <= |f.members|
  {
    MemberCounts(hist, f.members[..j]) + Weighted(Out, sem, p, s, k, f, j)
    == Credit(hist, f, j) + Weighted(In, sem, p, s, k, f, j)
  }

  lemma {:induction false} OneMoreCredited(sem: Semantics, p: Program, s: State, k: nat, f: Found,
                                           hist: map<nat, nat>, i: nat, j: nat)
    requires EndsOutside(sem, p, s, k, f) && j == i + 1 <= |f.members| && IsHistogram(sem, p, s, k, hist)
    requires CreditedUpTo(sem, p, s, k, f, hist, i)
    ensures CreditedUpTo(sem, p, s, k, f, hist, j)
  {
    MemberCount(sem, p, s, k, f, i);
    CountsSnoc(hist, f.members, i, j);
    WeightedSnoc(In, sem, p, s, k, f, i);
    WeightedSnoc(Out, sem, p, s, k, f, i);
    CreditSnoc(hist, f, i);
  }

  lemma {:induction false} MembersCount(sem: Semantics, p: Program, s: State, k: nat, f: Found, hist: map<nat, nat>,
                                        j: nat)
    requires EndsOutside(sem, p, s, k, f) && j <= |f.members| && IsHistogram(sem, p, s, k, hist)
    ensures CreditedUpTo(sem, p, s, k, f, hist, j)
    decreases j
  {
    if j > 0 {
      MembersCount(sem, p, s, k, f, hist, j - 1);
      OneMoreCredited(sem, p, s, k, f, hist, j - 1, j);
    } else {
      assert f.members[..0] == [];
    }
  }

  /** One bundle's members against its credit. */
  lemma {:induction false} CreditBalance(sem: Semantics, p: Program, s: State, k: nat, f: Found, hist: map<nat, nat>,
                                         n: nat)
    requires EndsOutside(sem, p, s, k, f) && n == |f.members| && IsHistogram(sem, p, s, k, hist)
    ensures MemberCounts(hist, f.members) + Weighted(Out, sem, p, s, k, f, n)
            == Credit(hist, f, n) + Weighted(In, sem, p, s, k, f, n)
  {
    assert f.members[..n] == f.members;
    MembersCount(sem, p, s, k, f, hist, n);
  }

  lemma {:induction false} StrayFree(side: Side, sem: Semantics, p: Program, s: State, k: nat, f: Found, j: nat)
    requires j < |f.members|
    ensures StraysAt(side, sem, p, s, k, f, j) == 0 <==> NeverStrays(side, sem, p, s, k, f, j)
  {
    var prev, pc := Before(f, j), f.members[j].addr;
    CrossingsZero(side, sem, p, s, k, prev, pc);
    assert forall t :: Strays(side, sem, p, s, t, f, j) == Crosses(side, sem, p, s, t, prev, pc);
  }

  lemma {:induction false} StraysZero(side: Side, sem: Semantics, p: Program, s: State, k: nat, f: Found, j: nat)
    requires j <= |f.members|
    ensures StraysBefore(side, sem, p, s, k, f, j) == 0 <==> CleanUpTo(side, sem, p, s, k, f, j)
    decreases j
  {
    if j > 0 {
      StraysZero(side, sem, p, s, k, f, j - 1);
      StraysSnoc(side, sem, p, s, k, f, j - 1);
      StrayFree(side, sem, p, s, k, f, j - 1);
    }
  }

  lemma {:induction false} WeightedZero(side: Side, sem: Semantics, p: Program, s: State, k: nat, f: Found, j: nat)
    requires j <= |f.members|
    ensures Weighted(side, sem, p, s, k, f, j) == 0 <==> CleanUpTo(side, sem, p, s, k, f, j)
    decreases j
  {
    if j > 0 {
      WeightedZero(side, sem, p, s, k, f, j - 1);
      StraysZero(side, sem, p, s, k, f, j);
    }
  }

  // ----- all bundles -----

  ghost predicate AllEndOutside(sem: Semantics, p: Program, s: State, k: nat, fs: seq<Found>) {
    forall f :: f in fs && FoundSafe(f) ==> EndsOutside(sem, p, s, k, f)
  }

  /** No safe bundle is entered other than through its hint, or left other than at its end. */
  ghost predicate AllClean(side: Side, sem: Semantics, p: Program, s: State, k: nat, fs: seq<Found>) {
    forall f :: f in fs && FoundSafe(f) ==> Clean(side, sem, p, s, k, f)
  }

  /** The weighted entries, or exits, of a safe bundle. */
  function Toll(side: Side, sem: Semantics, p: Program, s: State, k: nat, f: Found): nat {
    if FoundSafe(f) then Weighted(side, sem, p, s, k, f, |f.members|) else 0
  }

  function AllTolls(side: Side, sem: Semantics, p: Program, s: State, k: nat, fs: seq<Found>): nat {
    if fs == [] then 0 else Toll(side, sem, p, s, k, fs[0]) + AllTolls(side, sem, p, s, k, fs[1..])
  }

  lemma {:induction false} TollZero(side: Side, sem: Semantics, p: Program, s: State, k: nat, f: Found)
    ensures Toll(side, sem, p, s, k, f) == 0 <==> (FoundSafe(f) ==> Clean(side, sem, p, s, k, f))
  {
    WeightedZero(side, sem, p, s, k, f, |f.members|);
  }

  lemma {:induction false} TollsZero(side: Side, sem: Semantics, p: Program, s: State, k: nat, fs: seq<Found>)
    ensures AllTolls(side, sem, p, s, k, fs) == 0 <==> AllClean(side, sem, p, s, k, fs)
    decreases |fs|
  {
    if fs != [] {
      TollZero(side, sem, p, s, k, fs[0]);
      TollsZero(side, sem, p, s, k, fs[1..]);
      assert forall f :: f in fs <==> f == fs[0] || f in fs[1..];
    }
  }

  lemma {:induction false} CreditsBalance(sem: Semantics, p: Program, s: State, k: nat, fs: seq<Found>,
                                          hist: map<nat, nat>)
    requires AllEndOutside(sem, p, s, k, fs) && IsHistogram(sem, p, s, k, hist)
    ensures AllMemberCounts(fs, hist) + AllTolls(Out, sem, p, s, k, fs)
            == AllCredits(fs, hist) + AllTolls(In, sem, p, s, k, fs)
    decreases |fs|
  {
    if fs != [] {
      CreditsBalance(sem, p, s, k, fs[1..], hist);
      assert fs[0] in fs;
      if FoundSafe(fs[0]) { CreditBalance(sem, p, s, k, fs[0], hist, |fs[0].members|); }
    }
  }

  lemma {:induction false} PlaceAt(lines: seq<Line>, i: nat)
    requires i < |lines|
    ensures ProgramOf(lines)[i].insn.addr == lines[i].addr
  {
    DecodeKeepsPlace(lines[i].addr, lines[i].word);
  }

  lemma {:induction false} ExecutedIsCounted(sem: Semantics, lines: seq<Line>, s: State, k: nat, hist: map<nat, nat>,
                                             j: nat)
    requires j <= |lines| && IsHistogram(sem, ProgramOf(lines), s, k, hist)
    ensures Executed(lines, hist, 0, j) == CountFirst(sem, ProgramOf(lines), s, k, j)
    decreases j
  {
    if j > 0 {
      ExecutedIsCounted(sem, lines, s, k, hist, j - 1);
      PlaceAt(lines, j - 1);
    }
  }

  lemma {:induction false} HaltsOutside(lines: seq<Line>, sem: Semantics, p: Program, s: State, k: nat, t: State,
                                        f: Found)
    requires p == ProgramOf(lines) && FromLines(lines, f) && Reaches(sem, p, s, k, t) && Halted(p, t)
    ensures EndsOutside(sem, p, s, k, f)
  {
    BundleMembers(lines, f);
  }

  lemma {:induction false} AllHaltOutside(lines: seq<Line>, sem: Semantics, p: Program, s: State, k: nat, t: State)
    requires p == ProgramOf(lines) && Reaches(sem, p, s, k, t) && Halted(p, t)
    ensures AllEndOutside(sem, p, s, k, Scan(lines, 0))
  {
    forall f | f in Scan(lines, 0) && FoundSafe(f) ensures EndsOutside(sem, p, s, k, f) {
      assert FromLines(lines, f) by { ScanPartitions(lines, 0); }
      HaltsOutside(lines, sem, p, s, k, t, f);
    }
  }

  lemma {:induction false} AllExecuted(sem: Semantics, lines: seq<Line>, s: State, k: nat, hist: map<nat, nat>)
    requires WellFormed(lines) && Steps(sem, ProgramOf(lines), s, k).Some?
    requires IsHistogram(sem, ProgramOf(lines), s, k, hist)
    ensures Executed(lines, hist, 0, |lines|) == k
  {
    ProgramShape(lines);
    EveryStepIsCounted(sem, ProgramOf(lines), s, k);
    ExecutedIsCounted(sem, lines, s, k, hist, |lines|);
  }

  /** Histogram conservation, for every listing and complete run. Payload plus hints differs from the
      number of instructions executed by the entries into the middle of safe bundles, which it misses,
      and the exits from them, which it counts too often, each weighted with the members from there
      on. So the two are equal exactly when these sums are. */
  lemma {:induction false} ProfileExact(sem: Semantics, lines: seq<Line>, s: State, k: nat, t: State,
                                        hist: map<nat, nat>)
    requires WellFormed(lines) && IsHistogram(sem, ProgramOf(lines), s, k, hist)
    requires Reaches(sem, ProgramOf(lines), s, k, t) && Halted(ProgramOf(lines), t)
    ensures var p, fs := ProgramOf(lines), Scan(lines, 0);
            var r := Accounted(lines, hist, BundleAt(fs), MemberAddrs(fs));
            && Payload(r) + r.hints + AllTolls(In, sem, p, s, k, fs) == k + AllTolls(Out, sem, p, s, k, fs)
            && (AllTolls(In, sem, p, s, k, fs) == 0 <==> AllClean(In, sem, p, s, k, fs))
            && (AllTolls(Out, sem, p, s, k, fs) == 0 <==> AllClean(Out, sem, p, s, k, fs))
  {
    var p, fs := ProgramOf(lines), Scan(lines, 0);
    ProfileIdentity(lines, hist);
    AllHaltOutside(lines, sem, p, s, k, t);
    CreditsBalance(sem, p, s, k, fs, hist);
    AllExecuted(sem, lines, s, k, hist);
    TollsZero(In, sem, p, s, k, fs);
    TollsZero(Out, sem, p, s, k, fs);
  }

  // ----- when bundles flow -----

  predicate Falls(p: Program, i: nat) {
    i + 1 < |p| && !Control(p[i].insn) && EndOf(p[i].insn) == p[i + 1].insn.addr
  }

  ghost predicate NeighboursFlow(sem: Semantics, p: Program) {
    forall i :: 0 <= i < |p| - 1 && Falls(p, i) ==> FlowsTo(sem, p, p[i].insn.addr, p[i + 1].insn.addr)
  }

  lemma {:induction false} FallsFlow(sem: Semantics, p: Program)
    requires Sorted(p) && ProgramFramed(sem, p)
    ensures NeighboursFlow(sem, p)
  {
    forall i | 0 <= i < |p| - 1 && Falls(p, i) ensures FlowsTo(sem, p, p[i].insn.addr, p[i + 1].insn.addr) {
      FallsToNeighbour(sem, p, i);
    }
  }

  /** The bundle as part of the program: the hint and its members are adjacent, and only the last
      of them may transfer control. */
  ghost predicate Straight(p: Program, f: Found) {
    && f.head + |f.members| < |p| && Adjacent(p, f.head, |f.members|)
    && p[f.head].insn.addr == f.addr && f.members == MembersAt(p, f.head, |f.members|)
    && forall i :: f.head <= i < f.head + |f.members| ==> !Control(p[i].insn)
  }

  lemma {:induction false} HeadIsNop(lines: seq<Line>, i: nat)
    requires WellFormed(lines) && i < |lines| && ProgramOf(lines)[i].hint.Some?
    ensures !Control(ProgramOf(lines)[i].insn)
  {
    ProgramShape(lines);
    assert ProgramOf(lines)[i] in ProgramOf(lines);
  }

  lemma {:induction false} WorkersFall(p: Program, f: Found, h: nat)
    requires h == f.head && h + |f.members| < |p| && f.members == MembersAt(p, h, |f.members|)
    requires WorkersOk(f.members) && !Control(p[h].insn) && (|f.members| >= 2 ==> !Control(p[h + 1].insn))
    ensures forall i :: h <= i < h + |f.members| ==> !Control(p[i].insn)
  {
    forall i | h + 1 < i < h + |f.members| ensures !Control(p[i].insn) {
      assert Worker(f.members[i - h - 1]);
    }
  }

  lemma {:induction false} SafeIsStraight(lines: seq<Line>, p: Program, f: Found)
    requires WellFormed(lines) && p == ProgramOf(lines) && FromLines(lines, f) && FoundSafe(f)
    requires p[f.head].hint == Some(f.declared) && Forms(p, f.head) && UntestedOk(p, f.head)
    ensures Straight(p, f)
  {
    SafeBundleIsWhole(lines, f);
    BundleMembers(lines, f);
    HeadIsNop(lines, f.head);
    PlaceAt(lines, f.head);
    WorkersFall(p, f, f.head);
  }

  /** The instruction before member `j` falls through to member `j`. */
  lemma {:induction false} BundleStep(p: Program, f: Found, j: nat, i: nat)
    requires Straight(p, f) && j < |f.members| && i == f.head + j
    ensures Falls(p, i) && p[i].insn.addr == Before(f, j) && p[i + 1].insn.addr == f.members[j].addr
  {
    assert j > 0 ==> f.members[j - 1] == p[i].insn;
  }

  lemma {:induction false} MemberKeeps(sem: Semantics, p: Program, s: State, k: nat, f: Found, j: nat)
    requires NeighboursFlow(sem, p) && Straight(p, f) && j < |f.members|
    ensures NeverStrays(Out, sem, p, s, k, f, j)
  {
    var prev, pc := Before(f, j), f.members[j].addr;
    BundleStep(p, f, j, f.head + j);
    forall t | 0 <= t < k ensures !Strays(Out, sem, p, s, t, f, j) {
      NeverLeaves(sem, p, s, t, prev, pc);
    }
  }

  /** A straight bundle is left at its end only. */
  lemma {:induction false} StraightKeeps(sem: Semantics, p: Program, s: State, k: nat, f: Found)
    requires NeighboursFlow(sem, p) && Straight(p, f)
    ensures Clean(Out, sem, p, s, k, f)
  {
    forall j | 0 <= j < |f.members| ensures NeverStrays(Out, sem, p, s, k, f, j) {
      MemberKeeps(sem, p, s, k, f, j);
    }
  }

  /** Every bundle's members are adjacent, and in a bundle of two or more the first is no transfer. */
  ghost predicate BundlesStraight(p: Program) {
    forall i :: 0 <= i < |p| && Forms(p, i) ==> UntestedOk(p, i)
  }

  lemma {:induction false} SafeHeadForms(lines: seq<Line>, f: Found)
    requires WellFormed(lines) && FromLines(lines, f) && FoundSafe(f)
    ensures var p := ProgramOf(lines);
            f.head < |p| && p[f.head].hint == Some(f.declared) && Forms(p, f.head)
  {
    ProgramShape(lines);
    SafeBundleIsWhole(lines, f);
  }

  lemma {:induction false} StraightListingKeeps(sem: Semantics, lines: seq<Line>, p: Program, s: State, k: nat)
    requires WellFormed(lines) && p == ProgramOf(lines) && BundlesStraight(p) && NeighboursFlow(sem, p)
    ensures AllClean(Out, sem, p, s, k, Scan(lines, 0))
  {
    forall f | f in Scan(lines, 0) && FoundSafe(f) ensures Clean(Out, sem, p, s, k, f) {
      assert FromLines(lines, f) by { ScanPartitions(lines, 0); }
      SafeHeadForms(lines, f);
      SafeIsStraight(lines, p, f);
      StraightKeeps(sem, p, s, k, f);
    }
  }

  lemma {:induction false} StraightRunKeeps(sem: Semantics, lines: seq<Line>, s: State, k: nat)
    requires WellFormed(lines) && BundlesStraight(ProgramOf(lines)) && ProgramFramed(sem, ProgramOf(lines))
    ensures AllClean(Out, sem, ProgramOf(lines), s, k, Scan(lines, 0))
  {
    assert NeighboursFlow(sem, ProgramOf(lines)) by {
      ProgramShape(lines);
      FallsFlow(sem, ProgramOf(lines));
    }
    StraightListingKeeps(sem, lines, ProgramOf(lines), s, k);
  }

  /** Where members are adjacent and no bundle is headed by a transfer there are no exits: the profile
      never exceeds what was executed, and equals it exactly when no safe bundle is entered other than
      through its hint. */
  lemma {:induction false} CompleteRunProfile(sem: Semantics, lines: seq<Line>, s: State, k: nat, t: State,
                                              hist: map<nat, nat>)
    requires WellFormed(lines) && BundlesStraight(ProgramOf(lines)) && ProgramFramed(sem, ProgramOf(lines))
    requires Reaches(sem, ProgramOf(lines), s, k, t) && Halted(ProgramOf(lines), t)
    requires IsHistogram(sem, ProgramOf(lines), s, k, hist)
    ensures var fs := Scan(lines, 0);
            var r := Accounted(lines, hist, BundleAt(fs), MemberAddrs(fs));
            && Payload(r) + r.hints <= k
            && (Payload(r) + r.hints == k <==> AllClean(In, sem, ProgramOf(lines), s, k, fs))
  {
    StraightRunKeeps(sem, lines, s, k);
    ProfileExact(sem, lines, s, k, t, hist);
  }

  lemma {:induction false} UnstrayedMember(sem: Semantics, p: Program, s: State, k: nat, f: Found, j: nat)
    requires EndsOutside(sem, p, s, k, f) && j < |f.members|
    requires Clean(In, sem, p, s, k, f) && Clean(Out, sem, p, s, k, f)
    ensures Count(sem, p, s, k, f.members[j].addr) == Count(sem, p, s, k, f.addr)
  {
    MemberCount(sem, p, s, k, f, j);
    StraysZero(In, sem, p, s, k, f, j + 1);
    StraysZero(Out, sem, p, s, k, f, j + 1);
  }

  /** In any complete run, each member of a safe bundle that is only entered through its hint and left
      at its end is executed exactly as often as the hint. */
  lemma {:induction false} MembersMatchHint(sem: Semantics, lines: seq<Line>, s: State, k: nat, t: State, f: Found,
                                            j: nat)
    requires WellFormed(lines) && Reaches(sem, ProgramOf(lines), s, k, t) && Halted(ProgramOf(lines), t)
    requires f in Scan(lines, 0) && FoundSafe(f) && j < |f.members|
    requires Clean(In, sem, ProgramOf(lines), s, k, f) && Clean(Out, sem, ProgramOf(lines), s, k, f)
    ensures Count(sem, ProgramOf(lines), s, k, f.members[j].addr) == Count(sem, ProgramOf(lines), s, k, f.addr)
  {
    AllHaltOutside(lines, sem, ProgramOf(lines), s, k, t);
    UnstrayedMember(sem, ProgramOf(lines), s, k, f, j);
  }
}
