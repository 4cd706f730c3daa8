/** The straddle report of `tools/starbug_straddle.py`, and what its numbers mean in cycles. */
module Straddle {
  import opened Isa
  import opened Machine
  import opened Checker
  import opened Diagnostics
  import opened Counters
  import opened Run
  import opened Report
  import opened Visits
  import opened Conservation
  import opened RunProfile
  import opened Cycles

  // ----- the report -----

  /** The hardware declines a bundle that does not fit in one cache line. */
  function Crosses(lineBytes: nat): Policy
    requires lineBytes > 0
  {
    (a: nat, ms: seq<Insn>) => ms != [] && Straddles(a, ms, lineBytes)
  }

  /** The same, told from the bytes of the members. */
  ghost function Elsewhere(lineBytes: nat): Policy
    requires lineBytes > 0
  {
    (a: nat, ms: seq<Insn>) => ByteElsewhere(a, ms, lineBytes)
  }

  function Except(acc: Policy): Policy {
    (a: nat, ms: seq<Insn>) => !acc(a, ms)
  }

  predicate Chosen(f: Found, acc: Policy) {
    FoundSafe(f) && acc(f.addr, f.members)
  }

  /** Executions of the safe bundles the policy picks. */
  function Execs(fs: seq<Found>, hist: map<nat, nat>, acc: Policy): nat {
    if fs == [] then 0
    else
      var f := fs[|fs| - 1];
      Execs(fs[..|fs| - 1], hist, acc) + if Chosen(f, acc) then At(hist, f.addr) else 0
  }

  /** The instructions behind `n` executions of a bundle. */
  function Behind(f: Found, n: nat): nat {
    n * |f.members|
  }

  /** The instructions behind those executions. */
  function Slots(fs: seq<Found>, hist: map<nat, nat>, acc: Policy): nat {
    if fs == [] then 0
    else
      var f := fs[|fs| - 1];
      Slots(fs[..|fs| - 1], hist, acc) + if Chosen(f, acc) then Behind(f, At(hist, f.addr)) else 0
  }

  datatype Tally = Tally(execs: nat, slots: nat, fnExecs: map<string, nat>, fnSlots: map<string, nat>)

  function Add(r: Tally, f: Found, n: nat): Tally {
    Tally(r.execs + n, r.slots + Behind(f, n), Bump(r.fnExecs, f.func, n), Bump(r.fnSlots, f.func, Behind(f, n)))
  }

  /** The bundles of one function. */
  function Of(fs: seq<Found>, func: string): seq<Found> {
    if fs == [] then []
    else
      var f := fs[|fs| - 1];
      Of(fs[..|fs| - 1], func) + if f.func == func then [f] else []
  }

  /** A function's record is what its own bundles add up to. */
  ghost predicate RecordOf(r: Tally, fs: seq<Found>, hist: map<nat, nat>, acc: Policy, func: string) {
    && At(r.fnExecs, func) == Execs(Of(fs, func), hist, acc)
    && At(r.fnSlots, func) == Slots(Of(fs, func), hist, acc)
  }

  ghost predicate ByFunction(r: Tally, fs: seq<Found>, hist: map<nat, nat>, acc: Policy) {
    forall func: string :: RecordOf(r, fs, hist, acc, func)
  }

  ghost predicate InTotal(r: Tally, fs: seq<Found>, hist: map<nat, nat>, acc: Policy) {
    && r.execs == Execs(fs, hist, acc) == Total(r.fnExecs)
    && r.slots == Slots(fs, hist, acc) == Total(r.fnSlots)
  }

  ghost predicate Tallies(r: Tally, fs: seq<Found>, hist: map<nat, nat>, acc: Policy) {
    InTotal(r, fs, hist, acc) && ByFunction(r, fs, hist, acc)
  }

  lemma {:induction false} ExecsSnoc(fs: seq<Found>, f: Found, hist: map<nat, nat>, acc: Policy)
    ensures Execs(fs + [f], hist, acc) == Execs(fs, hist, acc) + if Chosen(f, acc) then At(hist, f.addr) else 0
    ensures Slots(fs + [f], hist, acc)
            == Slots(fs, hist, acc) + if Chosen(f, acc) then Behind(f, At(hist, f.addr)) else 0
  {
    assert (fs + [f])[..|fs|] == fs;
  }

  lemma {:induction false} OfSnoc(fs: seq<Found>, f: Found, func: string)
    ensures Of(fs + [f], func) == Of(fs, func) + if f.func == func then [f] else []
  {
    assert (fs + [f])[..|fs|] == fs;
  }

  /** One more bundle changes the sums of its own function alone. */
  lemma {:induction false} OfGrows(fs: seq<Found>, f: Found, func: string, hist: map<nat, nat>, acc: Policy)
    ensures f.func != func || !Chosen(f, acc) ==>
              && Execs(Of(fs + [f], func), hist, acc) == Execs(Of(fs, func), hist, acc)
              && Slots(Of(fs + [f], func), hist, acc) == Slots(Of(fs, func), hist, acc)
    ensures f.func == func && Chosen(f, acc) ==>
              && Execs(Of(fs + [f], func), hist, acc) == Execs(Of(fs, func), hist, acc) + At(hist, f.addr)
              && Slots(Of(fs + [f], func), hist, acc)
                 == Slots(Of(fs, func), hist, acc) + Behind(f, At(hist, f.addr))
  {
    OfSnoc(fs, f, func);
    if f.func == func {
      ExecsSnoc(Of(fs, func), f, hist, acc);
    } else {
      assert Of(fs, func) + [] == Of(fs, func);
    }
  }

  lemma {:induction false} BumpAt(c: map<string, nat>, k: string, d: nat, func: string)
    ensures At(Bump(c, k, d), func) == At(c, func) + if k == func then d else 0
  {
  }

  lemma {:induction false} RecordOwn(r: Tally, fs: seq<Found>, hist: map<nat, nat>, acc: Policy, f: Found, func: string,
                                     d: nat)
    requires RecordOf(r, fs, hist, acc, func) && Chosen(f, acc) && f.func == func && d == At(hist, f.addr)
    ensures RecordOf(Add(r, f, d), fs + [f], hist, acc, func)
  {
    OfGrows(fs, f, func, hist, acc);
    BumpAt(r.fnExecs, func, d, func);
    BumpAt(r.fnSlots, func, Behind(f, d), func);
  }

  lemma {:induction false} RecordOther(r: Tally, fs: seq<Found>, hist: map<nat, nat>, acc: Policy, f: Found,
                                       func: string, d: nat)
    requires RecordOf(r, fs, hist, acc, func) && f.func != func
    ensures RecordOf(Add(r, f, d), fs + [f], hist, acc, func) && RecordOf(r, fs + [f], hist, acc, func)
  {
    OfGrows(fs, f, func, hist, acc);
    BumpAt(r.fnExecs, f.func, d, func);
    BumpAt(r.fnSlots, f.func, Behind(f, d), func);
  }

  lemma {:induction false} RecordSkip(r: Tally, fs: seq<Found>, hist: map<nat, nat>, acc: Policy, f: Found,
                                      func: string)
    requires RecordOf(r, fs, hist, acc, func) && !Chosen(f, acc)
    ensures RecordOf(r, fs + [f], hist, acc, func)
  {
    OfGrows(fs, f, func, hist, acc);
  }

  lemma {:induction false} RecordAdd(r: Tally, fs: seq<Found>, hist: map<nat, nat>, acc: Policy, f: Found, func: string,
                                     d: nat)
    requires RecordOf(r, fs, hist, acc, func) && d == At(hist, f.addr)
    ensures Chosen(f, acc) ==> RecordOf(Add(r, f, d), fs + [f], hist, acc, func)
    ensures !Chosen(f, acc) ==> RecordOf(r, fs + [f], hist, acc, func)
  {
    if f.func != func {
      RecordOther(r, fs, hist, acc, f, func, d);
    } else if Chosen(f, acc) {
      RecordOwn(r, fs, hist, acc, f, func, d);
    } else {
      RecordSkip(r, fs, hist, acc, f, func);
    }
  }

  lemma {:induction false} FunctionAdd(r: Tally, fs: seq<Found>, hist: map<nat, nat>, acc: Policy, f: Found)
    requires ByFunction(r, fs, hist, acc)
    ensures Chosen(f, acc) ==> ByFunction(Add(r, f, At(hist, f.addr)), fs + [f], hist, acc)
    ensures !Chosen(f, acc) ==> ByFunction(r, fs + [f], hist, acc)
  {
    var s := if Chosen(f, acc) then Add(r, f, At(hist, f.addr)) else r;
    forall func: string ensures RecordOf(s, fs + [f], hist, acc, func) {
      RecordAdd(r, fs, hist, acc, f, func, At(hist, f.addr));
    }
  }

  lemma {:induction false} TotalAdd(r: Tally, fs: seq<Found>, hist: map<nat, nat>, acc: Policy, f: Found)
    requires InTotal(r, fs, hist, acc)
    ensures Chosen(f, acc) ==> InTotal(Add(r, f, At(hist, f.addr)), fs + [f], hist, acc)
    ensures !Chosen(f, acc) ==> InTotal(r, fs + [f], hist, acc)
  {
    ExecsSnoc(fs, f, hist, acc);
    TotalBump(r.fnExecs, f.func, At(hist, f.addr));
    TotalBump(r.fnSlots, f.func, Behind(f, At(hist, f.addr)));
  }

  lemma {:induction false} TallyAdd(r: Tally, fs: seq<Found>, hist: map<nat, nat>, acc: Policy, f: Found)
    requires Tallies(r, fs, hist, acc)
    ensures Chosen(f, acc) ==> Tallies(Add(r, f, At(hist, f.addr)), fs + [f], hist, acc)
    ensures !Chosen(f, acc) ==> Tallies(r, fs + [f], hist, acc)
  {
    TotalAdd(r, fs, hist, acc, f);
    FunctionAdd(r, fs, hist, acc, f);
  }

  // ----- the same told from the bytes -----

  /** The members of every safe bundle stand in order behind its hint. */
  ghost predicate AllInOrder(fs: seq<Found>) {
    forall f :: f in fs && FoundSafe(f) ==> InOrder(f.addr, f.members)
  }

  ghost predicate SameChoice(fs: seq<Found>, p: Policy, q: Policy) {
    forall f :: f in fs ==> (Chosen(f, p) <==> Chosen(f, q))
  }

  lemma {:induction false} SameSums(fs: seq<Found>, hist: map<nat, nat>, p: Policy, q: Policy)
    requires SameChoice(fs, p, q)
    ensures Execs(fs, hist, p) == Execs(fs, hist, q) && Slots(fs, hist, p) == Slots(fs, hist, q)
    decreases |fs|
  {
    if fs != [] {
      assert fs[|fs| - 1] in fs;
      SameSums(fs[..|fs| - 1], hist, p, q);
    }
  }

  lemma {:induction false} OfHas(fs: seq<Found>, func: string, f: Found)
    requires f in Of(fs, func)
    ensures f in fs && f.func == func
    decreases |fs|
  {
    var init := fs[..|fs| - 1];
    if f in Of(init, func) { OfHas(init, func, f); }
  }

  lemma {:induction false} SameTallies(r: Tally, fs: seq<Found>, hist: map<nat, nat>, p: Policy, q: Policy)
    requires Tallies(r, fs, hist, p) && SameChoice(fs, p, q)
    ensures Tallies(r, fs, hist, q)
  {
    SameSums(fs, hist, p, q);
    forall func: string ensures RecordOf(r, fs, hist, q, func) {
      assert RecordOf(r, fs, hist, p, func);
      forall f | f in Of(fs, func) ensures Chosen(f, p) <==> Chosen(f, q) { OfHas(fs, func, f); }
      SameSums(Of(fs, func), hist, p, q);
    }
  }

  lemma {:induction false} CrossesIsElsewhere(fs: seq<Found>, lineBytes: nat)
    requires lineBytes > 0 && AllInOrder(fs)
    ensures SameChoice(fs, Crosses(lineBytes), Elsewhere(lineBytes))
    ensures SameChoice(fs, Except(Crosses(lineBytes)), Except(Elsewhere(lineBytes)))
  {
    forall f | f in fs && FoundSafe(f)
      ensures Crosses(lineBytes)(f.addr, f.members) <==> Elsewhere(lineBytes)(f.addr, f.members)
    {
      StraddlesIsByte(f.addr, f.members, lineBytes);
    }
  }

  /** The bundle is safe and on one side of the report: with a byte outside the hint's line, or
      without. */
  ghost predicate OnSide(f: Found, lineBytes: nat, across: bool)
    requires lineBytes > 0
  {
    Errors(f.declared, f.members) == [] && (ByteElsewhere(f.addr, f.members, lineBytes) <==> across)
  }

  ghost function Runs(hist: map<nat, nat>, lineBytes: nat, across: bool): Found -> nat
    requires lineBytes > 0
  {
    (f: Found) => if OnSide(f, lineBytes, across) then At(hist, f.addr) else 0
  }

  ghost function RunSlots(hist: map<nat, nat>, lineBytes: nat, across: bool): Found -> nat
    requires lineBytes > 0
  {
    (f: Found) => if OnSide(f, lineBytes, across) then At(hist, f.addr) * |f.members| else 0
  }

  /** A function's own share of a weight. */
  function Within(func: string, w: Found -> nat): Found -> nat {
    (f: Found) => if f.func == func then w(f) else 0
  }

  /** The figures of one side: sums over the bundles, and over each function's own. */
  ghost predicate Reports(r: Tally, fs: seq<Found>, hist: map<nat, nat>, lineBytes: nat, across: bool)
    requires lineBytes > 0
  {
    var runs, slots := Runs(hist, lineBytes, across), RunSlots(hist, lineBytes, across);
    && r.execs == SumOver(fs, runs) && r.slots == SumOver(fs, slots)
    && (forall func: string :: At(r.fnExecs, func) == SumOver(fs, Within(func, runs)))
    && (forall func: string :: At(r.fnSlots, func) == SumOver(fs, Within(func, slots)))
  }

  ghost function Side(lineBytes: nat, across: bool): Policy
    requires lineBytes > 0
  {
    if across then Elsewhere(lineBytes) else Except(Elsewhere(lineBytes))
  }

  lemma {:induction false} SideSums(fs: seq<Found>, hist: map<nat, nat>, lineBytes: nat, across: bool)
    requires lineBytes > 0
    ensures Execs(fs, hist, Side(lineBytes, across)) == SumOver(fs, Runs(hist, lineBytes, across))
    ensures Slots(fs, hist, Side(lineBytes, across)) == SumOver(fs, RunSlots(hist, lineBytes, across))
    decreases |fs|
  {
    if fs != [] {
      SideSums(fs[..|fs| - 1], hist, lineBytes, across);
    }
  }

  lemma {:induction false} WithinSum(fs: seq<Found>, func: string, w: Found -> nat)
    ensures SumOver(Of(fs, func), w) == SumOver(fs, Within(func, w))
    decreases |fs|
  {
    if fs != [] {
      var init, f := fs[..|fs| - 1], fs[|fs| - 1];
      WithinSum(init, func, w);
      if f.func == func {
        SumOverSnoc(Of(init, func), f, w);
      } else {
        assert Of(init, func) + [] == Of(init, func);
      }
    }
  }

  lemma {:induction false} TalliesReport(r: Tally, fs: seq<Found>, hist: map<nat, nat>, lineBytes: nat, across: bool)
    requires lineBytes > 0 && Tallies(r, fs, hist, Side(lineBytes, across))
    ensures Reports(r, fs, hist, lineBytes, across)
  {
    var acc, runs, slots := Side(lineBytes, across), Runs(hist, lineBytes, across), RunSlots(hist, lineBytes, across);
    SideSums(fs, hist, lineBytes, across);
    forall func: string
      ensures At(r.fnExecs, func) == SumOver(fs, Within(func, runs))
      ensures At(r.fnSlots, func) == SumOver(fs, Within(func, slots))
    {
      assert RecordOf(r, fs, hist, acc, func);
      SideSums(Of(fs, func), hist, lineBytes, across);
      WithinSum(fs, func, runs);
      WithinSum(fs, func, slots);
    }
  }

  lemma {:induction false} BothReport(live: Tally, dead: Tally, fs: seq<Found>, hist: map<nat, nat>, lineBytes: nat)
    requires lineBytes > 0 && AllInOrder(fs)
    requires Tallies(live, fs, hist, Except(Crosses(lineBytes))) && Tallies(dead, fs, hist, Crosses(lineBytes))
    ensures Reports(live, fs, hist, lineBytes, false) && Reports(dead, fs, hist, lineBytes, true)
    ensures Tallies(live, fs, hist, Except(Elsewhere(lineBytes))) && Tallies(dead, fs, hist, Elsewhere(lineBytes))
  {
    CrossesIsElsewhere(fs, lineBytes);
    SameTallies(live, fs, hist, Except(Crosses(lineBytes)), Side(lineBytes, false));
    SameTallies(dead, fs, hist, Crosses(lineBytes), Side(lineBytes, true));
    TalliesReport(live, fs, hist, lineBytes, false);
    TalliesReport(dead, fs, hist, lineBytes, true);
  }

  /** Bundle executions that fit in a line, and those that do not, in total and by function. */
  method Account(fs: seq<Found>, hist: map<nat, nat>, lineBytes: nat) returns (live: Tally, dead: Tally)
    requires lineBytes > 0 && forall f :: f in fs ==> f.declared >= 1
    ensures Tallies(live, fs, hist, Except(Crosses(lineBytes)))
    ensures Tallies(dead, fs, hist, Crosses(lineBytes))
    ensures AllInOrder(fs) ==>
              && Reports(live, fs, hist, lineBytes, false) && Reports(dead, fs, hist, lineBytes, true)
              && Tallies(live, fs, hist, Except(Elsewhere(lineBytes))) && Tallies(dead, fs, hist, Elsewhere(lineBytes))
  {
    live, dead := Tally(0, 0, map[], map[]), Tally(0, 0, map[], map[]);
    assert forall func: string :: Of([], func) == [];
    for i := 0 to |fs|
      invariant Tallies(live, fs[..i], hist, Except(Crosses(lineBytes)))
      invariant Tallies(dead, fs[..i], hist, Crosses(lineBytes))
    {
      var f := fs[i];
      assert fs[..i + 1] == fs[..i] + [f];
      TallyAdd(live, fs[..i], hist, Except(Crosses(lineBytes)), f);
      TallyAdd(dead, fs[..i], hist, Crosses(lineBytes), f);
      if FoundSafe(f) {
        SafeIffAccepted(f.declared, f.members);
        var n := At(hist, f.addr);
        if Straddles(f.addr, f.members, lineBytes) {
          dead := Add(dead, f, n);
        } else {
          live := Add(live, f, n);
        }
      }
    }
    assert fs[..|fs|] == fs;
    if AllInOrder(fs) { BothReport(live, dead, fs, hist, lineBytes); }
  }

  // ----- slots are cycles -----

  lemma {:induction false} SlotsCons(f: Found, fs: seq<Found>, hist: map<nat, nat>, acc: Policy)
    ensures Slots([f] + fs, hist, acc) == Slots([f], hist, acc) + Slots(fs, hist, acc)
    decreases |fs|
  {
    if fs == [] {
      assert [f] + fs == [f];
    } else {
      assert ([f] + fs)[..|fs|] == [f] + fs[..|fs| - 1];
      SlotsCons(f, fs[..|fs| - 1], hist, acc);
    }
  }

  lemma {:induction false} SlotsOne(f: Found, hist: map<nat, nat>, acc: Policy)
    ensures Slots([f], hist, acc) == if Chosen(f, acc) then At(hist, f.addr) * |f.members| else 0
  {
    assert [f][..0] == [];
  }

  lemma {:induction false} PlainDoesNotHonour(lines: seq<Line>, acc: Policy, i: nat)
    requires WellFormed(lines) && i < |lines| && HintAt(lines[i]).None?
    ensures !Honours(ProgramOf(lines), acc, i)
  {
    ProgramShape(lines);
  }

  lemma {:induction false} HeadHonours(lines: seq<Line>, p: Program, acc: Policy, f: Found)
    requires WellFormed(lines) && p == ProgramOf(lines) && FromLines(lines, f) && FoundSafe(f)
    ensures Honours(p, acc, f.head) <==> acc(f.addr, f.members)
    ensures Forms(p, f.head) && Len(p, f.head) == |f.members| && p[f.head].insn.addr == f.addr
  {
    SafeHeadForms(lines, f);
    SafeBundleIsWhole(lines, f);
    BundleMembers(lines, f);
    PlaceAt(lines, f.head);
  }

  lemma {:induction false} SavedSkip(sem: Semantics, p: Program, acc: Policy, s: State, k: nat, lo: nat, hi: nat)
    requires lo <= hi <= |p| && forall i :: lo <= i < hi ==> !Honours(p, acc, i)
    ensures Saved(sem, p, acc, s, k, hi) == Saved(sem, p, acc, s, k, lo)
    decreases hi
  {
    if lo < hi { SavedSkip(sem, p, acc, s, k, lo, hi - 1); }
  }

  /** One bundle of the scan. */
  lemma {:induction false} SavedBundle(sem: Semantics, lines: seq<Line>, p: Program, acc: Policy, s: State, k: nat,
                                       hist: map<nat, nat>, f: Found, end: nat)
    requires WellFormed(lines) && p == ProgramOf(lines) && FromLines(lines, f) && FoundSafe(f)
    requires end == f.head + 1 + |f.members| <= |p| && IsHistogram(sem, p, s, k, hist)
    requires forall i :: f.head < i < end ==> !Honours(p, acc, i)
    ensures Saved(sem, p, acc, s, k, end) == Saved(sem, p, acc, s, k, f.head) + Slots([f], hist, acc)
  {
    HeadHonours(lines, p, acc, f);
    SavedSkip(sem, p, acc, s, k, f.head + 1, end);
    SlotsOne(f, hist, acc);
    assert At(hist, f.addr) == Count(sem, p, s, k, f.addr);
  }

  lemma {:induction false} MembersDoNotHonour(lines: seq<Line>, acc: Policy, f: Found)
    requires WellFormed(lines) && NoNestedHints(lines) && f in Scan(lines, 0)
    requires f.head + |f.members| < |lines|
    ensures forall i :: f.head < i <= f.head + |f.members| ==> !Honours(ProgramOf(lines), acc, i)
  {
    forall i | f.head < i <= f.head + |f.members| ensures !Honours(ProgramOf(lines), acc, i) {
      assert Inside(Scan(lines, 0), i);
      PlainDoesNotHonour(lines, acc, i);
    }
  }

  /** From each scan point on, what the cells save is what the bundles' slots say. */
  lemma {:induction false} SavedIsSlots(sem: Semantics, lines: seq<Line>, p: Program, acc: Policy, s: State, k: nat,
                                        hist: map<nat, nat>, pre: seq<Found>, idx: nat)
    requires WellFormed(lines) && p == ProgramOf(lines) && AllSafe(Scan(lines, 0)) && NoNestedHints(lines)
    requires ScanPoint(lines, pre, idx) && IsHistogram(sem, p, s, k, hist)
    ensures Saved(sem, p, acc, s, k, |p|) == Saved(sem, p, acc, s, k, idx) + Slots(Scan(lines, idx), hist, acc)
    decreases |lines| - idx
  {
    if idx < |lines| {
      match HintAt(lines[idx])
      case None =>
        PlainPoint(lines, pre, idx);
        SavedIsSlots(sem, lines, p, acc, s, k, hist, pre, idx + 1);
        PlainDoesNotHonour(lines, acc, idx);
      case Some(n) =>
        var f, end := FoundAt(lines, idx, n), StopAt(lines, idx, n);
        HintPoint(lines, pre, idx, n, f, end);
        SavedIsSlots(sem, lines, p, acc, s, k, hist, pre + [f], end);
        MembersDoNotHonour(lines, acc, f);
        SavedBundle(sem, lines, p, acc, s, k, hist, f, end);
        SlotsCons(f, Scan(lines, end), hist, acc);
    }
  }

  lemma {:induction false} HonouredIsFound(lines: seq<Line>, p: Program, acc: Policy, i: nat, j: nat)
    requires WellFormed(lines) && p == ProgramOf(lines) && AllSafe(Scan(lines, 0)) && NoNestedHints(lines)
    requires i < |p| && Honours(p, acc, i) && i < j <= i + Len(p, i)
    ensures !Honours(p, acc, j)
  {
    var fs := Scan(lines, 0);
    ProgramShape(lines);
    EveryHintJudgedIffNotNested(lines);
    var f :| f in fs && f.head == i;
    assert FromLines(lines, f) by { ScanPartitions(lines, 0); }
    HeadHonours(lines, p, acc, f);
    BundleMembers(lines, f);
    MembersDoNotHonour(lines, acc, f);
  }

  lemma {:induction false} HonouredNotNested(lines: seq<Line>, p: Program, acc: Policy)
    requires WellFormed(lines) && p == ProgramOf(lines) && AllSafe(Scan(lines, 0)) && NoNestedHints(lines)
    ensures NoneInside(p, acc)
  {
    forall i, j | 0 <= i < |p| && Honours(p, acc, i) && i < j <= i + Len(p, i) ensures !Honours(p, acc, j) {
      HonouredIsFound(lines, p, acc, i, j);
    }
  }

  lemma {:induction false} CleanIsFit(sem: Semantics, lines: seq<Line>, acc: Policy)
    requires WellFormed(lines) && AllSafe(Scan(lines, 0)) && SideConditions(lines)
    requires ProgramFramed(sem, ProgramOf(lines))
    ensures Fit(sem, ProgramOf(lines), acc)
  {
    var p := ProgramOf(lines);
    CleanReportIsSafe(lines);
    assert NoneInside(p, acc) by { HonouredNotNested(lines, p, acc); }
  }

  /** The cycle identity. On a clean listing, whatever fixed choice of hints the hardware honours,
      a complete run takes as many steps fewer than the stock core as there are slots behind the
      honoured hints. */
  lemma {:induction false} CycleIdentity(sem: Semantics, lines: seq<Line>, acc: Policy, tr: seq<State>, k: nat,
                                         t: State, hist: map<nat, nat>)
    requires WellFormed(lines) && AllSafe(Scan(lines, 0)) && SideConditions(lines)
    requires ProgramFramed(sem, ProgramOf(lines)) && PolicyRun(sem, ProgramOf(lines), acc, tr)
    requires Halted(ProgramOf(lines), tr[|tr| - 1]) && Reaches(sem, ProgramOf(lines), tr[0], k, t)
    requires Halted(ProgramOf(lines), t) && IsHistogram(sem, ProgramOf(lines), tr[0], k, hist)
    ensures tr[|tr| - 1] == t && k == |tr| - 1 + Slots(Scan(lines, 0), hist, acc)
  {
    var p := ProgramOf(lines);
    CleanIsFit(sem, lines, acc);
    CompleteRunSaves(sem, p, acc, tr, k, t);
    assert [] + Scan(lines, 0) == Scan(lines, 0);
    SavedIsSlots(sem, lines, p, acc, tr[0], k, hist, [], 0);
  }

  /** Every fixed choice has a complete run wherever the stock core has one, and that run is shorter
      by the slots behind the honoured hints. */
  lemma {:induction false} CompleteRunExists(sem: Semantics, lines: seq<Line>, acc: Policy, s: State, k: nat, t: State,
                                             hist: map<nat, nat>)
      returns (tr: seq<State>)
    requires WellFormed(lines) && AllSafe(Scan(lines, 0)) && SideConditions(lines)
    requires ProgramFramed(sem, ProgramOf(lines))
    requires Reaches(sem, ProgramOf(lines), s, k, t) && Halted(ProgramOf(lines), t)
    requires IsHistogram(sem, ProgramOf(lines), s, k, hist)
    ensures PolicyRun(sem, ProgramOf(lines), acc, tr) && tr[0] == s && tr[|tr| - 1] == t
    ensures k == |tr| - 1 + Slots(Scan(lines, 0), hist, acc)
  {
    CleanIsFit(sem, lines, acc);
    tr := PolicyRunExists(sem, ProgramOf(lines), acc, s, k, t);
    CycleIdentity(sem, lines, acc, tr, k, t, hist);
  }

  // ----- the report's cycle figures -----

  lemma {:induction false} SlotsSplit(fs: seq<Found>, hist: map<nat, nat>, acc: Policy, all: Policy)
    requires forall a, ms :: all(a, ms)
    ensures Slots(fs, hist, all) == Slots(fs, hist, acc) + Slots(fs, hist, Except(acc))
    decreases |fs|
  {
    if fs != [] { SlotsSplit(fs[..|fs| - 1], hist, acc, all); }
  }

  lemma {:induction false} StraightInOrder(lines: seq<Line>, p: Program, f: Found)
    requires WellFormed(lines) && p == ProgramOf(lines) && FromLines(lines, f) && FoundSafe(f) && Straight(p, f)
    ensures InOrder(f.addr, f.members)
  {
    var ms := f.members;
    SafeBundleIsWhole(lines, f);
    forall k | 0 <= k < |ms| ensures ms[k].size > 0 {
      assert ms[k] == DecodeLine(lines[f.head + 1 + k]);
      DecodeKeepsPlace(lines[f.head + 1 + k].addr, lines[f.head + 1 + k].word);
    }
    forall k | 0 <= k < |ms| - 1 ensures ms[k].addr + ms[k].size <= ms[k + 1].addr {
      assert EndOf(p[f.head + 1 + k].insn) == p[f.head + 1 + k + 1].insn.addr;
    }
    assert EndOf(p[f.head].insn) == p[f.head + 1].insn.addr;
  }

  /** On a listing whose bundles are straight the figures are those of `Reports`. */
  lemma {:induction false} StraightListingInOrder(lines: seq<Line>)
    requires WellFormed(lines) && BundlesStraight(ProgramOf(lines))
    ensures AllInOrder(Scan(lines, 0))
  {
    forall f | f in Scan(lines, 0) && FoundSafe(f) ensures InOrder(f.addr, f.members) {
      assert FromLines(lines, f) by { ScanPartitions(lines, 0); }
      SafeHeadForms(lines, f);
      SafeIsStraight(lines, ProgramOf(lines), f);
      StraightInOrder(lines, ProgramOf(lines), f);
    }
  }

  /** The report's extra issue cycles: declining the bundles that cross a line costs exactly the
      slots behind them, against hardware that honours every bundle. */
  lemma {:induction false} ExtraIssueCycles(sem: Semantics, lines: seq<Line>, lineBytes: nat, tr: seq<State>,
                                            ideal: seq<State>, k: nat, t: State, hist: map<nat, nat>, all: Policy)
    requires WellFormed(lines) && AllSafe(Scan(lines, 0)) && SideConditions(lines) && lineBytes > 0
    requires ProgramFramed(sem, ProgramOf(lines)) && forall a, ms :: all(a, ms)
    requires PolicyRun(sem, ProgramOf(lines), Except(Elsewhere(lineBytes)), tr)
    requires PolicyRun(sem, ProgramOf(lines), all, ideal) && tr[0] == ideal[0]
    requires Halted(ProgramOf(lines), tr[|tr| - 1]) && Halted(ProgramOf(lines), ideal[|ideal| - 1])
    requires Reaches(sem, ProgramOf(lines), tr[0], k, t) && Halted(ProgramOf(lines), t)
    requires IsHistogram(sem, ProgramOf(lines), tr[0], k, hist)
    ensures |tr| == |ideal| + Slots(Scan(lines, 0), hist, Elsewhere(lineBytes))
    ensures k - (|tr| - 1) == Slots(Scan(lines, 0), hist, Except(Elsewhere(lineBytes)))
  {
    CycleIdentity(sem, lines, Except(Elsewhere(lineBytes)), tr, k, t, hist);
    CycleIdentity(sem, lines, all, ideal, k, t, hist);
    SlotsSplit(Scan(lines, 0), hist, Elsewhere(lineBytes), all);
  }
}
