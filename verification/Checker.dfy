/** The bundle checker of `tools/starbug_bundle_check.py`: `check_bundle` and `analyse`. */
module Checker {
  import opened Wrappers
  import opened Isa
  import opened Machine

  /** One line of the disassembly. */
  datatype Line = Line(addr: nat, word: nat, size: nat, func: string)

  datatype Error =
    | TooLong(declared: nat)
    | Truncated(declared: nat, decoded: nat)
    | LaneIllegal(lane: nat, cls: Class)
    | ManyMemory(lanes: seq<nat>)
    | MemoryInWorker(lane: nat)
    | RawError(i: nat, j: nat)
    | WawError(i: nat, j: nat)

  datatype Warning = WarWarning(i: nat, j: nat) | SpansLine(first: nat, last: nat)

  class Bundle {
    const hintAddr: nat
    const declared: nat
    const members: seq<Insn>
    var errors: seq<Error>
    var warnings: seq<Warning>
    var func: string

    constructor (hintAddr: nat, declared: nat, members: seq<Insn>)
      ensures this.hintAddr == hintAddr && this.declared == declared && this.members == members
      ensures errors == [] && warnings == [] && func == ""
    {
      this.hintAddr, this.declared, this.members := hintAddr, declared, members;
      errors, warnings, func := [], [], "";
    }

    predicate Safe()
      reads this
    {
      errors == []
    }
  }

  // ----- the error list -----

  function LaneErrors(ms: seq<Insn>, k: nat): seq<Error>
    requires k <= |ms|
  {
    if k == 0 then []
    else LaneErrors(ms, k - 1) +
         if k > 1 && Lane0Only(ms[k - 1]) then [LaneIllegal(k - 1, ms[k - 1].cls)] else []
  }

  function LsuLanes(ms: seq<Insn>, k: nat): seq<nat>
    requires k <= |ms|
  {
    if k == 0 then []
    else LsuLanes(ms, k - 1) + if UsesLsu(ms[k - 1]) then [k - 1] else []
  }

  function LsuErrors(ms: seq<Insn>): seq<Error> {
    var lsu := LsuLanes(ms, |ms|);
    if |lsu| > 1 then [ManyMemory(lsu)]
    else if |lsu| == 1 && lsu[0] != 0 then [MemoryInWorker(lsu[0])]
    else []
  }

  function PairErrors(x: Insn, y: Insn, i: nat, j: nat): seq<Error> {
    (if Raw(x, y) then [RawError(i, j)] else []) + (if Waw(x, y) then [WawError(i, j)] else [])
  }

  /** The errors of lane `i` against the lanes after it and before `j`. */
  function RowErrors(ms: seq<Insn>, i: nat, j: nat): seq<Error>
    requires i < j <= |ms|
  {
    if j == i + 1 then [] else RowErrors(ms, i, j - 1) + PairErrors(ms[i], ms[j - 1], i, j - 1)
  }

  function AllPairErrors(ms: seq<Insn>, i: nat): seq<Error>
    requires i <= |ms|
  {
    if i == 0 then [] else AllPairErrors(ms, i - 1) + RowErrors(ms, i - 1, |ms|)
  }

  function Errors(declared: nat, ms: seq<Insn>): seq<Error> {
    if declared > MAX_BUNDLE then [TooLong(declared)]
    else if |ms| < declared then [Truncated(declared, |ms|)]
    else LaneErrors(ms, |ms|) + LsuErrors(ms) + AllPairErrors(ms, |ms|)
  }

  // ----- the warning list -----

  function PairWarnings(x: Insn, y: Insn, i: nat, j: nat): seq<Warning> {
    if War(x, y) then [WarWarning(i, j)] else []
  }

  function RowWarnings(ms: seq<Insn>, i: nat, j: nat): seq<Warning>
    requires i < j <= |ms|
  {
    if j == i + 1 then []
    else RowWarnings(ms, i, j - 1) + PairWarnings(ms[i], ms[j - 1], i, j - 1)
  }

  function AllPairWarnings(ms: seq<Insn>, i: nat): seq<Warning>
    requires i <= |ms|
  {
    if i == 0 then [] else AllPairWarnings(ms, i - 1) + RowWarnings(ms, i - 1, |ms|)
  }

  /** The last byte of a bundle; an empty last member gives the byte before it, as in the source. */
  function LastByte(ms: seq<Insn>): int
    requires ms != []
  {
    EndOf(ms[|ms| - 1]) - 1
  }

  /** The bundle's first and last byte lie in different cache lines. */
  predicate Straddles(hintAddr: nat, ms: seq<Insn>, lineBytes: nat)
    requires ms != [] && lineBytes > 0
  {
    hintAddr / lineBytes != LastByte(ms) / lineBytes
  }

  function Max(x: int, y: int): int {
    if x > y then x else y
  }

  function Warnings(hintAddr: nat, declared: nat, ms: seq<Insn>, lineBytes: nat): seq<Warning>
    requires declared >= 1 && lineBytes > 0
  {
    if declared > MAX_BUNDLE || |ms| < declared then []
    else AllPairWarnings(ms, |ms|) +
         if Straddles(hintAddr, ms, lineBytes) then [SpansLine(hintAddr, Max(0, LastByte(ms)))] else []
  }

  /** Lane legality. */
  method CheckLanes(b: Bundle)
    modifies b`errors
    ensures b.errors == old(b.errors) + LaneErrors(b.members, |b.members|)
  {
    for k := 0 to |b.members|
      invariant b.errors == old(b.errors) + LaneErrors(b.members, k)
    {
      if k != 0 && Lane0Only(b.members[k]) {
        b.errors := b.errors + [LaneIllegal(k, b.members[k].cls)];
      }
    }
  }

  /** The single shared load-store unit. */
  method CheckLsu(b: Bundle)
    modifies b`errors
    ensures b.errors == old(b.errors) + LsuErrors(b.members)
  {
    var lsu: seq<nat> := [];
    for k := 0 to |b.members|
      invariant lsu == LsuLanes(b.members, k) && b.errors == old(b.errors)
    {
      if UsesLsu(b.members[k]) {
        lsu := lsu + [k];
      }
    }
    if |lsu| > 1 {
      b.errors := b.errors + [ManyMemory(lsu)];
    } else if lsu != [] && lsu[0] != 0 {
      b.errors := b.errors + [MemoryInWorker(lsu[0])];
    }
  }

  /** Register independence of lanes `i` and `j`. */
  method CheckPair(b: Bundle, i: nat, j: nat)
    requires i < j < |b.members|
    modifies b`errors, b`warnings
    ensures b.errors == old(b.errors) + PairErrors(b.members[i], b.members[j], i, j)
    ensures b.warnings == old(b.warnings) + PairWarnings(b.members[i], b.members[j], i, j)
  {
    var x, y := b.members[i], b.members[j];
    if Raw(x, y) {
      b.errors := b.errors + [RawError(i, j)];
    }
    if Waw(x, y) {
      b.errors := b.errors + [WawError(i, j)];
    }
    if War(x, y) {
      b.warnings := b.warnings + [WarWarning(i, j)];
    }
  }

  lemma {:induction false} RowSnoc(es: seq<Error>, ws: seq<Warning>, ms: seq<Insn>, i: nat, j: nat)
    requires i < j < |ms|
    ensures es + RowErrors(ms, i, j + 1) == es + RowErrors(ms, i, j) + PairErrors(ms[i], ms[j], i, j)
    ensures ws + RowWarnings(ms, i, j + 1) == ws + RowWarnings(ms, i, j) + PairWarnings(ms[i], ms[j], i, j)
  {
  }

  lemma {:induction false} RowsSnoc(es: seq<Error>, ws: seq<Warning>, ms: seq<Insn>, i: nat)
    requires i < |ms|
    ensures es + AllPairErrors(ms, i + 1) == es + AllPairErrors(ms, i) + RowErrors(ms, i, |ms|)
    ensures ws + AllPairWarnings(ms, i + 1) == ws + AllPairWarnings(ms, i) + RowWarnings(ms, i, |ms|)
  {
  }

  /** Register independence of lane `i` and the lanes after it. */
  method CheckRow(b: Bundle, i: nat)
    requires i < |b.members|
    modifies b`errors, b`warnings
    ensures b.errors == old(b.errors) + RowErrors(b.members, i, |b.members|)
    ensures b.warnings == old(b.warnings) + RowWarnings(b.members, i, |b.members|)
  {
    for j := i + 1 to |b.members|
      invariant b.errors == old(b.errors) + RowErrors(b.members, i, j)
      invariant b.warnings == old(b.warnings) + RowWarnings(b.members, i, j)
    {
      RowSnoc(old(b.errors), old(b.warnings), b.members, i, j);
      CheckPair(b, i, j);
    }
  }

  /** Register independence of every pair. */
  method CheckPairs(b: Bundle)
    modifies b`errors, b`warnings
    ensures b.errors == old(b.errors) + AllPairErrors(b.members, |b.members|)
    ensures b.warnings == old(b.warnings) + AllPairWarnings(b.members, |b.members|)
  {
    for i := 0 to |b.members|
      invariant b.errors == old(b.errors) + AllPairErrors(b.members, i)
      invariant b.warnings == old(b.warnings) + AllPairWarnings(b.members, i)
    {
      RowsSnoc(old(b.errors), old(b.warnings), b.members, i);
      CheckRow(b, i);
    }
  }

  lemma {:induction false} Regroup<T>(a: seq<T>, b: seq<T>, c: seq<T>, d: seq<T>)
    ensures a + b + c + d == a + (b + c + d)
    ensures c == [] ==> a + b + d == a + (b + d)
  {
  }

  method CheckBundle(b: Bundle, lineBytes: nat)
    requires b.declared >= 1 && lineBytes > 0
    modifies b`errors, b`warnings
    ensures b.errors == old(b.errors) + Errors(b.declared, b.members)
    ensures b.warnings == old(b.warnings) + Warnings(b.hintAddr, b.declared, b.members, lineBytes)
  {
    if b.declared > MAX_BUNDLE {
      b.errors := b.errors + [TooLong(b.declared)];
      return;
    }
    if |b.members| < b.declared {
      b.errors := b.errors + [Truncated(b.declared, |b.members|)];
      return;
    }
    CheckLanes(b);
    CheckLsu(b);
    CheckPairs(b);
    Regroup(old(b.errors), LaneErrors(b.members, |b.members|), LsuErrors(b.members),
            AllPairErrors(b.members, |b.members|));
    Regroup(old(b.warnings), AllPairWarnings(b.members, |b.members|), [],
            if Straddles(b.hintAddr, b.members, lineBytes)
            then [SpansLine(b.hintAddr, Max(0, LastByte(b.members)))] else []);
    if Straddles(b.hintAddr, b.members, lineBytes) {
      b.warnings := b.warnings + [SpansLine(b.hintAddr, Max(0, LastByte(b.members)))];
    }
  }

  // ----- an empty error list is exactly a legal bundle -----

  lemma {:induction false} LaneErrorsEmpty(ms: seq<Insn>, k: nat)
    requires k <= |ms|
    ensures LaneErrors(ms, k) == [] <==> forall l :: 0 < l < k ==> Worker(ms[l])
  {
    if k > 0 {
      LaneErrorsEmpty(ms, k - 1);
      assert k > 1 && Lane0Only(ms[k - 1]) ==> !Worker(ms[k - 1]);
    }
  }

  lemma {:induction false} LsuLanesEmpty(ms: seq<Insn>, k: nat)
    requires k <= |ms|
    requires forall l :: 0 < l < k ==> Worker(ms[l])
    ensures LsuLanes(ms, k) == if k > 0 && UsesLsu(ms[0]) then [0] else []
  {
    if k > 0 {
      LsuLanesEmpty(ms, k - 1);
      assert k > 1 ==> Worker(ms[k - 1]);
    }
  }

  ghost predicate PairFree(x: Insn, y: Insn) {
    !Raw(x, y) && !Waw(x, y)
  }

  /** No lane after lane `i` and before lane `j` reads or writes what lane `i` writes. */
  ghost predicate RowFree(ms: seq<Insn>, i: nat, j: nat)
    requires i < j <= |ms|
  {
    forall l :: i < l < j ==> PairFree(ms[i], ms[l])
  }

  lemma {:induction false} PairErrorsEmpty(x: Insn, y: Insn, i: nat, j: nat)
    ensures PairErrors(x, y, i, j) == [] <==> PairFree(x, y)
  {
  }

  lemma {:induction false} EmptySum<T>(a: seq<T>, b: seq<T>)
    ensures a + b == [] <==> a == [] && b == []
  {
  }

  lemma {:induction false} RowUnfold(ms: seq<Insn>, i: nat, k: nat, j: nat)
    requires i < k && j == k + 1 <= |ms|
    ensures RowErrors(ms, i, j) == [] <==> RowErrors(ms, i, k) == [] && PairFree(ms[i], ms[k])
  {
    PairErrorsEmpty(ms[i], ms[k], i, k);
    EmptySum(RowErrors(ms, i, k), PairErrors(ms[i], ms[k], i, k));
  }

  lemma {:induction false} RowFreeSnoc(ms: seq<Insn>, i: nat, k: nat, j: nat)
    requires i < k && j == k + 1 <= |ms|
    ensures RowFree(ms, i, j) <==> RowFree(ms, i, k) && PairFree(ms[i], ms[k])
  {
  }

  lemma {:induction false} RowErrorsEmpty(ms: seq<Insn>, i: nat, j: nat)
    requires i < j <= |ms|
    ensures RowErrors(ms, i, j) == [] <==> RowFree(ms, i, j)
    decreases j
  {
    if j > i + 1 {
      var k := j - 1;
      RowErrorsEmpty(ms, i, k);
      RowUnfold(ms, i, k, j);
      RowFreeSnoc(ms, i, k, j);
    }
  }

  lemma {:induction false} AllPairErrorsEmpty(ms: seq<Insn>, i: nat)
    requires i <= |ms|
    ensures AllPairErrors(ms, i) == [] <==> forall k :: 0 <= k < i ==> RowFree(ms, k, |ms|)
  {
    if i > 0 {
      var k := i - 1;
      AllPairErrorsEmpty(ms, k);
      RowErrorsEmpty(ms, k, |ms|);
      EmptySum(AllPairErrors(ms, k), RowErrors(ms, k, |ms|));
    }
  }

  lemma {:induction false} RowsArePairs(ms: seq<Insn>)
    ensures PairsOk(ms) <==> forall k :: 0 <= k < |ms| ==> RowFree(ms, k, |ms|)
  {
    if PairsOk(ms) {
      forall k, l | 0 <= k < |ms| && k < l < |ms| ensures PairFree(ms[k], ms[l]) { }
    }
    if forall k :: 0 <= k < |ms| ==> RowFree(ms, k, |ms|) {
      forall i, j | 0 <= i < j < |ms| ensures !Raw(ms[i], ms[j]) && !Waw(ms[i], ms[j]) {
        assert RowFree(ms, i, |ms|) && PairFree(ms[i], ms[j]);
      }
    }
  }

  /** The checker's verdict in declarative terms. The separate rules about the memory port add
      nothing: every memory class is already confined to lane 0. */
  lemma {:induction false} SafeIffAccepted(declared: nat, ms: seq<Insn>)
    ensures Errors(declared, ms) == [] <==> Accepted(declared, ms)
  {
    if declared <= MAX_BUNDLE && declared <= |ms| {
      LaneErrorsEmpty(ms, |ms|);
      AllPairErrorsEmpty(ms, |ms|);
      RowsArePairs(ms);
      if WorkersOk(ms) {
        LsuLanesEmpty(ms, |ms|);
      }
    }
  }

  // ----- the scan -----

  function HintAt(l: Line): Option<nat> {
    if l.size == 2 then HintLength(l.word) else None
  }

  function DecodeLine(l: Line): Insn {
    Decode(l.addr, l.word)
  }

  function DecodeLines(ls: seq<Line>): (ms: seq<Insn>)
    ensures |ms| == |ls| && forall i :: 0 <= i < |ls| ==> ms[i] == DecodeLine(ls[i])
  {
    seq(|ls|, i requires 0 <= i < |ls| => DecodeLine(ls[i]))
  }

  /** A bundle as the scan finds it, with the index of its hint. */
  datatype Found = Found(head: nat, addr: nat, declared: nat, members: seq<Insn>, func: string)

  /** One past the last member of the bundle whose hint, of length `n`, is at `idx`. */
  function StopAt(lines: seq<Line>, idx: nat, n: nat): nat {
    if idx + 1 + n <= |lines| then idx + 1 + n else |lines|
  }

  function FoundAt(lines: seq<Line>, idx: nat, n: nat): Found
    requires idx < |lines|
  {
    Found(idx, lines[idx].addr, n, DecodeLines(lines[idx + 1..StopAt(lines, idx, n)]), lines[idx].func)
  }

  /** The bundles of the lines from `idx` on. */
  function Scan(lines: seq<Line>, idx: nat): seq<Found>
    decreases |lines| - idx
  {
    if idx >= |lines| then []
    else match HintAt(lines[idx])
      case None => Scan(lines, idx + 1)
      case Some(n) => [FoundAt(lines, idx, n)] + Scan(lines, StopAt(lines, idx, n))
  }

  function Interval(lo: nat, hi: nat): (r: set<nat>)
    ensures forall i :: i in r <==> lo <= i < hi
    decreases hi
  {
    if lo >= hi then {} else Interval(lo, hi - 1) + {hi - 1}
  }

  function Covered(fs: seq<Found>): set<nat> {
    if fs == [] then {}
    else
      var f := fs[|fs| - 1];
      Covered(fs[..|fs| - 1]) + Interval(f.head, f.head + |f.members| + 1)
  }

  predicate FoundSafe(f: Found) {
    Errors(f.declared, f.members) == []
  }

  /** The object built for a bundle the scan found. */
  ghost predicate Represents(b: Bundle, f: Found, lineBytes: nat)
    requires f.declared >= 1 && lineBytes > 0
    reads b
  {
    && b.hintAddr == f.addr && b.declared == f.declared && b.members == f.members && b.func == f.func
    && b.errors == Errors(f.declared, f.members)
    && b.warnings == Warnings(f.addr, f.declared, f.members, lineBytes)
  }

  lemma {:induction false} TakeOne(lines: seq<Line>, i: nat, j: nat)
    requires i <= j < |lines|
    ensures DecodeLines(lines[i..j + 1]) == DecodeLines(lines[i..j]) + [DecodeLine(lines[j])]
    ensures Interval(i, j + 1) == Interval(i, j) + {j}
  {
    assert lines[i..j + 1] == lines[i..j] + [lines[j]];
  }

  /** The members of the bundle of length `n` whose hint is at `idx`. */
  method TakeMembers(lines: seq<Line>, idx: nat, n: nat)
      returns (members: seq<Insn>, taken: set<nat>, j: nat)
    requires idx < |lines|
    ensures j == StopAt(lines, idx, n) && idx < j <= |lines|
    ensures members == DecodeLines(lines[idx + 1..j])
    ensures taken == Interval(idx + 1, j)
  {
    members, taken, j := [], {}, idx + 1;
    while j < |lines| && |members| < n
      invariant idx + 1 <= j <= |lines| && |members| == j - idx - 1 <= n
      invariant members == DecodeLines(lines[idx + 1..j])
      invariant taken == Interval(idx + 1, j)
    {
      TakeOne(lines, idx + 1, j);
      members := members + [DecodeLine(lines[j])];
      taken := taken + {j};
      j := j + 1;
    }
  }

  /** The checked bundle of length `n` whose hint is at `idx`. */
  method MakeBundle(lines: seq<Line>, idx: nat, n: nat, lineBytes: nat)
      returns (b: Bundle, covers: set<nat>, j: nat)
    requires idx < |lines| && n >= 1 && lineBytes > 0
    ensures fresh(b) && Represents(b, FoundAt(lines, idx, n), lineBytes)
    ensures j == StopAt(lines, idx, n) && covers == Interval(idx, j)
  {
    var members, taken;
    members, taken, j := TakeMembers(lines, idx, n);
    b := new Bundle(lines[idx].addr, n, members);
    b.func := lines[idx].func;
    CheckBundle(b, lineBytes);
    covers := taken + {idx};
  }

  ghost predicate RepresentAll(bundles: seq<Bundle>, found: seq<Found>, lineBytes: nat)
    requires lineBytes > 0
    reads bundles
  {
    && |bundles| == |found|
    && (forall k :: 0 <= k < |found| ==> found[k].declared >= 1)
    && (forall k :: 0 <= k < |found| ==> Represents(bundles[k], found[k], lineBytes))
  }

  lemma {:induction false} RepresentSnoc(bundles: seq<Bundle>, found: seq<Found>, b: Bundle, f: Found, lineBytes: nat)
    requires lineBytes > 0 && RepresentAll(bundles, found, lineBytes)
    requires f.declared >= 1 && Represents(b, f, lineBytes)
    ensures RepresentAll(bundles + [b], found + [f], lineBytes)
  {
  }

  lemma {:induction false} Move<T>(a: seq<T>, x: T, b: seq<T>)
    ensures a + ([x] + b) == (a + [x]) + b
  {
  }

  lemma {:induction false} CoveredSnoc(found: seq<Found>, f: Found, lo: nat, hi: nat)
    requires lo == f.head && hi == f.head + |f.members| + 1
    ensures Covered(found + [f]) == Covered(found) + Interval(lo, hi)
  {
    assert (found + [f])[..|found|] == found;
  }

  /** The scan has come to `idx` and found the bundles `found`. */
  ghost predicate Scanned(lines: seq<Line>, found: seq<Found>, covered: set<nat>, idx: nat) {
    idx <= |lines| && Scan(lines, 0) == found + Scan(lines, idx) && covered == Covered(found)
  }

  lemma {:induction false} ScanStart(lines: seq<Line>)
    ensures Scanned(lines, [], {}, 0)
  {
  }

  lemma {:induction false} ScanSkip(lines: seq<Line>, found: seq<Found>, covered: set<nat>, idx: nat, j: nat)
    requires Scanned(lines, found, covered, idx) && idx < |lines| && HintAt(lines[idx]).None? && j == idx + 1
    ensures Scanned(lines, found, covered, j)
  {
  }

  lemma {:induction false} ScanStep(lines: seq<Line>, found: seq<Found>, covered: set<nat>, idx: nat, n: nat, f: Found,
                                    j: nat)
    requires Scanned(lines, found, covered, idx) && idx < |lines| && HintAt(lines[idx]) == Some(n)
    requires f == FoundAt(lines, idx, n) && j == StopAt(lines, idx, n)
    ensures Scanned(lines, found + [f], covered + Interval(idx, j), j)
  {
    var rest := Scan(lines, j);
    assert Scan(lines, idx) == [f] + rest;
    Move(found, f, rest);
    CoveredSnoc(found, f, idx, j);
  }

  lemma {:induction false} ScanEnd(lines: seq<Line>, found: seq<Found>, covered: set<nat>, idx: nat)
    requires Scanned(lines, found, covered, idx) && idx == |lines|
    ensures Scan(lines, 0) == found && covered == Covered(found)
  {
    assert found + [] == found;
  }

  method Analyse(lines: seq<Line>, lineBytes: nat) returns (bundles: seq<Bundle>, covered: set<nat>)
    requires lineBytes > 0
    ensures covered == Covered(Scan(lines, 0))
    ensures fresh(bundles) && RepresentAll(bundles, Scan(lines, 0), lineBytes)
  {
    bundles, covered := [], {};
    ghost var found: seq<Found> := [];
    var idx := 0;
    ScanStart(lines);
    while idx < |lines|
      invariant Scanned(lines, found, covered, idx)
      invariant fresh(bundles) && RepresentAll(bundles, found, lineBytes)
      decreases |lines| - idx
    {
      var hint := HintAt(lines[idx]);
      if hint.None? {
        ScanSkip(lines, found, covered, idx, idx + 1);
        idx := idx + 1;
      } else {
        var b, covers, j := MakeBundle(lines, idx, hint.value, lineBytes);
        ghost var f := FoundAt(lines, idx, hint.value);
        RepresentSnoc(bundles, found, b, f, lineBytes);
        ScanStep(lines, found, covered, idx, hint.value, f, j);
        bundles, found := bundles + [b], found + [f];
        covered, idx := covered + covers, j;
      }
    }
    ScanEnd(lines, found, covered, idx);
  }

  // ----- the scan partitions the stream -----

  /** `f` is the bundle whose hint stands at `f.head`. */
  ghost predicate FromLines(lines: seq<Line>, f: Found) {
    && f.head < |lines| && HintAt(lines[f.head]) == Some(f.declared)
    && f == FoundAt(lines, f.head, f.declared)
    && |f.members| == if f.head + f.declared < |lines| then f.declared else |lines| - f.head - 1
  }

  /** Every found bundle lies after `idx`, and after the bundle before it. */
  ghost predicate Ordered(fs: seq<Found>, idx: nat) {
    && (forall k :: 0 <= k < |fs| ==> idx <= fs[k].head)
    && (forall k, l :: 0 <= k < l < |fs| ==> fs[k].head + |fs[k].members| < fs[l].head)
  }

  ghost predicate Inside(fs: seq<Found>, i: nat) {
    exists f :: f in fs && f.head < i <= f.head + |f.members|
  }

  ghost predicate IsHead(fs: seq<Found>, i: nat) {
    exists f :: f in fs && f.head == i
  }

  ghost predicate Partition(lines: seq<Line>, idx: nat, fs: seq<Found>) {
    && Ordered(fs, idx)
    && (forall f :: f in fs ==> FromLines(lines, f))
    && (forall i :: idx <= i < |lines| && HintAt(lines[i]).Some? ==> IsHead(fs, i) != Inside(fs, i))
  }

  lemma {:induction false} PartitionCons(lines: seq<Line>, idx: nat, n: nat, f: Found, end: nat, rest: seq<Found>)
    requires idx < |lines| && HintAt(lines[idx]) == Some(n)
    requires f == FoundAt(lines, idx, n) && end == StopAt(lines, idx, n)
    requires Partition(lines, end, rest)
    ensures Partition(lines, idx, [f] + rest)
  {
    var fs := [f] + rest;
    assert |f.members| == end - idx - 1 && FromLines(lines, f);
    forall i | idx <= i < |lines| && HintAt(lines[i]).Some?
      ensures IsHead(fs, i) != Inside(fs, i)
    {
      if i == idx {
        assert f in fs;
      } else if i < end {
        assert f in fs && Inside(fs, i);
      } else {
        assert forall g :: g in fs <==> g == f || g in rest;
      }
    }
  }

  /** The scan terminates with disjoint, increasing bundles taken from the lines; a two-byte hint
      is the head of a bundle unless it was swallowed as a member of another. */
  lemma {:induction false} ScanPartitions(lines: seq<Line>, idx: nat)
    requires idx <= |lines|
    ensures Partition(lines, idx, Scan(lines, idx))
    decreases |lines| - idx
  {
    if idx < |lines| {
      match HintAt(lines[idx])
      case None =>
        ScanPartitions(lines, idx + 1);
      case Some(n) =>
        var f, end := FoundAt(lines, idx, n), StopAt(lines, idx, n);
        ScanPartitions(lines, end);
        PartitionCons(lines, idx, n, f, end, Scan(lines, end));
    }
  }

  lemma {:induction false} CoveredIsUnion(fs: seq<Found>, i: nat)
    ensures i in Covered(fs) <==> IsHead(fs, i) || Inside(fs, i)
    decreases |fs|
  {
    if fs != [] {
      var k := |fs| - 1;
      CoveredIsUnion(fs[..k], i);
      assert fs == fs[..k] + [fs[k]];
      assert forall f :: f in fs <==> f in fs[..k] || f == fs[k];
    }
  }

  ghost predicate AllSafe(fs: seq<Found>) {
    forall f :: f in fs ==> FoundSafe(f)
  }

  ghost predicate MembersSpelled(lines: seq<Line>, f: Found) {
    && f.head + |f.members| < |lines|
    && forall k :: 0 <= k < |f.members| ==>
         f.members[k] == Decode(lines[f.head + 1 + k].addr, lines[f.head + 1 + k].word)
  }

  /** What a bundle takes from the listing, field by field. */
  ghost predicate Spelled(lines: seq<Line>, f: Found) {
    && MembersSpelled(lines, f)
    && lines[f.head].size == 2 && HintLength(lines[f.head].word) == Some(f.declared)
    && f.addr == lines[f.head].addr && f.func == lines[f.head].func
    && |f.members| <= f.declared && (|f.members| < f.declared ==> f.head + |f.members| + 1 == |lines|)
  }

  lemma {:induction false} DecodedWord(ls: seq<Line>, k: nat)
    requires k < |ls|
    ensures DecodeLines(ls)[k] == Decode(ls[k].addr, ls[k].word)
  {
  }

  lemma {:induction false} MembersAreSpelled(lines: seq<Line>, f: Found, lo: nat, end: nat)
    requires lo == f.head + 1 && lo <= end <= |lines| && f.members == DecodeLines(lines[lo..end])
    ensures MembersSpelled(lines, f)
  {
    var ls := lines[lo..end];
    forall k | 0 <= k < |f.members|
      ensures f.members[k] == Decode(lines[f.head + 1 + k].addr, lines[f.head + 1 + k].word)
    {
      DecodedWord(ls, k);
      assert ls[k] == lines[lo + k];
    }
  }

  /** A bundle has the address, function and length of its hint's line and the next lines as members, that
      many or as many as there are. */
  lemma {:induction false} FoundSpelled(lines: seq<Line>, f: Found)
    requires f in Scan(lines, 0)
    ensures Spelled(lines, f)
  {
    assert FromLines(lines, f) by { ScanPartitions(lines, 0); }
    MembersAreSpelled(lines, f, f.head + 1, StopAt(lines, f.head, f.declared));
  }

  lemma {:induction false} SafeBundleIsWhole(lines: seq<Line>, f: Found)
    requires FromLines(lines, f) && FoundSafe(f)
    ensures 1 <= f.declared <= MAX_BUNDLE && f.head + f.declared < |lines|
    ensures |f.members| == f.declared && Accepted(f.declared, f.members)
    ensures f.members == DecodeLines(lines[f.head + 1..f.head + 1 + f.declared])
  {
    SafeIffAccepted(f.declared, f.members);
  }

  lemma {:induction false} WholeMembers(lines: seq<Line>, i: nat, n: nat)
    requires i + n < |lines|
    ensures FoundAt(lines, i, n).members == DecodeLines(lines[i + 1..i + 1 + n])
  {
  }

  lemma {:induction false} SafeHere(lines: seq<Line>, f: Found, i: nat, n: nat)
    requires FromLines(lines, f) && FoundSafe(f) && f.head == i && f.declared == n
    ensures f == FoundAt(lines, i, n) && 1 <= n <= MAX_BUNDLE && i + n < |lines| && Accepted(n, f.members)
  {
    SafeIffAccepted(n, f.members);
  }

  /** A bundle of length `n` whose hint is on line `i` is all there and accepted. */
  ghost predicate WholeAt(lines: seq<Line>, i: nat, n: nat) {
    1 <= n <= MAX_BUNDLE && i + n < |lines| && Accepted(n, DecodeLines(lines[i + 1..i + 1 + n]))
  }

  lemma {:induction false} SafeBundleAt(lines: seq<Line>, f: Found, i: nat, n: nat)
    requires FromLines(lines, f) && FoundSafe(f) && f.head == i && f.declared == n
    ensures WholeAt(lines, i, n)
  {
    SafeHere(lines, f, i, n);
    WholeMembers(lines, i, n);
  }

  lemma {:induction false} HeadFound(lines: seq<Line>, i: nat, n: nat) returns (f: Found)
    requires i < |lines| && HintAt(lines[i]) == Some(n) && !Inside(Scan(lines, 0), i)
    ensures f in Scan(lines, 0) && FromLines(lines, f) && f.head == i && f.declared == n
  {
    var fs := Scan(lines, 0);
    ScanPartitions(lines, 0);
    assert IsHead(fs, i);
    f :| f in fs && f.head == i;
  }

  /** In a clean stream every hint outside another bundle has length 1..4 and all its members. */
  lemma {:induction false} CleanHintsAreWhole(lines: seq<Line>, i: nat)
    requires AllSafe(Scan(lines, 0)) && i < |lines| && HintAt(lines[i]).Some?
    requires !Inside(Scan(lines, 0), i)
    ensures WholeAt(lines, i, HintAt(lines[i]).value)
  {
    var n := HintAt(lines[i]).value;
    var f := HeadFound(lines, i, n);
    SafeBundleAt(lines, f, i, n);
  }

  /** No member of a bundle is itself a hint. */
  ghost predicate NoNestedHints(lines: seq<Line>) {
    forall i :: 0 <= i < |lines| && Inside(Scan(lines, 0), i) ==> HintAt(lines[i]).None?
  }

  /** The scan judges every hint in the stream exactly when no hint is nested in a bundle. */
  lemma {:induction false} EveryHintJudgedIffNotNested(lines: seq<Line>)
    ensures NoNestedHints(lines) <==>
            forall i :: 0 <= i < |lines| && HintAt(lines[i]).Some? ==> IsHead(Scan(lines, 0), i)
  {
    ScanPartitions(lines, 0);
  }
}
