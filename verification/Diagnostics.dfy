/** What each diagnostic of the checker means: it is in the list exactly when the bundle has the
    fault it names, at the lanes it names. */
module Diagnostics {
  import opened Isa
  import opened Machine
  import opened Checker

  lemma {:induction false} InSum<T>(a: seq<T>, b: seq<T>, x: T)
    ensures x in a + b <==> x in a || x in b
  {
  }

  lemma {:induction false} RowHas(ms: seq<Insn>, i: nat, end: nat, j: nat)
    requires i < end <= |ms|
    ensures RawError(i, j) in RowErrors(ms, i, end) <==> i < j < end && Raw(ms[i], ms[j])
    ensures WawError(i, j) in RowErrors(ms, i, end) <==> i < j < end && Waw(ms[i], ms[j])
    decreases end
  {
    if end > i + 1 {
      var k := end - 1;
      RowHas(ms, i, k, j);
      assert RowErrors(ms, i, end) == RowErrors(ms, i, k) + PairErrors(ms[i], ms[k], i, k);
      InSum(RowErrors(ms, i, k), PairErrors(ms[i], ms[k], i, k), RawError(i, j));
      InSum(RowErrors(ms, i, k), PairErrors(ms[i], ms[k], i, k), WawError(i, j));
    }
  }

  /** The error is of a pair whose first lane is `i`. */
  predicate OnRow(e: Error, i: nat) {
    (e.RawError? || e.WawError?) && e.i == i
  }

  lemma {:induction false} PairOnly(x: Insn, y: Insn, i: nat, j: nat, e: Error)
    requires e in PairErrors(x, y, i, j)
    ensures OnRow(e, i)
  {
  }

  lemma {:induction false} RowSum(ms: seq<Insn>, i: nat, k: nat, end: nat, e: Error)
    requires i < k && end == k + 1 <= |ms|
    ensures e in RowErrors(ms, i, end) <==> e in RowErrors(ms, i, k) || e in PairErrors(ms[i], ms[k], i, k)
  {
    InSum(RowErrors(ms, i, k), PairErrors(ms[i], ms[k], i, k), e);
  }

  /** A row names only its own first lane, and only pairs. */
  lemma {:induction false} RowOnly(ms: seq<Insn>, i: nat, end: nat, e: Error)
    requires i < end <= |ms| && e in RowErrors(ms, i, end)
    ensures OnRow(e, i)
    decreases end
  {
    if end > i + 1 {
      var k := end - 1;
      RowSum(ms, i, k, end, e);
      if e in RowErrors(ms, i, k) { RowOnly(ms, i, k, e); } else { PairOnly(ms[i], ms[k], i, k, e); }
    }
  }

  lemma {:induction false} PairsUnfold(ms: seq<Insn>, k: nat, n: nat)
    requires n == k + 1 <= |ms|
    ensures AllPairErrors(ms, n) == AllPairErrors(ms, k) + RowErrors(ms, k, |ms|)
  {
  }

  lemma {:induction false} PairsSnoc(ms: seq<Insn>, k: nat, n: nat, e: Error)
    requires n == k + 1 <= |ms|
    ensures e in AllPairErrors(ms, n) <==> e in AllPairErrors(ms, k) || e in RowErrors(ms, k, |ms|)
  {
    PairsUnfold(ms, k, n);
    InSum(AllPairErrors(ms, k), RowErrors(ms, k, |ms|), e);
  }

  lemma {:induction false} WarnUnfold(ms: seq<Insn>, k: nat, n: nat)
    requires n == k + 1 <= |ms|
    ensures AllPairWarnings(ms, n) == AllPairWarnings(ms, k) + RowWarnings(ms, k, |ms|)
  {
  }

  lemma {:induction false} WarnSnoc(ms: seq<Insn>, k: nat, n: nat, w: Warning)
    requires n == k + 1 <= |ms|
    ensures w in AllPairWarnings(ms, n) <==> w in AllPairWarnings(ms, k) || w in RowWarnings(ms, k, |ms|)
  {
    WarnUnfold(ms, k, n);
    InSum(AllPairWarnings(ms, k), RowWarnings(ms, k, |ms|), w);
  }

  lemma {:induction false} RowForeign(ms: seq<Insn>, k: nat, i: nat, e: Error)
    requires k < |ms| && k != i && (e.RawError? || e.WawError?) && e.i == i
    ensures e !in RowErrors(ms, k, |ms|)
  {
    if e in RowErrors(ms, k, |ms|) { RowOnly(ms, k, |ms|, e); }
  }

  /** A pair error of lane `i` can only come from row `i`. */
  lemma {:induction false} PairsHave(ms: seq<Insn>, n: nat, i: nat, e: Error)
    requires n <= |ms| && (e.RawError? || e.WawError?) && e.i == i
    ensures e in AllPairErrors(ms, n) <==> i < n && e in RowErrors(ms, i, |ms|)
    decreases n
  {
    if n > 0 {
      var k := n - 1;
      PairsHave(ms, k, i, e);
      PairsSnoc(ms, k, n, e);
      if k != i { RowForeign(ms, k, i, e); }
    }
  }

  lemma {:induction false} PairErrorsHave(ms: seq<Insn>, i: nat, j: nat)
    ensures RawError(i, j) in AllPairErrors(ms, |ms|) <==> i < j < |ms| && Raw(ms[i], ms[j])
    ensures WawError(i, j) in AllPairErrors(ms, |ms|) <==> i < j < |ms| && Waw(ms[i], ms[j])
  {
    if i < |ms| { RowHas(ms, i, |ms|, j); }
    PairsHave(ms, |ms|, i, RawError(i, j));
    PairsHave(ms, |ms|, i, WawError(i, j));
  }

  lemma {:induction false} PairsOnly(ms: seq<Insn>, n: nat, e: Error)
    requires n <= |ms| && e in AllPairErrors(ms, n)
    ensures e.RawError? || e.WawError?
    decreases n
  {
    if n > 0 {
      var k := n - 1;
      InSum(AllPairErrors(ms, k), RowErrors(ms, k, |ms|), e);
      if e in AllPairErrors(ms, k) { PairsOnly(ms, k, e); } else { RowOnly(ms, k, |ms|, e); }
    }
  }

  lemma {:induction false} LanesHave(ms: seq<Insn>, n: nat, k: nat, cls: Class)
    requires n <= |ms|
    ensures LaneIllegal(k, cls) in LaneErrors(ms, n) <==> 0 < k < n && Lane0Only(ms[k]) && ms[k].cls == cls
    decreases n
  {
    if n > 0 { LanesHave(ms, n - 1, k, cls); }
  }

  lemma {:induction false} LanesOnly(ms: seq<Insn>, n: nat, e: Error)
    requires n <= |ms| && e in LaneErrors(ms, n)
    ensures e.LaneIllegal?
    decreases n
  {
    if n > 0 && e in LaneErrors(ms, n - 1) { LanesOnly(ms, n - 1, e); }
  }

  /** The lanes of the memory operations, in order. */
  lemma {:induction false} LsuLanesAre(ms: seq<Insn>, n: nat)
    requires n <= |ms|
    ensures var l := LsuLanes(ms, n);
            && (forall i, j :: 0 <= i < j < |l| ==> l[i] < l[j])
            && (forall k :: k in l <==> 0 <= k < n && UsesLsu(ms[k]))
    decreases n
  {
    if n > 0 {
      LsuLanesAre(ms, n - 1);
      var prev, l := LsuLanes(ms, n - 1), LsuLanes(ms, n);
      assert l == prev + if UsesLsu(ms[n - 1]) then [n - 1] else [];
      forall i, j | 0 <= i < j < |l| ensures l[i] < l[j] {
        if j == |prev| { assert l[i] in prev; }
      }
    }
  }

  lemma {:induction false} ErrorParts(declared: nat, ms: seq<Insn>, e: Error)
    requires declared <= MAX_BUNDLE && declared <= |ms|
    ensures e in Errors(declared, ms) <==>
            e in LaneErrors(ms, |ms|) || e in LsuErrors(ms) || e in AllPairErrors(ms, |ms|)
  {
    InSum(LaneErrors(ms, |ms|), LsuErrors(ms), e);
    InSum(LaneErrors(ms, |ms|) + LsuErrors(ms), AllPairErrors(ms, |ms|), e);
  }

  lemma {:induction false} LsuOnly(ms: seq<Insn>, e: Error)
    requires e in LsuErrors(ms)
    ensures e.ManyMemory? || e.MemoryInWorker?
  {
  }

  lemma {:induction false} ErrorIsPair(declared: nat, ms: seq<Insn>, e: Error)
    requires declared <= MAX_BUNDLE && declared <= |ms| && (e.RawError? || e.WawError?)
    ensures e in Errors(declared, ms) <==> e in AllPairErrors(ms, |ms|)
  {
    ErrorParts(declared, ms, e);
    if e in LaneErrors(ms, |ms|) { LanesOnly(ms, |ms|, e); }
    if e in LsuErrors(ms) { LsuOnly(ms, e); }
  }

  lemma {:induction false} ErrorIsLane(declared: nat, ms: seq<Insn>, e: Error)
    requires declared <= MAX_BUNDLE && declared <= |ms| && e.LaneIllegal?
    ensures e in Errors(declared, ms) <==> e in LaneErrors(ms, |ms|)
  {
    ErrorParts(declared, ms, e);
    if e in LsuErrors(ms) { LsuOnly(ms, e); }
    if e in AllPairErrors(ms, |ms|) { PairsOnly(ms, |ms|, e); }
  }

  /** The whole error list of a bundle that passes the two early tests. */
  lemma {:induction false} ErrorsExact(declared: nat, ms: seq<Insn>, i: nat, j: nat, cls: Class)
    requires declared <= MAX_BUNDLE && declared <= |ms|
    ensures RawError(i, j) in Errors(declared, ms) <==> i < j < |ms| && Raw(ms[i], ms[j])
    ensures WawError(i, j) in Errors(declared, ms) <==> i < j < |ms| && Waw(ms[i], ms[j])
    ensures LaneIllegal(i, cls) in Errors(declared, ms) <==> 0 < i < |ms| && Lane0Only(ms[i]) && ms[i].cls == cls
  {
    ErrorIsPair(declared, ms, RawError(i, j));
    ErrorIsPair(declared, ms, WawError(i, j));
    PairErrorsHave(ms, i, j);
    ErrorIsLane(declared, ms, LaneIllegal(i, cls));
    LanesHave(ms, |ms|, i, cls);
  }

  lemma {:induction false} ErrorIsMemory(declared: nat, ms: seq<Insn>, e: Error)
    requires declared <= MAX_BUNDLE && declared <= |ms| && (e.ManyMemory? || e.MemoryInWorker?)
    ensures e in Errors(declared, ms) <==> e in LsuErrors(ms)
  {
    ErrorParts(declared, ms, e);
    if e in LaneErrors(ms, |ms|) { LanesOnly(ms, |ms|, e); }
    if e in AllPairErrors(ms, |ms|) { PairsOnly(ms, |ms|, e); }
  }

  lemma {:induction false} TailHas(a: seq<nat>, k: nat)
    requires a != [] && forall i, j :: 0 <= i < j < |a| ==> a[i] < a[j]
    ensures k in a[1..] <==> k in a && k != a[0]
  {
  }

  /** Increasing sequences of the same elements are equal. */
  lemma {:induction false} SortedUnique(a: seq<nat>, b: seq<nat>)
    requires forall i, j :: 0 <= i < j < |a| ==> a[i] < a[j]
    requires forall i, j :: 0 <= i < j < |b| ==> b[i] < b[j]
    requires forall k :: k in a <==> k in b
    ensures a == b
    decreases |a|
  {
    if b != [] { assert b[0] in b && b[0] in a; }
    if a != [] {
      assert a[0] in b && b[0] in a;
      assert a[0] == b[0];
      forall k ensures k in a[1..] <==> k in b[1..] { TailHas(a, k); TailHas(b, k); }
      SortedUnique(a[1..], b[1..]);
      assert a == [a[0]] + a[1..] && b == [b[0]] + b[1..];
    }
  }

  /** The memory-port errors: all the memory lanes when there are several, the one lane when it is
      not lane 0. */
  lemma {:induction false} MemoryErrorsExact(declared: nat, ms: seq<Insn>, lanes: seq<nat>, lane: nat)
    requires declared <= MAX_BUNDLE && declared <= |ms|
    requires (forall i, j :: 0 <= i < j < |lanes| ==> lanes[i] < lanes[j])
    requires forall k :: k in lanes <==> 0 <= k < |ms| && UsesLsu(ms[k])
    ensures ManyMemory(lanes) in Errors(declared, ms) <==> |lanes| > 1
    ensures MemoryInWorker(lane) in Errors(declared, ms) <==> lanes == [lane] && lane != 0
  {
    LsuLanesAre(ms, |ms|);
    SortedUnique(lanes, LsuLanes(ms, |ms|));
    ErrorIsMemory(declared, ms, ManyMemory(lanes));
    ErrorIsMemory(declared, ms, MemoryInWorker(lane));
  }

  // ----- warnings -----

  lemma {:induction false} WarnRowSum(ms: seq<Insn>, i: nat, k: nat, end: nat, w: Warning)
    requires i < k && end == k + 1 <= |ms|
    ensures w in RowWarnings(ms, i, end) <==> w in RowWarnings(ms, i, k) || w in PairWarnings(ms[i], ms[k], i, k)
  {
    InSum(RowWarnings(ms, i, k), PairWarnings(ms[i], ms[k], i, k), w);
  }

  lemma {:induction false} RowWarns(ms: seq<Insn>, i: nat, end: nat, j: nat)
    requires i < end <= |ms|
    ensures WarWarning(i, j) in RowWarnings(ms, i, end) <==> i < j < end && War(ms[i], ms[j])
    decreases end
  {
    if end > i + 1 {
      var k := end - 1;
      RowWarns(ms, i, k, j);
      WarnRowSum(ms, i, k, end, WarWarning(i, j));
    }
  }

  lemma {:induction false} RowWarnsOnly(ms: seq<Insn>, i: nat, end: nat, w: Warning)
    requires i < end <= |ms| && w in RowWarnings(ms, i, end)
    ensures w.WarWarning? && w.i == i
    decreases end
  {
    if end > i + 1 {
      var k := end - 1;
      WarnRowSum(ms, i, k, end, w);
      if w in RowWarnings(ms, i, k) { RowWarnsOnly(ms, i, k, w); }
    }
  }

  lemma {:induction false} PairsWarn(ms: seq<Insn>, n: nat, i: nat, j: nat)
    requires n <= |ms|
    ensures WarWarning(i, j) in AllPairWarnings(ms, n) <==> i < n && i < j < |ms| && War(ms[i], ms[j])
    decreases n
  {
    if n > 0 {
      var k := n - 1;
      PairsWarn(ms, k, i, j);
      WarnSnoc(ms, k, n, WarWarning(i, j));
      if i == k {
        RowWarns(ms, k, |ms|, j);
      } else if WarWarning(i, j) in RowWarnings(ms, k, |ms|) {
        RowWarnsOnly(ms, k, |ms|, WarWarning(i, j));
      }
    }
  }

  lemma {:induction false} PairsOnlyWarn(ms: seq<Insn>, n: nat, w: Warning)
    requires n <= |ms| && w in AllPairWarnings(ms, n)
    ensures w.WarWarning?
    decreases n
  {
    if n > 0 {
      var k := n - 1;
      WarnSnoc(ms, k, n, w);
      if w in AllPairWarnings(ms, k) { PairsOnlyWarn(ms, k, w); } else { RowWarnsOnly(ms, k, |ms|, w); }
    }
  }

  // ----- cache lines -----

  /** Some member has its byte at `b`. */
  ghost predicate HasByte(ms: seq<Insn>, b: nat) {
    exists k :: 0 <= k < |ms| && ms[k].addr <= b < ms[k].addr + ms[k].size
  }

  /** The members stand after the hint in order, none empty and none overlapping the next. */
  ghost predicate InOrder(hintAddr: nat, ms: seq<Insn>) {
    && ms != [] && hintAddr <= ms[0].addr && (forall k :: 0 <= k < |ms| ==> ms[k].size > 0)
    && forall k :: 0 <= k < |ms| - 1 ==> ms[k].addr + ms[k].size <= ms[k + 1].addr
  }

  /** Some byte of a member is not in the hint's cache line. */
  ghost predicate ByteElsewhere(hintAddr: nat, ms: seq<Insn>, lineBytes: nat)
    requires lineBytes > 0
  {
    exists b: nat :: HasByte(ms, b) && b / lineBytes != hintAddr / lineBytes
  }

  /** Line `n` starts behind the hint's first byte and at or ahead of a member's byte. */
  ghost predicate LineInside(hintAddr: nat, ms: seq<Insn>, lineBytes: nat, n: nat) {
    hintAddr < n * lineBytes && exists b: nat :: HasByte(ms, b) && n * lineBytes <= b
  }

  lemma {:induction false} EndsGrow(hintAddr: nat, ms: seq<Insn>, i: nat, j: nat)
    requires InOrder(hintAddr, ms) && i <= j < |ms|
    ensures hintAddr <= ms[i].addr && ms[i].addr + ms[i].size <= ms[j].addr + ms[j].size
    decreases i + j
  {
    if i < j {
      EndsGrow(hintAddr, ms, i, j - 1);
      assert ms[j - 1].addr + ms[j - 1].size <= ms[j - 1 + 1].addr;
    } else if i > 0 {
      EndsGrow(hintAddr, ms, i - 1, i - 1);
      assert ms[i - 1].addr + ms[i - 1].size <= ms[i - 1 + 1].addr;
    }
  }

  /** The last byte the checker takes is the last byte there is. */
  lemma {:induction false} LastByteIsLast(hintAddr: nat, ms: seq<Insn>)
    requires InOrder(hintAddr, ms)
    ensures LastByte(ms) >= hintAddr && HasByte(ms, LastByte(ms))
    ensures forall b: nat :: HasByte(ms, b) ==> hintAddr <= b <= LastByte(ms)
  {
    var n := |ms| - 1;
    EndsGrow(hintAddr, ms, n, n);
    assert ms[n].addr <= LastByte(ms) < ms[n].addr + ms[n].size;
    forall b: nat | HasByte(ms, b) ensures hintAddr <= b <= LastByte(ms) {
      var k :| 0 <= k < |ms| && ms[k].addr <= b < ms[k].addr + ms[k].size;
      EndsGrow(hintAddr, ms, k, n);
    }
  }

  lemma {:induction false} LineStart(x: int, n: nat)
    requires n > 0
    ensures x / n * n <= x < (x / n + 1) * n
  {
  }

  lemma {:induction false} MulMonotone(a: int, b: int, n: nat)
    requires a <= b
    ensures a * n <= b * n
  {
  }

  lemma {:induction false} DivMonotone(x: int, y: int, n: nat)
    requires x <= y && n > 0
    ensures x / n <= y / n
  {
    LineStart(x, n);
    LineStart(y, n);
    if x / n > y / n { MulMonotone(y / n + 1, x / n, n); }
  }

  /** The quotient test tells exactly whether some member has a byte outside the hint's line. */
  lemma {:induction false} StraddlesIsByte(hintAddr: nat, ms: seq<Insn>, lineBytes: nat)
    requires InOrder(hintAddr, ms) && lineBytes > 0
    ensures Straddles(hintAddr, ms, lineBytes) <==> ByteElsewhere(hintAddr, ms, lineBytes)
  {
    LastByteIsLast(hintAddr, ms);
    if b: nat :| HasByte(ms, b) && b / lineBytes != hintAddr / lineBytes {
      DivMonotone(hintAddr, b, lineBytes);
      DivMonotone(b, LastByte(ms), lineBytes);
    }
  }

  lemma {:induction false} LaterLineInside(hintAddr: nat, ms: seq<Insn>, lineBytes: nat, b: nat, n: nat)
    requires lineBytes > 0 && HasByte(ms, b) && hintAddr <= b && b / lineBytes != hintAddr / lineBytes
    requires n == hintAddr / lineBytes + 1
    ensures LineInside(hintAddr, ms, lineBytes, n)
  {
    DivMonotone(hintAddr, b, lineBytes);
    LineStart(hintAddr, lineBytes);
    LineStart(b, lineBytes);
    MulMonotone(n, b / lineBytes, lineBytes);
  }

  lemma {:induction false} OtherLine(a: nat, b: nat, n: nat, lineBytes: nat)
    requires lineBytes > 0 && a < n * lineBytes <= b
    ensures a / lineBytes != b / lineBytes
  {
    LineStart(a, lineBytes);
    LineStart(b, lineBytes);
    if a / lineBytes >= n { MulMonotone(n, a / lineBytes, lineBytes); }
    if b / lineBytes + 1 <= n { MulMonotone(b / lineBytes + 1, n, lineBytes); }
  }

  /** And so whether a line starts inside the bundle. */
  lemma {:induction false} StraddlesIsBoundary(hintAddr: nat, ms: seq<Insn>, lineBytes: nat)
    requires InOrder(hintAddr, ms) && lineBytes > 0
    ensures ByteElsewhere(hintAddr, ms, lineBytes) <==> exists n: nat :: LineInside(hintAddr, ms, lineBytes, n)
  {
    LastByteIsLast(hintAddr, ms);
    if b: nat :| HasByte(ms, b) && b / lineBytes != hintAddr / lineBytes {
      LaterLineInside(hintAddr, ms, lineBytes, b, hintAddr / lineBytes + 1);
    }
    if n: nat :| LineInside(hintAddr, ms, lineBytes, n) {
      var b: nat :| HasByte(ms, b) && n * lineBytes <= b;
      OtherLine(hintAddr, b, n, lineBytes);
    }
  }

  lemma {:induction false} LineWarning(hintAddr: nat, declared: nat, ms: seq<Insn>, lineBytes: nat, w: Warning)
    requires 1 <= declared <= MAX_BUNDLE && declared <= |ms| && lineBytes > 0 && LastByte(ms) >= 0 && w.SpansLine?
    ensures w in Warnings(hintAddr, declared, ms, lineBytes)
            <==> Straddles(hintAddr, ms, lineBytes) && w == SpansLine(hintAddr, LastByte(ms))
  {
    var line := if Straddles(hintAddr, ms, lineBytes) then [SpansLine(hintAddr, Max(0, LastByte(ms)))] else [];
    InSum(AllPairWarnings(ms, |ms|), line, w);
    if w in AllPairWarnings(ms, |ms|) { PairsOnlyWarn(ms, |ms|, w); }
  }

  lemma {:induction false} PairWarning(hintAddr: nat, declared: nat, ms: seq<Insn>, lineBytes: nat, i: nat, j: nat)
    requires 1 <= declared <= MAX_BUNDLE && declared <= |ms| && lineBytes > 0
    ensures WarWarning(i, j) in Warnings(hintAddr, declared, ms, lineBytes) <==> i < j < |ms| && War(ms[i], ms[j])
  {
    PairsWarn(ms, |ms|, i, j);
    var line := if Straddles(hintAddr, ms, lineBytes) then [SpansLine(hintAddr, Max(0, LastByte(ms)))] else [];
    InSum(AllPairWarnings(ms, |ms|), line, WarWarning(i, j));
  }

  /** Warnings: each WAR pair, and one cache-line warning, exactly when a member has a byte outside the
      hint's line. It names the hint and the last byte of all members. */
  lemma {:induction false} WarningsExact(hintAddr: nat, declared: nat, ms: seq<Insn>, lineBytes: nat, i: nat, j: nat,
                                         start: nat, last: nat)
    requires 1 <= declared <= MAX_BUNDLE && declared <= |ms| && lineBytes > 0 && InOrder(hintAddr, ms)
    ensures var ws := Warnings(hintAddr, declared, ms, lineBytes);
            && (WarWarning(i, j) in ws <==> i < j < |ms| && War(ms[i], ms[j]))
            && (SpansLine(start, last) in ws <==>
                  && ByteElsewhere(hintAddr, ms, lineBytes) && start == hintAddr
                  && HasByte(ms, last) && forall b: nat :: HasByte(ms, b) ==> b <= last)
  {
    PairWarning(hintAddr, declared, ms, lineBytes, i, j);
    LastByteIsLast(hintAddr, ms);
    StraddlesIsByte(hintAddr, ms, lineBytes);
    LineWarning(hintAddr, declared, ms, lineBytes, SpansLine(start, last));
  }
}
