/** The diagnostics of a bundle as lists: what they hold, spelled out, and in which order. */
module ErrorLists {
  import opened Isa
  import opened Machine
  import opened Checker
  import opened Diagnostics

  // ----- which errors a bundle deserves -----

  /** All members are there and the bundle is not too long. */
  predicate Whole(declared: nat, ms: seq<Insn>) {
    declared <= 4 && declared <= |ms|
  }

  predicate OnlyInLane0(m: Insn) {
    m.cls in {Load, Store, Branch, Jump, System, Atomic, PcRel, Unknown}
  }

  predicate InMemory(m: Insn) {
    m.cls in {Load, Store, Atomic}
  }

  /** `lanes` are the lanes of the memory operations, in order. */
  ghost predicate MemoryLanes(ms: seq<Insn>, lanes: seq<nat>) {
    && (forall i, j :: 0 <= i < j < |lanes| ==> lanes[i] < lanes[j])
    && (forall k :: k in lanes <==> 0 <= k < |ms| && InMemory(ms[k]))
  }

  /** Lane `i` writes a register that lane `j` reads. */
  predicate WrittenThenRead(ms: seq<Insn>, i: nat, j: nat) {
    i < j < |ms| && exists r :: r in ms[i].dsts && r in ms[j].srcs
  }

  predicate WrittenTwice(ms: seq<Insn>, i: nat, j: nat) {
    i < j < |ms| && exists r :: r in ms[i].dsts && r in ms[j].dsts
  }

  predicate ReadThenWritten(ms: seq<Insn>, i: nat, j: nat) {
    i < j < |ms| && exists r :: r in ms[i].srcs && r in ms[j].dsts
  }

  predicate LaneWrong(ms: seq<Insn>, k: nat, cls: Class) {
    0 < k < |ms| && ms[k].cls == cls && OnlyInLane0(ms[k])
  }

  /** The error is called for. */
  ghost predicate Deserved(declared: nat, ms: seq<Insn>, e: Error) {
    match e
    case TooLong(n) => declared > 4 && n == declared
    case Truncated(n, have) => |ms| < declared <= 4 && n == declared && have == |ms|
    case LaneIllegal(k, cls) => Whole(declared, ms) && LaneWrong(ms, k, cls)
    case ManyMemory(lanes) => Whole(declared, ms) && |lanes| > 1 && MemoryLanes(ms, lanes)
    case MemoryInWorker(k) => Whole(declared, ms) && k != 0 && MemoryLanes(ms, [k])
    case RawError(i, j) => Whole(declared, ms) && WrittenThenRead(ms, i, j)
    case WawError(i, j) => Whole(declared, ms) && WrittenTwice(ms, i, j)
  }

  lemma {:induction false} RawIs(ms: seq<Insn>, i: nat, j: nat)
    ensures WrittenThenRead(ms, i, j) <==> i < j < |ms| && Raw(ms[i], ms[j])
    ensures WrittenTwice(ms, i, j) <==> i < j < |ms| && Waw(ms[i], ms[j])
    ensures ReadThenWritten(ms, i, j) <==> i < j < |ms| && War(ms[i], ms[j])
  {
  }

  lemma {:induction false} LanesAre(ms: seq<Insn>)
    ensures MemoryLanes(ms, LsuLanes(ms, |ms|))
  {
    LsuLanesAre(ms, |ms|);
  }

  lemma {:induction false} LanesUnique(ms: seq<Insn>, lanes: seq<nat>)
    requires MemoryLanes(ms, lanes)
    ensures lanes == LsuLanes(ms, |ms|)
  {
    LanesAre(ms);
    SortedUnique(lanes, LsuLanes(ms, |ms|));
  }

  lemma {:induction false} MemoryDeserved(declared: nat, ms: seq<Insn>, e: Error)
    requires Whole(declared, ms) && (e.ManyMemory? || e.MemoryInWorker?)
    ensures e in Errors(declared, ms) <==> Deserved(declared, ms, e)
  {
    ErrorIsMemory(declared, ms, e);
    LanesAre(ms);
    var lanes := if e.ManyMemory? then e.lanes else [e.lane];
    if MemoryLanes(ms, lanes) { LanesUnique(ms, lanes); }
    assert |LsuLanes(ms, |ms|)| == 1 ==> LsuLanes(ms, |ms|) == [LsuLanes(ms, |ms|)[0]];
  }

  lemma {:induction false} PairDeserved(declared: nat, ms: seq<Insn>, e: Error)
    requires Whole(declared, ms) && (e.RawError? || e.WawError?)
    ensures e in Errors(declared, ms) <==> Deserved(declared, ms, e)
  {
    ErrorsExact(declared, ms, e.i, e.j, Alu);
    RawIs(ms, e.i, e.j);
  }

  lemma {:induction false} LaneDeserved(declared: nat, ms: seq<Insn>, e: Error)
    requires Whole(declared, ms) && e.LaneIllegal?
    ensures e in Errors(declared, ms) <==> Deserved(declared, ms, e)
  {
    ErrorsExact(declared, ms, e.lane, e.lane, e.cls);
  }

  lemma {:induction false} NoEarlyError(declared: nat, ms: seq<Insn>, e: Error)
    requires Whole(declared, ms) && (e.TooLong? || e.Truncated?)
    ensures e !in Errors(declared, ms)
  {
    ErrorParts(declared, ms, e);
    if e in LaneErrors(ms, |ms|) { LanesOnly(ms, |ms|, e); }
    if e in LsuErrors(ms) { LsuOnly(ms, e); }
    if e in AllPairErrors(ms, |ms|) { PairsOnly(ms, |ms|, e); }
  }

  lemma {:induction false} EarlyErrors(declared: nat, ms: seq<Insn>, e: Error)
    requires !Whole(declared, ms)
    ensures e in Errors(declared, ms) <==> Deserved(declared, ms, e)
    ensures |Errors(declared, ms)| == 1
  {
  }

  /** The list holds what is deserved and nothing else. */
  lemma {:induction false} ErrorsDeserved(declared: nat, ms: seq<Insn>, e: Error)
    ensures e in Errors(declared, ms) <==> Deserved(declared, ms, e)
  {
    if !Whole(declared, ms) { EarlyErrors(declared, ms, e); }
    else if e.RawError? || e.WawError? { PairDeserved(declared, ms, e); }
    else if e.LaneIllegal? { LaneDeserved(declared, ms, e); }
    else if e.ManyMemory? || e.MemoryInWorker? { MemoryDeserved(declared, ms, e); }
    else { NoEarlyError(declared, ms, e); }
  }

  // ----- their order -----

  /** Lane errors come first, then the memory error, then the pairs. */
  function Phase(e: Error): nat {
    if e.LaneIllegal? then 0 else if e.RawError? || e.WawError? then 2 else 1
  }

  function Major(e: Error): nat {
    match e
    case LaneIllegal(k, _) => k
    case RawError(i, _) => i
    case WawError(i, _) => i
    case _ => 0
  }

  function Minor(e: Error): nat {
    match e
    case RawError(_, j) => 2 * j
    case WawError(_, j) => 2 * j + 1
    case _ => 0
  }

  /** `d` is reported before `e`: by phase, then by the first lane, then by the second, RAW before WAW. */
  predicate Before(d: Error, e: Error) {
    || Phase(d) < Phase(e)
    || (Phase(d) == Phase(e) && (Major(d) < Major(e) || (Major(d) == Major(e) && Minor(d) < Minor(e))))
  }

  ghost predicate Sorted(es: seq<Error>) {
    forall k, l :: 0 <= k < l < |es| ==> Before(es[k], es[l])
  }

  /** Every element of `a` goes before every element of `b`. */
  ghost predicate Ahead(a: seq<Error>, b: seq<Error>) {
    forall d, e :: d in a && e in b ==> Before(d, e)
  }

  lemma {:induction false} SortedConcat(a: seq<Error>, b: seq<Error>)
    requires Sorted(a) && Sorted(b) && Ahead(a, b)
    ensures Sorted(a + b)
  {
    var c := a + b;
    forall k, l | 0 <= k < l < |c| ensures Before(c[k], c[l]) {
      if k < |a| <= l { assert c[k] in a && c[l] in b; }
    }
  }

  lemma {:induction false} LanesSorted(ms: seq<Insn>, n: nat)
    requires n <= |ms|
    ensures Sorted(LaneErrors(ms, n)) && forall e :: e in LaneErrors(ms, n) ==> e.LaneIllegal? && e.lane < n
    decreases n
  {
    if n > 0 {
      var k := n - 1;
      LanesSorted(ms, k);
      var last := if k > 0 && Lane0Only(ms[k]) then [LaneIllegal(k, ms[k].cls)] else [];
      SortedConcat(LaneErrors(ms, k), last);
    }
  }

  /** The error is of lane `i` and a lane from `i + 1` to `end - 1`. */
  predicate OfPair(e: Error, i: nat, end: nat) {
    (e.RawError? && e.i == i && e.j < end) || (e.WawError? && e.i == i && e.j < end)
  }

  lemma {:induction false} PairSorted(x: Insn, y: Insn, i: nat, k: nat)
    ensures Sorted(PairErrors(x, y, i, k))
    ensures forall e :: e in PairErrors(x, y, i, k) ==> e == RawError(i, k) || e == WawError(i, k)
  {
  }

  lemma {:induction false} RowWithin(ms: seq<Insn>, i: nat, end: nat, e: Error)
    requires i < end <= |ms| && e in RowErrors(ms, i, end)
    ensures OfPair(e, i, end)
    decreases end
  {
    if end > i + 1 {
      var k := end - 1;
      RowSum(ms, i, k, end, e);
      if e in RowErrors(ms, i, k) { RowWithin(ms, i, k, e); } else { PairSorted(ms[i], ms[k], i, k); }
    }
  }

  lemma {:induction false} RowAhead(ms: seq<Insn>, i: nat, k: nat)
    requires i < k < |ms|
    ensures Ahead(RowErrors(ms, i, k), PairErrors(ms[i], ms[k], i, k))
  {
    PairSorted(ms[i], ms[k], i, k);
    forall d, e | d in RowErrors(ms, i, k) && e in PairErrors(ms[i], ms[k], i, k) ensures Before(d, e) {
      RowWithin(ms, i, k, d);
    }
  }

  lemma {:induction false} RowUnfold(ms: seq<Insn>, i: nat, k: nat, end: nat)
    requires i < k && end == k + 1 <= |ms|
    ensures RowErrors(ms, i, end) == RowErrors(ms, i, k) + PairErrors(ms[i], ms[k], i, k)
  {
  }

  lemma {:induction false} RowSorted(ms: seq<Insn>, i: nat, end: nat)
    requires i < end <= |ms|
    ensures Sorted(RowErrors(ms, i, end))
    decreases end
  {
    if end > i + 1 {
      var k := end - 1;
      RowSorted(ms, i, k);
      PairSorted(ms[i], ms[k], i, k);
      RowAhead(ms, i, k);
      RowUnfold(ms, i, k, end);
      SortedConcat(RowErrors(ms, i, k), PairErrors(ms[i], ms[k], i, k));
    }
  }

  /** The error is of a pair whose first lane is before `n`. */
  predicate OfEarlierPair(e: Error, n: nat) {
    (e.RawError? && e.i < n) || (e.WawError? && e.i < n)
  }

  lemma {:induction false} PairsWithin(ms: seq<Insn>, n: nat, e: Error)
    requires n <= |ms| && e in AllPairErrors(ms, n)
    ensures OfEarlierPair(e, n)
    decreases n
  {
    if n > 0 {
      var k := n - 1;
      PairsSnoc(ms, k, n, e);
      if e in AllPairErrors(ms, k) { PairsWithin(ms, k, e); } else { RowOnly(ms, k, |ms|, e); }
    }
  }

  lemma {:induction false} PairsAhead(ms: seq<Insn>, k: nat)
    requires k < |ms|
    ensures Ahead(AllPairErrors(ms, k), RowErrors(ms, k, |ms|))
  {
    forall d, e | d in AllPairErrors(ms, k) && e in RowErrors(ms, k, |ms|) ensures Before(d, e) {
      PairsWithin(ms, k, d);
      RowOnly(ms, k, |ms|, e);
    }
  }

  lemma {:induction false} PairsSorted(ms: seq<Insn>, n: nat)
    requires n <= |ms|
    ensures Sorted(AllPairErrors(ms, n))
    decreases n
  {
    if n > 0 {
      var k := n - 1;
      PairsSorted(ms, k);
      RowSorted(ms, k, |ms|);
      PairsUnfold(ms, k, n);
      PairsAhead(ms, k);
      SortedConcat(AllPairErrors(ms, k), RowErrors(ms, k, |ms|));
    }
  }

  lemma {:induction false} PhasesAhead(ms: seq<Insn>)
    ensures Ahead(LaneErrors(ms, |ms|), LsuErrors(ms)) && Sorted(LsuErrors(ms))
    ensures Ahead(LaneErrors(ms, |ms|) + LsuErrors(ms), AllPairErrors(ms, |ms|))
  {
    forall e | e in LaneErrors(ms, |ms|) ensures Phase(e) == 0 { LanesOnly(ms, |ms|, e); }
    forall e | e in LsuErrors(ms) ensures Phase(e) == 1 { LsuOnly(ms, e); }
    forall e | e in AllPairErrors(ms, |ms|) ensures Phase(e) == 2 { PairsOnly(ms, |ms|, e); }
  }

  lemma {:induction false} PartsSorted(ms: seq<Insn>)
    ensures Sorted(LaneErrors(ms, |ms|) + LsuErrors(ms) + AllPairErrors(ms, |ms|))
  {
    var a, b, c := LaneErrors(ms, |ms|), LsuErrors(ms), AllPairErrors(ms, |ms|);
    LanesSorted(ms, |ms|);
    PairsSorted(ms, |ms|);
    PhasesAhead(ms);
    SortedConcat(a, b);
    SortedConcat(a + b, c);
  }

  lemma {:induction false} ErrorsSorted(declared: nat, ms: seq<Insn>)
    ensures Sorted(Errors(declared, ms))
  {
    if Whole(declared, ms) { PartsSorted(ms); } else { EarlyErrors(declared, ms, TooLong(0)); }
  }

  lemma {:induction false} SortedTail(a: seq<Error>, e: Error)
    requires a != [] && Sorted(a)
    ensures Sorted(a[1..]) && (e in a[1..] <==> e in a && e != a[0])
  {
  }

  lemma {:induction false} SameFirst(a: seq<Error>, b: seq<Error>)
    requires a != [] && b != [] && Sorted(a) && Sorted(b) && forall e :: e in a <==> e in b
    ensures a[0] == b[0]
  {
    assert a[0] in b && b[0] in a;
  }

  /** Sorted lists of the same errors are equal. */
  lemma {:induction false} SortedErrorsUnique(a: seq<Error>, b: seq<Error>)
    requires Sorted(a) && Sorted(b) && forall e :: e in a <==> e in b
    ensures a == b
    decreases |a|
  {
    if b != [] { assert b[0] in b; }
    if a != [] {
      assert a[0] in b;
      SameFirst(a, b);
      forall e ensures e in a[1..] <==> e in b[1..] { SortedTail(a, e); SortedTail(b, e); }
      SortedErrorsUnique(a[1..], b[1..]);
      assert a == [a[0]] + a[1..] && b == [b[0]] + b[1..];
    }
  }

  /** The checker's error list is the one list that holds each deserved error once, in order. */
  lemma {:induction false} ErrorListIs(declared: nat, ms: seq<Insn>, es: seq<Error>)
    ensures es == Errors(declared, ms) <==> Sorted(es) && forall e :: e in es <==> Deserved(declared, ms, e)
  {
    ErrorsSorted(declared, ms);
    forall e ensures e in Errors(declared, ms) <==> Deserved(declared, ms, e) { ErrorsDeserved(declared, ms, e); }
    if Sorted(es) && forall e :: e in es <==> Deserved(declared, ms, e) {
      SortedErrorsUnique(es, Errors(declared, ms));
    }
  }

  // ----- warnings -----

  /** The warning is called for. The cache-line warning names the hint and the last byte of all members. */
  ghost predicate Warranted(hintAddr: nat, declared: nat, ms: seq<Insn>, lineBytes: nat, w: Warning)
    requires lineBytes > 0
  {
    && Whole(declared, ms)
    && match w
       case WarWarning(i, j) => ReadThenWritten(ms, i, j)
       case SpansLine(start, last) =>
         && ByteElsewhere(hintAddr, ms, lineBytes) && start == hintAddr
         && HasByte(ms, last) && forall b: nat :: HasByte(ms, b) ==> b <= last
  }

  /** `v` is given before `w`: by the first lane, then by the second, the cache line last. */
  predicate WarnsBefore(v: Warning, w: Warning) {
    v.WarWarning? && (w.SpansLine? || v.i < w.i || (v.i == w.i && v.j < w.j))
  }

  ghost predicate WarnsSorted(ws: seq<Warning>) {
    forall k, l :: 0 <= k < l < |ws| ==> WarnsBefore(ws[k], ws[l])
  }

  ghost predicate WarnsAhead(a: seq<Warning>, b: seq<Warning>) {
    forall v, w :: v in a && w in b ==> WarnsBefore(v, w)
  }

  lemma {:induction false} WarnsConcat(a: seq<Warning>, b: seq<Warning>)
    requires WarnsSorted(a) && WarnsSorted(b) && WarnsAhead(a, b)
    ensures WarnsSorted(a + b)
  {
    var c := a + b;
    forall k, l | 0 <= k < l < |c| ensures WarnsBefore(c[k], c[l]) {
      if k < |a| <= l { assert c[k] in a && c[l] in b; }
    }
  }

  lemma {:induction false} WarnRowWithin(ms: seq<Insn>, i: nat, end: nat, w: Warning)
    requires i < end <= |ms| && w in RowWarnings(ms, i, end)
    ensures w.WarWarning? && w.i == i && w.j < end
    decreases end
  {
    if end > i + 1 {
      var k := end - 1;
      WarnRowSum(ms, i, k, end, w);
      if w in RowWarnings(ms, i, k) { WarnRowWithin(ms, i, k, w); }
    }
  }

  lemma {:induction false} WarnRowAhead(ms: seq<Insn>, i: nat, k: nat)
    requires i < k < |ms|
    ensures WarnsAhead(RowWarnings(ms, i, k), PairWarnings(ms[i], ms[k], i, k))
  {
    forall v, w | v in RowWarnings(ms, i, k) && w in PairWarnings(ms[i], ms[k], i, k) ensures WarnsBefore(v, w) {
      WarnRowWithin(ms, i, k, v);
    }
  }

  lemma {:induction false} WarnRowUnfold(ms: seq<Insn>, i: nat, k: nat, end: nat)
    requires i < k && end == k + 1 <= |ms|
    ensures RowWarnings(ms, i, end) == RowWarnings(ms, i, k) + PairWarnings(ms[i], ms[k], i, k)
  {
  }

  lemma {:induction false} WarnRowSorted(ms: seq<Insn>, i: nat, end: nat)
    requires i < end <= |ms|
    ensures WarnsSorted(RowWarnings(ms, i, end))
    decreases end
  {
    if end > i + 1 {
      var k := end - 1;
      WarnRowSorted(ms, i, k);
      WarnRowAhead(ms, i, k);
      WarnRowUnfold(ms, i, k, end);
      WarnsConcat(RowWarnings(ms, i, k), PairWarnings(ms[i], ms[k], i, k));
    }
  }

  lemma {:induction false} WarnsWithin(ms: seq<Insn>, n: nat, w: Warning)
    requires n <= |ms| && w in AllPairWarnings(ms, n)
    ensures w.WarWarning? && w.i < n
    decreases n
  {
    if n > 0 {
      var k := n - 1;
      WarnSnoc(ms, k, n, w);
      if w in AllPairWarnings(ms, k) { WarnsWithin(ms, k, w); } else { RowWarnsOnly(ms, k, |ms|, w); }
    }
  }

  lemma {:induction false} WarnPairsAhead(ms: seq<Insn>, k: nat)
    requires k < |ms|
    ensures WarnsAhead(AllPairWarnings(ms, k), RowWarnings(ms, k, |ms|))
  {
    forall v, w | v in AllPairWarnings(ms, k) && w in RowWarnings(ms, k, |ms|) ensures WarnsBefore(v, w) {
      WarnsWithin(ms, k, v);
      RowWarnsOnly(ms, k, |ms|, w);
    }
  }

  lemma {:induction false} WarnPairsSorted(ms: seq<Insn>, n: nat)
    requires n <= |ms|
    ensures WarnsSorted(AllPairWarnings(ms, n))
    decreases n
  {
    if n > 0 {
      var k := n - 1;
      WarnPairsSorted(ms, k);
      WarnRowSorted(ms, k, |ms|);
      WarnUnfold(ms, k, n);
      WarnPairsAhead(ms, k);
      WarnsConcat(AllPairWarnings(ms, k), RowWarnings(ms, k, |ms|));
    }
  }

  lemma {:induction false} LineAhead(ms: seq<Insn>, w: Warning)
    requires w.SpansLine?
    ensures WarnsAhead(AllPairWarnings(ms, |ms|), [w])
  {
    forall v | v in AllPairWarnings(ms, |ms|) ensures WarnsBefore(v, w) { PairsOnlyWarn(ms, |ms|, v); }
  }

  lemma {:induction false} WarningsSorted(hintAddr: nat, declared: nat, ms: seq<Insn>, lineBytes: nat)
    requires declared >= 1 && lineBytes > 0
    ensures WarnsSorted(Warnings(hintAddr, declared, ms, lineBytes))
  {
    WarnPairsSorted(ms, |ms|);
    if Whole(declared, ms) && Straddles(hintAddr, ms, lineBytes) {
      var w := SpansLine(hintAddr, Max(0, LastByte(ms)));
      LineAhead(ms, w);
      WarnsConcat(AllPairWarnings(ms, |ms|), [w]);
    }
  }

  lemma {:induction false} WarningsWarranted(hintAddr: nat, declared: nat, ms: seq<Insn>, lineBytes: nat, w: Warning)
    requires declared >= 1 && lineBytes > 0 && InOrder(hintAddr, ms)
    ensures w in Warnings(hintAddr, declared, ms, lineBytes) <==> Warranted(hintAddr, declared, ms, lineBytes, w)
  {
    if Whole(declared, ms) {
      match w
      case WarWarning(i, j) =>
        PairWarning(hintAddr, declared, ms, lineBytes, i, j);
        RawIs(ms, i, j);
      case SpansLine(start, last) =>
        WarningsExact(hintAddr, declared, ms, lineBytes, 0, 0, start, last);
    }
  }

  lemma {:induction false} WarnsTail(a: seq<Warning>, w: Warning)
    requires a != [] && WarnsSorted(a)
    ensures WarnsSorted(a[1..]) && (w in a[1..] <==> w in a && w != a[0])
  {
  }

  lemma {:induction false} SortedWarningsUnique(a: seq<Warning>, b: seq<Warning>)
    requires WarnsSorted(a) && WarnsSorted(b) && forall w :: w in a <==> w in b
    ensures a == b
    decreases |a|
  {
    if b != [] { assert b[0] in b; }
    if a != [] {
      assert a[0] in a && a[0] in b;
      assert b[0] in a && a[0] == b[0];
      forall w ensures w in a[1..] <==> w in b[1..] { WarnsTail(a, w); WarnsTail(b, w); }
      SortedWarningsUnique(a[1..], b[1..]);
      assert a == [a[0]] + a[1..] && b == [b[0]] + b[1..];
    }
  }

  /** And the warning list of members in order is the one list that holds each warranted warning once. */
  lemma {:induction false} WarningListIs(hintAddr: nat, declared: nat, ms: seq<Insn>, lineBytes: nat, ws: seq<Warning>)
    requires declared >= 1 && lineBytes > 0 && InOrder(hintAddr, ms)
    ensures ws == Warnings(hintAddr, declared, ms, lineBytes)
            <==> WarnsSorted(ws) && forall w :: w in ws <==> Warranted(hintAddr, declared, ms, lineBytes, w)
  {
    var all := Warnings(hintAddr, declared, ms, lineBytes);
    WarningsSorted(hintAddr, declared, ms, lineBytes);
    forall w ensures w in all <==> Warranted(hintAddr, declared, ms, lineBytes, w) {
      WarningsWarranted(hintAddr, declared, ms, lineBytes, w);
    }
    if WarnsSorted(ws) && forall w :: w in ws <==> Warranted(hintAddr, declared, ms, lineBytes, w) {
      SortedWarningsUnique(ws, all);
    }
  }
}
