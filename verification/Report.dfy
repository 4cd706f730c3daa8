/** The checker's report and what it is worth: a clean report, with the conditions the checker
    does not test, makes every run on RV32IMAFC safe; without them it does not. */
module Report {
  import opened Wrappers
  import opened Isa
  import opened Machine
  import opened Bundles
  import opened Checker
  import opened Tight
  import opened Run
  import opened Exact
  import opened Rv32
  import opened Rv32Exec

  /** The program a listing denotes. The hardware recognises a hint by its encoding. */
  function ProgramOf(lines: seq<Line>): (p: Program)
    ensures |p| == |lines|
    ensures forall i :: 0 <= i < |p| ==> p[i].insn == DecodeLine(lines[i]) && p[i].hint == HintLength(lines[i].word)
  {
    seq(|lines|, i requires 0 <= i < |lines| => Cell(DecodeLine(lines[i]), HintLength(lines[i].word)))
  }

  /** A well-formed listing: increasing addresses, and sizes that match the encodings. */
  ghost predicate WellFormed(lines: seq<Line>) {
    && (forall i, j :: 0 <= i < j < |lines| ==> lines[i].addr < lines[j].addr)
    && (forall i :: 0 <= i < |lines| ==> lines[i].size == SizeOf(lines[i].word))
    && (forall i :: 0 <= i < |lines| && lines[i].size == 2 ==> lines[i].word < 65536)
  }

  lemma {:induction false} ProgramShape(lines: seq<Line>)
    requires WellFormed(lines)
    ensures var p := ProgramOf(lines);
            Sorted(p) && HintsAreNops(p) && forall i :: 0 <= i < |p| ==> p[i].hint == HintAt(lines[i])
  {
    var p := ProgramOf(lines);
    forall i | 0 <= i < |p|
      ensures p[i].insn.addr == lines[i].addr
      ensures p[i].hint == HintAt(lines[i])
      ensures p[i].hint.Some? ==> p[i].insn.cls == Alu && p[i].insn.srcs == {} && p[i].insn.dsts == {}
    {
      DecodeKeepsPlace(lines[i].addr, lines[i].word);
      if p[i].hint.Some? { HintDecodesAsNop(lines[i].addr, lines[i].word); }
    }
  }

  lemma {:induction false} FormingWords(w: nat)
    requires w < 65536
    ensures (exists n: nat :: n <= 4 && HintLength(w) == Some(n)) <==> w in {0x4005, 0x4009, 0x400D, 0x4011}
  {
    if n: nat :| n <= 4 && HintLength(w) == Some(n) { HintLengthExact(w, n); }
    if w in {0x4005, 0x4009, 0x400D, 0x4011} { HintLengthExact(w, (w - 0x4001) / 4); }
  }

  /** In a listing the hardware forms bundles at four encodings, `c.li x0, 1` to `c.li x0, 4`, and takes the
      immediate as the length. */
  lemma {:induction false} FormsExactly(lines: seq<Line>, i: nat)
    requires WellFormed(lines) && i < |lines|
    ensures var p := ProgramOf(lines);
            && (Forms(p, i) <==> lines[i].word in {0x4005, 0x4009, 0x400D, 0x4011})
            && (Forms(p, i) ==> lines[i].word == 0x4001 + 4 * Len(p, i))
  {
    var w := lines[i].word;
    if w < 65536 {
      FormingWords(w);
      if HintLength(w).Some? { HintLengthExact(w, HintLength(w).value); }
    }
  }

  /** The part of the side conditions that concerns the bundle at `i`. */
  ghost predicate UntestedOk(p: Program, i: nat)
    requires i < |p| && Forms(p, i)
  {
    i + Len(p, i) < |p| ==>
      Adjacent(p, i, Len(p, i)) && (Len(p, i) >= 2 ==> !Control(p[i + 1].insn))
  }

  /** What the checker does not test: hints nested in bundles, a transfer in lane 0 of a bundle of
      two or more, and members that are not adjacent in memory. */
  ghost predicate SideConditions(lines: seq<Line>) {
    var p := ProgramOf(lines);
    && NoNestedHints(lines)
    && forall i :: 0 <= i < |p| && Forms(p, i) ==> UntestedOk(p, i)
  }

  lemma {:induction false} MembersAgree(lines: seq<Line>, i: nat, n: nat)
    requires i + n < |lines|
    ensures MembersAt(ProgramOf(lines), i, n) == DecodeLines(lines[i + 1..i + 1 + n])
  {
  }

  lemma {:induction false} AcceptedHintIsSafe(p: Program, i: nat)
    requires i < |p| && Forms(p, i) && UntestedOk(p, i)
    requires i + Len(p, i) < |p| && Accepted(Len(p, i), MembersAt(p, i, Len(p, i)))
    ensures HintSafe(p, i)
  {
    assert Len(p, i) >= 1 ==> MembersAt(p, i, Len(p, i))[0] == p[i + 1].insn;
  }

  lemma {:induction false} CleanHintIsWhole(lines: seq<Line>, i: nat, n: nat)
    requires AllSafe(Scan(lines, 0)) && i < |lines| && HintAt(lines[i]) == Some(n) && !Inside(Scan(lines, 0), i)
    ensures i + n < |lines| && Accepted(n, DecodeLines(lines[i + 1..i + 1 + n]))
  {
    CleanHintsAreWhole(lines, i);
  }

  lemma {:induction false} CleanHintIsAccepted(lines: seq<Line>, i: nat, n: nat, ms: seq<Insn>)
    requires AllSafe(Scan(lines, 0)) && NoNestedHints(lines)
    requires i < |lines| && HintAt(lines[i]) == Some(n)
    requires i + n < |lines| ==> ms == DecodeLines(lines[i + 1..i + 1 + n])
    ensures i + n < |lines| && Accepted(n, ms)
  {
    assert !Inside(Scan(lines, 0), i);
    CleanHintIsWhole(lines, i, n);
  }

  /** A clean report is enough once the side conditions hold. */
  lemma {:induction false} CleanReportIsSafe(lines: seq<Line>)
    requires WellFormed(lines) && AllSafe(Scan(lines, 0)) && SideConditions(lines)
    ensures ProgramSafe(ProgramOf(lines))
  {
    var p := ProgramOf(lines);
    ProgramShape(lines);
    forall i | 0 <= i < |p| && Forms(p, i)
      ensures HintSafe(p, i)
    {
      assert p[i].hint == HintAt(lines[i]);
      var n := Len(p, i);
      if i + n < |p| { MembersAgree(lines, i, n); }
      CleanHintIsAccepted(lines, i, n, if i + n < |p| then MembersAt(p, i, n) else []);
      AcceptedHintIsSafe(p, i);
    }
  }

  // ----- exactly when a listing is safe -----

  lemma {:induction false} LineKeepsWord(lines: seq<Line>, i: nat)
    requires WellFormed(lines) && i < |lines|
    ensures var m := DecodeLine(lines[i]);
            m.word == lines[i].word && m.size > 0 && m == Decode(0, lines[i].word).(addr := m.addr)
  {
    DecodeKeepsWord(lines[i].addr, lines[i].word);
    DecodeKeepsPlace(lines[i].addr, lines[i].word);
    DecodeAt(lines[i].addr, lines[i].word);
  }

  lemma {:induction false} ListingIsProper(lines: seq<Line>)
    requires WellFormed(lines)
    ensures Proper(ProgramOf(lines))
  {
    var p := ProgramOf(lines);
    ProgramShape(lines);
    forall c | c in p ensures c.insn.size > 0 && (c.insn.cls == PcRel ==> c.insn.srcs == {}) {
      var i :| 0 <= i < |p| && p[i] == c;
      LineKeepsWord(lines, i);
      if c.insn.cls == PcRel { PcRelReadsNothing(lines[i].addr, lines[i].word); }
    }
    forall c, d | c in p && d in p && c.insn.word == d.insn.word ensures Twins(c.insn, d.insn) {
      var i :| 0 <= i < |p| && p[i] == c;
      var j :| 0 <= j < |p| && p[j] == d;
      LineKeepsWord(lines, i);
      LineKeepsWord(lines, j);
    }
  }

  /** The exact condition, computed from any listing, under which whatever the hardware honours is
      what the stock core does. */
  lemma {:induction false} ListingRefinesExactly(lines: seq<Line>)
    requires WellFormed(lines)
    ensures AlwaysRefines(ProgramOf(lines)) <==> HintsExact(ProgramOf(lines))
  {
    ListingIsProper(lines);
    RefinesExactly(ProgramOf(lines));
  }

  /** What a clean report leaves open at the hint `i`: whether its members are adjacent, whether a
      transfer or system instruction heads workers that do something, and, for a hint that was
      swallowed as a member and never judged, everything. */
  ghost predicate OpenOk(lines: seq<Line>, i: nat)
    requires i < |lines| && Forms(ProgramOf(lines), i)
  {
    var p := ProgramOf(lines);
    var n := Len(p, i);
    && Adjacent(p, i, n)
    && (Control(p[i + 1].insn) ==> NopWorkers(MembersAt(p, i, n)))
    && (Inside(Scan(lines, 0), i) ==> SoundRules(MembersAt(p, i, n)))
  }

  ghost predicate NothingOpen(lines: seq<Line>) {
    forall i :: 0 <= i < |lines| && Forms(ProgramOf(lines), i) ==> OpenOk(lines, i)
  }

  /** At a hint that was judged and passed, the rules come down to what lane 0 holds. */
  lemma {:induction false} JudgedHint(lines: seq<Line>, i: nat, n: nat, ms: seq<Insn>)
    requires WellFormed(lines) && AllSafe(Scan(lines, 0)) && !Inside(Scan(lines, 0), i)
    requires i < |lines| && HintAt(lines[i]) == Some(n) && n >= 1 && i + n < |lines|
    requires ms == DecodeLines(lines[i + 1..i + 1 + n])
    ensures SoundRules(ms) <==> (Control(ms[0]) ==> NopWorkers(ms))
  {
    CleanHintIsWhole(lines, i, n);
    assert WorkersOk(ms) && PairsOk(ms);
    assert PairsSound(ms);
  }

  lemma {:induction false} OpenIsExact(lines: seq<Line>, i: nat)
    requires WellFormed(lines) && AllSafe(Scan(lines, 0)) && i < |lines| && Forms(ProgramOf(lines), i)
    ensures HintExact(ProgramOf(lines), i) <==> OpenOk(lines, i)
  {
    var p := ProgramOf(lines);
    var n := Len(p, i);
    assert p[i].hint == HintAt(lines[i]) by { ProgramShape(lines); }
    if Adjacent(p, i, n) && !Inside(Scan(lines, 0), i) {
      MembersAgree(lines, i, n);
      JudgedHint(lines, i, n, MembersAt(p, i, n));
    }
  }

  /** A clean report is worth a refinement if and only if nothing it leaves open goes wrong. */
  lemma {:induction false} CleanReportExact(lines: seq<Line>)
    requires WellFormed(lines) && AllSafe(Scan(lines, 0))
    ensures AlwaysRefines(ProgramOf(lines)) <==> NothingOpen(lines)
  {
    ListingRefinesExactly(lines);
    forall i | 0 <= i < |lines| && Forms(ProgramOf(lines), i)
      ensures HintExact(ProgramOf(lines), i) <==> OpenOk(lines, i)
    {
      OpenIsExact(lines, i);
    }
  }

  lemma {:induction false} BundleMembers(lines: seq<Line>, f: Found)
    requires FromLines(lines, f)
    ensures f.head + |f.members| < |lines| && f.members == MembersAt(ProgramOf(lines), f.head, |f.members|)
  {
    MembersAgree(lines, f.head, |f.members|);
  }

  /** A bundle of a listing that is always right: the checker passes it unless it is stricter than it
      need be. */
  lemma {:induction false} ExactBundle(lines: seq<Line>, f: Found)
    requires WellFormed(lines) && HintsExact(ProgramOf(lines)) && FromLines(lines, f) && f.declared <= MAX_BUNDLE
    ensures FoundSafe(f) <==> !TwinWaw(f.members) && !IdlePcRel(f.members)
  {
    var p, n := ProgramOf(lines), f.declared;
    ProgramShape(lines);
    assert p[f.head].hint == HintAt(lines[f.head]);
    assert n >= 1;
    assert Forms(p, f.head) && Len(p, f.head) == n;
    assert HintExact(p, f.head);
    BundleMembers(lines, f);
    StricterThanNeeded(n, f.members);
    SafeIffAccepted(n, f.members);
  }

  lemma {:induction false} OverlongBundle(f: Found)
    requires f.declared > MAX_BUNDLE
    ensures Errors(f.declared, f.members) == [TooLong(f.declared)] && !FoundSafe(f)
  {
  }

  /** Where every hint is always right, the report has an unsafe bundle exactly when a hint is longer
      than four, which the hardware does not honour, when two equal words in a bundle write one
      register, or when an AUIPC in a worker lane writes none. */
  lemma {:induction false} NeedlessErrorsExact(lines: seq<Line>)
    requires WellFormed(lines) && AlwaysRefines(ProgramOf(lines))
    ensures AllSafe(Scan(lines, 0)) <==>
            forall f :: f in Scan(lines, 0) ==>
              f.declared <= MAX_BUNDLE && !TwinWaw(f.members) && !IdlePcRel(f.members)
  {
    ListingRefinesExactly(lines);
    forall f | f in Scan(lines, 0)
      ensures FoundSafe(f) <==> f.declared <= MAX_BUNDLE && !TwinWaw(f.members) && !IdlePcRel(f.members)
    {
      assert FromLines(lines, f) by { ScanPartitions(lines, 0); }
      if f.declared <= MAX_BUNDLE { ExactBundle(lines, f); } else { OverlongBundle(f); }
    }
  }

  /** The side conditions are one way of leaving nothing open. */
  lemma {:induction false} SideConditionsSuffice(lines: seq<Line>)
    requires WellFormed(lines) && AllSafe(Scan(lines, 0)) && SideConditions(lines)
    ensures NothingOpen(lines)
  {
    var p := ProgramOf(lines);
    ProgramShape(lines);
    CleanReportIsSafe(lines);
    forall i | 0 <= i < |lines| && Forms(p, i) ensures OpenOk(lines, i) {
      assert HintSafe(p, i) && HintAt(lines[i]).Some?;
    }
  }

  // ----- RV32IMAFC -----

  /** No word of the program is reserved or illegal, but for those classed SYSTEM or UNKNOWN. */
  ghost predicate Defined(lines: seq<Line>) {
    forall l :: l in lines ==> Trusted(l.word)
  }

  lemma {:induction false} ListingFramed(host: Host, lines: seq<Line>)
    requires WellFormed(lines) && Defined(lines)
    ensures ProgramFramed(Rv32Semantics(host), ProgramOf(lines))
  {
    var p := ProgramOf(lines);
    forall c | c in p ensures Framed(Rv32Semantics(host), c.insn) {
      var i :| 0 <= i < |p| && p[i] == c;
      assert lines[i] in lines;
      DecoderFrameExact(lines[i].addr, lines[i].word);
    }
  }

  /** The decoder's sets hold of a listing on every machine if and only if it is so defined. */
  lemma {:induction false} ListingFramedExactly(lines: seq<Line>)
    requires WellFormed(lines)
    ensures (forall host :: ProgramFramed(Rv32Semantics(host), ProgramOf(lines))) <==> Defined(lines)
  {
    var p := ProgramOf(lines);
    if Defined(lines) {
      forall host ensures ProgramFramed(Rv32Semantics(host), p) { ListingFramed(host, lines); }
    } else {
      var l :| l in lines && !Trusted(l.word);
      var i :| 0 <= i < |lines| && lines[i] == l;
      UntrustedIsUnframed(lines[i].addr, lines[i].word);
      assert p[i] in p;
    }
  }

  lemma {:induction false} OpenIsExactEverywhere(lines: seq<Line>)
    requires WellFormed(lines) && AllSafe(Scan(lines, 0)) && NothingOpen(lines)
    ensures HintsExact(ProgramOf(lines))
  {
    CleanReportExact(lines);
    ListingRefinesExactly(lines);
  }

  /** The checker's promise, with nothing left abstract but floating point and privilege: on a
      listing it passes and in which nothing it leaves open goes wrong, whatever hints the hardware
      honours, RV32IMAFC is what executes. */
  lemma {:induction false} CleanReportRefines(host: Host, lines: seq<Line>, tr: seq<State>, k: nat, t: State)
      returns (j: nat, rest: nat)
    requires WellFormed(lines) && Defined(lines) && AllSafe(Scan(lines, 0)) && NothingOpen(lines)
    requires StarbugRun(Rv32Semantics(host), ProgramOf(lines), tr)
    ensures var sem, p, last := Rv32Semantics(host), ProgramOf(lines), tr[|tr| - 1];
            && j >= |tr| - 1 && Reaches(sem, p, tr[0], j, last)
            && (Reaches(sem, p, tr[0], k, t) && Halted(p, t) ==>
                  && |tr| - 1 <= k && Reaches(sem, p, last, rest, t)
                  && (Halted(p, last) ==> last == t))
  {
    var sem, p := Rv32Semantics(host), ProgramOf(lines);
    assert HintsExact(p) by { OpenIsExactEverywhere(lines); }
    ListingFramed(host, lines);
    ProgramShape(lines);
    j := ExactRunRefines(sem, p, tr);
    rest := 0;
    if Reaches(sem, p, tr[0], k, t) && Halted(p, t) {
      rest := ExactRunsAgree(sem, p, tr, k, t);
    }
  }
}
