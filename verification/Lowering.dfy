/** From the hinted block to bytes and back: the assembly printer lays the block out, and the
    checker's scan recovers the packets. */
module Lowering {
  import opened Isa
  import opened Machine
  import opened Bundles
  import opened Checker
  import opened VliwConfig
  import opened Packets
  import opened Packing

  // ----- layout -----

  /** The words an item becomes; a hint becomes `c.li x0, n`. */
  function ItemCode(item: Item): seq<nat> {
    match item
    case Hint(n) => [HintWord(n)]
    case Instr(m) => m.code
  }

  function Code(items: seq<Item>): seq<nat> {
    if items == [] then [] else ItemCode(items[0]) + Code(items[1..])
  }

  function Bytes(code: seq<nat>): nat {
    if code == [] then 0 else Bytes(code[..|code| - 1]) + SizeOf(code[|code| - 1])
  }

  /** The words one after the other from `addr`. */
  function Layout(code: seq<nat>, addr: nat, func: string): (ls: seq<Line>)
    ensures |ls| == |code|
    ensures forall k :: 0 <= k < |ls| ==> ls[k] == Line(addr + Bytes(code[..k]), code[k], SizeOf(code[k]), func)
  {
    seq(|code|, k requires 0 <= k < |code| => Line(addr + Bytes(code[..k]), code[k], SizeOf(code[k]), func))
  }

  lemma {:induction false} CodeConcat(xs: seq<Item>, ys: seq<Item>)
    ensures Code(xs + ys) == Code(xs) + Code(ys)
    decreases |xs|
  {
    if xs == [] {
      assert xs + ys == ys;
    } else {
      assert (xs + ys)[1..] == xs[1..] + ys;
      CodeConcat(xs[1..], ys);
    }
  }

  lemma {:induction false} BytesConcat(xs: seq<nat>, ys: seq<nat>)
    ensures Bytes(xs + ys) == Bytes(xs) + Bytes(ys)
    decreases |ys|
  {
    if ys == [] {
      assert xs + ys == xs;
    } else {
      var n := |ys| - 1;
      assert (xs + ys)[..|xs + ys| - 1] == xs + ys[..n];
      BytesConcat(xs, ys[..n]);
    }
  }

  /** The bytes before the words of a slice. */
  lemma {:induction false} BytesSlice(code: seq<nat>, i: nat, j: nat, slice: seq<nat>, k: nat)
    requires i <= j <= |code| && code[i..j] == slice && k <= j - i
    ensures Bytes(code[..i + k]) == Bytes(code[..i]) + Bytes(slice[..k])
  {
    assert code[..i + k] == code[..i] + slice[..k];
    BytesConcat(code[..i], slice[..k]);
  }

  lemma {:induction false} BytesIncrease(code: seq<nat>, i: nat, j: nat)
    requires i < j <= |code|
    ensures Bytes(code[..i]) < Bytes(code[..j])
    ensures j == i + 1 ==> Bytes(code[..j]) == Bytes(code[..i]) + SizeOf(code[i])
    decreases j
  {
    assert code[..j][..j - 1] == code[..j - 1];
    if i < j - 1 {
      BytesIncrease(code, i, j - 1);
    }
  }

  /** Neighbours touch and addresses increase. */
  lemma {:induction false} LayoutAddresses(code: seq<nat>, addr: nat, func: string, i: nat, j: nat)
    requires i < j < |code|
    ensures var ls := Layout(code, addr, func);
            ls[i].addr < ls[j].addr && (j == i + 1 ==> ls[j].addr == ls[i].addr + ls[i].size)
  {
    BytesIncrease(code, i, j);
  }

  // ----- what the operands of an instruction say about its encoding -----

  /** LLVM's number for an architectural register; 0 is "no register". */
  function LlvmReg(r: Reg): nat {
    r + 1
  }

  /** The encoding is a complete 16- or 32-bit word and not a hint. */
  predicate PlainWord(w: nat) {
    HintLength(w).None? && (IsCompressed(w) ==> w < 0x1_0000)
  }

  /** The compiler marks what transfers control as a terminator or a call, and what touches the
      system as having side effects; inline assembly and pseudos may expand to anything. */
  predicate Flagged(m: MInstr, d: Insn) {
    && (d.cls in {Branch, Jump} ==> m.terminator || m.call || m.inlineAsm || m.pseudo)
    && (d.cls in {System, Unknown} ==> m.sideEffects || m.terminator || m.call || m.inlineAsm || m.pseudo)
  }

  /** So nothing the pass may packetize transfers control or touches the system. */
  lemma {:induction false} PacketizableStays(m: MInstr, d: Insn)
    requires Packetizable(m) && Flagged(m, d)
    ensures !Control(d)
  {
  }

  /** The operands, memory flags and class the compiler attaches to an instruction cover what the
      decoder sees in its encoding. */
  ghost predicate Covers(m: MInstr, d: Insn) {
    && (forall r :: r in d.srcs ==> LlvmReg(r) in Uses(m))
    && (forall r :: r in d.dsts ==> LlvmReg(r) in Defs(m))
    && (UsesLsu(d) ==> m.mayLoad || m.mayStore)
    && (d.cls == PcRel ==> ClassifyOpClass(m) !in ARITHMETIC)
  }

  /** No instruction is a hint, the flags tell what its encodings may do, and what may be packetized
      has one encoding, which it covers. */
  ghost predicate Faithful(m: MInstr) {
    && (forall w :: w in m.code ==> PlainWord(w) && Flagged(m, Decode(0, w)))
    && (Packetizable(m) ==> |m.code| == 1 && Covers(m, Decode(0, m.code[0])))
  }

  ghost predicate FaithfulBlock(ms: seq<MInstr>) {
    forall m :: m in ms ==> Faithful(m)
  }

  /** The instructions of a packet, laid out from `addr`. */
  function PacketLines(ms: seq<MInstr>, addr: nat, func: string): seq<Line> {
    Layout(Code(Instrs(ms)), addr, func)
  }

  lemma {:induction false} PacketCode(ms: seq<MInstr>)
    requires forall m :: m in ms ==> |m.code| == 1
    ensures |Code(Instrs(ms))| == |ms| && forall k :: 0 <= k < |ms| ==> Code(Instrs(ms))[k] == ms[k].code[0]
    decreases |ms|
  {
    if ms != [] {
      assert Instrs(ms)[1..] == Instrs(ms[1..]) && ms[0] in ms;
      PacketCode(ms[1..]);
    }
  }

  lemma {:induction false} Unrelated(rs: set<Reg>, qs: set<Reg>, rll: set<nat>, qll: set<nat>)
    requires (forall r :: r in rs ==> LlvmReg(r) in rll) && (forall r :: r in qs ==> LlvmReg(r) in qll)
    requires rll !! qll
    ensures rs !! qs
  {
    forall r | r in rs ensures r !in qs {
      assert LlvmReg(r) in rll;
    }
  }

  /** Compiler-level independence gives decoder-level independence in both directions. */
  lemma {:induction false} CoversPair(x: MInstr, y: MInstr, d: Insn, e: Insn)
    requires Covers(x, d) && Covers(y, e) && MayFollow(x, y)
    ensures !Raw(d, e) && !Waw(d, e) && !War(d, e)
  {
    Unrelated(d.dsts, e.srcs, Defs(x), Uses(y));
    Unrelated(d.dsts, e.dsts, Defs(x), Defs(y));
    Unrelated(d.srcs, e.dsts, Uses(x), Defs(y));
  }

  ghost predicate CoversAll(ms: seq<MInstr>, ds: seq<Insn>) {
    |ms| == |ds| && forall k :: 0 <= k < |ms| ==> Covers(ms[k], ds[k]) && Flagged(ms[k], ds[k])
  }

  /** The decoder's view of a legal packet: worker-legal, fully independent, no transfers. */
  ghost predicate PacketOk(ds: seq<Insn>) {
    WorkersOk(ds) && PairsOk(ds) && Independent(ds) && NoTransfers(ds)
  }

  lemma {:induction false} LegalIsOk(c: Config, ms: seq<MInstr>, ds: seq<Insn>)
    requires Standard(c) && Legal(c, ms) && CoversAll(ms, ds)
    ensures PacketOk(ds)
  {
    LaneIsPosition(c, ms);
    forall k | 0 < k < |ms| ensures Worker(ds[k]) {
      assert ClassAt(ms, k) in ARITHMETIC && Covers(ms[k], ds[k]) && ms[k] in ms;
      PacketizableStays(ms[k], ds[k]);
    }
    forall i, j | 0 <= i < j < |ms| ensures !Raw(ds[i], ds[j]) && !Waw(ds[i], ds[j]) && !War(ds[i], ds[j]) {
      assert MayFollow(ms[i], ms[j]);
      CoversPair(ms[i], ms[j], ds[i], ds[j]);
    }
    forall d | d in ds ensures !Control(d) {
      var k :| 0 <= k < |ds| && ds[k] == d;
      assert Covers(ms[k], ds[k]) && ms[k] in ms;
      PacketizableStays(ms[k], ds[k]);
    }
  }

  lemma {:induction false} DecodedCovers(m: MInstr, l: Line)
    requires Faithful(m) && Packetizable(m) && l.word == m.code[0]
    ensures Covers(m, DecodeLine(l)) && Flagged(m, DecodeLine(l))
  {
    DecodeAt(l.addr, l.word);
    var d := Decode(0, l.word);
    assert m.code[0] in m.code;
    assert Covers(m, d) && Flagged(m, d) && DecodeLine(l) == d.(addr := l.addr);
  }

  /** A legal packet decodes to more than the checker asks for, whatever its length. */
  lemma {:induction false} PacketIndependent(c: Config, ms: seq<MInstr>, addr: nat, func: string)
    requires Standard(c) && Legal(c, ms) && FaithfulBlock(ms)
    ensures var ds := DecodeLines(PacketLines(ms, addr, func)); |ds| == |ms| && PacketOk(ds)
  {
    var ls := PacketLines(ms, addr, func);
    forall m | m in ms ensures |m.code| == 1 { assert Packetizable(m) && Faithful(m); }
    PacketCode(ms);
    var ds := DecodeLines(ls);
    forall k | 0 <= k < |ms| ensures Covers(ms[k], ds[k]) && Flagged(ms[k], ds[k]) {
      assert ms[k] in ms;
      DecodedCovers(ms[k], ls[k]);
    }
    assert CoversAll(ms, ds);
    LegalIsOk(c, ms, ds);
  }

  /** Reordering freedom for what the packetizer packs. */
  lemma {:induction false} PacketMayBePermuted(sem: Semantics, c: Config, ms: seq<MInstr>, addr: nat, func: string,
                                               ps: seq<Insn>, a: Arch)
    requires Standard(c) && Legal(c, ms) && FaithfulBlock(ms)
    requires var ds := DecodeLines(PacketLines(ms, addr, func));
             multiset(ps) == multiset(ds) && AllFramed(sem, ds)
    ensures ExecAll(sem, ps, a) == ExecAll(sem, DecodeLines(PacketLines(ms, addr, func)), a)
  {
    PacketIndependent(c, ms, addr, func);
    PermutationSound(sem, DecodeLines(PacketLines(ms, addr, func)), ps, a);
  }
}
