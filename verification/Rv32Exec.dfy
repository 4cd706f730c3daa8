/** What each RV32IMAFC instruction does, and that it stays inside the decoder's read and write
    sets: the concrete semantics the theorems about bundles and runs apply to. */
module Rv32Exec {
  import opened Wrappers
  import opened Isa
  import opened Machine
  import opened Rv32

  const WORD := 0x1_0000_0000

  /** The parts the integer specification leaves open: floating-point results and raised flags
      (from the encoding, the operand values and the rounding mode), privileged instructions,
      and encodings that are not defined. */
  datatype Host = Host(fp: (nat, seq<int>, nat) -> (int, set<nat>),
                       priv: (nat, nat, Arch) -> Effect,
                       undefined: (nat, nat, Arch) -> Effect)

  /** A source operand; x0 reads as zero. */
  function X(a: Arch, r: Reg): int {
    if r == 0 then 0 else a.regs[r]
  }

  function Nothing(a: Arch): Effect {
    Effect(map[], a.mem, a.frm, Accrue({}), a.sys, None)
  }

  /** Writing x0 has no effect. */
  function WriteTo(rd: Reg, v: int): map<Reg, int> {
    if rd == 0 then map[] else map[rd := v]
  }

  function ToSigned(v: int): int {
    Signed(v % WORD, WORD)
  }

  function Pow2(n: nat): nat {
    if n == 0 then 1 else 2 * Pow2(n - 1)
  }

  datatype Bitwise = BitAnd | BitOr | BitXor

  /** The low `n` bits of a bitwise operation. */
  function BitOp(op: Bitwise, x: int, y: int, n: nat): nat
    decreases n
  {
    if n == 0 then 0
    else
      var p, q := x % 2 == 1, y % 2 == 1;
      var bit := match op case BitAnd => p && q case BitOr => p || q case BitXor => p != q;
      (if bit then 1 else 0) + 2 * BitOp(op, x / 2, y / 2, n - 1)
  }

  /** Shifts halve or double one bit at a time; `x` keeps its sign. */
  function ShiftRight(x: int, n: nat): int
    decreases n
  {
    if n == 0 then x else ShiftRight(x / 2, n - 1)
  }

  function AluResult(op: AluOp, x: int, y: int): int {
    match op
    case Add => (x + y) % WORD
    case Sub => (x - y) % WORD
    case Sll => x * Pow2(y % 32) % WORD
    case Slt => if ToSigned(x) < ToSigned(y) then 1 else 0
    case Sltu => if x % WORD < y % WORD then 1 else 0
    case Xor => BitOp(BitXor, x, y, 32)
    case Srl => ShiftRight(x % WORD, y % 32)
    case Sra => ShiftRight(ToSigned(x), y % 32) % WORD
    case Or => BitOp(BitOr, x, y, 32)
    case And => BitOp(BitAnd, x, y, 32)
  }

  /** Division that truncates toward zero. */
  function Quotient(x: int, y: int): int
    requires y != 0
  {
    if x >= 0 then x / y else -((-x) / y)
  }

  function MulDivResult(op: MulOp, x: int, y: int): int {
    var (sx, sy, ux, uy) := (ToSigned(x), ToSigned(y), x % WORD, y % WORD);
    match op
    case MulLow => x * y % WORD
    case MulHigh => sx * sy / WORD % WORD
    case MulHighSu => sx * uy / WORD % WORD
    case MulHighU => ux * uy / WORD % WORD
    case DivS => if sy == 0 then WORD - 1 else Quotient(sx, sy) % WORD
    case DivU => if uy == 0 then WORD - 1 else ux / uy
    case RemS => if sy == 0 then ux else (sx - sy * Quotient(sx, sy)) % WORD
    case RemU => if uy == 0 then ux else ux % uy
  }

  predicate Taken(c: Cond, x: int, y: int) {
    match c
    case Eq => x % WORD == y % WORD
    case Ne => x % WORD != y % WORD
    case Lt => ToSigned(x) < ToSigned(y)
    case Ge => ToSigned(x) >= ToSigned(y)
    case Ltu => x % WORD < y % WORD
    case Geu => x % WORD >= y % WORD
  }

  function Byte(mem: map<nat, nat>, a: nat): nat {
    if a in mem then mem[a] % 256 else 0
  }

  /** Little-endian, as section 2.6 has it. */
  function LoadBytes(mem: map<nat, nat>, a: nat, n: nat): nat
    decreases n
  {
    if n == 0 then 0 else Byte(mem, a) + 256 * LoadBytes(mem, (a + 1) % WORD, n - 1)
  }

  function StoreBytes(mem: map<nat, nat>, a: nat, v: int, n: nat): map<nat, nat>
    decreases n
  {
    if n == 0 then mem else StoreBytes(mem[a := v % 256], (a + 1) % WORD, v / 256, n - 1)
  }

  function Extend(v: nat, bytes: nat, signed: bool): int {
    if !signed then v
    else if bytes == 1 then Signed(v, 256) % WORD
    else if bytes == 2 then Signed(v, 65536) % WORD
    else v
  }

  /** What an atomic memory operation leaves in memory. */
  function AmoResult(op: AmoOp, was: int, src: int): int {
    match op
    case Lr => was
    case Sc => src
    case Swap => src
    case AmoAdd => (was + src) % WORD
    case AmoXor => BitOp(BitXor, was, src, 32)
    case AmoAnd => BitOp(BitAnd, was, src, 32)
    case AmoOr => BitOp(BitOr, was, src, 32)
    case Min => if ToSigned(was) < ToSigned(src) then was else src
    case Max => if ToSigned(was) < ToSigned(src) then src else was
    case MinU => if was % WORD < src % WORD then was else src
    case MaxU => if was % WORD < src % WORD then src else was
  }

  function AtomicEffect(op: AmoOp, rd: Reg, at: nat, src: int, a: Arch): Effect {
    var was := LoadBytes(a.mem, at, 4);
    match op
    case Lr => Nothing(a).(wb := WriteTo(rd, was), sys := a.sys.(reserved := Some(at)))
    case Sc =>
      var e := Nothing(a).(sys := a.sys.(reserved := None));
      if a.sys.reserved == Some(at)
      then e.(wb := WriteTo(rd, 0), mem := StoreBytes(a.mem, at, src, 4))
      else e.(wb := WriteTo(rd, 1))
    case _ => Nothing(a).(wb := WriteTo(rd, was), mem := StoreBytes(a.mem, at, AmoResult(op, was, src), 4))
  }

  function Operands(a: Arch, rs: seq<Reg>): seq<int> {
    seq(|rs|, i requires 0 <= i < |rs| => X(a, rs[i]))
  }

  /** The effect of instruction `op` at address `addr`, `len` bytes long. */
  function Exec(host: Host, op: Op, addr: nat, len: nat, a: Arch): Effect {
    var e := Nothing(a);
    match op
    case Lui(rd, imm) => e.(wb := WriteTo(rd, Value(imm) % WORD))
    case Auipc(rd, imm) => e.(wb := WriteTo(rd, (addr + Value(imm)) % WORD))
    case Jal(rd, off) => e.(wb := WriteTo(rd, (addr + len) % WORD), target := Some((addr + Value(off)) % WORD))
    case Jalr(rd, rs1, off) =>
      var t := (X(a, rs1) + Value(off)) % WORD;
      e.(wb := WriteTo(rd, (addr + len) % WORD), target := Some(t - t % 2))
    case CondBranch(c, rs1, rs2, off) =>
      if Taken(c, X(a, rs1), X(a, rs2)) then e.(target := Some((addr + Value(off)) % WORD)) else e
    case LoadOp(bytes, signed, rd, base, off) =>
      var v := LoadBytes(a.mem, (X(a, base) + Value(off)) % WORD, bytes);
      e.(wb := WriteTo(rd, Extend(v, bytes, signed)))
    case StoreOp(bytes, src, base, off) =>
      e.(mem := StoreBytes(a.mem, (X(a, base) + Value(off)) % WORD, X(a, src), bytes))
    case AluImm(f, rd, rs1, imm) => e.(wb := WriteTo(rd, AluResult(f, X(a, rs1), Value(imm))))
    case AluReg(f, rd, rs1, rs2) => e.(wb := WriteTo(rd, AluResult(f, X(a, rs1), X(a, rs2))))
    case MulDiv(f, rd, rs1, rs2) => e.(wb := WriteTo(rd, MulDivResult(f, X(a, rs1), X(a, rs2))))
    case AtomicOp(f, rd, rs1, rs2) => AtomicEffect(f, rd, X(a, rs1) % WORD, X(a, rs2), a)
    case FpArith(code, rd, operands, _) =>
      var r := host.fp(code, Operands(a, operands), a.frm);
      e.(wb := WriteTo(rd, r.0), flags := Accrue(r.1))
    case Priv(code) => host.priv(code, addr, a)
  }

  /** RV32IMAFC as a semantics for decoded instructions; only the encoding is used. */
  function Rv32Semantics(host: Host): Semantics {
    (m: Insn, a: Arch) =>
      match Parse(m.word)
      case None => host.undefined(m.word, m.addr, a)
      case Some(op) => Exec(host, op, m.addr, m.size, a)
  }

  // ----- frames -----

  /** Only destinations change; what else may change depends on the class alone. */
  lemma {:induction false} ExecShape(host: Host, op: Op, addr: nat, len: nat, a: Arch)
    requires !op.Priv?
    ensures var e := Exec(host, op, addr, len, a);
            && e.wb.Keys <= Dests(op) - {0} && e.frm == a.frm && e.flags.Accrue?
            && (e.target.Some? ==> ClassOf(op) in {Branch, Jump})
            && (ClassOf(op) !in {Store, Atomic} ==> e.mem == a.mem)
            && (ClassOf(op) != Atomic ==> e.sys == a.sys)
            && (ClassOf(op) !in {Fpu, FpDiv} ==> e.flags == Accrue({}))
  {
  }

  ghost predicate SameSources(op: Op, a: Arch, b: Arch) {
    forall r :: r in Sources(op) ==> X(a, r) == X(b, r)
  }

  lemma {:induction false} SameOperands(rs: seq<Reg>, a: Arch, b: Arch)
    requires forall r :: r in rs ==> X(a, r) == X(b, r)
    ensures Operands(a, rs) == Operands(b, rs)
  {
    forall i | 0 <= i < |rs| ensures Operands(a, rs)[i] == Operands(b, rs)[i] {
      assert rs[i] in rs;
    }
  }

  /** Arithmetic depends on its source registers and the rounding mode, and not on its address. */
  lemma {:induction false} ArithmeticDependsOnSources(host: Host, op: Op, addr: nat, addr': nat, len: nat, a: Arch,
                                                      b: Arch)
    requires ClassOf(op) in {Alu, Mul, Fpu, FpDiv} && SameSources(op, a, b) && a.frm == b.frm
    ensures var e, f := Exec(host, op, addr, len, a), Exec(host, op, addr', len, b);
            e.wb == f.wb && e.flags == f.flags
  {
    match op {
      case AluImm(_, _, rs1, _) => assert rs1 in Sources(op);
      case AluReg(_, _, rs1, rs2) => assert rs1 in Sources(op) && rs2 in Sources(op);
      case MulDiv(_, _, rs1, rs2) => assert rs1 in Sources(op) && rs2 in Sources(op);
      case FpArith(_, _, operands, _) =>
        assert forall r :: r in operands ==> r in Sources(op);
        SameOperands(operands, a, b);
      case _ =>
    }
  }

  lemma {:induction false} AtomicDependsOnMemory(amo: AmoOp, rd: Reg, at: nat, src: int, a: Arch, b: Arch)
    requires a.mem == b.mem && a.sys == b.sys
    ensures var e, f := AtomicEffect(amo, rd, at, src, a), AtomicEffect(amo, rd, at, src, b);
            e.wb == f.wb && e.mem == f.mem && e.sys == f.sys && e.flags == f.flags
  {
  }

  /** Memory operations depend on their source registers, memory and the reservation. */
  lemma {:induction false} MemoryDependsOnSources(host: Host, op: Op, addr: nat, len: nat, a: Arch, b: Arch)
    requires ClassOf(op) in {Load, Store, Atomic, PcRel}
    requires SameSources(op, a, b) && a.mem == b.mem && a.sys == b.sys
    ensures var e, f := Exec(host, op, addr, len, a), Exec(host, op, addr, len, b);
            e.wb == f.wb && e.mem == f.mem && e.sys == f.sys && e.flags == f.flags
  {
    match op {
      case LoadOp(_, _, _, base, _) => assert base in Sources(op);
      case StoreOp(_, src, base, _) => assert src in Sources(op) && base in Sources(op);
      case AtomicOp(amo, rd, rs1, rs2) =>
        assert rs1 in Sources(op) && rs2 in Sources(op);
        AtomicDependsOnMemory(amo, rd, X(a, rs1) % WORD, X(a, rs2), a, b);
      case _ =>
    }
  }

  /** Executed where the decoder puts it, and with any other pc, the instruction is `op`. */
  ghost predicate Executes(host: Host, m: Insn, op: Op) {
    forall d, a :: Rv32Semantics(host)(m.(addr := d), a) == Exec(host, op, d, m.size, a)
  }

  lemma {:induction false} WordExecutes(host: Host, m: Insn, op: Op)
    requires Parse(m.word) == Some(op)
    ensures Executes(host, m, op)
  {
  }

  lemma {:induction false} ExecutesHere(host: Host, m: Insn, op: Op, a: Arch)
    requires Executes(host, m, op)
    ensures Rv32Semantics(host)(m, a) == Exec(host, op, m.addr, m.size, a)
  {
    assert m.(addr := m.addr) == m;
  }

  lemma {:induction false} SameSourcesOf(m: Insn, op: Op, a: Arch, b: Arch)
    requires Names(m, op) && !op.Priv? && Agree(m.srcs, a, b)
    ensures SameSources(op, a, b)
  {
  }

  lemma {:induction false} ArithmeticFramed(host: Host, m: Insn, op: Op)
    requires Executes(host, m, op) && Names(m, op) && !op.Priv? && Worker(m)
    ensures WorkerFramed(Rv32Semantics(host), m)
  {
    var sem := Rv32Semantics(host);
    forall a ensures sem(m, a) == Exec(host, op, m.addr, m.size, a) {
      ExecutesHere(host, m, op, a);
      ExecShape(host, op, m.addr, m.size, a);
    }
    forall a { ExecShape(host, op, m.addr, m.size, a); }
    forall a, b | Agree(m.srcs, a, b) && a.frm == b.frm
      ensures sem(m, a).wb == sem(m, b).wb && sem(m, a).flags == sem(m, b).flags
    {
      SameSourcesOf(m, op, a, b);
      ArithmeticDependsOnSources(host, op, m.addr, m.addr, m.size, a, b);
    }
    forall d, a ensures sem(m.(addr := d), a).wb == sem(m, a).wb && sem(m.(addr := d), a).flags == sem(m, a).flags {
      ArithmeticDependsOnSources(host, op, d, m.addr, m.size, a, a);
    }
  }

  lemma {:induction false} AuipcFramed(host: Host, m: Insn, op: Op)
    requires Executes(host, m, op) && Names(m, op) && m.cls == PcRel
    ensures PcRelFramed(Rv32Semantics(host), m)
  {
    var sem := Rv32Semantics(host);
    assert op.Auipc?;
    forall d, a
      ensures var e := sem(m.(addr := d), a);
              && e.wb.Keys <= m.dsts && e.mem == a.mem && e.frm == a.frm && e.sys == a.sys
              && e.flags == Accrue({}) && e.target.None?
    {
      ExecShape(host, op, d, m.size, a);
    }
    forall a, b | Agree(m.srcs, a, b) ensures sem(m, a).wb == sem(m, b).wb {
      ExecutesHere(host, m, op, a);
      ExecutesHere(host, m, op, b);
    }
  }

  lemma {:induction false} TransfersFramed(host: Host, m: Insn, op: Op)
    requires Executes(host, m, op) && Names(m, op) && m.cls in {Branch, Jump}
    ensures TransferFramed(Rv32Semantics(host), m)
  {
    forall a
      ensures var e := Rv32Semantics(host)(m, a);
              e.wb.Keys <= m.dsts && e.mem == a.mem && e.frm == a.frm && e.sys == a.sys && e.flags == Accrue({})
    {
      ExecutesHere(host, m, op, a);
      ExecShape(host, op, m.addr, m.size, a);
    }
  }

  lemma {:induction false} LoadsAndStoresFramed(host: Host, m: Insn, op: Op)
    requires Executes(host, m, op) && Names(m, op) && m.cls in {Load, Store, Atomic}
    ensures MemoryFramed(Rv32Semantics(host), m)
  {
    var sem := Rv32Semantics(host);
    forall a
      ensures var e := sem(m, a); e.wb.Keys <= m.dsts && e.frm == a.frm && e.flags.Accrue? && e.target.None?
    {
      ExecutesHere(host, m, op, a);
      ExecShape(host, op, m.addr, m.size, a);
    }
    forall a, b | Agree(m.srcs, a, b) && a.mem == b.mem && a.sys == b.sys
      ensures var e, f := sem(m, a), sem(m, b);
              e.wb == f.wb && e.mem == f.mem && e.sys == f.sys && e.flags == f.flags
    {
      ExecutesHere(host, m, op, a);
      ExecutesHere(host, m, op, b);
      SameSourcesOf(m, op, a, b);
      MemoryDependsOnSources(host, op, m.addr, m.size, a, b);
    }
  }

  /** The decoder may be trusted: every defined instruction changes only the registers the
      decoder says it writes, and depends only on those it says it reads. */
  lemma {:induction false} DecoderFrameSound(host: Host, addr: nat, w: nat)
    requires Parse(w).Some? && (w % 4 != 3 ==> w < 65536)
    ensures Framed(Rv32Semantics(host), Decode(addr, w))
  {
    var m, op := Decode(addr, w), Parse(w).value;
    DecodeExact(addr, w);
    DecodeKeepsWord(addr, w);
    WordExecutes(host, m, op);
    if op.Priv? {
    } else if Worker(m) {
      ArithmeticFramed(host, m, op);
    } else if m.cls in {Branch, Jump} {
      TransfersFramed(host, m, op);
    } else if m.cls == PcRel {
      AuipcFramed(host, m, op);
    } else {
      LoadsAndStoresFramed(host, m, op);
    }
  }

  // ----- words the ISA does not define -----

  /** The word is defined, or is given a class of which nothing is expected. */
  predicate Trusted(w: nat) {
    Parse(w).Some? || Decode(0, w).cls in {System, Unknown}
  }

  lemma {:induction false} OneDest(addr: nat, w: nat)
    ensures forall q, r :: q in Decode(addr, w).dsts && r in Decode(addr, w).dsts ==> q == r
  {
  }

  /** A register the decoder does not say the word writes. */
  function Spare(w: nat): (r: Reg)
    ensures r !in Decode(0, w).dsts && r != 0
  {
    OneDest(0, w);
    if 1 in Decode(0, w).dsts then 2 else 1
  }

  /** A machine on which reserved and illegal words write such a register. */
  function Careless(): Host {
    Host((code: nat, operands: seq<int>, frm: nat) => (0, {}),
         (code: nat, addr: nat, a: Arch) => Nothing(a),
         (w: nat, addr: nat, a: Arch) => Nothing(a).(wb := map[Spare(w) := 1]))
  }

  lemma {:induction false} UntrustedIsUnframed(addr: nat, w: nat)
    requires !Trusted(w) && (w % 4 != 3 ==> w < 65536)
    ensures !Framed(Rv32Semantics(Careless()), Decode(addr, w))
  {
    var m, sem := Decode(addr, w), Rv32Semantics(Careless());
    DecodeAt(addr, w);
    DecodeKeepsWord(addr, w);
    assert m.(addr := m.addr) == m;
    assert sem(m, RESET) == Careless().undefined(w, m.addr, RESET);
    assert Spare(w) in sem(m, RESET).wb.Keys && Spare(w) !in m.dsts;
    assert !(sem(m, RESET).wb.Keys <= m.dsts);
  }

  /** Decoder frame soundness, exactly: the decoder's sets hold on every machine if and only if the
      word is defined or classed SYSTEM or UNKNOWN. */
  lemma {:induction false} DecoderFrameExact(addr: nat, w: nat)
    requires w % 4 != 3 ==> w < 65536
    ensures (forall host :: Framed(Rv32Semantics(host), Decode(addr, w))) <==> Trusted(w)
  {
    if Parse(w).Some? {
      forall host ensures Framed(Rv32Semantics(host), Decode(addr, w)) { DecoderFrameSound(host, addr, w); }
    } else if Trusted(w) {
      DecodeAt(addr, w);
    } else {
      UntrustedIsUnframed(addr, w);
    }
  }

  const RESERVED_SLLI := 0x4002_9293  // slli x5, x5, 0 with a reserved funct7

  lemma {:induction false} OpImmDecode(addr: nat, w: nat)
    requires w % 128 == 0x13 && !IsCompressed(w)
    ensures Decode(addr, w) == NewInsn(addr, w, 4, Alu, {Rs1(w)}, {Rd(w)})
  {
  }

  lemma {:induction false} ReservedShiftParse(w: nat)
    requires w == RESERVED_SLLI
    ensures Parse(w).None?
  {
    assert w % 4 == 3 && w % 128 == 19 && w / 4096 % 8 == 1 && w / 33554432 % 128 == 32;
    assert Parse(w) == Parse32(w) == ParseOpImm(w, 1, 32, X5(w, 128), X5(w, 32768));
  }

  lemma {:induction false} ReservedFields()
    ensures var w := RESERVED_SLLI; w % 128 == 0x13 && Rd(w) == 5 && Rs1(w) == 5 && !IsCompressed(w)
  {
  }

  lemma {:induction false} ReservedShiftIsAlu(addr: nat)
    ensures Parse(RESERVED_SLLI).None? && Decode(addr, RESERVED_SLLI) == Insn(addr, RESERVED_SLLI, 4, Alu, {5}, {5})
  {
    ReservedShiftParse(RESERVED_SLLI);
    ReservedFields();
    OpImmDecode(addr, RESERVED_SLLI);
    assert {5} - {0} == {5 as Reg};
  }

  /** A reserved word the decoder takes for ordinary arithmetic. */
  lemma {:induction false} ReservedShiftIsUnframed(addr: nat)
    ensures Parse(RESERVED_SLLI).None? && Decode(addr, RESERVED_SLLI) == Insn(addr, RESERVED_SLLI, 4, Alu, {5}, {5})
    ensures !Framed(Rv32Semantics(Careless()), Decode(addr, RESERVED_SLLI))
  {
    ReservedShiftIsAlu(addr);
    ReservedShiftIsAlu(0);
    UntrustedIsUnframed(addr, RESERVED_SLLI);
  }
}
