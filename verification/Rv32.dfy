/** RV32IMAFC as the RISC-V Unprivileged ISA specification (20191213) defines it, written
    independently of the decoder: instruction formats of section 2.2, the integer instructions of
    sections 2.4 to 2.6, chapter 7 (M), chapter 8 (A), chapter 11 (F) and the compressed
    encodings of section 16.8. Floating-point results and privileged instructions are
    parameters. */
module Rv32 {
  import opened Wrappers
  import opened Isa
  import opened Machine

  datatype AluOp = Add | Sub | Sll | Slt | Sltu | Xor | Srl | Sra | Or | And
  datatype MulOp = MulLow | MulHigh | MulHighSu | MulHighU | DivS | DivU | RemS | RemU
  datatype Cond = Eq | Ne | Lt | Ge | Ltu | Geu
  datatype AmoOp = Lr | Sc | Swap | AmoAdd | AmoXor | AmoAnd | AmoOr | Min | Max | MinU | MaxU

  /** An immediate, by the format it is encoded in; `w` is the whole instruction word. */
  datatype Imm =
    | ImmI(w: nat) | ImmS(w: nat) | ImmB(w: nat) | ImmU(w: nat) | ImmJ(w: nat)
    | Shamt(w: nat) | ImmCI(w: nat) | ImmCLui(w: nat) | ShamtC(w: nat) | ImmCIW(w: nat)
    | ImmCLW(w: nat) | ImmCLD(w: nat) | ImmLwsp(w: nat) | ImmLdsp(w: nat)
    | ImmSwsp(w: nat) | ImmSdsp(w: nat) | ImmSp16(w: nat) | ImmCJ(w: nat) | ImmCB(w: nat)
    | Zero

  /** An instruction with its operands. f-registers are numbered from 32. */
  datatype Op =
    | Lui(rd: Reg, imm: Imm)
    | Auipc(rd: Reg, imm: Imm)
    | Jal(rd: Reg, off: Imm)
    | Jalr(rd: Reg, rs1: Reg, off: Imm)
    | CondBranch(cond: Cond, rs1: Reg, rs2: Reg, off: Imm)
    | LoadOp(bytes: nat, signed: bool, rd: Reg, base: Reg, off: Imm)
    | StoreOp(bytes: nat, src: Reg, base: Reg, off: Imm)
    | AluImm(op: AluOp, rd: Reg, rs1: Reg, imm: Imm)
    | AluReg(op: AluOp, rd: Reg, rs1: Reg, rs2: Reg)
    | MulDiv(mop: MulOp, rd: Reg, rs1: Reg, rs2: Reg)
    | AtomicOp(amo: AmoOp, rd: Reg, rs1: Reg, rs2: Reg)
    | FpArith(code: nat, rd: Reg, operands: seq<Reg>, long: bool)
    | Priv(code: nat)

  // ----- 32-bit formats -----

  /** The value of an `n`-valued field read as a two's complement number. */
  function Signed(v: int, n: int): int {
    if v < n / 2 then v else v - n
  }

  function Value(imm: Imm): int {
    match imm
    case ImmI(w) => Signed(w / 1048576 % 4096, 4096)
    case ImmS(w) => Signed(w / 33554432 % 128 * 32 + w / 128 % 32, 4096)
    case ImmB(w) => Signed(w / 2147483648 % 2 * 4096 + w / 128 % 2 * 2048 + w / 33554432 % 64 * 32
                           + w / 256 % 16 * 2, 8192)
    case ImmU(w) => w / 4096 % 1048576 * 4096
    case ImmJ(w) => Signed(w / 2147483648 % 2 * 1048576 + w / 4096 % 256 * 4096 + w / 1048576 % 2 * 2048
                           + w / 2097152 % 1024 * 2, 2097152)
    case Shamt(w) => w / 1048576 % 32
    case ImmCI(w) => Signed(w / 4096 % 2 * 32 + w / 4 % 32, 64)
    case ImmCLui(w) => Signed(w / 4096 % 2 * 32 + w / 4 % 32, 64) * 4096
    case ShamtC(w) => w / 4 % 32
    case ImmCIW(w) => w / 2048 % 4 * 16 + w / 128 % 16 * 64 + w / 64 % 2 * 4 + w / 32 % 2 * 8
    case ImmCLW(w) => w / 1024 % 8 * 8 + w / 64 % 2 * 4 + w / 32 % 2 * 64
    case ImmCLD(w) => w / 1024 % 8 * 8 + w / 32 % 4 * 64
    case ImmLwsp(w) => w / 4096 % 2 * 32 + w / 16 % 8 * 4 + w / 4 % 4 * 64
    case ImmLdsp(w) => w / 4096 % 2 * 32 + w / 32 % 4 * 8 + w / 4 % 8 * 64
    case ImmSwsp(w) => w / 512 % 16 * 4 + w / 128 % 4 * 64
    case ImmSdsp(w) => w / 1024 % 8 * 8 + w / 128 % 8 * 64
    case ImmSp16(w) => Signed(w / 4096 % 2 * 512 + w / 64 % 2 * 16 + w / 32 % 2 * 64 + w / 8 % 4 * 128
                              + w / 4 % 2 * 32, 1024)
    case ImmCJ(w) => Signed(w / 4096 % 2 * 2048 + w / 2048 % 2 * 16 + w / 512 % 4 * 256 + w / 256 % 2 * 1024
                            + w / 128 % 2 * 64 + w / 64 % 2 * 128 + w / 8 % 8 * 2 + w / 4 % 2 * 32, 4096)
    case ImmCB(w) => Signed(w / 4096 % 2 * 256 + w / 1024 % 4 * 8 + w / 32 % 4 * 64 + w / 8 % 4 * 2
                            + w / 4 % 2 * 32, 512)
    case Zero => 0
  }

  function X5(w: nat, weight: nat): Reg
    requires weight > 0
  {
    w / weight % 32
  }

  function F5(w: nat, weight: nat): Reg
    requires weight > 0
  {
    32 + w / weight % 32
  }

  function AluOfFunct3(f3: nat): AluOp {
    match f3
    case 0 => Add case 1 => Sll case 2 => Slt case 3 => Sltu
    case 4 => Xor case 5 => Srl case 6 => Or case _ => And
  }

  function MulOfFunct3(f3: nat): MulOp {
    match f3
    case 0 => MulLow case 1 => MulHigh case 2 => MulHighSu case 3 => MulHighU
    case 4 => DivS case 5 => DivU case 6 => RemS case _ => RemU
  }

  function CondOfFunct3(f3: nat): Option<Cond> {
    match f3
    case 0 => Some(Eq) case 1 => Some(Ne) case 4 => Some(Lt)
    case 5 => Some(Ge) case 6 => Some(Ltu) case 7 => Some(Geu) case _ => None
  }

  function AmoOfFunct5(f5: nat): Option<AmoOp> {
    match f5
    case 2 => Some(Lr) case 3 => Some(Sc) case 1 => Some(Swap) case 0 => Some(AmoAdd)
    case 4 => Some(AmoXor) case 12 => Some(AmoAnd) case 8 => Some(AmoOr)
    case 16 => Some(Min) case 20 => Some(Max) case 24 => Some(MinU) case 28 => Some(MaxU)
    case _ => None
  }

  function ParseLoad(w: nat, f3: nat, rd: Reg, rs1: Reg): Option<Op> {
    match f3
    case 0 => Some(LoadOp(1, true, rd, rs1, ImmI(w)))
    case 1 => Some(LoadOp(2, true, rd, rs1, ImmI(w)))
    case 2 => Some(LoadOp(4, true, rd, rs1, ImmI(w)))
    case 4 => Some(LoadOp(1, false, rd, rs1, ImmI(w)))
    case 5 => Some(LoadOp(2, false, rd, rs1, ImmI(w)))
    case _ => None
  }

  function ParseOpImm(w: nat, f3: nat, f7: nat, rd: Reg, rs1: Reg): Option<Op> {
    if f3 == 1 then
      if f7 == 0 then Some(AluImm(Sll, rd, rs1, Shamt(w))) else None
    else if f3 == 5 then
      if f7 == 0 then Some(AluImm(Srl, rd, rs1, Shamt(w)))
      else if f7 == 32 then Some(AluImm(Sra, rd, rs1, Shamt(w)))
      else None
    else Some(AluImm(AluOfFunct3(f3), rd, rs1, ImmI(w)))
  }

  function ParseOpReg(f3: nat, f7: nat, rd: Reg, rs1: Reg, rs2: Reg): Option<Op> {
    if f7 == 1 then Some(MulDiv(MulOfFunct3(f3), rd, rs1, rs2))
    else if f7 == 0 then Some(AluReg(AluOfFunct3(f3), rd, rs1, rs2))
    else if f7 == 32 && f3 == 0 then Some(AluReg(Sub, rd, rs1, rs2))
    else if f7 == 32 && f3 == 5 then Some(AluReg(Sra, rd, rs1, rs2))
    else None
  }

  /** OP-FP: the five-bit operation selects which operands are integer registers. */
  function ParseOpFp(w: nat, f3: nat): Option<Op> {
    var f5, rs2 := w / 134217728 % 32, w / 1048576 % 32;
    var fd, f1, f2, xd, x1 := F5(w, 128), F5(w, 32768), F5(w, 1048576), X5(w, 128), X5(w, 32768);
    match f5
    case 0 => Some(FpArith(w, fd, [f1, f2], false))                                       // FADD
    case 1 => Some(FpArith(w, fd, [f1, f2], false))                                       // FSUB
    case 2 => Some(FpArith(w, fd, [f1, f2], false))                                       // FMUL
    case 3 => Some(FpArith(w, fd, [f1, f2], true))                                        // FDIV
    case 4 => if f3 <= 2 then Some(FpArith(w, fd, [f1, f2], false)) else None             // FSGNJ
    case 5 => if f3 <= 1 then Some(FpArith(w, fd, [f1, f2], false)) else None             // FMIN, FMAX
    case 8 => Some(FpArith(w, fd, [f1], false))                                           // FCVT.fmt.fmt
    case 11 => if rs2 == 0 then Some(FpArith(w, fd, [f1], true)) else None                // FSQRT
    case 20 => if f3 <= 2 then Some(FpArith(w, xd, [f1, f2], false)) else None            // FEQ, FLT, FLE
    case 24 => if rs2 <= 1 then Some(FpArith(w, xd, [f1], false)) else None               // FCVT.W.fmt
    case 26 => if rs2 <= 1 then Some(FpArith(w, fd, [x1], false)) else None               // FCVT.fmt.W
    case 28 => if rs2 == 0 && f3 <= 1 then Some(FpArith(w, xd, [f1], false)) else None    // FMV.X.W, FCLASS
    case 30 => if rs2 == 0 && f3 == 0 then Some(FpArith(w, fd, [x1], false)) else None    // FMV.W.X
    case _ => None
  }

  function Parse32(w: nat): Option<Op> {
    var f3, f7 := w / 4096 % 8, w / 33554432 % 128;
    var rd, rs1, rs2 := X5(w, 128), X5(w, 32768), X5(w, 1048576);
    match w % 128
    case 55 => Some(Lui(rd, ImmU(w)))
    case 23 => Some(Auipc(rd, ImmU(w)))
    case 111 => Some(Jal(rd, ImmJ(w)))
    case 103 => if f3 == 0 then Some(Jalr(rd, rs1, ImmI(w))) else None
    case 99 => (match CondOfFunct3(f3)
                case None => None
                case Some(c) => Some(CondBranch(c, rs1, rs2, ImmB(w))))
    case 3 => ParseLoad(w, f3, rd, rs1)
    case 35 => if f3 == 0 then Some(StoreOp(1, rs2, rs1, ImmS(w)))
               else if f3 == 1 then Some(StoreOp(2, rs2, rs1, ImmS(w)))
               else if f3 == 2 then Some(StoreOp(4, rs2, rs1, ImmS(w)))
               else None
    case 19 => ParseOpImm(w, f3, f7, rd, rs1)
    case 51 => ParseOpReg(f3, f7, rd, rs1, rs2)
    case 15 => Some(Priv(w))
    case 115 => Some(Priv(w))
    case 47 => (match AmoOfFunct5(w / 134217728 % 32)
                case None => None
                case Some(amo) => if f3 == 2 && (amo == Lr ==> rs2 == 0)
                                  then Some(AtomicOp(amo, rd, rs1, rs2)) else None)
    case 7 => if f3 == 2 then Some(LoadOp(4, false, F5(w, 128), rs1, ImmI(w)))
              else if f3 == 3 then Some(LoadOp(8, false, F5(w, 128), rs1, ImmI(w)))
              else None
    case 39 => if f3 == 2 then Some(StoreOp(4, F5(w, 1048576), rs1, ImmS(w)))
               else if f3 == 3 then Some(StoreOp(8, F5(w, 1048576), rs1, ImmS(w)))
               else None
    case 83 => ParseOpFp(w, f3)
    case oc => if oc in {67, 71, 75, 79}
               then Some(FpArith(w, F5(w, 128), [F5(w, 32768), F5(w, 1048576), F5(w, 134217728)], false))
               else None
  }

  // ----- 16-bit formats -----

  function X3(w: nat, weight: nat): Reg
    requires weight > 0
  {
    8 + w / weight % 8
  }

  function F3(w: nat, weight: nat): Reg
    requires weight > 0
  {
    40 + w / weight % 8
  }

  function ParseQ0(w: nat): Option<Op> {
    var rd, rs1 := X3(w, 4), X3(w, 128);
    match w / 8192 % 8
    case 0 => if w / 32 % 256 == 0 then None else Some(AluImm(Add, rd, 2, ImmCIW(w)))
    case 1 => Some(LoadOp(8, false, F3(w, 4), rs1, ImmCLD(w)))
    case 2 => Some(LoadOp(4, true, rd, rs1, ImmCLW(w)))
    case 3 => Some(LoadOp(4, false, F3(w, 4), rs1, ImmCLW(w)))
    case 5 => Some(StoreOp(8, F3(w, 4), rs1, ImmCLD(w)))
    case 6 => Some(StoreOp(4, rd, rs1, ImmCLW(w)))
    case 7 => Some(StoreOp(4, F3(w, 4), rs1, ImmCLW(w)))
    case _ => None
  }

  function ParseMiscAlu(w: nat): Option<Op> {
    var rd, rs2 := X3(w, 128), X3(w, 4);
    var high := w / 4096 % 2;
    match w / 1024 % 4
    case 0 => if high == 0 then Some(AluImm(Srl, rd, rd, ShamtC(w))) else None
    case 1 => if high == 0 then Some(AluImm(Sra, rd, rd, ShamtC(w))) else None
    case 2 => Some(AluImm(And, rd, rd, ImmCI(w)))
    case _ =>
      if high == 1 then None
      else match w / 32 % 4
        case 0 => Some(AluReg(Sub, rd, rd, rs2))
        case 1 => Some(AluReg(Xor, rd, rd, rs2))
        case 2 => Some(AluReg(Or, rd, rd, rs2))
        case _ => Some(AluReg(And, rd, rd, rs2))
  }

  function ParseQ1(w: nat): Option<Op> {
    var rd := X5(w, 128);
    match w / 8192 % 8
    case 0 => Some(AluImm(Add, rd, rd, ImmCI(w)))
    case 1 => Some(Jal(1, ImmCJ(w)))
    case 2 => Some(AluImm(Add, rd, 0, ImmCI(w)))
    case 3 => if w / 4096 % 2 == 0 && w / 4 % 32 == 0 then None
              else if rd == 2 then Some(AluImm(Add, 2, 2, ImmSp16(w)))
              else Some(Lui(rd, ImmCLui(w)))
    case 4 => ParseMiscAlu(w)
    case 5 => Some(Jal(0, ImmCJ(w)))
    case 6 => Some(CondBranch(Eq, X3(w, 128), 0, ImmCB(w)))
    case _ => Some(CondBranch(Ne, X3(w, 128), 0, ImmCB(w)))
  }

  function ParseCr(w: nat): Option<Op> {
    var rd, rs2 := X5(w, 128), X5(w, 4);
    if w / 4096 % 2 == 0 then
      if rs2 != 0 then Some(AluReg(Add, rd, 0, rs2))
      else if rd != 0 then Some(Jalr(0, rd, Zero))
      else None
    else if rs2 != 0 then Some(AluReg(Add, rd, rd, rs2))
    else if rd != 0 then Some(Jalr(1, rd, Zero))
    else Some(Priv(w))
  }

  function ParseQ2(w: nat): Option<Op> {
    var rd := X5(w, 128);
    match w / 8192 % 8
    case 0 => if w / 4096 % 2 == 0 then Some(AluImm(Sll, rd, rd, ShamtC(w))) else None
    case 1 => Some(LoadOp(8, false, F5(w, 128), 2, ImmLdsp(w)))
    case 2 => if rd == 0 then None else Some(LoadOp(4, true, rd, 2, ImmLwsp(w)))
    case 3 => Some(LoadOp(4, false, F5(w, 128), 2, ImmLwsp(w)))
    case 4 => ParseCr(w)
    case 5 => Some(StoreOp(8, F5(w, 4), 2, ImmSdsp(w)))
    case 6 => Some(StoreOp(4, X5(w, 4), 2, ImmSwsp(w)))
    case _ => Some(StoreOp(4, F5(w, 4), 2, ImmSwsp(w)))
  }

  /** The instruction a word encodes; reserved and illegal encodings have none. */
  function Parse(w: nat): Option<Op> {
    match w % 4
    case 0 => ParseQ0(w)
    case 1 => ParseQ1(w)
    case 2 => ParseQ2(w)
    case _ => Parse32(w)
  }

  // ----- operands -----

  function Sources(op: Op): set<Reg> {
    match op
    case Lui(_, _) => {}
    case Auipc(_, _) => {}
    case Jal(_, _) => {}
    case Jalr(_, rs1, _) => {rs1}
    case CondBranch(_, rs1, rs2, _) => {rs1, rs2}
    case LoadOp(_, _, _, base, _) => {base}
    case StoreOp(_, src, base, _) => {src, base}
    case AluImm(_, _, rs1, _) => {rs1}
    case AluReg(_, _, rs1, rs2) => {rs1, rs2}
    case MulDiv(_, _, rs1, rs2) => {rs1, rs2}
    case AtomicOp(_, _, rs1, rs2) => {rs1, rs2}
    case FpArith(_, _, operands, _) => set r | r in operands
    case Priv(_) => {}
  }

  function Dests(op: Op): set<Reg> {
    if op.CondBranch? || op.StoreOp? || op.Priv? then {} else {op.rd}
  }

  function ClassOf(op: Op): Class {
    match op
    case Lui(_, _) => Alu
    case Auipc(_, _) => PcRel
    case Jal(_, _) => Jump
    case Jalr(_, _, _) => Jump
    case CondBranch(_, _, _, _) => Branch
    case LoadOp(_, _, _, _, _) => Load
    case StoreOp(_, _, _, _) => Store
    case AluImm(_, _, _, _) => Alu
    case AluReg(_, _, _, _) => Alu
    case MulDiv(_, _, _, _) => Mul
    case AtomicOp(_, _, _, _) => Atomic
    case FpArith(_, _, _, long) => if long then FpDiv else Fpu
    case Priv(_) => System
  }

  // ----- the decoder is exact -----

  /** The decoder names exactly the registers the instruction reads and writes. */
  ghost predicate Names(m: Insn, op: Op) {
    m.cls == ClassOf(op) && (!op.Priv? ==> m.srcs == Sources(op) - {0} && m.dsts == Dests(op) - {0})
  }

  lemma {:induction false} FpOperands(a: Reg, b: Reg, c: Reg)
    ensures (set r | r in [a]) == {a} && (set r | r in [a, b]) == {a, b} && (set r | r in [a, b, c]) == {a, b, c}
  {
  }

  lemma {:induction false} HalveTwice(q: nat)
    ensures q % 128 / 4 == q / 4 % 32
  {
  }

  lemma {:induction false} Shifted(w: nat)
    ensures w / 134217728 == w / 33554432 / 4
  {
  }

  lemma {:induction false} Funct5Field(w: nat)
    ensures Funct7(w) / 4 == w / 134217728 % 32
  {
    HalveTwice(w / 33554432);
    Shifted(w);
  }

  lemma {:induction false} OpFpFields(w: nat)
    ensures F5(w, 32768) == F(Rs1(w)) && F5(w, 1048576) == F(Rs2(w)) && X5(w, 32768) == Rs1(w)
    ensures F5(w, 128) == F(Rd(w)) && X5(w, 128) == Rd(w)
  {
  }

  /** The conversions and moves, whose operands may be in either register file. */
  lemma {:induction false} OpFpMixed(addr: nat, w: nat)
    requires ParseOpFp(w, w / 4096 % 8).Some? && w / 134217728 % 32 > 5 && Funct7(w) / 4 == w / 134217728 % 32
    ensures Names(DecodeOpFp(addr, w), ParseOpFp(w, w / 4096 % 8).value)
  {
    OpFpFields(w);
    FpOperands(F5(w, 32768), F5(w, 1048576), 0);
    FpOperands(X5(w, 32768), 0, 0);
  }

  lemma {:induction false} OpFpBinary(addr: nat, w: nat)
    requires ParseOpFp(w, w / 4096 % 8).Some? && w / 134217728 % 32 <= 5 && Funct7(w) / 4 == w / 134217728 % 32
    ensures Names(DecodeOpFp(addr, w), ParseOpFp(w, w / 4096 % 8).value)
  {
    OpFpFields(w);
    FpOperands(F5(w, 32768), F5(w, 1048576), 0);
  }

  lemma {:induction false} OpFpExact(addr: nat, w: nat)
    requires ParseOpFp(w, w / 4096 % 8).Some?
    ensures Names(DecodeOpFp(addr, w), ParseOpFp(w, w / 4096 % 8).value)
  {
    Funct5Field(w);
    if w / 134217728 % 32 <= 5 { OpFpBinary(addr, w); } else { OpFpMixed(addr, w); }
  }

  lemma {:induction false} IntegerFields(w: nat)
    ensures X5(w, 128) == Rd(w) && X5(w, 32768) == Rs1(w) && X5(w, 1048576) == Rs2(w)
    ensures F5(w, 128) == F(Rd(w)) && F5(w, 1048576) == F(Rs2(w))
  {
  }

  lemma {:induction false} MemoryExact(addr: nat, w: nat)
    requires w % 128 in {3, 35, 7, 39, 47} && Parse32(w).Some?
    ensures Names(Decode32(addr, w), Parse32(w).value)
  {
    IntegerFields(w);
  }

  lemma {:induction false} IntegerExact(addr: nat, w: nat)
    requires w % 128 !in {83, 67, 71, 75, 79, 3, 35, 7, 39, 47} && w % 4 == 3 && Parse32(w).Some?
    ensures Names(Decode32(addr, w), Parse32(w).value)
  {
    IntegerFields(w);
  }

  lemma {:induction false} FusedExact(addr: nat, w: nat)
    requires w % 128 in {67, 71, 75, 79} && Parse32(w).Some?
    ensures Names(Decode32(addr, w), Parse32(w).value)
  {
    var f1, f2, f3 := F5(w, 32768), F5(w, 1048576), F5(w, 134217728);
    assert f1 == F(Rs1(w)) && f2 == F(Rs2(w)) && f3 == F(Rs3(w)) && F5(w, 128) == F(Rd(w));
    FpOperands(f1, f2, f3);
  }

  lemma {:induction false} Decode32Exact(addr: nat, w: nat)
    requires w % 4 == 3 && Parse32(w).Some?
    ensures Names(Decode32(addr, w), Parse32(w).value)
  {
    if w % 128 == 83 {
      OpFpExact(addr, w);
    } else if w % 128 in {67, 71, 75, 79} {
      FusedExact(addr, w);
    } else if w % 128 in {3, 35, 7, 39, 47} {
      MemoryExact(addr, w);
    } else {
      IntegerExact(addr, w);
    }
  }

  lemma {:induction false} Q0Exact(addr: nat, w: nat)
    requires w % 4 == 0 && w < 65536 && ParseQ0(w).Some?
    ensures Names(Decode16(addr, w), ParseQ0(w).value)
  {
  }

  lemma {:induction false} Q1Exact(addr: nat, w: nat)
    requires w % 4 == 1 && w < 65536 && ParseQ1(w).Some?
    ensures Names(Decode16(addr, w), ParseQ1(w).value)
  {
  }

  lemma {:induction false} CrExact(addr: nat, w: nat)
    requires w % 4 == 2 && w < 65536 && w / 8192 % 8 == 4 && ParseQ2(w).Some?
    ensures Names(Decode16(addr, w), ParseQ2(w).value)
  {
  }

  lemma {:induction false} Q2Loads(addr: nat, w: nat)
    requires w % 4 == 2 && w < 65536 && w / 8192 % 8 < 4 && ParseQ2(w).Some?
    ensures Names(Decode16(addr, w), ParseQ2(w).value)
  {
  }

  lemma {:induction false} Q2Stores(addr: nat, w: nat)
    requires w % 4 == 2 && w < 65536 && w / 8192 % 8 > 4 && ParseQ2(w).Some?
    ensures Names(Decode16(addr, w), ParseQ2(w).value)
  {
  }

  lemma {:induction false} Q2Exact(addr: nat, w: nat)
    requires w % 4 == 2 && w < 65536 && ParseQ2(w).Some?
    ensures Names(Decode16(addr, w), ParseQ2(w).value)
  {
    if w / 8192 % 8 < 4 { Q2Loads(addr, w); }
    else if w / 8192 % 8 == 4 { CrExact(addr, w); }
    else { Q2Stores(addr, w); }
  }

  /** For every defined encoding the decoder's class, reads and writes are those of the
      instruction the ISA defines. */
  lemma {:induction false} DecodeExact(addr: nat, w: nat)
    requires Parse(w).Some? && (w % 4 != 3 ==> w < 65536)
    ensures Names(Decode(addr, w), Parse(w).value)
  {
    if w % 4 == 0 { Q0Exact(addr, w); }
    else if w % 4 == 1 { Q1Exact(addr, w); }
    else if w % 4 == 2 { Q2Exact(addr, w); }
    else { Decode32Exact(addr, w); }
  }

  // ----- CSR accesses, environment calls and fences -----

  /** CSRRW, CSRRS and CSRRC read rs1; the immediate forms, ECALL, EBREAK and fences read nothing. */
  function PrivSources(w: nat): set<Reg> {
    if w % 128 == 115 && w / 4096 % 8 in {1, 2, 3} then {X5(w, 32768)} else {}
  }

  /** All six CSR instructions write rd. */
  function PrivDests(w: nat): set<Reg> {
    if w % 128 == 115 && w / 4096 % 8 in {1, 2, 3, 5, 6, 7} then {X5(w, 128)} else {}
  }

  lemma {:induction false} ZeroOnly(r: Reg)
    ensures {r} - {0} == {} <==> r == 0
  {
    assert r != 0 ==> r in {r} - {0};
  }

  lemma {:induction false} PrivilegedWide(addr: nat, w: nat)
    requires w % 4 == 3 && Parse32(w).Some? && Parse32(w).value.Priv?
    ensures w % 128 in {15, 115}
    ensures Decode(addr, w).srcs == {X5(w, 32768)} - {0} && Decode(addr, w).dsts == {X5(w, 128)} - {0}
  {
    assert Rd(w) == X5(w, 128) && Rs1(w) == X5(w, 32768);
  }

  lemma {:induction false} PrivilegedNarrow(addr: nat, w: nat)
    requires w % 4 != 3 && w < 65536 && Decode(addr, w).cls == System
    ensures Decode(addr, w).srcs == {} && Decode(addr, w).dsts == {} && w % 128 != 115
  {
  }

  /** The decoder takes both register fields of every such word at face value. It never misses an
      access, and names one too many exactly when a field it reads is not zero and names no register. */
  lemma {:induction false} PrivilegedCovered(addr: nat, w: nat)
    requires Parse(w).Some? && Parse(w).value.Priv? && (w % 4 != 3 ==> w < 65536)
    ensures PrivSources(w) - {0} <= Decode(addr, w).srcs && PrivDests(w) - {0} <= Decode(addr, w).dsts
    ensures Decode(addr, w).srcs == PrivSources(w) - {0} <==>
            w % 4 != 3 || w / 32768 % 32 == 0 || PrivSources(w) != {}
    ensures Decode(addr, w).dsts == PrivDests(w) - {0} <==>
            w % 4 != 3 || w / 128 % 32 == 0 || PrivDests(w) != {}
  {
    if w % 4 == 3 {
      PrivilegedWide(addr, w);
      ZeroOnly(X5(w, 32768));
      ZeroOnly(X5(w, 128));
    } else {
      DecodeExact(addr, w);
      PrivilegedNarrow(addr, w);
    }
  }

  // ----- words the ISA does not define -----

  /** The two words have the same major opcode and the same register fields. */
  predicate SameFields(w: nat, v: nat) {
    && w % 4 == 3 && v % 4 == 3 && w % 128 == v % 128 && X5(w, 128) == X5(v, 128) && X5(w, 32768) == X5(v, 32768)
    && X5(w, 0x10_0000) == X5(v, 0x10_0000) && X5(w, 0x800_0000) == X5(v, 0x800_0000)
  }

  /** Apart from the register fields the decoder looks at the opcode alone, in OP at whether funct7 is 1 as
      well, and in OP-FP at funct5: so a reserved word decodes like a defined one next to it. */
  lemma {:induction false} ReservedDecodesAlike(addr: nat, w: nat, v: nat)
    requires SameFields(w, v)
    requires w % 128 == 51 ==> (w / 0x200_0000 % 128 == 1 <==> v / 0x200_0000 % 128 == 1)
    requires w % 128 == 83 ==> w / 0x200_0000 % 128 / 4 == v / 0x200_0000 % 128 / 4
    ensures Decode(addr, w) == Decode(addr, v).(word := w)
  {
    assert Rd(w) == Rd(v) && Rs1(w) == Rs1(v) && Rs2(w) == Rs2(v) && Rs3(w) == Rs3(v);
  }

  /** The major opcodes of RV32IMAFC. */
  const OPCODES: set<nat> :=
    {3, 7, 15, 19, 23, 35, 39, 47, 51, 55, 67, 71, 75, 79, 83, 99, 103, 111, 115}

  lemma {:induction false} UnknownQ0(addr: nat, w: nat)
    requires w % 4 == 0 && w < 65536
    ensures Decode16(addr, w).cls == Unknown <==> w == 0 || w / 8192 == 4
    ensures Decode16(addr, w).cls != System
  {
  }

  lemma {:induction false} KnownQ1(addr: nat, w: nat)
    requires w % 4 == 1
    ensures Decode16(addr, w).cls !in {Unknown, System}
  {
  }

  lemma {:induction false} SystemQ2(addr: nat, w: nat)
    requires w % 4 == 2 && w < 65536
    ensures Decode16(addr, w).cls != Unknown && (Decode16(addr, w).cls == System <==> w == 0x9002)
  {
  }

  lemma {:induction false} NarrowIs(addr: nat, w: nat)
    requires w % 4 != 3 && w < 65536
    ensures Decode(addr, w) == Decode16(addr, w)
  {
  }

  predicate NarrowUnknown(w: nat) {
    w == 0 || (w % 4 == 0 && w / 8192 == 4)
  }

  lemma {:induction false} UnknownNarrow(addr: nat, w: nat)
    requires w % 4 != 3 && w < 65536
    ensures Decode(addr, w).cls == Unknown <==> NarrowUnknown(w)
    ensures Decode(addr, w).cls == System <==> w == 0x9002
  {
    NarrowIs(addr, w);
    if w % 4 == 0 { UnknownQ0(addr, w); } else if w % 4 == 1 { KnownQ1(addr, w); } else { SystemQ2(addr, w); }
  }

  predicate OpFpDefined(f5: nat) {
    f5 in {0, 1, 2, 3, 4, 5, 8, 11, 20, 24, 26, 28, 30}
  }

  lemma {:induction false} UnknownOpFp(addr: nat, w: nat)
    ensures DecodeOpFp(addr, w).cls == Unknown <==> !OpFpDefined(Funct7(w) / 4)
    ensures DecodeOpFp(addr, w).cls != System
  {
  }

  lemma {:induction false} UnknownWide(addr: nat, w: nat)
    requires w % 4 == 3
    ensures Decode(addr, w).cls == Unknown <==>
              w % 128 !in OPCODES || (w % 128 == 83 && !OpFpDefined(Funct7(w) / 4))
    ensures Decode(addr, w).cls == System <==> w % 128 in {15, 115}
  {
    UnknownOpFp(addr, w);
  }

  lemma {:induction false} NoSystemOpcode(w: nat)
    requires w % 128 in {15, 115}
    ensures w % 4 == 3 && w != 0x9002
  {
  }

  /** A word is UNKNOWN exactly when its opcode, or in OP-FP its funct5, is none of these; a compressed one,
      when it is zero or in the reserved row of quadrant 0. SYSTEM are fences, CSR accesses and C.EBREAK. */
  lemma {:induction false} UnknownExact(addr: nat, w: nat)
    requires w % 4 != 3 ==> w < 65536
    ensures Decode(addr, w).cls == Unknown <==>
              if w % 4 != 3 then NarrowUnknown(w)
              else w % 128 !in OPCODES || (w % 128 == 83 && !OpFpDefined(Funct7(w) / 4))
    ensures Decode(addr, w).cls == System <==> w % 128 in {15, 115} || w == 0x9002
  {
    if w % 4 == 3 {
      UnknownWide(addr, w);
    } else {
      UnknownNarrow(addr, w);
      if w % 128 in {15, 115} { NoSystemOpcode(w); }
    }
  }
}
