/** The instruction decoder of `tools/starbug_isa.py`.

    A word is a natural number. A shift followed by a mask is written as a division
    followed by a remainder: `(w >> 7) & 0x1F` is `w / 0x80 % 0x20`. */
module Isa {
  import opened Wrappers

  datatype Class =
    | Alu | Mul | Load | Store | Branch | Jump | System | Atomic | PcRel | Fpu | FpDiv | Unknown

  /** x0..x31 are 0..31 and f0..f31 are 32..63. */
  type Reg = r: nat | r < 64

  const FREG_BASE := 32

  /** f-register `n`. */
  function F(n: nat): Reg {
    FREG_BASE + n % 32
  }

  /** A decoded instruction; x0 never occurs in `srcs` (its reads) or `dsts` (its writes). */
  datatype Insn = Insn(addr: nat, word: nat, size: nat, cls: Class, srcs: set<Reg>, dsts: set<Reg>)

  function NewInsn(addr: nat, word: nat, size: nat, cls: Class, srcs: set<Reg>, dsts: set<Reg>): Insn {
    Insn(addr, word, size, cls, srcs - {0}, dsts - {0})
  }

  predicate Lane0Only(m: Insn) {
    m.cls in {Load, Store, Branch, Jump, System, Atomic, PcRel, Unknown}
  }

  predicate UsesLsu(m: Insn) {
    m.cls in {Load, Store, Atomic}
  }

  /** The classes that may redirect the pc or touch privileged state. */
  predicate Control(m: Insn) {
    m.cls in {Branch, Jump, System, Unknown}
  }

  predicate IsCompressed(w: nat) {
    w % 4 != 3
  }

  function SizeOf(w: nat): nat {
    if IsCompressed(w) then 2 else 4
  }

  // ----- hints -----

  const MAX_BUNDLE := 4

  /** The raw six-bit immediate of `c.li x0, imm`, when it is nonzero. */
  function HintLength(w: nat): Option<nat> {
    if w % 4 != 1 then None
    else if w / 0x2000 % 8 != 2 then None
    else if w / 0x80 % 0x20 != 0 then None
    else
      var imm := w / 0x1000 % 2 * 32 + w / 4 % 0x20;
      if imm == 0 then None else Some(imm)
  }

  /** The encoding of `c.li x0, n` that the assembly printer emits for a hint. */
  function HintWord(n: nat): nat {
    0x4001 + n % 32 * 4
  }

  // ----- 32-bit words -----

  function Rd(w: nat): Reg { w / 0x80 % 0x20 }
  function Rs1(w: nat): Reg { w / 0x8000 % 0x20 }
  function Rs2(w: nat): Reg { w / 0x10_0000 % 0x20 }
  function Rs3(w: nat): Reg { w / 0x800_0000 % 0x20 }
  function Funct7(w: nat): nat { w / 0x200_0000 % 0x80 }

  /** Which register files the operands of an OP-FP instruction name. */
  datatype FpShape = FF | FF1 | XFF | XF | FX

  function OpFpShape(f5: nat): Option<FpShape> {
    if f5 in {0x00, 0x01, 0x02, 0x03, 0x04, 0x05} then Some(FF)
    else if f5 in {0x08, 0x0B} then Some(FF1)
    else if f5 == 0x14 then Some(XFF)
    else if f5 in {0x18, 0x1C} then Some(XF)
    else if f5 in {0x1A, 0x1E} then Some(FX)
    else None
  }

  function DecodeOpFp(addr: nat, w: nat): Insn {
    var f5 := Funct7(w) / 4;
    var cls := if f5 in {0x03, 0x0B} then FpDiv else Fpu;
    match OpFpShape(f5)
    case None => NewInsn(addr, w, 4, Unknown, {F(Rs1(w)), F(Rs2(w))}, {F(Rd(w))})
    case Some(FF) => NewInsn(addr, w, 4, cls, {F(Rs1(w)), F(Rs2(w))}, {F(Rd(w))})
    case Some(FF1) => NewInsn(addr, w, 4, cls, {F(Rs1(w))}, {F(Rd(w))})
    case Some(XFF) => NewInsn(addr, w, 4, cls, {F(Rs1(w)), F(Rs2(w))}, {Rd(w)})
    case Some(XF) => NewInsn(addr, w, 4, cls, {F(Rs1(w))}, {Rd(w)})
    case Some(FX) => NewInsn(addr, w, 4, cls, {Rs1(w)}, {F(Rd(w))})
  }

  function Decode32(addr: nat, w: nat): Insn {
    var opcode := w % 0x80;
    var rd, rs1, rs2 := Rd(w), Rs1(w), Rs2(w);
    if opcode == 0x37 then NewInsn(addr, w, 4, Alu, {}, {rd})
    else if opcode == 0x17 then NewInsn(addr, w, 4, PcRel, {}, {rd})
    else if opcode == 0x6F then NewInsn(addr, w, 4, Jump, {}, {rd})
    else if opcode == 0x67 then NewInsn(addr, w, 4, Jump, {rs1}, {rd})
    else if opcode == 0x63 then NewInsn(addr, w, 4, Branch, {rs1, rs2}, {})
    else if opcode == 0x03 then NewInsn(addr, w, 4, Load, {rs1}, {rd})
    else if opcode == 0x23 then NewInsn(addr, w, 4, Store, {rs1, rs2}, {})
    else if opcode == 0x13 then NewInsn(addr, w, 4, Alu, {rs1}, {rd})
    else if opcode == 0x33 then NewInsn(addr, w, 4, if Funct7(w) == 1 then Mul else Alu, {rs1, rs2}, {rd})
    else if opcode == 0x0F then NewInsn(addr, w, 4, System, {rs1}, {rd})
    else if opcode == 0x73 then NewInsn(addr, w, 4, System, {rs1}, {rd})
    else if opcode == 0x2F then NewInsn(addr, w, 4, Atomic, {rs1, rs2}, {rd})
    else if opcode == 0x07 then NewInsn(addr, w, 4, Load, {rs1}, {F(rd)})
    else if opcode == 0x27 then NewInsn(addr, w, 4, Store, {rs1, F(rs2)}, {})
    else if opcode in {0x43, 0x47, 0x4B, 0x4F} then
      NewInsn(addr, w, 4, Fpu, {F(rs1), F(rs2), F(Rs3(w))}, {F(rd)})
    else if opcode == 0x53 then DecodeOpFp(addr, w)
    else NewInsn(addr, w, 4, Unknown, {rs1, rs2}, {rd})
  }

  // ----- 16-bit words -----

  function RvcReg(x: nat): Reg {
    x % 8 + 8
  }

  function Decode16(addr: nat, w: nat): Insn {
    var op, funct3 := w % 4, w / 0x2000 % 8;
    var rdFull: Reg, rs2Full: Reg := w / 0x80 % 0x20, w / 4 % 0x20;
    var rdp, rs1p, rs2p := RvcReg(w / 4), RvcReg(w / 0x80), RvcReg(w / 4);
    if op == 0 then
      if funct3 == 0 then
        if w == 0 then NewInsn(addr, w, 2, Unknown, {}, {})
        else NewInsn(addr, w, 2, Alu, {2}, {rdp})
      else if funct3 == 2 then NewInsn(addr, w, 2, Load, {rs1p}, {rdp})
      else if funct3 == 6 then NewInsn(addr, w, 2, Store, {rs1p, rs2p}, {})
      else if funct3 in {1, 3} then NewInsn(addr, w, 2, Load, {rs1p}, {F(rs2p)})
      else if funct3 in {5, 7} then NewInsn(addr, w, 2, Store, {rs1p, F(rs2p)}, {})
      else NewInsn(addr, w, 2, Unknown, {}, {})
    else if op == 1 then
      if funct3 == 0 then
        if rdFull == 0 then NewInsn(addr, w, 2, Alu, {}, {})
        else NewInsn(addr, w, 2, Alu, {rdFull}, {rdFull})
      else if funct3 == 1 then NewInsn(addr, w, 2, Jump, {}, {1})
      else if funct3 == 2 then NewInsn(addr, w, 2, Alu, {}, {rdFull})
      else if funct3 == 3 then
        if rdFull == 2 then NewInsn(addr, w, 2, Alu, {2}, {2})
        else NewInsn(addr, w, 2, Alu, {}, {rdFull})
      else if funct3 == 4 then
        if w / 0x400 % 4 != 3 then NewInsn(addr, w, 2, Alu, {rs1p}, {rs1p})
        else NewInsn(addr, w, 2, Alu, {rs1p, rs2p}, {rs1p})
      else if funct3 == 5 then NewInsn(addr, w, 2, Jump, {}, {})
      else NewInsn(addr, w, 2, Branch, {rs1p}, {})
    else if op == 2 then
      if funct3 == 0 then NewInsn(addr, w, 2, Alu, {rdFull}, {rdFull})
      else if funct3 == 2 then NewInsn(addr, w, 2, Load, {2}, {rdFull})
      else if funct3 in {1, 3} then NewInsn(addr, w, 2, Load, {2}, {F(rdFull)})
      else if funct3 == 4 then
        if w / 0x1000 % 2 == 0 then
          if rs2Full == 0 then NewInsn(addr, w, 2, Jump, {rdFull}, {})
          else NewInsn(addr, w, 2, Alu, {rs2Full}, {rdFull})
        else if rdFull == 0 && rs2Full == 0 then NewInsn(addr, w, 2, System, {}, {})
        else if rs2Full == 0 then NewInsn(addr, w, 2, Jump, {rdFull}, {1})
        else NewInsn(addr, w, 2, Alu, {rdFull, rs2Full}, {rdFull})
      else if funct3 == 6 then NewInsn(addr, w, 2, Store, {2, rs2Full}, {})
      else NewInsn(addr, w, 2, Store, {2, F(rs2Full)}, {})
    else NewInsn(addr, w, 2, Unknown, {}, {})
  }

  function Decode(addr: nat, word: nat): Insn {
    if IsCompressed(word) then Decode16(addr, word % 0x1_0000) else Decode32(addr, word)
  }

  lemma {:induction false} DecodeKeepsPlace(addr: nat, w: nat)
    ensures Decode(addr, w).addr == addr && Decode(addr, w).size == SizeOf(w)
  {
  }

  lemma {:induction false} DecodeKeepsWord(addr: nat, w: nat)
    requires IsCompressed(w) ==> w < 0x1_0000
    ensures Decode(addr, w).word == w
  {
  }

  /** Where an instruction stands does not affect how it decodes. */
  lemma {:induction false} DecodeAt(addr: nat, w: nat)
    ensures Decode(addr, w) == Decode(0, w).(addr := addr)
  {
  }

  /** AUIPC names no source. */
  lemma {:induction false} PcRelReadsNothing(addr: nat, w: nat)
    requires Decode(addr, w).cls == PcRel
    ensures Decode(addr, w).srcs == {}
  {
  }

  /** Taking the low halfword does not disturb the fields inside it. */
  lemma {:induction false} LowHalfword(w: nat)
    ensures var v := w % 0x1_0000;
            v % 4 == w % 4 && v / 0x2000 == w / 0x2000 % 8 && v / 0x80 % 0x20 == w / 0x80 % 0x20
  {
    var v, q := w % 0x1_0000, w / 0x1_0000;
    assert w == q * 0x1_0000 + v;
    assert w / 0x2000 == q * 8 + v / 0x2000;
    assert w / 0x80 == q * 0x200 + v / 0x80;
  }

  /** A hint is a NOP to every consumer of the decoder. */
  lemma {:induction false} HintDecodesAsNop(addr: nat, w: nat)
    requires HintLength(w).Some?
    ensures var m := Decode(addr, w);
            m.size == 2 && m.cls == Alu && m.srcs == {} && m.dsts == {}
  {
    LowHalfword(w);
    var v := w % 0x1_0000;
    assert v % 4 == 1 && v / 0x2000 % 8 == 2 && v / 0x80 % 0x20 == 0;
    assert Decode(addr, w) == NewInsn(addr, v, 2, Alu, {}, {0});
  }

  /** What the printer emits, the checker recognises with the same length. */
  lemma {:induction false} HintRoundTrip(n: nat)
    requires 1 <= n < 32
    ensures HintWord(n) < 0x1_0000 && SizeOf(HintWord(n)) == 2
    ensures HintLength(HintWord(n)) == Some(n)
  {
  }

  /** `c.li x0` with `b` as the highest of the six immediate bits and `k` as the others. */
  predicate HintFields(w: nat, b: nat, k: nat) {
    b < 2 && k < 32 && w == 0x4001 + b * 0x1000 + k * 4
  }

  lemma {:induction false} FieldsOfHint(w: nat, b: nat, k: nat)
    requires HintFields(w, b, k)
    ensures w % 4 == 1 && w / 0x2000 % 8 == 2 && w / 0x80 % 0x20 == 0 && w / 0x1000 % 2 == b && w / 4 % 0x20 == k
  {
  }

  lemma {:induction false} HintHasFields(w: nat, b: nat, k: nat)
    requires w < 0x1_0000 && w % 4 == 1 && w / 0x2000 % 8 == 2 && w / 0x80 % 0x20 == 0
    requires b == w / 0x1000 % 2 && k == w / 4 % 0x20
    ensures HintFields(w, b, k)
  {
    assert w / 0x2000 == 2;
    assert w / 0x1000 == 4 + b;
    assert w / 0x80 == 128 + 32 * b;
    assert w / 4 == 0x1000 + 0x400 * b + k;
  }

  /** A compressed word is a hint of length `n` exactly when it is `c.li x0` with `n`, from 1 to 63, as its
      raw immediate. */
  lemma {:induction false} HintLengthExact(w: nat, n: nat)
    requires w < 0x1_0000
    ensures HintLength(w) == Some(n) <==> 1 <= n < 64 && w == 0x4001 + n / 32 * 0x1000 + n % 32 * 4
  {
    if HintLength(w).Some? { HintHasFields(w, w / 0x1000 % 2, w / 4 % 0x20); }
    if n < 64 && w == 0x4001 + n / 32 * 0x1000 + n % 32 * 4 { FieldsOfHint(w, n / 32, n % 32); }
  }
}
