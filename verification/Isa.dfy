/** Decoded instructions, reduced to what the fetch and memory paths distinguish. */
module Isa {
  import opened Trap

  type Reg = r: nat | r < 32

  type Size = n: nat | n == 1 || n == 2 || n == 4 || n == 8 witness 1

  datatype CsrOp = Rw | Rs | Rc

  datatype Op =
    /** Any computation on registers and the pc that only writes rd. */
    | Alu(f: nat, rd: Reg, rs1: Reg, rs2: Reg)
    | Load(rd: Reg, rs1: Reg, imm: nat, size: Size, signed: bool)
    | Store(rs1: Reg, rs2: Reg, imm: nat, size: Size)
    | Jal(rd: Reg, imm: nat)
    | Jalr(rd: Reg, rs1: Reg, imm: nat)
    | Branch(f: nat, rs1: Reg, rs2: Reg, imm: nat)
    | Csr(kind: CsrOp, immediate: bool, rd: Reg, rs1: Reg, csr: nat)
    | Fence
    | FenceI
    | Ecall
    | Ebreak
    | Mret
    | Sret
    | Wfi
    | SfenceVma
    | Lr(rd: Reg, rs1: Reg, size: Size)
    | Sc(rd: Reg, rs1: Reg, rs2: Reg, size: Size)
    | Amo(f: nat, rd: Reg, rs1: Reg, rs2: Reg, size: Size)

  const SATP: nat := 0x180

  type Decoder = nat -> Option<Op>

  /** Bytes of the instruction in a fetch window. */
  function Length(raw: nat): nat {
    if raw % 4 == 3 then 4 else 2
  }

  /** The instructions after which a decoded block never continues. */
  predicate EndsBlock(op: Op) {
    match op
    case Csr(_, _, _, _, csr) => csr == SATP
    case Jal(_, _) => true
    case Jalr(_, _, _) => true
    case Branch(_, _, _, _) => true
    case FenceI => true
    case Ecall => true
    case Ebreak => true
    case Mret => true
    case Sret => true
    case Wfi => true
    case SfenceVma => true
    case _ => false
  }
}
