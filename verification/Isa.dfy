/**
 The instructions of the listings. A program is a sequence of 8-byte slots: a
 wide load fills two of them, so jump offsets and program counters count slots
 as RFC 9669 does (sections 3.1, 3.2 and 4.3).
 */
module Isa {
  import opened Word

  type RegId = r: int | 0 <= r <= 10

  type Imm32 = x: int | -0x8000_0000 <= x < 0x8000_0000

  type Off16 = x: int | -0x8000 <= x < 0x8000

  datatype AluOp = Add | Sub | Mul | Div | SDiv | Or | And | Lsh | Rsh | Neg | Mod | SMod | Xor | Mov | Arsh | End

  datatype CmpOp = Eq | Ne | Gt | Ge | Lt | Le | Set | SGt | SGe | SLt | SLe

  datatype Operand = Imm(imm: Imm32) | Reg(reg: RegId)

  datatype Size = B | H | W | DW {
    function Bytes(): nat {
      match this
      case B => 1
      case H => 2
      case W => 4
      case DW => 8
    }
  }

  /** Maps declared by the programs. */
  datatype MapId = CounterTable | MyConfig | OutputMap

  /** What a wide load may name: a map, or a byte of a data section. */
  datatype Symbol = MapRef(m: MapId) | DataRef | MessageRef | RodataRef

  /** Helper functions by the number that an object file calls them with.
      RawLookup is the element lookup that the kernel substitutes when it rewrites
      a program; it has no number. */
  datatype Helper = MapLookup | MapUpdate | Printk | PidTgid | UidGid | Comm | PerfOutput | ProbeRead | RawLookup

  datatype Insn =
    | Alu(aop: AluOp, dst: RegId, src: Operand)
    | Load(size: Size, dst: RegId, base: RegId, off: Off16)
    | Store(size: Size, base: RegId, off: Off16, val: RegId)
    | LoadImm(dst: RegId, imm64: U64)
    | LoadSym(dst: RegId, sym: Symbol, addend: U32)
    | Second
    | Jump(joff: Off16)
    | JumpIf(cop: CmpOp, left: RegId, right: Operand, joff: Off16)
    | Call(helper: Helper)
    | Exit

  type Program = seq<Insn>

  /** What an XDP program returns. */
  const XDP_DROP: U64 := 1
  const XDP_PASS: U64 := 2

  /** The loads that fill two slots. */
  predicate Wide(i: Insn) {
    i.LoadImm? || i.LoadSym?
  }
}
