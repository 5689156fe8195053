/** The object code of kprobe_exec, instruction by instruction. */
module KprobeListing {
  import opened Isa

  /** Slots 0 to 15: c is read and incremented, the buffer cleared. */
  function CountAt(pc: int): Insn {
    match pc
    case 0 => Alu(Mov, 6, Reg(1))
    case 1 => LoadSym(1, DataRef, 0)
    case 3 => Load(W, 2, 1, 0)
    case 4 => Alu(Mov, 3, Reg(2))
    case 5 => Alu(Add, 3, Imm(1))
    case 6 => Store(W, 1, 0, 3)
    case 7 => Alu(Mov, 1, Imm(0))
    case 8 => Store(W, 10, -8, 1)
    case 9 => Store(W, 10, -12, 1)
    case 10 => Store(W, 10, -16, 1)
    case 11 => Store(W, 10, -20, 1)
    case 12 => Store(W, 10, -24, 1)
    case 13 => Store(W, 10, -28, 1)
    case 14 => Store(W, 10, -4, 1)
    case 15 => Store(W, 10, -32, 2)
    case _ => Second
  }

  /** Slots 16 to 29: process, user, and the lookup of the user's message. */
  function IdentifyAt(pc: int): Insn {
    match pc
    case 16 => Call(PidTgid)
    case 17 => Store(W, 10, -40, 0)
    case 18 => Call(UidGid)
    case 19 => Store(W, 10, -36, 0)
    case 20 => Alu(Lsh, 0, Imm(32))
    case 21 => Alu(Rsh, 0, Imm(32))
    case 22 => Store(DW, 10, -48, 0)
    case 23 => Alu(Mov, 2, Reg(10))
    case 24 => Alu(Add, 2, Imm(-48))
    case 25 => LoadSym(1, MapRef(MyConfig), 0)
    case 27 => Call(MapLookup)
    case 28 => Alu(Mov, 7, Reg(0))
    case 29 => JumpIf(Eq, 7, Imm(0), 12)
    case _ => Second
  }

  /** Slots 30 to 47: the greeting and the copy of a message. */
  function CopyAt(pc: int): Insn {
    match pc
    case 30 => Load(B, 3, 7, 0)
    case 31 => Alu(Lsh, 3, Imm(56))
    case 32 => Alu(Arsh, 3, Imm(56))
    case 33 => LoadSym(1, RodataRef, 0)
    case 35 => Alu(Mov, 2, Imm(3))
    case 36 => Call(Printk)
    case 37 => Alu(Mov, 1, Reg(10))
    case 38 => Alu(Add, 1, Imm(-12))
    case 39 => Alu(Mov, 2, Imm(12))
    case 40 => Alu(Mov, 3, Reg(7))
    case 41 => Jump(5)
    case 42 => Alu(Mov, 1, Reg(10))
    case 43 => Alu(Add, 1, Imm(-12))
    case 44 => Alu(Mov, 2, Imm(12))
    case 45 => LoadSym(3, MessageRef, 0)
    case 47 => Call(ProbeRead)
    case _ => Second
  }

  /** Slots 48 to 63: the character at c of the global message. */
  function GlobalAt(pc: int): Insn {
    match pc
    case 48 => LoadSym(7, DataRef, 0)
    case 50 => Load(W, 1, 7, 0)
    case 51 => JumpIf(Gt, 1, Imm(11), 22)
    case 52 => LoadSym(2, MessageRef, 0)
    case 54 => Alu(Add, 2, Reg(1))
    case 55 => Load(B, 3, 2, 0)
    case 56 => Alu(Lsh, 3, Imm(56))
    case 57 => Alu(Arsh, 3, Imm(56))
    case 58 => LoadSym(1, RodataRef, 3)
    case 60 => Alu(Mov, 2, Imm(3))
    case 61 => Call(Printk)
    case 62 => Load(W, 1, 7, 0)
    case 63 => JumpIf(Gt, 1, Imm(11), 10)
    case _ => Second
  }

  /** Slots 64 to 88: the character at c of the copy, and the event. */
  function EmitAt(pc: int): Insn {
    match pc
    case 64 => Alu(Mov, 2, Reg(10))
    case 65 => Alu(Add, 2, Imm(-40))
    case 66 => Alu(Add, 2, Reg(1))
    case 67 => Load(B, 3, 2, 28)
    case 68 => Alu(Lsh, 3, Imm(56))
    case 69 => Alu(Arsh, 3, Imm(56))
    case 70 => LoadSym(1, RodataRef, 6)
    case 72 => Alu(Mov, 2, Imm(3))
    case 73 => Call(Printk)
    case 74 => Alu(Mov, 1, Reg(10))
    case 75 => Alu(Add, 1, Imm(-28))
    case 76 => Alu(Mov, 2, Imm(16))
    case 77 => Call(Comm)
    case 78 => Alu(Mov, 4, Reg(10))
    case 79 => Alu(Add, 4, Imm(-40))
    case 80 => Alu(Mov, 1, Reg(6))
    case 81 => LoadSym(2, MapRef(OutputMap), 0)
    case 83 => LoadImm(3, 0xFFFF_FFFF)
    case 85 => Alu(Mov, 5, Imm(40))
    case 86 => Call(PerfOutput)
    case 87 => Alu(Mov, 0, Imm(0))
    case 88 => Exit
    case _ => Second
  }

  function KprobeObjectAt(pc: int): Insn {
    if pc < 16 then CountAt(pc) else if pc < 30 then IdentifyAt(pc) else if pc < 48 then CopyAt(pc)
    else if pc < 64 then GlobalAt(pc) else EmitAt(pc)
  }

  const KPROBE_OBJECT: Program := seq(89, KprobeObjectAt)
}
