/**
 A complete record for the object code of kprobe_exec: the verifier's check passes on
 every path. In particular both loads that are indexed by c stay inside their twelve
 bytes, because the value used is the one that was compared with 11, whatever other CPUs
 do to c in between.
 */
module KprobeVerified {
  import opened Isa
  import opened Machine
  import opened Abstract
  import opened Checker
  import opened Verifier
  import opened Records
  import opened Acceptance
  import opened KprobeListing
  import opened KprobeRun

  const WORD: Kind := Num(0, 0xFFFF_FFFF)

  /** The 40 bytes of the event, and those with the lookup key before them. */
  const OUTPUT: set<int> := Cells(472, 40)
  const SCRATCH: set<int> := Cells(464, 48)

  /** Slots 0 to 15: c is read and incremented, the buffer cleared. */
  function BeforeCount(pc: int): Saved {
    match pc
    case 0 => Saved(0, BARE.(k1 := To(InCtx, 0, 0)), {}, 0)
    case 1 => Saved(1, BARE.(k6 := To(InCtx, 0, 0)), {}, 0)
    case 2 => Saved(3, BARE.(k1 := To(InData, 0, 0), k6 := To(InCtx, 0, 0)), {}, 0)
    case 3 => Saved(3, BARE.(k1 := To(InData, 0, 0), k6 := To(InCtx, 0, 0)), {}, 0)
    case 4 => Saved(4, BARE.(k1 := To(InData, 0, 0), k2 := ANY, k6 := To(InCtx, 0, 0)), {}, 0)
    case 5 => Saved(5, BARE.(k1 := To(InData, 0, 0), k2 := ANY, k3 := ANY, k6 := To(InCtx, 0, 0)), {}, 0)
    case 6 => Saved(6, BARE.(k1 := To(InData, 0, 0), k2 := ANY, k3 := ANY, k6 := To(InCtx, 0, 0)), {}, 0)
    case 7 => Saved(7, BARE.(k2 := ANY, k6 := To(InCtx, 0, 0)), {}, 0)
    case 8 => Saved(8, BARE.(k1 := ANY, k2 := ANY, k6 := To(InCtx, 0, 0)), {}, 0)
    case 9 => Saved(9, BARE.(k1 := ANY, k2 := ANY, k6 := To(InCtx, 0, 0)), Cells(504, 4), 0)
    case 10 => Saved(10, BARE.(k1 := ANY, k2 := ANY, k6 := To(InCtx, 0, 0)), Cells(500, 8), 0)
    case 11 => Saved(11, BARE.(k1 := ANY, k2 := ANY, k6 := To(InCtx, 0, 0)), Cells(496, 12), 0)
    case 12 => Saved(12, BARE.(k1 := ANY, k2 := ANY, k6 := To(InCtx, 0, 0)), Cells(492, 16), 0)
    case 13 => Saved(13, BARE.(k1 := ANY, k2 := ANY, k6 := To(InCtx, 0, 0)), Cells(488, 20), 0)
    case 14 => Saved(14, BARE.(k1 := ANY, k2 := ANY, k6 := To(InCtx, 0, 0)), Cells(484, 24), 0)
    case _ => Saved(15, BARE.(k2 := ANY, k6 := To(InCtx, 0, 0)), Cells(484, 28), 0)
  }

  /** Slots 16 to 29: process, user, and the lookup of the user's message. */
  function BeforeIdentify(pc: int): Saved {
    match pc
    case 16 => Saved(16, BARE.(k6 := To(InCtx, 0, 0)), Cells(480, 32), 0)
    case 17 => Saved(17, BARE.(k0 := ANY, k6 := To(InCtx, 0, 0)), Cells(480, 32), 0)
    case 18 => Saved(18, BARE.(k6 := To(InCtx, 0, 0)), Cells(472, 4) + Cells(480, 32), 0)
    case 19 => Saved(19, BARE.(k0 := ANY, k6 := To(InCtx, 0, 0)), Cells(472, 4) + Cells(480, 32), 0)
    case 20 => Saved(20, BARE.(k0 := ANY, k6 := To(InCtx, 0, 0)), OUTPUT, 0)
    case 21 => Saved(21, BARE.(k0 := ANY, k6 := To(InCtx, 0, 0)), OUTPUT, 0)
    case 22 => Saved(22, BARE.(k0 := ANY, k6 := To(InCtx, 0, 0)), OUTPUT, 0)
    case 23 => Saved(23, BARE.(k6 := To(InCtx, 0, 0)), SCRATCH, 0)
    case 24 => Saved(24, BARE.(k2 := TOP, k6 := To(InCtx, 0, 0)), SCRATCH, 0)
    case 25 => Saved(25, BARE.(k2 := Slot(-48), k6 := To(InCtx, 0, 0)), SCRATCH, 0)
    case 26 => Saved(27, BARE.(k1 := Map(MyConfig), k2 := Slot(-48), k6 := To(InCtx, 0, 0)), SCRATCH, 0)
    case 27 => Saved(27, BARE.(k1 := Map(MyConfig), k2 := Slot(-48), k6 := To(InCtx, 0, 0)), SCRATCH, 0)
    case 28 => Saved(28, BARE.(k0 := MaybeNull(MyConfig, ELEM_HEADER), k6 := To(InCtx, 0, 0)), SCRATCH, 0)
    case _ => Saved(29, BARE.(k6 := To(InCtx, 0, 0), k7 := MaybeNull(MyConfig, ELEM_HEADER)), SCRATCH, 0)
  }

  /** Slots 30 to 47; slot 46 stands for slot 47 as it is reached from slot 41. */
  function BeforeCopy(pc: int): Saved {
    match pc
    case 30 => Saved(30, BARE.(k6 := To(InCtx, 0, 0), k7 := To(InElem(MyConfig), ELEM_HEADER, ELEM_HEADER)), SCRATCH, 0)
    case 31 => Saved(31, BARE.(k3 := ANY, k6 := To(InCtx, 0, 0), k7 := To(InElem(MyConfig), ELEM_HEADER, ELEM_HEADER)), SCRATCH, 0)
    case 32 => Saved(32, BARE.(k3 := ANY, k6 := To(InCtx, 0, 0), k7 := To(InElem(MyConfig), ELEM_HEADER, ELEM_HEADER)), SCRATCH, 0)
    case 33 => Saved(33, BARE.(k3 := ANY, k6 := To(InCtx, 0, 0), k7 := To(InElem(MyConfig), ELEM_HEADER, ELEM_HEADER)), SCRATCH, 0)
    case 34 => Saved(35, BARE.(k1 := To(InRodata, 0, 0), k3 := ANY, k6 := To(InCtx, 0, 0), k7 := To(InElem(MyConfig), ELEM_HEADER, ELEM_HEADER)), SCRATCH, 0)
    case 35 => Saved(35, BARE.(k1 := To(InRodata, 0, 0), k3 := ANY, k6 := To(InCtx, 0, 0), k7 := To(InElem(MyConfig), ELEM_HEADER, ELEM_HEADER)), SCRATCH, 0)
    case 36 => Saved(36, BARE.(k1 := To(InRodata, 0, 0), k2 := Num(3, 3), k3 := ANY, k6 := To(InCtx, 0, 0), k7 := To(InElem(MyConfig), ELEM_HEADER, ELEM_HEADER)), SCRATCH, 0)
    case 37 => Saved(37, BARE.(k6 := To(InCtx, 0, 0), k7 := To(InElem(MyConfig), ELEM_HEADER, ELEM_HEADER)), SCRATCH, 0)
    case 38 => Saved(38, BARE.(k1 := TOP, k6 := To(InCtx, 0, 0), k7 := To(InElem(MyConfig), ELEM_HEADER, ELEM_HEADER)), SCRATCH, 0)
    case 39 => Saved(39, BARE.(k1 := Slot(-12), k6 := To(InCtx, 0, 0), k7 := To(InElem(MyConfig), ELEM_HEADER, ELEM_HEADER)), SCRATCH, 0)
    case 40 => Saved(40, BARE.(k1 := Slot(-12), k2 := Num(12, 12), k6 := To(InCtx, 0, 0), k7 := To(InElem(MyConfig), ELEM_HEADER, ELEM_HEADER)), SCRATCH, 0)
    case 41 => Saved(41, BARE.(k1 := Slot(-12), k2 := Num(12, 12), k3 := To(InElem(MyConfig), ELEM_HEADER, ELEM_HEADER), k6 := To(InCtx, 0, 0)), SCRATCH, 0)
    case 42 => Saved(42, BARE.(k6 := To(InCtx, 0, 0)), SCRATCH, 0)
    case 43 => Saved(43, BARE.(k1 := TOP, k6 := To(InCtx, 0, 0)), SCRATCH, 0)
    case 44 => Saved(44, BARE.(k1 := Slot(-12), k6 := To(InCtx, 0, 0)), SCRATCH, 0)
    case 45 => Saved(45, BARE.(k1 := Slot(-12), k2 := Num(12, 12), k6 := To(InCtx, 0, 0)), SCRATCH, 0)
    case 46 => Saved(47, BARE.(k1 := Slot(-12), k2 := Num(12, 12), k3 := To(InElem(MyConfig), ELEM_HEADER, ELEM_HEADER), k6 := To(InCtx, 0, 0)), SCRATCH, 0)
    case _ => Saved(47, BARE.(k1 := Slot(-12), k2 := Num(12, 12), k3 := To(InData, 4, 4), k6 := To(InCtx, 0, 0)), SCRATCH, 0)
  }

  /** Slots 48 to 63: c is loaded and compared, each time before it is used as an index. */
  function BeforeGlobal(pc: int): Saved {
    match pc
    case 48 => Saved(48, BARE.(k6 := To(InCtx, 0, 0)), SCRATCH, 0)
    case 49 => Saved(50, BARE.(k6 := To(InCtx, 0, 0), k7 := To(InData, 0, 0)), SCRATCH, 0)
    case 50 => Saved(50, BARE.(k6 := To(InCtx, 0, 0), k7 := To(InData, 0, 0)), SCRATCH, 0)
    case 51 => Saved(51, BARE.(k1 := WORD, k6 := To(InCtx, 0, 0), k7 := To(InData, 0, 0)), SCRATCH, 0)
    case 52 => Saved(52, BARE.(k1 := Num(0, 11), k6 := To(InCtx, 0, 0), k7 := To(InData, 0, 0)), SCRATCH, 0)
    case 53 => Saved(54, BARE.(k1 := Num(0, 11), k2 := To(InData, 4, 4), k6 := To(InCtx, 0, 0), k7 := To(InData, 0, 0)), SCRATCH, 0)
    case 54 => Saved(54, BARE.(k1 := Num(0, 11), k2 := To(InData, 4, 4), k6 := To(InCtx, 0, 0), k7 := To(InData, 0, 0)), SCRATCH, 0)
    case 55 => Saved(55, BARE.(k2 := To(InData, 4, 15), k6 := To(InCtx, 0, 0), k7 := To(InData, 0, 0)), SCRATCH, 0)
    case 56 => Saved(56, BARE.(k3 := ANY, k6 := To(InCtx, 0, 0), k7 := To(InData, 0, 0)), SCRATCH, 0)
    case 57 => Saved(57, BARE.(k3 := ANY, k6 := To(InCtx, 0, 0), k7 := To(InData, 0, 0)), SCRATCH, 0)
    case 58 => Saved(58, BARE.(k3 := ANY, k6 := To(InCtx, 0, 0), k7 := To(InData, 0, 0)), SCRATCH, 0)
    case 59 => Saved(60, BARE.(k1 := To(InRodata, 3, 3), k3 := ANY, k6 := To(InCtx, 0, 0), k7 := To(InData, 0, 0)), SCRATCH, 0)
    case 60 => Saved(60, BARE.(k1 := To(InRodata, 3, 3), k3 := ANY, k6 := To(InCtx, 0, 0), k7 := To(InData, 0, 0)), SCRATCH, 0)
    case 61 => Saved(61, BARE.(k1 := To(InRodata, 3, 3), k2 := Num(3, 3), k3 := ANY, k6 := To(InCtx, 0, 0), k7 := To(InData, 0, 0)), SCRATCH, 0)
    case 62 => Saved(62, BARE.(k6 := To(InCtx, 0, 0), k7 := To(InData, 0, 0)), SCRATCH, 0)
    case _ => Saved(63, BARE.(k1 := WORD, k6 := To(InCtx, 0, 0)), SCRATCH, 0)
  }

  /** Slots 64 to 88: the character at c of the copy, and the event. */
  function BeforeEmit(pc: int): Saved {
    match pc
    case 64 => Saved(64, BARE.(k1 := Num(0, 11), k6 := To(InCtx, 0, 0)), SCRATCH, 0)
    case 65 => Saved(65, BARE.(k1 := Num(0, 11), k2 := TOP, k6 := To(InCtx, 0, 0)), SCRATCH, 0)
    case 66 => Saved(66, BARE.(k1 := Num(0, 11), k2 := Slot(-40), k6 := To(InCtx, 0, 0)), SCRATCH, 0)
    case 67 => Saved(67, BARE.(k2 := To(InStack, 472, 483), k6 := To(InCtx, 0, 0)), SCRATCH, 0)
    case 68 => Saved(68, BARE.(k3 := ANY, k6 := To(InCtx, 0, 0)), SCRATCH, 0)
    case 69 => Saved(69, BARE.(k3 := ANY, k6 := To(InCtx, 0, 0)), SCRATCH, 0)
    case 70 => Saved(70, BARE.(k3 := ANY, k6 := To(InCtx, 0, 0)), SCRATCH, 0)
    case 71 => Saved(72, BARE.(k1 := To(InRodata, 6, 6), k3 := ANY, k6 := To(InCtx, 0, 0)), SCRATCH, 0)
    case 72 => Saved(72, BARE.(k1 := To(InRodata, 6, 6), k3 := ANY, k6 := To(InCtx, 0, 0)), SCRATCH, 0)
    case 73 => Saved(73, BARE.(k1 := To(InRodata, 6, 6), k2 := Num(3, 3), k3 := ANY, k6 := To(InCtx, 0, 0)), SCRATCH, 0)
    case 74 => Saved(74, BARE.(k6 := To(InCtx, 0, 0)), SCRATCH, 0)
    case 75 => Saved(75, BARE.(k1 := TOP, k6 := To(InCtx, 0, 0)), SCRATCH, 0)
    case 76 => Saved(76, BARE.(k1 := Slot(-28), k6 := To(InCtx, 0, 0)), SCRATCH, 0)
    case 77 => Saved(77, BARE.(k1 := Slot(-28), k2 := Num(16, 16), k6 := To(InCtx, 0, 0)), SCRATCH, 0)
    case 78 => Saved(78, BARE.(k6 := To(InCtx, 0, 0)), SCRATCH, 0)
    case 79 => Saved(79, BARE.(k4 := TOP, k6 := To(InCtx, 0, 0)), SCRATCH, 0)
    case 80 => Saved(80, BARE.(k4 := Slot(-40), k6 := To(InCtx, 0, 0)), SCRATCH, 0)
    case 81 => Saved(81, BARE.(k1 := To(InCtx, 0, 0), k4 := Slot(-40)), SCRATCH, 0)
    case 82 => Saved(83, BARE.(k1 := To(InCtx, 0, 0), k2 := Map(OutputMap), k4 := Slot(-40)), SCRATCH, 0)
    case 83 => Saved(83, BARE.(k1 := To(InCtx, 0, 0), k2 := Map(OutputMap), k4 := Slot(-40)), SCRATCH, 0)
    case 84 => Saved(85, BARE.(k1 := To(InCtx, 0, 0), k2 := Map(OutputMap), k3 := ANY, k4 := Slot(-40)), SCRATCH, 0)
    case 85 => Saved(85, BARE.(k1 := To(InCtx, 0, 0), k2 := Map(OutputMap), k3 := ANY, k4 := Slot(-40)), SCRATCH, 0)
    case 86 => Saved(86, BARE.(k1 := To(InCtx, 0, 0), k2 := Map(OutputMap), k3 := ANY, k4 := Slot(-40), k5 := Num(40, 40)), SCRATCH, 0)
    case 87 => Saved(87, BARE, {}, 0)
    case _ => Saved(88, BARE.(k0 := ANY), {}, 0)
  }

  /** What needs to be known before each slot; the second slot of a wide load repeats the next. */
  function Before(pc: int): Saved {
    if pc < 16 then BeforeCount(pc) else if pc < 30 then BeforeIdentify(pc) else if pc < 48 then BeforeCopy(pc)
    else if pc < 64 then BeforeGlobal(pc) else BeforeEmit(pc)
  }

  /** The record holds the slots from the last to the first. */
  function EntryAt(i: int): Saved {
    Before(88 - i)
  }

  const RECORD: seq<Saved> := seq(89, EntryAt)

  /** At most this many instructions are processed from slot pc on, all branches included. */
  function Weight(pc: int): nat {
    if pc > 88 then 0 else if pc > 63 then 89 - pc else if pc > 51 then if pc == 63 then 51 else 114 - pc
    else if pc > 29 then 176 - pc else if pc == 29 then 293 else 322 - pc
  }

  function WeightAt(i: int): nat {
    Weight(88 - i)
  }

  const WEIGHTS: seq<nat> := seq(89, i => WeightAt(i))

  lemma Formats(ld: Loaded)
    requires RodataOk(ld.rodata)
    ensures Conversions(ld.rodata[0..3]) == Conversions(ld.rodata[3..6]) == Conversions(ld.rodata[6..9]) == 1
  {
    FormatsOk();
  }

  lemma CountSums(ld: Loaded, pc: nat)
    requires pc in {0, 1, 4, 5, 7}
    ensures Leads(ld, KprobeObjectAt(pc), Before(pc), Before(pc + 1))
  {
    hide CheckCall, CheckTest, LoadKind, SetBy, Writable, Cells, BeforeIdentify, BeforeCopy, BeforeGlobal, BeforeEmit, IdentifyAt, CopyAt, GlobalAt, EmitAt;
  }

  lemma IdentifySums(ld: Loaded, pc: nat)
    requires pc in {20, 21, 23, 24, 25, 28}
    ensures Leads(ld, KprobeObjectAt(pc), Before(pc), Before(pc + 1))
  {
    hide CheckCall, CheckTest, LoadKind, SetBy, Writable, Cells, BeforeCount, BeforeCopy, BeforeGlobal, BeforeEmit, CountAt, CopyAt, GlobalAt, EmitAt;
  }

  lemma CopySums(ld: Loaded, pc: nat)
    requires pc in {31, 32, 33, 35, 37, 38, 39, 40, 42, 43, 44}
    ensures Leads(ld, KprobeObjectAt(pc), Before(pc), Before(pc + 1))
  {
    hide CheckCall, CheckTest, LoadKind, SetBy, Writable, Cells, BeforeCount, BeforeIdentify, BeforeGlobal, BeforeEmit, CountAt, IdentifyAt, GlobalAt, EmitAt;
  }

  lemma GlobalSums(ld: Loaded, pc: nat)
    requires pc in {48, 52, 54, 56, 57, 58, 60}
    ensures Leads(ld, KprobeObjectAt(pc), Before(pc), Before(pc + 1))
  {
    hide CheckCall, CheckTest, LoadKind, SetBy, Writable, Cells, BeforeCount, BeforeIdentify, BeforeCopy, BeforeEmit, CountAt, IdentifyAt, CopyAt, EmitAt;
  }

  lemma EmitFirst(ld: Loaded, pc: nat)
    requires pc in {64, 65, 66, 68, 69, 70, 72, 74, 75}
    ensures Leads(ld, KprobeObjectAt(pc), Before(pc), Before(pc + 1))
  {
    hide CheckCall, CheckTest, LoadKind, SetBy, Writable, Cells, BeforeCount, BeforeIdentify, BeforeCopy, BeforeGlobal, CountAt, IdentifyAt, CopyAt, GlobalAt;
  }

  lemma EmitLast(ld: Loaded, pc: nat)
    requires pc in {76, 78, 79, 80, 81, 83, 85, 87}
    ensures Leads(ld, KprobeObjectAt(pc), Before(pc), Before(pc + 1))
  {
    hide CheckCall, CheckTest, LoadKind, SetBy, Writable, Cells, BeforeCount, BeforeIdentify, BeforeCopy, BeforeGlobal, CountAt, IdentifyAt, CopyAt, GlobalAt;
  }

  lemma EmitSums(ld: Loaded, pc: nat)
    requires pc in {64, 65, 66, 68, 69, 70, 72, 74, 75, 76, 78, 79, 80, 81, 83, 85, 87}
    ensures Leads(ld, KprobeObjectAt(pc), Before(pc), Before(pc + 1))
  {
    hide Leads, KprobeObjectAt, Before;
    if pc < 76 { EmitFirst(ld, pc); } else { EmitLast(ld, pc); }
  }

  lemma LoadMessage(ld: Loaded)
    ensures Leads(ld, KprobeObjectAt(45), Before(45), Before(47))
  {
    hide CheckCall, CheckTest, LoadKind, SetBy, Writable, Cells;
  }

  /** Where slot pc stores a word of the frame. */
  function Place(pc: int): int {
    if pc <= 13 then 536 - 4 * pc else if pc == 14 then 508 else if pc == 15 then 480 else if pc == 17 then 472 else 476
  }

  lemma InitGrows(pc: nat)
    requires pc in {8, 9, 10, 11, 12, 13, 14, 15, 17, 19}
    ensures Before(pc + 1).init == Before(pc).init + Cells(Place(pc), 4)
  {
    hide Cells;
    CellsJoin(500, 4, 4);
    CellsJoin(496, 4, 8);
    CellsJoin(492, 4, 12);
    CellsJoin(488, 4, 16);
    CellsJoin(484, 4, 20);
    CellsJoin(484, 24, 4);
    CellsJoin(480, 4, 28);
    CellsJoin(472, 4, 4);
    CellsJoin(472, 8, 32);
  }

  lemma StoreWord(ld: Loaded, pc: nat)
    requires pc in {8, 9, 10, 11, 12, 13, 14, 15, 17, 19}
    ensures Leads(ld, KprobeObjectAt(pc), Before(pc), Before(pc + 1))
  {
    hide CheckCall, CheckTest, LoadKind, Cells, BeforeCopy, BeforeGlobal, BeforeEmit, CopyAt, GlobalAt, EmitAt;
    InitGrows(pc);
  }

  lemma StoreKey(ld: Loaded)
    ensures Leads(ld, KprobeObjectAt(22), Before(22), Before(23))
  {
    hide CheckCall, CheckTest, LoadKind, Cells;
    CellsJoin(464, 8, 40);
  }

  /** The global c is read and written inside the data section. */
  lemma DataAccess(ld: Loaded, pc: nat)
    requires pc in {3, 6, 50, 62} && ld.dataSize >= 16
    ensures Leads(ld, KprobeObjectAt(pc), Before(pc), Before(pc + 1))
  {
    hide CheckCall, CheckTest, Cells, BeforeCopy, BeforeEmit, IdentifyAt, CopyAt, EmitAt;
  }

  /** The loads of single characters: of the element, of message[c] and of data.message[c]. */
  lemma CharLoads(ld: Loaded, pc: nat)
    requires pc in {30, 55, 67} && ld.dataSize >= 16
    ensures Leads(ld, KprobeObjectAt(pc), Before(pc), Before(pc + 1))
  {
    hide CheckCall, CheckTest, Cells, BeforeCount, BeforeIdentify, CountAt, IdentifyAt;
    CellsAre(464, 48);
  }

  lemma Asks(ld: Loaded, pc: nat)
    requires pc in {16, 18, 27}
    ensures Leads(ld, KprobeObjectAt(pc), Before(pc), Before(pc + 1))
  {
    hide CheckTest, LoadKind, Conversions, Cells, BeforeCopy, BeforeGlobal, BeforeEmit, CopyAt, GlobalAt, EmitAt;
    CellsAre(464, 48);
  }

  lemma Prints(ld: Loaded, pc: nat)
    requires pc in {36, 61, 73} && RodataOk(ld.rodata)
    ensures Leads(ld, KprobeObjectAt(pc), Before(pc), Before(pc + 1))
  {
    hide CheckTest, LoadKind, Conversions, Cells, BeforeCount, BeforeIdentify, CountAt, IdentifyAt;
    Formats(ld);
  }

  lemma Fills(ld: Loaded, pc: nat)
    requires pc in {46, 47, 77}
    ensures Leads(ld, KprobeObjectAt(Before(pc).pc), Before(pc), Before(Before(pc).pc + 1))
  {
    hide CheckTest, LoadKind, Conversions, Cells, BeforeCount, BeforeIdentify, CountAt, IdentifyAt;
  }

  lemma Output(ld: Loaded)
    ensures Leads(ld, KprobeObjectAt(86), Before(86), Before(87))
  {
    hide CheckTest, LoadKind, Conversions, Cells, BeforeCount, BeforeIdentify, BeforeCopy, BeforeGlobal;
    CellsAre(464, 48);
  }

  lemma Goto(ld: Loaded)
    ensures Leads(ld, KprobeObjectAt(41), Before(41), Before(46))
  {
    hide CheckTest, CheckCall, LoadKind, Conversions, Cells;
  }

  /** A branch leads to the next slot or to slot target. */
  predicate Branches(ld: Loaded, pc: nat, target: nat) {
    var next := Check(ld, KprobeObjectAt(pc), Before(pc));
    next.Some? && |next.value| == 2 && Includes(Before(pc + 1), next.value[0]) && Includes(Before(target), next.value[1])
  }

  lemma Tests(ld: Loaded, pc: nat)
    requires pc in {29, 51, 63}
    ensures Branches(ld, pc, if pc == 29 then 42 else 74)
  {
    hide CheckCall, LoadKind, Conversions, Cells;
  }

  lemma Ends(ld: Loaded)
    ensures Check(ld, KprobeObjectAt(88), Before(88)) == Some([])
  {
    hide Cells, CheckCall, CheckTest, LoadKind, SetBy, Writable, AluKind, CountAt, IdentifyAt, CopyAt, GlobalAt, BeforeCount, BeforeIdentify, BeforeCopy, BeforeGlobal;
  }

  predicate SecondSlot(pc: nat) {
    pc in {2, 26, 34, 49, 53, 59, 71, 82, 84}
  }

  lemma Slots(pc: nat)
    requires pc < 89
    ensures Before(pc).pc == if SecondSlot(pc) || pc == 46 then pc + 1 else pc
    ensures SecondSlot(pc) ==> Before(pc) == Before(pc + 1)
  {
    hide Cells;
  }

  /** The way on from a slot that neither branches nor ends. */
  lemma OneWay(ld: Loaded, pc: nat)
    requires pc < 88 && !SecondSlot(pc) && pc !in {29, 41, 45, 46, 51, 63}
    requires ld.dataSize >= 16 && RodataOk(ld.rodata)
    ensures Leads(ld, KprobeObjectAt(pc), Before(pc), Before(pc + 1))
  {
    hide Leads, KprobeObjectAt, Before, RodataOk;
    if pc in {8, 9, 10, 11, 12, 13, 14, 15, 17, 19} { StoreWord(ld, pc); }
    else if pc in {3, 6, 50, 62} { DataAccess(ld, pc); }
    else if pc in {30, 55, 67} { CharLoads(ld, pc); }
    else if pc in {16, 18, 27} { Asks(ld, pc); }
    else if pc in {36, 61, 73} { Prints(ld, pc); }
    else if pc == 47 || pc == 77 { FillAt(ld, pc); }
    else if pc == 22 { StoreKey(ld); }
    else if pc == 86 { Output(ld); }
    else if pc < 16 { CountSums(ld, pc); }
    else if pc < 30 { IdentifySums(ld, pc); }
    else if pc < 48 { CopySums(ld, pc); }
    else if pc < 64 { GlobalSums(ld, pc); }
    else { EmitSums(ld, pc); }
  }

  lemma FillAt(ld: Loaded, pc: nat)
    requires pc == 47 || pc == 77
    ensures Leads(ld, KprobeObjectAt(pc), Before(pc), Before(pc + 1))
  {
    hide Leads, KprobeObjectAt, Before;
    Slots(pc);
    Fills(ld, pc);
  }

  /** The one way on from slot pc of the record, and where it leads. */
  lemma Single(ld: Loaded, pc: nat) returns (q: nat)
    requires pc < 88 && !SecondSlot(pc) && pc !in {29, 51, 63}
    requires ld.dataSize >= 16 && RodataOk(ld.rodata)
    ensures pc < q < 89 && Leads(ld, KprobeObjectAt(Before(pc).pc), Before(pc), Before(q))
  {
    hide Leads, KprobeObjectAt, Before, RodataOk;
    Slots(pc);
    if pc == 41 { Goto(ld); q := 46; }
    else if pc == 45 { LoadMessage(ld); q := 47; }
    else if pc == 46 { Fills(ld, 46); q := 48; }
    else { OneWay(ld, pc); q := pc + 1; }
  }

  lemma SlotOk(ld: Loaded, pc: nat)
    requires pc < 89 && !SecondSlot(pc) && ld.dataSize >= 16 && RodataOk(ld.rodata)
    ensures EntryWeighs(ld, KPROBE_OBJECT, RECORD, WEIGHTS, 88 - pc)
  {
    hide Check, KprobeObjectAt, Before, Includes, Lighter, RodataOk, Fan;
    Slots(pc);
    var i, at := 88 - pc, Before(pc).pc;
    assert RECORD[i] == Before(pc);
    OneTest(at);
    var next := Check(ld, KPROBE_OBJECT[at], RECORD[i]);
    if pc == 88 {
      Ends(ld);
    } else if pc in {29, 51, 63} {
      var target := if pc == 29 then 42 else 74;
      Tests(ld, pc);
      assert RECORD[87 - pc] == Before(pc + 1) && RECORD[88 - target] == Before(target);
      LighterBy(KPROBE_OBJECT, RECORD, WEIGHTS, i, 87 - pc, next.value[0]);
      LighterBy(KPROBE_OBJECT, RECORD, WEIGHTS, i, 88 - target, next.value[1]);
    } else {
      var q := Single(ld, pc);
      assert RECORD[88 - q] == Before(q);
      WeightFalls(pc, q);
      LighterBy(KPROBE_OBJECT, RECORD, WEIGHTS, i, 88 - q, next.value[0]);
    }
  }

  lemma WeightFalls(pc: nat, q: nat)
    requires pc < q < 89
    ensures Weight(q) < Weight(pc)
  {
  }

  lemma OneTest(pc: int)
    ensures Fan(KPROBE_OBJECT, pc) == if pc in {29, 51, 63} then 2 else 1
  {
  }

  /** The entry for the second slot of a wide load repeats the one before it. */
  lemma SecondOk(ld: Loaded, pc: nat)
    requires pc < 88 && SecondSlot(pc) && ld.dataSize >= 16 && RodataOk(ld.rodata)
    ensures EntryWeighs(ld, KPROBE_OBJECT, RECORD, WEIGHTS, 88 - pc)
  {
    hide Check, KprobeObjectAt, Before, Includes, RodataOk, Fan;
    Slots(pc);
    var i := 88 - pc;
    SlotOk(ld, pc + 1);
    WeightFalls(pc, pc + 1);
    assert RECORD[i] == Before(pc) == Before(pc + 1) == RECORD[i - 1];
    var next := CheckAt(ld, KPROBE_OBJECT, RECORD[i]).value;
    forall k | 0 <= k < |next| ensures Lighter(KPROBE_OBJECT, RECORD, WEIGHTS, i, next[k]) {
      assert Lighter(KPROBE_OBJECT, RECORD, WEIGHTS, i - 1, next[k]);
    }
  }

  lemma StartsAtEntry()
    ensures Includes(Before(0), ENTRY)
  {
    hide Cells;
  }

  lemma KprobeWeighted(ld: Loaded)
    requires ld.dataSize >= 16 && RodataOk(ld.rodata)
    ensures Weighted(ld, KPROBE_OBJECT, RECORD, WEIGHTS) && Includes(RECORD[88], ENTRY)
  {
    hide EntryWeighs, Includes, Before, KprobeObjectAt, SecondSlot, RodataOk;
    StartsAtEntry();
    assert RECORD[88] == Before(0);
    forall i: nat | i < 89 ensures EntryWeighs(ld, KPROBE_OBJECT, RECORD, WEIGHTS, i) {
      if SecondSlot(88 - i) { NotLast(88 - i); SecondOk(ld, 88 - i); } else { SlotOk(ld, 88 - i); }
    }
  }

  /** The record is complete, whatever the global variables hold. */
  lemma KprobeCertified(ld: Loaded)
    requires ld.dataSize >= 16 && RodataOk(ld.rodata)
    ensures Certified(ld, KPROBE_OBJECT, RECORD)
  {
    hide Weighted, Includes, Certified, RodataOk;
    KprobeWeighted(ld);
    WeightedCertified(ld, KPROBE_OBJECT, RECORD, WEIGHTS, 88);
  }

  /** The verifier accepts kprobe_exec, after at most 322 instructions. */
  lemma KprobeAccepted(ld: Loaded)
    requires ld.dataSize >= 16 && RodataOk(ld.rodata)
    ensures Walk(ld, KPROBE_OBJECT, [Visit(ENTRY)], [], 0, 322).Accepted?
    ensures Walk(ld, KPROBE_OBJECT, [Visit(ENTRY)], [], 0, 1_000_000).Accepted?
  {
    hide Weighted, Includes, Walk, RodataOk;
    KprobeWeighted(ld);
    assert WEIGHTS[88] == 322;
    WeightedAccepted(ld, KPROBE_OBJECT, RECORD, WEIGHTS, 88, 322);
    WeightedAccepted(ld, KPROBE_OBJECT, RECORD, WEIGHTS, 88, 1_000_000);
  }

  lemma NotLast(pc: nat)
    requires SecondSlot(pc)
    ensures pc < 88
  {
  }

  /** No run of kprobe_exec faults, and every run ends within 89 steps, whatever the helpers
      answer and other CPUs do to c, message and the tables between its instructions. So
      both indexed loads stay inside the arrays, and all 40 bytes of the event are set. */
  lemma KprobeSafeAmongOthers(mem: Memory, o: Oracle, others: Others, n: nat)
    requires MemoryOk(mem) && Lawful(others) && |mem.data| >= 16 && RodataOk(mem.rodata)
    ensures RunAmong(KPROBE_OBJECT, o, others, Running(Entry(mem)), 0, 89).Exited?
    ensures !RunAmong(KPROBE_OBJECT, o, others, Running(Entry(mem)), 0, n).Error?
  {
    hide Certified, Lawful, RunAmong, Entry, RodataOk;
    KprobeCertified(Loaded(|mem.data|, mem.rodata));
    VerifiedIsSafe(Loaded(|mem.data|, mem.rodata), KPROBE_OBJECT, RECORD, mem, o, others, n);
  }

  lemma IndexBounds(i: nat)
    requires i < 89
    ensures RECORD[i].pc == 55 ==> RECORD[i].kinds.k2 == To(InData, 4, 15)
    ensures RECORD[i].pc == 67 ==> RECORD[i].kinds.k2 == To(InStack, 472, 483)
  {
    hide Cells;
  }

  /** Whenever slot 55 or 67 is about to be executed, the byte that it loads is one of the
      twelve of message (offsets 4 to 15 of the data section) or of data.message (the last
      twelve of the frame), whatever other CPUs have done to c. */
  lemma IndexedLoadsInside(mem: Memory, o: Oracle, others: Others, n: nat)
    requires MemoryOk(mem) && Lawful(others) && |mem.data| >= 16 && RodataOk(mem.rodata)
    ensures var st := RunAmong(KPROBE_OBJECT, o, others, Running(Entry(mem)), 0, n);
            st.Running? ==>
              && (st.s.pc == 55 ==> st.s.regs.r2.Ptr? && st.s.regs.r2.region == Data && 4 <= st.s.regs.r2.off < 16)
              && (st.s.pc == 67 ==> st.s.regs.r2.Ptr? && st.s.regs.r2.region == Stack && 500 <= st.s.regs.r2.off + 28 < 512)
  {
    hide Certified, Lawful, RunAmong, Entry, RodataOk, Before;
    var ld := Loaded(|mem.data|, mem.rodata);
    KprobeCertified(ld);
    var j := RunDescribed(ld, KPROBE_OBJECT, RECORD, mem, o, others, n);
    if j < 89 { IndexBounds(j); }
  }
}
