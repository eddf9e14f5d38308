/** Memory operands, the micro-operations that access them, and what those micro-operations do to a machine. */
module X86Uops {
  import opened Bits

  const TWO32: nat := 0x1_0000_0000
  const TWO64: nat := 0x1_0000_0000_0000_0000

  datatype Reg = Gpr(n: nat) | Rip | Zero | Temp6 | Temp8 | Imm | Ctx | Mem | Other(id: nat)

  datatype Segment = ES | CS | SS | DS | FS | GS

  datatype Prefix = RepZ | RepNZ | Lock | SegmentOverride(seg: Segment) | DataSize | AddrSize | RexPrefix | FWait

  /** A decoded memory operand: base + index * 2^scale + offset, accessed in units of 2^size bytes. */
  datatype MemRef = MemRef(basereg: Reg, indexreg: Reg, offset: int, scale: nat, size: nat)

  datatype Opcode = OpAdd | OpAdda | OpLd | OpLdx | OpLdPre | OpSt

  predicate IsLoad(op: Opcode) { op == OpLd || op == OpLdx }
  predicate IsStore(op: Opcode) { op == OpSt }

  datatype TransOp = TransOp(op: Opcode, rd: Reg, ra: Reg, rb: Reg, rc: Reg, size: nat, rbimm: int, extshift: nat,
      internal: bool, locked: bool)

  function Uop(op: Opcode, rd: Reg, ra: Reg, rb: Reg, rc: Reg, size: nat, rbimm: int): TransOp {
    TransOp(op, rd, ra, rb, rc, size, rbimm, 0, false, false)
  }

  // ---------------------------------------------------------------- what micro-operations do

  /** A load, a store or a prefetch that has been carried out. */
  datatype Access = Access(op: Opcode, address: nat, size: nat, data: int)

  /** Registers, the context block (where segment bases are kept), what loads return, and the accesses so far. */
  datatype Machine = Machine(regs: Reg -> int, context: int -> int, loaded: (nat, nat) -> int, accesses: seq<Access>)

  function Operand(u: TransOp, m: Machine, r: Reg): int {
    match r
    case Zero => 0
    case Imm => u.rbimm
    case _ => m.regs(r)
  }

  function SetReg(m: Machine, rd: Reg, v: int): Machine {
    m.(regs := r => if r == rd then v else m.regs(r))
  }

  /** How many values `2^size` bytes have. */
  function Width(size: nat): int {
    if size == 0 then 0x100 else if size == 1 then 0x1_0000 else if size == 2 then TWO32 else TWO64
  }

  /** The value that is left in `2^size` bytes. */
  function Cut(v: int, size: nat): int {
    if size == 0 then v % 0x100 else if size == 1 then v % 0x1_0000 else if size == 2 then v % TWO32 else v % TWO64
  }

  /**
   * Add is ra + rb and adda ra + rb + (rc << extshift), both cut to the operation's size; memory operations access
   * ra + rb, but internal loads read the context block.
   */
  function Step(u: TransOp, m: Machine): Machine {
    var ra, rb, rc := Operand(u, m, u.ra), Operand(u, m, u.rb), Operand(u, m, u.rc);
    match u.op
    case OpAdd => SetReg(m, u.rd, Cut(ra + rb, u.size))
    case OpAdda => SetReg(m, u.rd, Cut(ra + rb + Up(rc, u.extshift), u.size))
    case _ =>
      if u.internal then SetReg(m, u.rd, if u.size == 3 then m.context(u.rbimm) else Cut(m.context(u.rbimm), u.size))
      else
        var address := (ra + rb) % TWO64;
        var m1 := m.(accesses := m.accesses + [Access(u.op, address, u.size, if u.op == OpSt then rc else 0)]);
        if u.op == OpSt then m1 else SetReg(m1, u.rd, m.loaded(address, u.size))
  }

  function Run(uops: seq<TransOp>, m: Machine): Machine {
    if uops == [] then m else Step(uops[|uops|-1], Run(uops[..|uops|-1], m))
  }

  lemma RunAppend(uops: seq<TransOp>, u: TransOp, m: Machine)
    ensures Run(uops + [u], m) == Step(u, Run(uops, m))
  {
    assert (uops + [u])[..|uops|] == uops;
  }

  // ---------------------------------------------------------------- what is generated for an operand

  /** The segment the prefixes choose, in the order in which they are looked for. */
  function ChosenSegment(prefixes: set<Prefix>): (s: seq<Segment>)
    ensures |s| <= 1
  {
    if SegmentOverride(FS) in prefixes then [FS]
    else if SegmentOverride(GS) in prefixes then [GS]
    else if SegmentOverride(DS) in prefixes then [DS]
    else if SegmentOverride(SS) in prefixes then [SS]
    else if SegmentOverride(ES) in prefixes then [ES]
    else if SegmentOverride(CS) in prefixes then [CS]
    else []
  }

  /** Where the base of a segment is in the context block. */
  function BaseSlot(s: Segment): int {
    match s
    case ES => 0 case CS => 1 case SS => 2 case DS => 3 case FS => 4 case GS => 5
  }

  function SegmentBase(prefixes: set<Prefix>, m: Machine): int {
    var s := ChosenSegment(prefixes);
    if s == [] then 0 else m.context(BaseSlot(s[0]))
  }

  function Bias(prefixes: set<Prefix>, basereg: Reg): (r: (seq<TransOp>, Reg))
    ensures |r.0| <= 2
  {
    var s := ChosenSegment(prefixes);
    if s == [] then ([], basereg)
    else
      ([Uop(OpLd, Temp6, Ctx, Imm, Zero, 3, BaseSlot(s[0])).(internal := true),
          Uop(OpAdd, Temp6, Temp6, basereg, Zero, 3, 0)], Temp6)
  }

  predicate IsMemop(op: Opcode) {
    IsLoad(op) || IsStore(op) || op == OpLdPre
  }

  /** The immediate is a multiple of the access size and fits its field. */
  predicate Encodable(offset: int, size: nat, bits: nat)
    requires bits >= 1
  {
    offset % Pow2(size) == 0 && -(Pow2(bits - 1) as int) <= offset / Pow2(size) <= Pow2(bits - 1) as int - 1
  }

  function Final(op: Opcode, rd: Reg, ra: Reg, rc: Reg, size: nat, offset: int, locked: bool): TransOp {
    Uop(op, rd, ra, Imm, rc, size, offset).(locked := locked)
  }

  /** The four addressing forms, from a base register that has its bias already. */
  function Addressed(locked: bool, rip: nat, op: Opcode, rd: Reg, rc: Reg, mem: MemRef, base: Reg): (r: seq<TransOp>)
    ensures |r| <= 3
  {
    var memop := IsMemop(op);
    var encodable := Encodable(mem.offset, mem.size, if memop then 32 else 64);
    var temp := if memop then Temp8 else rd;
    var access := if memop then [Final(op, rd, temp, rc, mem.size, 0, locked)] else [];
    if mem.basereg == Rip then
      [Uop(OpAdd, temp, base, Imm, Zero, 3, rip + mem.offset)] + access
    else if mem.indexreg == Zero then
      if encodable then [Final(op, rd, base, rc, mem.size, mem.offset, locked)]
      else [Uop(OpAdd, Temp8, base, Imm, Zero, 3, mem.offset)] + [Final(op, rd, Temp8, rc, mem.size, 0, locked)]
    else if mem.offset == 0 then
      [if mem.scale > 0
          then Uop(OpAdda, temp, base, Zero, mem.indexreg, if memop then 3 else mem.size, 0).(extshift := mem.scale)
       else Uop(OpAdd, temp, base, mem.indexreg, Zero, if memop then 3 else mem.size, 0)]
      + access
    else if encodable then
      [Uop(OpAdda, Temp8, base, Zero, mem.indexreg, 3, 0).(extshift := mem.scale)]
      + [Final(op, rd, Temp8, rc, mem.size, mem.offset, locked)]
    else
      [Uop(OpAdd, Temp8, base, Imm, Zero, 3, mem.offset)]
      + [Uop(OpAdda, Temp8, Temp8, Zero, mem.indexreg, 3, 0).(extshift := mem.scale)]
      + [Final(op, rd, Temp8, rc, mem.size, 0, locked)]
  }

  /** The micro-operations for one access, or, for an add, for one address. */
  function Generated(prefixes: set<Prefix>, rip: nat, op: Opcode, rd: Reg, rc: Reg, mem: MemRef,
                     force: bool): seq<TransOp> {
    var start := if mem.basereg == Rip then Zero else mem.basereg;
    var (bias, base) := if force || IsMemop(op) then Bias(prefixes, start) else ([], start);
    bias + Addressed(Lock in prefixes, rip, op, rd, rc, mem, base)
  }

  // ---------------------------------------------------------------- the address theorem

  /** What the operand means: base + index * 2^scale + offset, where the base may be the instruction pointer. */
  function Linear(mem: MemRef, regs: Reg -> int, rip: nat): int {
    (match mem.basereg case Rip => rip case Zero => 0 case _ => regs(mem.basereg))
    + (if mem.indexreg == Zero then 0 else Up(regs(mem.indexreg), mem.scale))
    + mem.offset
  }

  /** Operands as the decoder makes them: architectural registers, and no index with the instruction pointer. */
  predicate WellFormed(mem: MemRef) {
    && (mem.basereg.Gpr? || mem.basereg == Rip || mem.basereg == Zero)
    && (mem.indexreg.Gpr? || mem.indexreg == Zero)
    && (mem.basereg == Rip ==> mem.indexreg == Zero)
    && mem.scale <= 3 && mem.size <= 3
  }

  /** A register not among those the generated code may change. */
  predicate Kept(r: Reg, rd: Reg) {
    r != Temp6 && r != Temp8 && r != rd
  }

  lemma ModAdd(a: int, b: int)
    ensures (a % TWO64 + b) % TWO64 == (a + b) % TWO64
  {
  }

  lemma RunOne(u: TransOp, m: Machine)
    ensures Run([u], m) == Step(u, m)
  {
    assert [u][..0] == [];
  }

  /** `m'` differs from `m` at most in the given registers. */
  ghost predicate OnlyChanged(m: Machine, m': Machine, rd: Reg, withRd: bool) {
    && m'.accesses == m.accesses && m'.context == m.context && m'.loaded == m.loaded
    && forall r: Reg :: r != Temp6 && r != Temp8 && (withRd ==> r != rd) ==> m'.regs(r) == m.regs(r)
  }

  function BaseValue(m: Machine, r: Reg): int {
    if r == Zero then 0 else m.regs(r)
  }

  /** After the bias, the new base register stands for the segment base plus the old one. */
  lemma RunBias(prefixes: set<Prefix>, basereg: Reg, m: Machine, force: bool)
    requires basereg.Gpr? || basereg == Zero
    ensures var (bias, base) := if force then Bias(prefixes, basereg) else ([], basereg);
            var m' := Run(bias, m);
            && OnlyChanged(m, m', Zero, false) && base != Temp8 && base != Imm
            && BaseValue(m', base) % TWO64
                == ((if force then SegmentBase(prefixes, m) else 0) + BaseValue(m, basereg)) % TWO64
  {
    var s := ChosenSegment(prefixes);
    if force && s != [] {
      var u := Uop(OpLd, Temp6, Ctx, Imm, Zero, 3, BaseSlot(s[0])).(internal := true);
      var v := Uop(OpAdd, Temp6, Temp6, basereg, Zero, 3, 0);
      assert [u, v] == [u] + [v];
      RunAppend([u], v, m);
      RunOne(u, m);
    } else {
      assert Run([], m) == m;
    }
  }

  /** Base plus displacement, into the temporary. */
  lemma StepOffset(u: TransOp, m: Machine, target: int)
    requires u.op == OpAdd && u.rd == Temp8 && u.rb == Imm && u.ra != Imm && u.size == 3
    requires (BaseValue(m, u.ra) + u.rbimm) % TWO64 == target % TWO64
    ensures OnlyChanged(m, Step(u, m), Zero, false) && Step(u, m).regs(Temp8) == target % TWO64
  {
  }

  /** The access itself. */
  lemma StepAccess(u: TransOp, m: Machine, target: int)
    requires IsMemop(u.op) && u.ra != Imm && !u.internal && u.rb == Imm
    requires (BaseValue(m, u.ra) + u.rbimm) % TWO64 == target % TWO64
    ensures var m' := Step(u, m);
            && m'.accesses
                == m.accesses + [Access(u.op, target % TWO64, u.size, if u.op == OpSt then Operand(u, m, u.rc) else 0)]
            && (forall r: Reg :: r != u.rd || u.op == OpSt ==> m'.regs(r) == m.regs(r))
            && (u.op == OpSt || m'.regs(u.rd) == m.loaded(target % TWO64, u.size))
  {
  }

  /** Base plus scaled index, into the temporary. */
  lemma StepIndex(u: TransOp, m: Machine, target: int)
    requires u.rd == Temp8 && u.ra != Imm && u.size == 3
    requires (u.op == OpAdda && u.rb == Zero && u.rc.Gpr?) || (u.op == OpAdd && u.rb.Gpr? && u.extshift == 0)
    requires var index := if u.op == OpAdda then u.rc else u.rb;
             (BaseValue(m, u.ra) + Up(m.regs(index), u.extshift)) % TWO64 == target % TWO64
    ensures OnlyChanged(m, Step(u, m), Zero, false) && Step(u, m).regs(Temp8) == target % TWO64
  {
  }

  /** A store takes its data from any register but the two temporaries and the stand-in for an immediate value. */
  predicate LastAccess(a: Access, m: Machine, op: Opcode, rc: Reg, size: nat, address: nat) {
    && a.op == op && a.address == address && a.size == size
    && (op == OpSt && rc != Temp6 && rc != Temp8 && rc != Imm ==> a.data == BaseValue(m, rc))
  }

  /** One memory access, at `address`, and no other change but to the temporaries and the destination. */
  ghost predicate AccessesAt(m: Machine, m': Machine, op: Opcode, rd: Reg, rc: Reg, size: nat, address: nat) {
    && |m'.accesses| == |m.accesses| + 1 && m'.accesses[..|m.accesses|] == m.accesses
    && LastAccess(m'.accesses[|m.accesses|], m, op, rc, size, address)
    && (forall r: Reg :: Kept(r, if op == OpSt then Zero else rd) ==> m'.regs(r) == m.regs(r))
    && (op != OpSt ==> m'.regs(rd) == m.loaded(address, size))
  }

  lemma FinishAccess(pre: seq<TransOp>, u: TransOp, m: Machine, target: int)
    requires OnlyChanged(m, Run(pre, m), Zero, false) && IsMemop(u.op) && u.ra != Imm && !u.internal && u.rb == Imm
    requires (BaseValue(Run(pre, m), u.ra) + u.rbimm) % TWO64 == target % TWO64
    ensures AccessesAt(m, Run(pre + [u], m), u.op, u.rd, u.rc, u.size, target % TWO64)
  {
    hide Step, Run;
    RunAppend(pre, u, m);
    StepAccess(u, Run(pre, m), target);
  }

  lemma ThenOffset(pre: seq<TransOp>, u: TransOp, m: Machine, target: int)
    requires OnlyChanged(m, Run(pre, m), Zero, false) && u.op == OpAdd && u.rd == Temp8 && u.rb == Imm && u.ra != Imm
             && u.size == 3
    requires (BaseValue(Run(pre, m), u.ra) + u.rbimm) % TWO64 == target % TWO64
    ensures OnlyChanged(m, Run(pre + [u], m), Zero, false) && BaseValue(Run(pre + [u], m), Temp8) == target % TWO64
  {
    RunAppend(pre, u, m);
    StepOffset(u, Run(pre, m), target);
  }

  lemma ThenIndex(pre: seq<TransOp>, u: TransOp, m: Machine, target: int)
    requires OnlyChanged(m, Run(pre, m), Zero, false) && u.rd == Temp8 && u.ra != Imm && u.size == 3
    requires (u.op == OpAdda && u.rb == Zero && u.rc.Gpr?) || (u.op == OpAdd && u.rb.Gpr? && u.extshift == 0)
    requires var index := if u.op == OpAdda then u.rc else u.rb;
             (BaseValue(Run(pre, m), u.ra) + Up(m.regs(index), u.extshift)) % TWO64 == target % TWO64
    ensures OnlyChanged(m, Run(pre + [u], m), Zero, false) && BaseValue(Run(pre + [u], m), Temp8) == target % TWO64
  {
    RunAppend(pre, u, m);
    StepIndex(u, Run(pre, m), target);
  }

  lemma SumMod(v: int, w: int, x: int)
    requires v % TWO64 == w % TWO64
    ensures (v + x) % TWO64 == (w + x) % TWO64
  {
    ModAdd(v, x);
    ModAdd(w, x);
  }

  /** After `bias`, register `base` stands for `from`. */
  ghost predicate Biased(m: Machine, bias: seq<TransOp>, base: Reg, from: int) {
    && OnlyChanged(m, Run(bias, m), Zero, false) && base != Temp8 && base != Imm
    && BaseValue(Run(bias, m), base) % TWO64 == from % TWO64
  }

  /** An offset, then the access. */
  lemma OffsetForm(m: Machine, bias: seq<TransOp>, base: Reg, from: int, offset: int, f: TransOp)
    requires Biased(m, bias, base, from) && IsMemop(f.op) && f.ra == Temp8 && f.rb == Imm && f.rbimm == 0 && !f.internal
    ensures AccessesAt(m, Run(bias + ([Uop(OpAdd, Temp8, base, Imm, Zero, 3, offset)] + [f]), m), f.op, f.rd, f.rc,
            f.size, (from + offset) % TWO64)
  {
    hide Run, OnlyChanged, AccessesAt;
    var u := Uop(OpAdd, Temp8, base, Imm, Zero, 3, offset);
    SumMod(BaseValue(Run(bias, m), base), from, offset);
    ThenOffset(bias, u, m, from + offset);
    FinishAccess(bias + [u], f, m, from + offset);
    assert bias + ([u] + [f]) == bias + [u] + [f];
  }

  /** The access alone. */
  lemma DirectForm(m: Machine, bias: seq<TransOp>, base: Reg, from: int, f: TransOp)
    requires Biased(m, bias, base, from) && IsMemop(f.op) && f.ra == base && f.rb == Imm && !f.internal
    ensures AccessesAt(m, Run(bias + [f], m), f.op, f.rd, f.rc, f.size, (from + f.rbimm) % TWO64)
  {
    hide Run, OnlyChanged, AccessesAt;
    SumMod(BaseValue(Run(bias, m), base), from, f.rbimm);
    FinishAccess(bias, f, m, from + f.rbimm);
  }

  predicate AddsIndex(u: TransOp, base: Reg, indexreg: Reg, scale: nat) {
    && indexreg.Gpr? && u.rd == Temp8 && u.ra == base && u.extshift == scale && u.size == 3
    && ((u.op == OpAdda && u.rb == Zero && u.rc == indexreg) || (u.op == OpAdd && u.rb == indexreg && scale == 0))
  }

  /** A scaled index, then the access. */
  lemma IndexForm(m: Machine, bias: seq<TransOp>, base: Reg, from: int, u: TransOp, indexreg: Reg, scale: nat,
                  f: TransOp)
    requires Biased(m, bias, base, from) && AddsIndex(u, base, indexreg, scale)
    requires IsMemop(f.op) && f.ra == Temp8 && f.rb == Imm && !f.internal
    ensures AccessesAt(m, Run(bias + ([u] + [f]), m), f.op, f.rd, f.rc, f.size,
            (from + Up(m.regs(indexreg), scale) + f.rbimm) % TWO64)
  {
    hide Run, OnlyChanged, AccessesAt, Up;
    var index := Up(m.regs(indexreg), scale);
    SumMod(BaseValue(Run(bias, m), base), from, index);
    ThenIndex(bias, u, m, from + index);
    ModAdd(from + index, f.rbimm);
    FinishAccess(bias + [u], f, m, from + index + f.rbimm);
    assert bias + ([u] + [f]) == bias + [u] + [f];
  }

  /** An offset, a scaled index, then the access. */
  lemma FarIndexForm(m: Machine, bias: seq<TransOp>, base: Reg, from: int, offset: int, w: TransOp, indexreg: Reg,
                     scale: nat, f: TransOp)
    requires Biased(m, bias, base, from) && AddsIndex(w, Temp8, indexreg, scale)
    requires IsMemop(f.op) && f.ra == Temp8 && f.rb == Imm && f.rbimm == 0 && !f.internal
    ensures AccessesAt(m, Run(bias + ([Uop(OpAdd, Temp8, base, Imm, Zero, 3, offset)] + [w] + [f]), m), f.op, f.rd,
            f.rc, f.size, (from + Up(m.regs(indexreg), scale) + offset) % TWO64)
  {
    hide Run, OnlyChanged, AccessesAt, Up;
    var index := Up(m.regs(indexreg), scale);
    var u := Uop(OpAdd, Temp8, base, Imm, Zero, 3, offset);
    SumMod(BaseValue(Run(bias, m), base), from, offset);
    ThenOffset(bias, u, m, from + offset);
    ModAdd(from + offset, index);
    ThenIndex(bias + [u], w, m, from + index + offset);
    FinishAccess(bias + [u] + [w], f, m, from + index + offset);
    assert bias + ([u] + [w] + [f]) == bias + [u] + [w] + [f];
  }

  /** Without an index: the instruction pointer or the base, and the offset in the access or ahead of it. */
  lemma PlainIsRight(locked: bool, rip: nat, op: Opcode, rd: Reg, rc: Reg, mem: MemRef, m: Machine,
                     bias: seq<TransOp>, base: Reg, segment: int)
    requires WellFormed(mem) && IsMemop(op) && mem.indexreg == Zero
    requires Biased(m, bias, base, segment + BaseValue(m, if mem.basereg == Rip then Zero else mem.basereg))
    ensures AccessesAt(m, Run(bias + Addressed(locked, rip, op, rd, rc, mem, base), m), op, rd, rc, mem.size,
                       (segment + Linear(mem, m.regs, rip)) % TWO64)
  {
    hide Run, AccessesAt, Encodable, Biased, Up;
    var from := segment + BaseValue(m, if mem.basereg == Rip then Zero else mem.basereg);
    var f := Final(op, rd, Temp8, rc, mem.size, 0, locked);
    if mem.basereg == Rip {
      OffsetForm(m, bias, base, from, rip + mem.offset, f);
    } else if Encodable(mem.offset, mem.size, 32) {
      DirectForm(m, bias, base, from, Final(op, rd, base, rc, mem.size, mem.offset, locked));
    } else {
      OffsetForm(m, bias, base, from, mem.offset, f);
    }
  }

  /** With an index, which is added to the base or, if the offset does not fit, to their sum. */
  lemma IndexedIsRight(locked: bool, rip: nat, op: Opcode, rd: Reg, rc: Reg, mem: MemRef, m: Machine,
                       bias: seq<TransOp>, base: Reg, segment: int)
    requires WellFormed(mem) && IsMemop(op) && mem.indexreg != Zero
    requires Biased(m, bias, base, segment + BaseValue(m, mem.basereg))
    ensures AccessesAt(m, Run(bias + Addressed(locked, rip, op, rd, rc, mem, base), m), op, rd, rc, mem.size,
                       (segment + Linear(mem, m.regs, rip)) % TWO64)
  {
    hide Run, AccessesAt, Encodable, Biased, Up;
    var from := segment + BaseValue(m, mem.basereg);
    var f := Final(op, rd, Temp8, rc, mem.size, 0, locked);
    if mem.offset == 0 || Encodable(mem.offset, mem.size, 32) {
      var u := if mem.scale > 0 || mem.offset != 0
               then Uop(OpAdda, Temp8, base, Zero, mem.indexreg, 3, 0).(extshift := mem.scale)
               else Uop(OpAdd, Temp8, base, mem.indexreg, Zero, 3, 0);
      IndexForm(m, bias, base, from, u, mem.indexreg, mem.scale, f.(rbimm := mem.offset));
    } else {
      FarIndexForm(m, bias, base, from, mem.offset,
          Uop(OpAdda, Temp8, Temp8, Zero, mem.indexreg, 3, 0).(extshift := mem.scale), mem.indexreg, mem.scale, f);
    }
  }

  /**
   * In every machine state, the micro-operations generated for a load, a prefetch or a store carry out one access,
   * at segment base plus the operand's address modulo 2^64, and change nothing but the two temporaries and the
   * destination.
   */
  lemma AddressIsRight(prefixes: set<Prefix>, rip: nat, op: Opcode, rd: Reg, rc: Reg, mem: MemRef, force: bool,
                       m: Machine)
    requires WellFormed(mem) && IsMemop(op)
    ensures var address := (SegmentBase(prefixes, m) + Linear(mem, m.regs, rip)) % TWO64;
            AccessesAt(m, Run(Generated(prefixes, rip, op, rd, rc, mem, force), m), op, rd, rc, mem.size, address)
  {
    hide SegmentBase, Run, AccessesAt, OnlyChanged, Addressed, Linear;
    var start := if mem.basereg == Rip then Zero else mem.basereg;
    RunBias(prefixes, start, m, true);
    hide Bias;
    var (bias, base) := Bias(prefixes, start);
    if mem.indexreg == Zero {
      PlainIsRight(Lock in prefixes, rip, op, rd, rc, mem, m, bias, base, SegmentBase(prefixes, m));
    } else {
      IndexedIsRight(Lock in prefixes, rip, op, rd, rc, mem, m, bias, base, SegmentBase(prefixes, m));
    }
  }

  // ---------------------------------------------------------------- the shape of what is generated

  /** An addition on the way to the access: 64 bits wide, into a temporary. */
  predicate OnTheWay(u: TransOp) {
    u.op in {OpAdd, OpAdda} && u.rd in {Temp6, Temp8} && u.size == 3 && !u.locked && !u.internal
  }

  /**
   * The last micro-operation makes the access, locked exactly if there is a lock prefix, with an immediate that fits;
   * those before it are additions, one each for the instruction pointer, an index, and an offset that does not fit, but
   * for the internal load of a segment base, which comes first if the prefixes choose a segment.
   */
  lemma GeneratedShape(prefixes: set<Prefix>, rip: nat, op: Opcode, rd: Reg, rc: Reg, mem: MemRef, force: bool)
    requires IsMemop(op)
    ensures var g, s := Generated(prefixes, rip, op, rd, rc, mem, force), ChosenSegment(prefixes);
            var first := if s == [] then 0 else 1;
            && |g| > first
            && g[|g|-1] == TransOp(op, rd, g[|g|-1].ra, Imm, rc, mem.size, g[|g|-1].rbimm, 0, false, Lock in prefixes)
            && (s != [] ==> g[0] == TransOp(OpLd, Temp6, Ctx, Imm, Zero, 3, BaseSlot(s[0]), 0, true, false))
            && (forall i :: first <= i < |g| - 1 ==> OnTheWay(g[i]))
            && Encodable(g[|g|-1].rbimm, mem.size, 32)
            && |g| == 2 * first + 1 + One(mem.basereg == Rip || mem.indexreg != Zero)
                      + One(mem.basereg != Rip && mem.offset != 0 && !Encodable(mem.offset, mem.size, 32))
  {
    hide ChosenSegment, Encodable, OnTheWay, Addressed, Bias;
    var start := if mem.basereg == Rip then Zero else mem.basereg;
    var (bias, base) := Bias(prefixes, start);
    BiasShape(prefixes, start);
    AddressedShape(Lock in prefixes, rip, op, rd, rc, mem, base);
    var a := Addressed(Lock in prefixes, rip, op, rd, rc, mem, base);
    var g := Generated(prefixes, rip, op, rd, rc, mem, force);
    assert g == bias + a;
    forall i | |bias| <= i < |g| ensures g[i] == a[i-|bias|] {}
  }

  lemma BiasShape(prefixes: set<Prefix>, base: Reg)
    ensures var u, s := Bias(prefixes, base).0, ChosenSegment(prefixes);
            && |u| == (if s == [] then 0 else 2)
            && (s != [] ==> u[0] == TransOp(OpLd, Temp6, Ctx, Imm, Zero, 3, BaseSlot(s[0]), 0, true, false)
                            && OnTheWay(u[1]))
  {
    hide ChosenSegment;
  }

  /** So many micro-operations, of which the last makes the access. */
  predicate Shaped(g: seq<TransOp>, n: nat, op: Opcode, rd: Reg, rc: Reg, size: nat, locked: bool) {
    && |g| == n > 0
    && g[n-1] == TransOp(op, rd, g[n-1].ra, Imm, rc, size, g[n-1].rbimm, 0, false, locked)
    && Encodable(g[n-1].rbimm, size, 32)
    && forall i :: 0 <= i < n - 1 ==> OnTheWay(g[i])
  }

  lemma LastIsShaped(pre: seq<TransOp>, op: Opcode, rd: Reg, ra: Reg, rc: Reg, size: nat, offset: int, locked: bool)
    requires (forall i :: 0 <= i < |pre| ==> OnTheWay(pre[i])) && Encodable(offset, size, 32)
    ensures Shaped(pre + [Final(op, rd, ra, rc, size, offset, locked)], |pre| + 1, op, rd, rc, size, locked)
  {
    hide Encodable, OnTheWay;
  }

  lemma AddressedShape(locked: bool, rip: nat, op: Opcode, rd: Reg, rc: Reg, mem: MemRef, base: Reg)
    requires IsMemop(op)
    ensures Shaped(Addressed(locked, rip, op, rd, rc, mem, base),
                   1 + One(mem.basereg == Rip || mem.indexreg != Zero)
                     + One(mem.basereg != Rip && mem.offset != 0 && !Encodable(mem.offset, mem.size, 32)),
                   op, rd, rc, mem.size, locked)
  {
    hide Encodable, Shaped, Final;
    NothingIsEncodable(mem.size, 32);
    var w := Uop(OpAdda, Temp8, base, Zero, mem.indexreg, 3, 0).(extshift := mem.scale);
    var u := Uop(OpAdd, Temp8, base, Imm, Zero, 3, mem.offset);
    if mem.basereg == Rip {
      LastIsShaped([u.(rbimm := rip + mem.offset)], op, rd, Temp8, rc, mem.size, 0, locked);
    } else if mem.indexreg == Zero && Encodable(mem.offset, mem.size, 32) {
      LastIsShaped([], op, rd, base, rc, mem.size, mem.offset, locked);
      assert [] + [Final(op, rd, base, rc, mem.size, mem.offset, locked)]
          == [Final(op, rd, base, rc, mem.size, mem.offset, locked)];
    } else if mem.indexreg == Zero {
      LastIsShaped([u], op, rd, Temp8, rc, mem.size, 0, locked);
    } else if mem.offset == 0 {
      LastIsShaped([if mem.scale > 0 then w else Uop(OpAdd, Temp8, base, mem.indexreg, Zero, 3, 0)],
                   op, rd, Temp8, rc, mem.size, 0, locked);
    } else if Encodable(mem.offset, mem.size, 32) {
      LastIsShaped([w], op, rd, Temp8, rc, mem.size, mem.offset, locked);
    } else {
      LastIsShaped([u] + [w.(ra := Temp8)], op, rd, Temp8, rc, mem.size, 0, locked);
    }
  }

  lemma NothingIsEncodable(size: nat, bits: nat)
    requires bits >= 1
    ensures Encodable(0, size, bits)
  {
  }

  // ---------------------------------------------------------------- addresses that are only computed

  lemma SameCut(a: int, b: int, size: nat)
    requires a % TWO64 == b % TWO64
    ensures Cut(a, size) == Cut(b, size)
  {
    var k := (a - b) / TWO64;
    assert a == b + TWO64 * k;
    if size == 0 {
      SameModByte(b, 0x100_0000_0000_0000 * k);
    } else if size == 1 {
      SameModWord(b, 0x1_0000_0000_0000 * k);
    } else if size == 2 {
      SameModDword(b, TWO32 * k);
    }
  }

  lemma SameModByte(b: int, j: int)
    ensures (b + 0x100 * j) % 0x100 == b % 0x100
  {
  }

  lemma SameModWord(b: int, j: int)
    ensures (b + 0x1_0000 * j) % 0x1_0000 == b % 0x1_0000
  {
  }

  lemma SameModDword(b: int, j: int)
    ensures (b + TWO32 * j) % TWO32 == b % TWO32
  {
  }

  /** The address is in `rd`, nothing has been accessed, and no other register but the temporaries has changed. */
  ghost predicate ComputedIn(m: Machine, m': Machine, rd: Reg, address: int) {
    && m'.accesses == m.accesses && m'.context == m.context && m'.loaded == m.loaded
    && m'.regs(rd) == address && forall r: Reg :: Kept(r, rd) ==> m'.regs(r) == m.regs(r)
  }

  /** After `pre`, register `base` stands for `from`. */
  ghost predicate StandsFor(m: Machine, pre: seq<TransOp>, base: Reg, from: int) {
    && OnlyChanged(m, Run(pre, m), Zero, false) && base != Imm
    && BaseValue(Run(pre, m), base) % TWO64 == from % TWO64
  }

  /** An offset is the last thing added. */
  lemma EndsWithOffset(m: Machine, pre: seq<TransOp>, from: int, f: TransOp)
    requires StandsFor(m, pre, f.ra, from) && f.op == OpAdd && f.rb == Imm
    ensures ComputedIn(m, Run(pre + [f], m), f.rd, Cut(from + f.rbimm, f.size))
  {
    hide Run, Cut;
    var value := BaseValue(Run(pre, m), f.ra);
    RunAppend(pre, f, m);
    SumMod(value, from, f.rbimm);
    SameCut(value + f.rbimm, from + f.rbimm, f.size);
  }

  /** A scaled index is. */
  lemma EndsWithIndex(m: Machine, pre: seq<TransOp>, from: int, u: TransOp, indexreg: Reg, scale: nat)
    requires StandsFor(m, pre, u.ra, from) && indexreg.Gpr? && u.extshift == scale
    requires (u.op == OpAdda && u.rb == Zero && u.rc == indexreg) || (u.op == OpAdd && u.rb == indexreg && scale == 0)
    ensures ComputedIn(m, Run(pre + [u], m), u.rd, Cut(from + Up(m.regs(indexreg), scale), u.size))
  {
    hide Run, Cut;
    var value, index := BaseValue(Run(pre, m), u.ra), Up(m.regs(indexreg), scale);
    RunAppend(pre, u, m);
    SumMod(value, from, index);
    SameCut(value + index, from + index, u.size);
  }

  lemma OffsetStands(m: Machine, bias: seq<TransOp>, base: Reg, from: int, offset: int)
    requires Biased(m, bias, base, from)
    ensures StandsFor(m, bias + [Uop(OpAdd, Temp8, base, Imm, Zero, 3, offset)], Temp8, from + offset)
  {
    hide Run, OnlyChanged;
    SumMod(BaseValue(Run(bias, m), base), from, offset);
    ThenOffset(bias, Uop(OpAdd, Temp8, base, Imm, Zero, 3, offset), m, from + offset);
    ModAdd(from + offset, 0);
  }

  lemma IndexStands(m: Machine, pre: seq<TransOp>, base: Reg, from: int, indexreg: Reg, scale: nat)
    requires StandsFor(m, pre, base, from) && indexreg.Gpr?
    ensures StandsFor(m, pre + [Uop(OpAdda, Temp8, base, Zero, indexreg, 3, 0).(extshift := scale)], Temp8,
                      from + Up(m.regs(indexreg), scale))
  {
    hide Run, OnlyChanged, Up;
    var index := Up(m.regs(indexreg), scale);
    SumMod(BaseValue(Run(pre, m), base), from, index);
    ThenIndex(pre, Uop(OpAdda, Temp8, base, Zero, indexreg, 3, 0).(extshift := scale), m, from + index);
    ModAdd(from + index, 0);
  }

  lemma PlainIsComputed(locked: bool, rip: nat, rd: Reg, mem: MemRef, m: Machine, bias: seq<TransOp>, base: Reg,
                        segment: int)
    requires WellFormed(mem) && mem.indexreg == Zero
    requires Biased(m, bias, base, segment + BaseValue(m, if mem.basereg == Rip then Zero else mem.basereg))
    ensures ComputedIn(m, Run(bias + Addressed(locked, rip, OpAdd, rd, Zero, mem, base), m), rd,
                       Cut(segment + Linear(mem, m.regs, rip), if mem.basereg == Rip then 3 else mem.size))
  {
    hide Run, ComputedIn, Encodable, OnlyChanged, Cut;
    var from := segment + BaseValue(m, if mem.basereg == Rip then Zero else mem.basereg);
    var u := Uop(OpAdd, Temp8, base, Imm, Zero, 3, mem.offset);
    var f := Final(OpAdd, rd, base, Zero, mem.size, mem.offset, locked);
    if mem.basereg == Rip {
      var v := Uop(OpAdd, rd, base, Imm, Zero, 3, rip + mem.offset);
      EndsWithOffset(m, bias, from, v);
      assert [v] + [] == [v];
    } else if Encodable(mem.offset, mem.size, 64) {
      EndsWithOffset(m, bias, from, f);
    } else {
      OffsetStands(m, bias, base, from, mem.offset);
      EndsWithOffset(m, bias + [u], from + mem.offset, f.(ra := Temp8, rbimm := 0));
      assert bias + ([u] + [f.(ra := Temp8, rbimm := 0)]) == bias + [u] + [f.(ra := Temp8, rbimm := 0)];
    }
  }

  lemma IndexedIsComputed(locked: bool, rip: nat, rd: Reg, mem: MemRef, m: Machine, bias: seq<TransOp>, base: Reg,
                          segment: int)
    requires WellFormed(mem) && mem.indexreg != Zero
    requires Biased(m, bias, base, segment + BaseValue(m, mem.basereg))
    ensures ComputedIn(m, Run(bias + Addressed(locked, rip, OpAdd, rd, Zero, mem, base), m), rd,
                       Cut(segment + Linear(mem, m.regs, rip), mem.size))
  {
    hide Run, ComputedIn, Encodable, Cut, OnlyChanged, Up;
    var from, index := segment + BaseValue(m, mem.basereg), Up(m.regs(mem.indexreg), mem.scale);
    var w := Uop(OpAdda, Temp8, base, Zero, mem.indexreg, 3, 0).(extshift := mem.scale);
    var f := Final(OpAdd, rd, Temp8, Zero, mem.size, mem.offset, locked);
    assert StandsFor(m, bias, base, from);
    if mem.offset == 0 {
      var u := if mem.scale > 0 then Uop(OpAdda, rd, base, Zero, mem.indexreg, mem.size, 0).(extshift := mem.scale)
               else Uop(OpAdd, rd, base, mem.indexreg, Zero, mem.size, 0);
      EndsWithIndex(m, bias, from, u, mem.indexreg, mem.scale);
      assert [u] + [] == [u];
    } else if Encodable(mem.offset, mem.size, 64) {
      IndexStands(m, bias, base, from, mem.indexreg, mem.scale);
      EndsWithOffset(m, bias + [w], from + index, f);
      assert bias + ([w] + [f]) == bias + [w] + [f];
    } else {
      var u, x, g := Uop(OpAdd, Temp8, base, Imm, Zero, 3, mem.offset), w.(ra := Temp8), f.(rbimm := 0);
      OffsetStands(m, bias, base, from, mem.offset);
      IndexStands(m, bias + [u], Temp8, from + mem.offset, mem.indexreg, mem.scale);
      EndsWithOffset(m, bias + [u] + [x], from + mem.offset + index, g);
      assert bias + ([u] + [x] + [g]) == bias + [u] + [x] + [g];
    }
  }

  /**
   * In every machine state, the micro-operations generated for an add compute the operand's address, with the segment
   * base only if that is forced, cut to the operand's size, except that an address relative to the instruction pointer
   * is never cut; and they access nothing.
   */
  lemma AddressIsComputed(prefixes: set<Prefix>, rip: nat, rd: Reg, mem: MemRef, force: bool, m: Machine)
    requires WellFormed(mem)
    ensures ComputedIn(m, Run(Generated(prefixes, rip, OpAdd, rd, Zero, mem, force), m), rd,
                       Cut((if force then SegmentBase(prefixes, m) else 0) + Linear(mem, m.regs, rip),
                           if mem.basereg == Rip then 3 else mem.size))
  {
    hide SegmentBase, Run, ComputedIn, OnlyChanged, Addressed, Linear, Cut;
    var start := if mem.basereg == Rip then Zero else mem.basereg;
    RunBias(prefixes, start, m, force);
    hide Bias;
    var (bias, base) := if force then Bias(prefixes, start) else ([], start);
    var segment := if force then SegmentBase(prefixes, m) else 0;
    if mem.indexreg == Zero {
      PlainIsComputed(Lock in prefixes, rip, rd, mem, m, bias, base, segment);
    } else {
      IndexedIsComputed(Lock in prefixes, rip, rd, mem, m, bias, base, segment);
    }
  }
}
