/** The operand decoder: ModRM, SIB and displacement bytes to a memory operand, and the operand to micro-operations. */
module X86Decoder {
  import opened Outcomes
  import opened Bits
  import opened X86Uops

  type Byte = b: nat | b < 0x100

  datatype Rex = Rex(present: bool, extbase: nat, extindex: nat, extreg: nat, mode64: bool)
  datatype ModRM = ModRM(mod: nat, reg: nat, rm: nat)
  datatype Sib = Sib(base: nat, index: nat, scale: nat)

  datatype ByteMode = BMode | VMode | WMode | DMode | QMode | XMode | MMode | DqMode | CondJump | LoopJcxz

  datatype Fault = NotEnoughBytes | InvalidOpcode | BadByteMode | BufferFull

  /** A decoded operand; of the register form only the number is kept. */
  datatype Decoded = Register(number: nat) | Memory(mem: MemRef)

  const NO_REX := Rex(false, 0, 0, 0, false)

  predicate RexOk(r: Rex) { r.extbase <= 1 && r.extindex <= 1 && r.extreg <= 1 }
  predicate ModRMOk(m: ModRM) { m.mod <= 3 && m.reg <= 7 && m.rm <= 7 }

  function SibOf(b: Byte): (s: Sib)
    ensures s.base <= 7 && s.index <= 7 && s.scale <= 3
  {
    Sib(b % 8, b / 8 % 8, b / 64)
  }

  function ModRMOf(b: Byte): (m: ModRM)
    ensures ModRMOk(m)
  {
    ModRM(b / 64, b / 8 % 8, b % 8)
  }

  // ---------------------------------------------------------------- byte strings

  /** The value of `n` bytes, least significant first. */
  function LittleEndian(b: seq<Byte>): (v: nat) {
    if b == [] then 0 else b[0] + 0x100 * LittleEndian(b[1..])
  }

  lemma LittleEndianBound(b: seq<Byte>)
    ensures |b| == 1 ==> LittleEndian(b) == b[0] < 0x100
    ensures |b| == 4 ==> LittleEndian(b) < 0x1_0000_0000
  {
    if |b| == 1 {
      assert LittleEndian(b[1..]) == 0;
    } else if |b| == 4 {
      assert LittleEndian(b[1..][1..][1..][1..]) == 0;
      assert LittleEndian(b[1..][1..][1..]) < 0x100;
      assert LittleEndian(b[1..][1..]) < 0x1_0000;
      assert LittleEndian(b[1..]) < 0x100_0000;
    }
  }

  /** Sign extension from `n` bytes, of which there may be none, one or four. */
  function SignExtended(v: nat, n: nat): int {
    if n == 1 && v >= 0x80 then v - 0x100
    else if n == 4 && v >= 0x8000_0000 then v - 0x1_0000_0000
    else v
  }

  // ---------------------------------------------------------------- what the architecture says

  /** A SIB byte follows the ModRM byte. */
  predicate HasSib(m: ModRM) {
    m.mod != 3 && m.rm == 4
  }

  /** How many displacement bytes there are. */
  function DispBytes(m: ModRM, s: Sib): nat {
    if m.mod == 1 then 1
    else if m.mod == 2 then 4
    else if m.mod == 0 && (m.rm == 5 || (m.rm == 4 && s.base == 5)) then 4
    else 0
  }

  /** How many bytes of the instruction the operand takes after its ModRM byte. */
  function OperandBytes(m: ModRM, s: Sib): nat {
    One(HasSib(m)) + DispBytes(m, s)
  }

  /** The architectural register with the given number. */
  function RegValue(regs: Reg -> int, n: nat): int {
    regs(Gpr(n))
  }

  /**
   * The address of a memory operand as the manual of the architecture defines it (Intel SDM volume 2A, sections
   * 2.1.5 and 2.2.1.6), before it is cut to the address size: `disp` is the sign-extended displacement, `next` the
   * address of the next instruction.
   */
  function EffectiveAddress(use64: bool, rex: Rex, m: ModRM, s: Sib, disp: int, regs: Reg -> int, next: nat): int {
    if m.rm == 4 then
      (if s.base == 5 && m.mod == 0 then 0 else RegValue(regs, s.base + 8 * rex.extbase))
      + (if s.index + 8 * rex.extindex == 4 then 0 else Up(RegValue(regs, s.index + 8 * rex.extindex), s.scale))
      + disp
    else if m.mod == 0 && m.rm == 5 then
      (if use64 then next else 0) + disp
    else
      RegValue(regs, m.rm + 8 * rex.extbase) + disp
  }

  /**
   * Where the manual has an access go (Intel SDM volume 1, section 3.3.7): 64-bit code cuts the operand's address to 32
   * bits only behind an address-size prefix, 32-bit code always, and what the segment base makes of it as well.
   */
  function LinearAddress(use64: bool, prefixes: set<Prefix>, segment: int, address: int): int
    requires use64 || AddrSize !in prefixes
  {
    if use64 then (segment + if AddrSize in prefixes then address % TWO32 else address) % TWO64
    else (segment + address % TWO32) % TWO32
  }

  lemma SameSum(s: int, a: int, b: int)
    ensures (s + a) % TWO64 == (s + b) % TWO64 <==> a % TWO64 == b % TWO64
  {
  }

  lemma SumOfLow(s: int, a: int)
    ensures (s + a % TWO32) % TWO32 == (s + a) % TWO32
  {
  }

  lemma LowOfLow(a: int)
    ensures a % TWO64 % TWO32 == a % TWO32
  {
    assert a == TWO32 * (TWO32 * (a / TWO64)) + a % TWO64;
  }

  /** Cutting an address to 32 bits before it is added to the segment base. */
  lemma CutThenAdd(s: int, a: int)
    ensures (s + a) % TWO64 == (s + a % TWO32) % TWO64 <==> a % TWO64 < TWO32
  {
    SameSum(s, a, a % TWO32);
    LowOfLow(a);
  }

  /** Cutting the sum as well. */
  lemma CutTheSum(s: int, a: int)
    ensures (s + a) % TWO64 % TWO32 == (s + a % TWO32) % TWO32
    ensures (s + a) % TWO64 == (s + a % TWO32) % TWO32 <==> (s + a) % TWO64 < TWO32
  {
    SumOfLow(s, a);
    LowOfLow(s + a);
  }

  /**
   * The decoder never cuts the address of an operand to 32 bits. In 64-bit code that is right if and only if there is
   * no address-size prefix or the address has no more bits; in 32-bit code if and only if the access stays below 2^32,
   * and whether it does or not its low 32 bits are right.
   */
  lemma AddressSizeIff(use64: bool, prefixes: set<Prefix>, segment: int, address: int)
    requires use64 || AddrSize !in prefixes
    ensures var done := (segment + address) % TWO64;
            && (done == LinearAddress(use64, prefixes, segment, address) <==>
                (if use64 then AddrSize !in prefixes || address % TWO64 < TWO32 else done < TWO32))
            && (!use64 ==> done % TWO32 == LinearAddress(use64, prefixes, segment, address))
  {
    CutThenAdd(segment, address);
    CutTheSum(segment, address);
  }

  /**
   * The address computed for `lea` is the manual's, cut to the operand's size, if and only if it is not relative to the
   * instruction pointer, or as wide as an address, or no wider than the size anyway.
   */
  lemma LeaIsRightIff(relative: bool, address: int, size: nat)
    ensures Cut(address, if relative then 3 else size) == Cut(address, size)
            <==> !relative || address % TWO64 < Width(size)
  {
    SameCut(address % TWO64, address, size);
  }

  // ---------------------------------------------------------------- the decoder's tables

  const RAX := Gpr(0)
  const RCX := Gpr(1)
  const RDX := Gpr(2)
  const RBX := Gpr(3)
  const RSP := Gpr(4)
  const RBP := Gpr(5)
  const RSI := Gpr(6)
  const RDI := Gpr(7)
  const R8 := Gpr(8)
  const R9 := Gpr(9)
  const R10 := Gpr(10)
  const R11 := Gpr(11)
  const R12 := Gpr(12)
  const R13 := Gpr(13)
  const R14 := Gpr(14)
  const R15 := Gpr(15)

  /** Base register by mod, REX base extension and rm, in 64-bit mode; none where a SIB byte decides. */
  const BASE64: seq<seq<seq<Option<Reg>>>> := [
    [ [Some(RAX), Some(RCX), Some(RDX), Some(RBX), None, Some(Rip), Some(RSI), Some(RDI)],
      [Some(R8), Some(R9), Some(R10), Some(R11), None, Some(Rip), Some(R14), Some(R15)] ],
    [ [Some(RAX), Some(RCX), Some(RDX), Some(RBX), None, Some(RBP), Some(RSI), Some(RDI)],
      [Some(R8), Some(R9), Some(R10), Some(R11), None, Some(R13), Some(R14), Some(R15)] ],
    [ [Some(RAX), Some(RCX), Some(RDX), Some(RBX), None, Some(RBP), Some(RSI), Some(RDI)],
      [Some(R8), Some(R9), Some(R10), Some(R11), None, Some(R13), Some(R14), Some(R15)] ] ]

  /** The same in 32-bit mode, where there is no REX byte; the 32-bit names stand for the same registers. */
  const BASE32: seq<seq<Option<Reg>>> := [
    [Some(RAX), Some(RCX), Some(RDX), Some(RBX), None, Some(Zero), Some(RSI), Some(RDI)],
    [Some(RAX), Some(RCX), Some(RDX), Some(RBX), None, Some(RBP), Some(RSI), Some(RDI)],
    [Some(RAX), Some(RCX), Some(RDX), Some(RBX), None, Some(RBP), Some(RSI), Some(RDI)] ]

  const IMMSIZE: seq<seq<nat>> := [
    [0, 0, 0, 0, 0, 4, 0, 0],
    [1, 1, 1, 1, 1, 1, 1, 1],
    [4, 4, 4, 4, 4, 4, 4, 4] ]

  const SIB_BASE: seq<seq<Option<Reg>>> := [
    [Some(RAX), Some(RCX), Some(RDX), Some(RBX), Some(RSP), None, Some(RSI), Some(RDI)],
    [Some(R8), Some(R9), Some(R10), Some(R11), Some(R12), None, Some(R14), Some(R15)] ]

  const SIB_BASE_BY_MOD: seq<seq<Reg>> := [
    [Zero, RBP, RBP],
    [Zero, R13, R13] ]

  const SIB_INDEX: seq<seq<Reg>> := [
    [RAX, RCX, RDX, RBX, Zero, RBP, RSI, RDI],
    [R8, R9, R10, R11, R12, R13, R14, R15] ]

  /** What the tables without a SIB byte say, entry by entry. */
  lemma BaseTables(mod: nat, ext: nat, rm: nat)
    requires mod <= 2 && ext <= 1 && rm <= 7
    ensures |BASE64| == 3 && |BASE64[mod]| == 2 && |BASE64[mod][ext]| == 8 && |BASE32| == 3 && |BASE32[mod]| == 8
    ensures |IMMSIZE| == 3 && |IMMSIZE[mod]| == 8
    ensures BASE64[mod][ext][rm] == if rm == 4 then None else if mod == 0 && rm == 5 then Some(Rip)
            else Some(Gpr(rm + 8 * ext))
    ensures BASE32[mod][rm] == if rm == 4 then None else if mod == 0 && rm == 5 then Some(Zero) else Some(Gpr(rm))
    ensures IMMSIZE[mod][rm] == if mod == 1 then 1 else if mod == 2 then 4 else if rm == 5 then 4 else 0
  {
    var i := rm;
    assert i == 0 || i == 1 || i == 2 || i == 3 || i == 4 || i == 5 || i == 6 || i == 7;
  }

  /** What the tables for a SIB byte say. */
  lemma SibTables(mod: nat, ext: nat, field: nat)
    requires mod <= 2 && ext <= 1 && field <= 7
    ensures |SIB_BASE| == 2 && |SIB_BASE[ext]| == 8 && |SIB_BASE_BY_MOD| == 2 && |SIB_BASE_BY_MOD[ext]| == 3
    ensures |SIB_INDEX| == 2 && |SIB_INDEX[ext]| == 8
    ensures SIB_BASE[ext][field] == if field == 5 then None else Some(Gpr(field + 8 * ext))
    ensures SIB_BASE_BY_MOD[ext][mod] == if mod == 0 then Zero else Gpr(5 + 8 * ext)
    ensures SIB_INDEX[ext][field] == if field + 8 * ext == 4 then Zero else Gpr(field + 8 * ext)
  {
    var i := field;
    assert i == 0 || i == 1 || i == 2 || i == 3 || i == 4 || i == 5 || i == 6 || i == 7;
  }

  // ---------------------------------------------------------------- prefixes

  function PrefixOf(use64: bool, b: Byte): (p: Option<Prefix>)
    ensures p == Some(RexPrefix) ==> use64
  {
    if b == 0x26 then Some(SegmentOverride(ES))
    else if b == 0x2e then Some(SegmentOverride(CS))
    else if b == 0x36 then Some(SegmentOverride(SS))
    else if b == 0x3e then Some(SegmentOverride(DS))
    else if 0x40 <= b <= 0x4f then (if use64 then Some(RexPrefix) else None)
    else if b == 0x64 then Some(SegmentOverride(FS))
    else if b == 0x65 then Some(SegmentOverride(GS))
    else if b == 0x66 then Some(DataSize)
    else if b == 0x67 then Some(AddrSize)
    else if b == 0x9b then Some(FWait)
    else if b == 0xf0 then Some(Lock)
    else if b == 0xf2 then Some(RepNZ)
    else if b == 0xf3 then Some(RepZ)
    else None
  }

  function RexOf(b: Byte): (r: Rex)
    ensures RexOk(r) && r.present
  {
    Rex(true, b % 2, b / 2 % 2, b / 4 % 2, b / 8 % 2 == 1)
  }

  /** What a run of prefix bytes means: every prefix in it counts, but a REX byte only when it is the last. */
  ghost predicate PrefixesOf(use64: bool, bytes: seq<Byte>, prefixes: set<Prefix>, rex: Rex) {
    var last := if bytes == [] then None else PrefixOf(use64, bytes[|bytes|-1]);
    && (forall i :: 0 <= i < |bytes| ==> PrefixOf(use64, bytes[i]).Some?)
    && (forall p: Prefix :: p != RexPrefix ==>
          (p in prefixes <==> exists i :: 0 <= i < |bytes| && PrefixOf(use64, bytes[i]) == Some(p)))
    && (RexPrefix in prefixes <==> last == Some(RexPrefix))
    && rex == if last == Some(RexPrefix) then RexOf(bytes[|bytes|-1]) else NO_REX
  }

  lemma NextPrefix(use64: bool, bytes: seq<Byte>, prefixes: set<Prefix>, rex: Rex, b: Byte)
    requires PrefixesOf(use64, bytes, prefixes, rex) && PrefixOf(use64, b).Some?
    ensures var p := PrefixOf(use64, b).value;
            PrefixesOf(use64, bytes + [b], (if rex.present then prefixes - {RexPrefix} else prefixes) + {p},
                       if p == RexPrefix then RexOf(b) else NO_REX)
  {
    var all := bytes + [b];
    var p := PrefixOf(use64, b).value;
    forall q: Prefix | q != RexPrefix
      ensures (exists i :: 0 <= i < |all| && PrefixOf(use64, all[i]) == Some(q))
          <==> (exists i :: 0 <= i < |bytes| && PrefixOf(use64, bytes[i]) == Some(q)) || q == p
    {
      if i :| 0 <= i < |bytes| && PrefixOf(use64, bytes[i]) == Some(q) {
        assert PrefixOf(use64, all[i]) == Some(q);
      }
      assert PrefixOf(use64, all[|bytes|]) == Some(p);
    }
  }

  lemma NoPrefixes(use64: bool)
    ensures PrefixesOf(use64, [], {}, NO_REX)
  {
  }

  // ---------------------------------------------------------------- the decoder

  const MAX_TRANSOPS := 16

  function SizeOf(mode: ByteMode, use64: bool, mode64: bool, opsize: bool): Option<nat> {
    match mode
    case BMode => Some(0)
    case WMode => Some(1)
    case DMode => Some(2)
    case QMode => Some(3)
    case MMode => Some(if use64 then 3 else 2)
    case VMode => Some(if mode64 then 3 else if !opsize then 2 else 1)
    case DqMode => Some(if mode64 then 3 else 2)
    case XMode => Some(3)
    case CondJump | LoopJcxz => None
  }

  /** The operand means what the architecture says, for all register contents. */
  ghost predicate Means(mem: MemRef, use64: bool, rex: Rex, m: ModRM, s: Sib, disp: int) {
    forall regs: Reg -> int, next: nat ::
        Linear(mem, regs, next) == EffectiveAddress(use64, rex, m, s, disp, regs, next)
  }

  lemma GeneratedMeans(prefixes: set<Prefix>, rip: nat, op: Opcode, rd: Reg, rc: Reg, mem: MemRef,
                       use64: bool, rex: Rex, modrm: ModRM, sib: Sib, disp: int, m: Machine)
    requires WellFormed(mem) && IsMemop(op) && Means(mem, use64, rex, modrm, sib, disp)
    ensures AccessesAt(m, Run(Generated(prefixes, rip, op, rd, rc, mem, false), m), op, rd, rc, mem.size,
                       (SegmentBase(prefixes, m)
                        + EffectiveAddress(use64, rex, modrm, sib, disp, m.regs, rip)) % TWO64)
  {
    hide AccessesAt, Run, Generated, SegmentBase, EffectiveAddress, Linear, WellFormed;
    AddressIsRight(prefixes, rip, op, rd, rc, mem, false, m);
    assert Linear(mem, m.regs, rip) == EffectiveAddress(use64, rex, modrm, sib, disp, m.regs, rip);
  }

  lemma ComputedMeans(prefixes: set<Prefix>, rip: nat, rd: Reg, mem: MemRef, size: nat,
                      use64: bool, rex: Rex, modrm: ModRM, sib: Sib, disp: int, m: Machine)
    requires WellFormed(mem) && Means(mem, use64, rex, modrm, sib, disp) && size <= 3
    ensures ComputedIn(m, Run(Generated(prefixes, rip, OpAdd, rd, Zero, mem.(size := size), false), m), rd,
                       Cut(EffectiveAddress(use64, rex, modrm, sib, disp, m.regs, rip),
                           if mem.basereg == Rip then 3 else size))
  {
    hide ComputedIn, Run, Generated, EffectiveAddress, Cut, Linear, WellFormed, SegmentBase;
    var cut := mem.(size := size);
    CutIsWellFormed(mem, size, m.regs, rip);
    AddressIsComputed(prefixes, rip, rd, cut, false, m);
    assert Linear(mem, m.regs, rip) == EffectiveAddress(use64, rex, modrm, sib, disp, m.regs, rip);
  }

  lemma CutIsWellFormed(mem: MemRef, size: nat, regs: Reg -> int, rip: nat)
    requires WellFormed(mem) && size <= 3
    ensures WellFormed(mem.(size := size)) && Linear(mem.(size := size), regs, rip) == Linear(mem, regs, rip)
  {
  }

  /** The SIB byte, where there is one among the bytes that follow. */
  function SibIn(m: ModRM, rest: seq<Byte>): (s: Sib)
    ensures s.base <= 7 && s.index <= 7 && s.scale <= 3
  {
    if HasSib(m) && rest != [] then SibOf(rest[0]) else Sib(0, 0, 0)
  }

  function DispIn(m: ModRM, rest: seq<Byte>): int
    requires |rest| >= OperandBytes(m, SibIn(m, rest))
  {
    var n := DispBytes(m, SibIn(m, rest));
    SignExtended(LittleEndian(rest[One(HasSib(m))..One(HasSib(m))+n]), n)
  }

  class TraceDecoder {
    const insnbytes: seq<Byte>
    const use64: bool
    var byteoffset: nat
    var rip: nat
    var rex: Rex
    var modrm: ModRM
    var prefixes: set<Prefix>
    var opsizePrefix: bool
    var transbuf: seq<TransOp>

    constructor (insnbytes: seq<Byte>, use64: bool, rip: nat)
      requires rip < TWO64
      ensures Valid() && this.insnbytes == insnbytes && this.use64 == use64 && this.rip == rip && byteoffset == 0
              && transbuf == [] && !opsizePrefix
    {
      this.insnbytes, this.use64, this.rip := insnbytes, use64, rip;
      byteoffset, transbuf := 0, [];
      rex, modrm, prefixes, opsizePrefix := NO_REX, ModRM(0, 0, 0), {}, false;
    }

    ghost predicate Valid()
      reads this
    {
      && byteoffset <= |insnbytes| && rip < TWO64 && RexOk(rex) && ModRMOk(modrm)
      && (!use64 ==> rex == NO_REX) && |transbuf| <= MAX_TRANSOPS
    }

    /** The bytes not fetched yet. */
    function Rest(): seq<Byte>
      requires byteoffset <= |insnbytes|
      reads this
    {
      insnbytes[byteoffset..]
    }

    /** The next `n` bytes as a number; the instruction pointer and the offset move together. */
    method Fetch(n: nat) returns (r: Result<nat, Fault>)
      requires Valid() && n >= 1
      modifies this`rip, this`byteoffset
      ensures Valid()
      ensures r == if n <= |old(Rest())| then Success(LittleEndian(old(Rest())[..n])) else Failure(NotEnoughBytes)
      ensures byteoffset == old(byteoffset) + (if r.Success? then n else 0)
      ensures rip == if r.Success? then (old(rip) + n) % TWO64 else old(rip)
    {
      if byteoffset + n - 1 >= |insnbytes| {
        return Failure(NotEnoughBytes);
      }
      r := Success(LittleEndian(insnbytes[byteoffset..byteoffset+n]));
      assert insnbytes[byteoffset..byteoffset+n] == Rest()[..n];
      rip := (rip + n) % TWO64;
      byteoffset := byteoffset + n;
    }

    /** Note one more prefix byte; a REX byte before it no longer counts. */
    method TakePrefix(prefix: Prefix, b: Byte, ghost before: seq<Byte>)
      requires Valid() && PrefixOf(use64, b) == Some(prefix) && PrefixesOf(use64, before, prefixes, rex)
      requires !rex.present ==> rex == NO_REX
      modifies this`rex, this`prefixes
      ensures Valid() && PrefixesOf(use64, before + [b], prefixes, rex)
      ensures !rex.present ==> rex == NO_REX
    {
      hide PrefixOf, RexOf, PrefixesOf;
      NextPrefix(use64, before, prefixes, rex, b);
      if rex.present {
        rex := NO_REX;
        prefixes := prefixes - {RexPrefix};
      }
      prefixes := prefixes + {prefix};
      if prefix == RexPrefix {
        rex := RexOf(b);
      }
    }

    /** Read the prefix bytes in front of an opcode. */
    method DecodePrefixes() returns (o: Outcome<Fault>)
      requires Valid()
      modifies this`rip, this`byteoffset, this`rex, this`prefixes
      ensures Valid() && byteoffset >= old(byteoffset)
      ensures PrefixesOf(use64, insnbytes[old(byteoffset)..byteoffset], prefixes, rex)
      ensures rip == (old(rip) + (byteoffset - old(byteoffset))) % TWO64
      ensures o.Pass? ==> byteoffset < |insnbytes| && PrefixOf(use64, insnbytes[byteoffset]).None?
      ensures o.Fail? ==> o.error == NotEnoughBytes && byteoffset == |insnbytes|
    {
      hide PrefixOf, PrefixesOf;
      ghost var bytes: seq<Byte> := [];
      prefixes := {};
      rex := NO_REX;
      NoPrefixes(use64);
      while byteoffset < |insnbytes|
        invariant Valid() && old(byteoffset) <= byteoffset && bytes == insnbytes[old(byteoffset)..byteoffset]
        invariant PrefixesOf(use64, bytes, prefixes, rex) && (!rex.present ==> rex == NO_REX)
        invariant rip == (old(rip) + |bytes|) % TWO64
      {
        var b := insnbytes[byteoffset];
        var prefix := PrefixOf(use64, b);
        if prefix.None? {
          return Pass;
        }
        TakePrefix(prefix.value, b, bytes);
        ModAdd(old(rip) + |bytes|, 1);
        bytes := bytes + [b];
        byteoffset := byteoffset + 1;
        rip := (rip + 1) % TWO64;
      }
      o := Fail(NotEnoughBytes);
    }

    /** A one-byte opcode without a meaning of the data-size prefix of its own, and the ModRM byte behind it. */
    method FetchOpcode() returns (opcode: Byte)
      requires Valid() && |Rest()| >= 2
      modifies this`rip, this`byteoffset, this`modrm, this`opsizePrefix
      ensures Valid() && opcode == old(Rest())[0] && modrm == ModRMOf(old(Rest())[1])
      ensures opsizePrefix == (DataSize in prefixes)
      ensures byteoffset == old(byteoffset) + 2 && Rest() == old(Rest())[2..] && rip == (old(rip) + 2) % TWO64
    {
      hide ModRMOf, LittleEndian;
      ghost var rest := Rest();
      LittleEndianBound([rest[0]]);
      LittleEndianBound([rest[1]]);
      assert rest[..1] == [rest[0]];
      var first := Fetch(1);
      opcode := first.value;
      opsizePrefix := DataSize in prefixes;
      assert Rest()[..1] == [rest[1]];
      var second := Fetch(1);
      modrm := ModRMOf(second.value);
      ModAdd(old(rip) + 1, 1);
    }

    /** The SIB byte, if there is one. */
    method FetchSib() returns (r: Result<Sib, Fault>)
      requires Valid()
      modifies this`rip, this`byteoffset
      ensures Valid()
      ensures var n, rest := One(HasSib(modrm)), old(Rest());
              if |rest| < n then r == Failure(NotEnoughBytes) else
              && r == Success(SibIn(modrm, rest))
              && byteoffset == old(byteoffset) + n && rip == (old(rip) + n) % TWO64
    {
      if modrm.mod != 3 && modrm.rm == 4 {
        ghost var rest := Rest();
        var b :- Fetch(1);
        LittleEndianBound(rest[..1]);
        r := Success(SibOf(b));
      } else {
        r := Success(Sib(0, 0, 0));
      }
    }

    /** A displacement of `n` bytes, sign-extended. */
    method FetchDisp(n: nat) returns (r: Result<int, Fault>)
      requires Valid()
      modifies this`rip, this`byteoffset
      ensures Valid()
      ensures var rest := old(Rest());
              if |rest| < n then r == Failure(NotEnoughBytes) else
              && r == Success(SignExtended(LittleEndian(rest[..n]), n))
              && byteoffset == old(byteoffset) + n && rip == (old(rip) + n) % TWO64
    {
      if n > 0 {
        var v :- Fetch(n);
        r := Success(SignExtended(v, n));
      } else {
        r := Success(0);
      }
    }

    /** The base and index registers, by the tables; `further` says that a displacement is still to be fetched. */
    method ChooseRegisters(sib: Sib) returns (base: Reg, index: Reg, scale: nat, further: bool)
      requires Valid() && modrm.mod != 3 && sib.base <= 7 && sib.index <= 7 && sib.scale <= 3
      ensures (base, index, scale) == RegistersOf(use64, rex, modrm, sib)
      ensures further == (modrm.rm == 4 && sib.base == 5 && modrm.mod == 0)
    {
      BaseTables(modrm.mod, rex.extbase, modrm.rm);
      var basereg := if use64 then BASE64[modrm.mod][rex.extbase][modrm.rm] else BASE32[modrm.mod][modrm.rm];
      if basereg.Some? {
        return basereg.value, Zero, 0, false;
      }
      SibTables(modrm.mod, rex.extbase, sib.base);
      SibTables(modrm.mod, rex.extindex, sib.index);
      var sibbase := SIB_BASE[rex.extbase][sib.base];
      base := if sibbase.Some? then sibbase.value else SIB_BASE_BY_MOD[rex.extbase][modrm.mod];
      further := sibbase.None? && IMMSIZE[modrm.mod][modrm.rm] == 0;
      index := SIB_INDEX[rex.extindex][sib.index];
      scale := sib.scale;
    }

    /** Fetch SIB and displacement, and choose the registers; the access size is left open. */
    method FetchOperand() returns (r: Result<MemRef, Fault>)
      requires Valid() && modrm.mod != 3
      modifies this`rip, this`byteoffset
      ensures Valid()
      ensures var rest := old(Rest());
              var sib := SibIn(modrm, rest);
              var n := OperandBytes(modrm, sib);
              if |rest| < n then r == Failure(NotEnoughBytes)
              else
                && byteoffset == old(byteoffset) + n && rip == (old(rip) + n) % TWO64
                && r == Success(RefOf(use64, rex, modrm, sib, DispIn(modrm, rest), 0))
    {
      hide LittleEndian, SignExtended, RefOf, SibIn;
      ghost var rest := Rest();
      ghost var k := One(HasSib(modrm));
      var sib :- FetchSib();
      ghost var n := DispBytes(modrm, sib);
      assert Rest() == rest[k..];
      assert k + n <= |rest| ==> rest[k..][..n] == rest[k..k+n];
      ModAdd(old(rip) + k, n);
      r := FetchDispAndChoose(sib);
    }

    /** The part of it that follows the SIB byte. */
    method FetchDispAndChoose(sib: Sib) returns (r: Result<MemRef, Fault>)
      requires Valid() && modrm.mod != 3 && sib.base <= 7 && sib.index <= 7 && sib.scale <= 3
      modifies this`rip, this`byteoffset
      ensures Valid()
      ensures var rest, n := old(Rest()), DispBytes(modrm, sib);
              if |rest| < n then r == Failure(NotEnoughBytes)
              else
                && byteoffset == old(byteoffset) + n && rip == (old(rip) + n) % TWO64
                && r == Success(RefOf(use64, rex, modrm, sib, SignExtended(LittleEndian(rest[..n]), n), 0))
    {
      hide LittleEndian, RegistersOf;
      BaseTables(modrm.mod, rex.extbase, modrm.rm);
      var immsize := IMMSIZE[modrm.mod][modrm.rm];
      var offset :- FetchDisp(immsize);
      var base, index, scale, further := ChooseRegisters(sib);
      if further {
        offset :- FetchDisp(4);
      }
      r := Success(MemRef(base, index, offset, scale, 0));
    }

    /** Decode the operand a ModRM byte describes, fetching its SIB and displacement bytes. */
    method EForm(mode: ByteMode) returns (r: Result<Decoded, Fault>)
      requires Valid()
      modifies this`rip, this`byteoffset
      ensures Valid()
      ensures modrm.mod == 3
              ==> r == Success(Register(modrm.rm + 8 * rex.extbase)) && byteoffset == old(byteoffset) && rip == old(rip)
      ensures var rest := old(Rest());
              var sib := SibIn(modrm, rest);
              var n := OperandBytes(modrm, sib);
              modrm.mod != 3 ==>
                if |rest| < n then r == Failure(NotEnoughBytes)
                else
                  && byteoffset == old(byteoffset) + n && rip == (old(rip) + n) % TWO64
                  && (SizeOf(mode, use64, rex.mode64, opsizePrefix).None? ==> r == Failure(BadByteMode))
                  && (SizeOf(mode, use64, rex.mode64, opsizePrefix).Some? ==>
                        && r.Success? && r.value.Memory? && WellFormed(r.value.mem)
                        && Some(r.value.mem.size) == SizeOf(mode, use64, rex.mode64, opsizePrefix)
                        && Means(r.value.mem, use64, rex, modrm, sib, DispIn(modrm, rest)))
    {
      hide Means, LittleEndian, SignExtended, RegistersOf, SibIn, WellFormed;
      if modrm.mod == 3 {
        return Success(Register(modrm.rm + 8 * rex.extbase));
      }
      ghost var rest := Rest();
      var mem :- FetchOperand();
      var size := SizeOf(mode, use64, rex.mode64, opsizePrefix);
      if size.None? {
        return Failure(BadByteMode);
      }
      r := Success(Memory(mem.(size := size.value)));
      RegistersMean(use64, rex, modrm, SibIn(modrm, rest), DispIn(modrm, rest), size.value);
    }

    /** Append a micro-operation to the translation buffer. */
    method EmitOp(u: TransOp)
      requires |transbuf| < MAX_TRANSOPS
      modifies this`transbuf
      ensures transbuf == old(transbuf) + [u]
    {
      transbuf := transbuf + [u];
    }

    /** Add the base of the segment the prefixes choose, if they choose one. */
    method BiasBySegreg(basereg: Reg) returns (base: Reg)
      requires |transbuf| + 2 <= MAX_TRANSOPS
      modifies this`transbuf
      ensures var (bias, biased) := Bias(prefixes, basereg); transbuf == old(transbuf) + bias && base == biased
    {
      var s := ChosenSegment(prefixes);
      if s == [] {
        return basereg;
      }
      EmitOp(Uop(OpLd, Temp6, Ctx, Imm, Zero, 3, BaseSlot(s[0])).(internal := true));
      EmitOp(Uop(OpAdd, Temp6, Temp6, basereg, Zero, 3, 0));
      base := Temp6;
    }

    /** Emit the micro-operations for an access to a memory operand. */
    method AddressGenerateAndLoadOrStore(destreg: Reg, srcreg: Reg, memref: Decoded, op: Opcode, forceSegBias: bool)
      returns (o: Outcome<Fault>)
      requires Valid() && |transbuf| + 5 <= MAX_TRANSOPS && (memref.Memory? ==> WellFormed(memref.mem))
      modifies this`transbuf
      ensures Valid()
      ensures memref.Register? ==> o == Fail(InvalidOpcode) && transbuf == old(transbuf)
      ensures memref.Memory? ==>
        && o == Pass
        && transbuf == old(transbuf) + Generated(prefixes, rip, op, destreg, srcreg, memref.mem, forceSegBias)
    {
      hide Bias, Addressed, ChosenSegment, WellFormed;
      if memref.Register? {
        return Fail(InvalidOpcode);
      }
      ghost var before := transbuf;
      var mem := memref.mem;
      var basereg := if mem.basereg == Rip then Zero else mem.basereg;
      if forceSegBias || IsMemop(op) {
        basereg := BiasBySegreg(basereg);
      } else {
        assert transbuf == before + [];
      }
      ghost var bias, addressed := transbuf[|before|..],
          Addressed(Lock in prefixes, rip, op, destreg, srcreg, mem, basereg);
      EmitAddressed(destreg, srcreg, mem, op, basereg);
      assert before + bias + addressed == before + (bias + addressed);
      o := Pass;
    }

    /** The four addressing forms, once the base register has its bias. */
    method EmitAddressed(destreg: Reg, srcreg: Reg, mem: MemRef, op: Opcode, base: Reg)
      requires |transbuf| + 3 <= MAX_TRANSOPS
      modifies this`transbuf
      ensures transbuf == old(transbuf) + Addressed(Lock in prefixes, rip, op, destreg, srcreg, mem, base)
    {
      hide Encodable, IsMemop, Uop, Final;
      var memop := IsMemop(op);
      var locked := Lock in prefixes;
      if mem.basereg == Rip {
        var temp := if memop then Temp8 else destreg;
        EmitOp(Uop(OpAdd, temp, base, Imm, Zero, 3, rip + mem.offset));
        if memop {
          EmitOp(Final(op, destreg, temp, srcreg, mem.size, 0, locked));
        }
      } else if mem.indexreg == Zero {
        var basereg, offset := EncodableOffset(mem, memop, base);
        EmitOp(Final(op, destreg, basereg, srcreg, mem.size, offset, locked));
      } else if mem.offset == 0 {
        EmitIndexOnly(destreg, srcreg, mem, op, base);
      } else {
        EmitIndexAndOffset(destreg, srcreg, mem, op, base);
      }
    }

    /** Base, index and offset. */
    method EmitIndexAndOffset(destreg: Reg, srcreg: Reg, mem: MemRef, op: Opcode, base: Reg)
      requires |transbuf| + 3 <= MAX_TRANSOPS && mem.basereg != Rip && mem.indexreg != Zero && mem.offset != 0
      modifies this`transbuf
      ensures transbuf == old(transbuf) + Addressed(Lock in prefixes, rip, op, destreg, srcreg, mem, base)
    {
      hide Encodable, IsMemop, Uop, Final;
      ghost var before := transbuf;
      var basereg, offset := EncodableOffset(mem, IsMemop(op), base);
      ghost var first := transbuf[|before|..];
      var adda := Uop(OpAdda, Temp8, basereg, Zero, mem.indexreg, 3, 0).(extshift := mem.scale);
      var final := Final(op, destreg, Temp8, srcreg, mem.size, offset, Lock in prefixes);
      EmitOp(adda);
      EmitOp(final);
      assert transbuf == before + (first + [adda] + [final]);
      assert [] + [adda] == [adda];
    }

    /** An offset that does not fit its field is added beforehand. */
    method EncodableOffset(mem: MemRef, memop: bool, base: Reg) returns (basereg: Reg, offset: int)
      requires |transbuf| + 1 <= MAX_TRANSOPS
      modifies this`transbuf
      ensures if Encodable(mem.offset, mem.size, if memop then 32 else 64)
              then basereg == base && offset == mem.offset && transbuf == old(transbuf) else
              && basereg == Temp8 && offset == 0
              && transbuf == old(transbuf) + [Uop(OpAdd, Temp8, base, Imm, Zero, 3, mem.offset)]
    {
      hide Encodable;
      basereg, offset := base, mem.offset;
      if !Encodable(mem.offset, mem.size, if memop then 32 else 64) {
        EmitOp(Uop(OpAdd, Temp8, base, Imm, Zero, 3, mem.offset));
        basereg, offset := Temp8, 0;
      }
    }

    /** Base and index without an offset. */
    method EmitIndexOnly(destreg: Reg, srcreg: Reg, mem: MemRef, op: Opcode, base: Reg)
      requires |transbuf| + 2 <= MAX_TRANSOPS && mem.basereg != Rip && mem.indexreg != Zero && mem.offset == 0
      modifies this`transbuf
      ensures transbuf == old(transbuf) + Addressed(Lock in prefixes, rip, op, destreg, srcreg, mem, base)
    {
      hide Encodable, IsMemop, Uop, Final;
      var memop := IsMemop(op);
      var temp := if memop then Temp8 else destreg;
      if mem.scale > 0 {
        EmitOp(Uop(OpAdda, temp, base, Zero, mem.indexreg, if memop then 3 else mem.size, 0).(extshift := mem.scale));
      } else {
        EmitOp(Uop(OpAdd, temp, base, mem.indexreg, Zero, if memop then 3 else mem.size, 0));
      }
      if memop {
        EmitOp(Final(op, destreg, temp, srcreg, mem.size, 0, Lock in prefixes));
      }
    }

    /**
     * Decode a memory operand and load from it: for every byte string and every machine state, what has been emitted
     * then loads from the segment base plus the address of the operand, and into the destination.
     */
    method DecodeAndLoad(mode: ByteMode, destreg: Reg) returns (r: Result<MemRef, Fault>)
      requires Valid() && |transbuf| + 5 <= MAX_TRANSOPS
      modifies this`rip, this`byteoffset, this`transbuf
      ensures Valid() && old(transbuf) <= transbuf
      ensures var rest := old(Rest());
              r.Success? <==> modrm.mod != 3 && |rest| >= OperandBytes(modrm, SibIn(modrm, rest))
                              && SizeOf(mode, use64, rex.mode64, opsizePrefix).Some?
      ensures r.Success? ==>
        var n := OperandBytes(modrm, SibIn(modrm, old(Rest())));
        && byteoffset == old(byteoffset) + n && rip == (old(rip) + n) % TWO64
        && Some(r.value.size) == SizeOf(mode, use64, rex.mode64, opsizePrefix)
      ensures r.Success? ==>
        var rest := old(Rest());
        forall m: Machine ::
             AccessesAt(m, Run(transbuf[|old(transbuf)|..], m), OpLd, destreg, Zero, r.value.size,
                        (SegmentBase(prefixes, m)
                         + EffectiveAddress(use64, rex, modrm, SibIn(modrm, rest), DispIn(modrm, rest), m.regs,
                             rip)) % TWO64)
    {
      hide AccessesAt, EffectiveAddress, LittleEndian, SignExtended, SibIn, WellFormed, Generated, Run, SegmentBase,
           Linear, Means, SizeOf, OperandBytes, DispIn;
      ghost var before, rest := transbuf, Rest();
      var d :- EForm(mode);
      if d.Register? {
        return Failure(InvalidOpcode);
      }
      var _ := AddressGenerateAndLoadOrStore(destreg, Zero, d, OpLd, false);
      assert transbuf[|before|..] == Generated(prefixes, rip, OpLd, destreg, Zero, d.mem, false);
      forall m: Machine {
        GeneratedMeans(prefixes, rip, OpLd, destreg, Zero, d.mem, use64, rex, modrm,
                       SibIn(modrm, rest), DispIn(modrm, rest), m);
      }
      r := Success(d.mem);
    }

    /** The same for a store. */
    method DecodeAndStore(mode: ByteMode, srcreg: Reg) returns (r: Result<MemRef, Fault>)
      requires Valid() && |transbuf| + 5 <= MAX_TRANSOPS
      modifies this`rip, this`byteoffset, this`transbuf
      ensures Valid() && old(transbuf) <= transbuf
      ensures var rest := old(Rest());
              r.Success? <==> modrm.mod != 3 && |rest| >= OperandBytes(modrm, SibIn(modrm, rest))
                              && SizeOf(mode, use64, rex.mode64, opsizePrefix).Some?
      ensures r.Success? ==>
        var n := OperandBytes(modrm, SibIn(modrm, old(Rest())));
        && byteoffset == old(byteoffset) + n && rip == (old(rip) + n) % TWO64
        && Some(r.value.size) == SizeOf(mode, use64, rex.mode64, opsizePrefix)
      ensures r.Success? ==>
        var rest := old(Rest());
        forall m: Machine ::
             AccessesAt(m, Run(transbuf[|old(transbuf)|..], m), OpSt, Mem, srcreg, r.value.size,
                        (SegmentBase(prefixes, m)
                         + EffectiveAddress(use64, rex, modrm, SibIn(modrm, rest), DispIn(modrm, rest), m.regs,
                             rip)) % TWO64)
    {
      hide AccessesAt, EffectiveAddress, LittleEndian, SignExtended, SibIn, WellFormed, Generated, Run, SegmentBase,
           Linear, Means, SizeOf, OperandBytes, DispIn;
      ghost var before, rest := transbuf, Rest();
      var d :- EForm(mode);
      if d.Register? {
        return Failure(InvalidOpcode);
      }
      var _ := AddressGenerateAndLoadOrStore(Mem, srcreg, d, OpSt, false);
      assert transbuf[|before|..] == Generated(prefixes, rip, OpSt, Mem, srcreg, d.mem, false);
      forall m: Machine {
        GeneratedMeans(prefixes, rip, OpSt, Mem, srcreg, d.mem, use64, rex, modrm,
                       SibIn(modrm, rest), DispIn(modrm, rest), m);
      }
      r := Success(d.mem);
    }

    /**
     * Decode a memory operand and put its address, without a segment base, into a register of `2^size` bytes: for every
     * byte string and every machine state. An address relative to the instruction pointer is not cut to that size.
     */
    method DecodeLea(size: nat, destreg: Reg) returns (r: Result<MemRef, Fault>)
      requires Valid() && |transbuf| + 5 <= MAX_TRANSOPS && size <= 3
      modifies this`rip, this`byteoffset, this`transbuf
      ensures Valid() && old(transbuf) <= transbuf
      ensures r.Success? <==> modrm.mod != 3 && |old(Rest())| >= OperandBytes(modrm, SibIn(modrm, old(Rest())))
      ensures r.Success? ==>
        var rest := old(Rest());
        var n := OperandBytes(modrm, SibIn(modrm, rest));
        && byteoffset == old(byteoffset) + n && rip == (old(rip) + n) % TWO64
        && forall m: Machine ::
             ComputedIn(m, Run(transbuf[|old(transbuf)|..], m), destreg,
                        Cut(EffectiveAddress(use64, rex, modrm, SibIn(modrm, rest), DispIn(modrm, rest), m.regs, rip),
                            if use64 && modrm.mod == 0 && modrm.rm == 5 then 3 else size))
    {
      hide ComputedIn, EffectiveAddress, LittleEndian, SignExtended, SibIn, WellFormed, Generated, Run, Linear, Means,
           OperandBytes, DispIn, Cut;
      ghost var before, rest := transbuf, Rest();
      var d :- EForm(VMode);
      if d.Register? {
        return Failure(InvalidOpcode);
      }
      CutIsWellFormed(d.mem, size, _ => 0, 0);
      var _ := AddressGenerateAndLoadOrStore(destreg, Zero, Memory(d.mem.(size := size)), OpAdd, false);
      assert transbuf[|before|..] == Generated(prefixes, rip, OpAdd, destreg, Zero, d.mem.(size := size), false);
      BaseIsRip(d.mem, use64, rex, modrm, SibIn(modrm, rest), DispIn(modrm, rest));
      forall m: Machine {
        ComputedMeans(prefixes, rip, destreg, d.mem, size, use64, rex, modrm, SibIn(modrm, rest), DispIn(modrm, rest),
                      m);
      }
      r := Success(d.mem.(size := size));
    }
  }

  /** The meaning of an operand shows whether its base is the instruction pointer. */
  lemma BaseIsRip(mem: MemRef, use64: bool, rex: Rex, m: ModRM, s: Sib, disp: int)
    requires WellFormed(mem) && Means(mem, use64, rex, m, s, disp)
    ensures mem.basereg == Rip <==> use64 && m.mod == 0 && m.rm == 5
  {
    var none: Reg -> int := _ => 0;
    assert Linear(mem, none, 0) == EffectiveAddress(use64, rex, m, s, disp, none, 0);
    assert Linear(mem, none, 1) == EffectiveAddress(use64, rex, m, s, disp, none, 1);
    hide Means;
  }

  /** Base, index and scale of the operand, as the decoder chooses them. */
  function RegistersOf(use64: bool, rex: Rex, m: ModRM, s: Sib): (Reg, Reg, nat) {
    if m.rm == 4 then
      (if s.base == 5 && m.mod == 0 then Zero else Gpr(s.base + 8 * rex.extbase),
       if s.index + 8 * rex.extindex == 4 then Zero else Gpr(s.index + 8 * rex.extindex),
       s.scale)
    else if m.mod == 0 && m.rm == 5 then (if use64 then Rip else Zero, Zero, 0)
    else (Gpr(m.rm + 8 * rex.extbase), Zero, 0)
  }

  function RefOf(use64: bool, rex: Rex, m: ModRM, s: Sib, disp: int, size: nat): MemRef {
    var (base, index, scale) := RegistersOf(use64, rex, m, s);
    MemRef(base, index, disp, scale, size)
  }

  lemma RegistersMean(use64: bool, rex: Rex, m: ModRM, s: Sib, disp: int, size: nat)
    requires s.scale <= 3 && size <= 3
    ensures var mem := RefOf(use64, rex, m, s, disp, size);
            WellFormed(mem) && Means(mem, use64, rex, m, s, disp)
  {
  }

  // ---------------------------------------------------------------- two instructions

  /** What comes before the operand of a move to a register in 64-bit code: `n` prefixes, opcode 0x8b and ModRM byte. */
  method BeginMove(bytes: seq<Byte>, ghost n: nat) returns (d: TraceDecoder)
    requires n + 2 <= |bytes| && bytes[n] == 0x8b
    requires forall i :: 0 <= i < n ==> PrefixOf(true, bytes[i]).Some?
    ensures fresh(d) && d.Valid() && d.use64 && d.modrm == ModRMOf(bytes[n+1]) && d.transbuf == []
    ensures PrefixesOf(true, bytes[..n], d.prefixes, d.rex) && d.opsizePrefix == (DataSize in d.prefixes)
    ensures d.Rest() == bytes[n+2..] && d.rip == (n + 2) % TWO64
  {
    hide PrefixesOf, PrefixOf, RexOf, ModRMOf;
    d := new TraceDecoder(bytes, true, 0);
    var o := d.DecodePrefixes();
    PrefixesEnd(bytes, n, d.byteoffset, d.prefixes, d.rex);
    assert bytes[0..n] == bytes[..n];
    var opcode := d.FetchOpcode();
    ModAdd(n, 2);
  }

  lemma PrefixesEnd(bytes: seq<Byte>, n: nat, k: nat, prefixes: set<Prefix>, rex: Rex)
    requires n < |bytes| && k <= |bytes| && bytes[n] == 0x8b
    requires forall i :: 0 <= i < n ==> PrefixOf(true, bytes[i]).Some?
    requires PrefixesOf(true, bytes[0..k], prefixes, rex) && (k < |bytes| ==> PrefixOf(true, bytes[k]).None?)
    ensures k == n
  {
    var all := bytes[0..k];
    assert forall i :: 0 <= i < k ==> all[i] == bytes[i];
  }

  const MOVE_BEHIND_PREFIX: seq<Byte> := [0x67, 0x8b, 0x00]

  lemma PrefixesOfMove(prefixes: set<Prefix>, rex: Rex)
    requires PrefixesOf(true, MOVE_BEHIND_PREFIX[..1], prefixes, rex)
    ensures AddrSize in prefixes && DataSize !in prefixes && ChosenSegment(prefixes) == [] && rex == NO_REX
  {
    assert MOVE_BEHIND_PREFIX[..1][0] == 0x67;
  }

  lemma OperandOfMove(regs: Reg -> int, rip: nat)
    ensures var m := ModRM(0, 0, 0);
            && SibIn(m, []) == Sib(0, 0, 0) && OperandBytes(m, SibIn(m, [])) == 0
            && EffectiveAddress(true, NO_REX, m, SibIn(m, []), DispIn(m, []), regs, rip) == regs(RAX)
  {
    assert LittleEndian([]) == 0;
  }

  /**
   * The bytes 0x67 0x8b 0x00 of 64-bit code, which move from the address in EAX to EAX: the load is at the address in
   * RAX, so that with 2^32 in it the access is there and not at zero.
   */
  method AddressSizeIsIgnored() returns (prefixes: set<Prefix>, uops: seq<TransOp>)
    ensures AddrSize in prefixes && ChosenSegment(prefixes) == []
    ensures forall m: Machine :: AccessesAt(m, Run(uops, m), OpLd, RAX, Zero, 2, m.regs(RAX) % TWO64)
    ensures TWO32 % TWO64 == TWO32 && LinearAddress(true, prefixes, 0, TWO32) == 0
  {
    hide AccessesAt, Run, EffectiveAddress, SibIn, DispIn, OperandBytes, ChosenSegment, PrefixesOf;
    var d := BeginMove(MOVE_BEHIND_PREFIX, 1);
    PrefixesOfMove(d.prefixes, d.rex);
    OperandOfMove(_ => 0, 0);
    assert MOVE_BEHIND_PREFIX[3..] == [];
    var r := d.DecodeAndLoad(VMode, Gpr(d.modrm.reg + 8 * d.rex.extreg));
    assert d.transbuf[0..] == d.transbuf;
    prefixes, uops := d.prefixes, d.transbuf;
    forall m: Machine ensures AccessesAt(m, Run(uops, m), OpLd, RAX, Zero, 2, m.regs(RAX) % TWO64) {
      OperandOfMove(m.regs, d.rip);
    }
  }

  const SCALED_MOVE: seq<Byte> := [0x64, 0x4a, 0x8b, 0x54, 0x88, 0xf0]

  lemma PrefixesOfScaledMove(prefixes: set<Prefix>, rex: Rex)
    requires PrefixesOf(true, SCALED_MOVE[..2], prefixes, rex)
    ensures DataSize !in prefixes && ChosenSegment(prefixes) == [FS] && rex == Rex(true, 0, 1, 0, true)
  {
    assert SCALED_MOVE[..2][0] == 0x64 && SCALED_MOVE[..2][1] == 0x4a;
  }

  lemma OperandOfScaledMove(regs: Reg -> int, rip: nat)
    ensures var m, rex, rest := ModRM(1, 2, 4), Rex(true, 0, 1, 0, true), [0x88, 0xf0];
            && ModRMOf(0x54) == m && SibIn(m, rest) == Sib(0, 1, 2) && OperandBytes(m, SibIn(m, rest)) == 2
            && EffectiveAddress(true, rex, m, SibIn(m, rest), DispIn(m, rest), regs, rip)
               == regs(Gpr(0)) + 4 * regs(Gpr(9)) - 16
  {
    var rest: seq<Byte> := [0x88, 0xf0];
    assert rest[1..2] == [0xf0];
    LittleEndianBound([0xf0]);
    assert Up(regs(Gpr(9)), 2) == 2 * Up(regs(Gpr(9)), 1) == 4 * Up(regs(Gpr(9)), 0);
  }

  /**
   * The bytes 0x64 0x4a 0x8b 0x54 0x88 0xf0, a move to RDX from FS:[RAX + 4*R9 - 16]: the load is of eight bytes at the
   * base of FS, which is the fifth word of the context block, plus RAX plus four times R9, less sixteen.
   */
  method ScaledMove() returns (uops: seq<TransOp>)
    ensures forall m: Machine ::
              AccessesAt(m, Run(uops, m), OpLd, Gpr(2), Zero, 3,
                         (m.context(4) + (m.regs(Gpr(0)) + 4 * m.regs(Gpr(9)) - 16)) % TWO64)
  {
    hide AccessesAt, Run, EffectiveAddress, SibIn, DispIn, OperandBytes, ChosenSegment, PrefixesOf, ModRMOf;
    var d := BeginMove(SCALED_MOVE, 2);
    PrefixesOfScaledMove(d.prefixes, d.rex);
    OperandOfScaledMove(_ => 0, 0);
    assert SCALED_MOVE[4..] == [0x88, 0xf0];
    var r := d.DecodeAndLoad(VMode, Gpr(d.modrm.reg + 8 * d.rex.extreg));
    assert d.transbuf[0..] == d.transbuf;
    uops := d.transbuf;
    forall m: Machine
      ensures AccessesAt(m, Run(uops, m), OpLd, Gpr(2), Zero, 3,
                         (m.context(4) + (m.regs(Gpr(0)) + 4 * m.regs(Gpr(9)) - 16)) % TWO64)
    {
      OperandOfScaledMove(m.regs, d.rip);
    }
  }
}
