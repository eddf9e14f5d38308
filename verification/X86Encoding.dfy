/** The bytes of an instruction, bit by bit, and the tables that depend on single values, entry by entry. */
module X86Encoding {
  import opened Outcomes
  import opened Bits
  import opened X86Uops
  import opened X86Decoder

  /** A SIB byte has its base in the low three bits, its index in the next three, and its scale in the top two. */
  lemma SibBits(base: nat, index: nat, scale: nat)
    requires base <= 7 && index <= 7 && scale <= 3
    ensures base + 8 * index + 64 * scale < 0x100
    ensures SibOf(base + 8 * index + 64 * scale) == Sib(base, index, scale)
  {
    Fields(base, index, scale);
  }

  lemma Fields(a: nat, b: nat, c: nat)
    requires a <= 7 && b <= 7 && c <= 3
    ensures var x := a + 8 * b + 64 * c; x < 0x100 && x % 8 == a && x / 8 % 8 == b && x / 64 == c
  {
    var x := a + 8 * b + 64 * c;
    assert x == 8 * (b + 8 * c) + a;
    assert x / 8 == b + 8 * c;
    assert x / 64 == c;
  }

  /** A ModRM byte has rm in the low three bits, the register in the next three, and the mode in the top two. */
  lemma ModRMBits(rm: nat, reg: nat, mod: nat)
    requires rm <= 7 && reg <= 7 && mod <= 3
    ensures rm + 8 * reg + 64 * mod < 0x100
    ensures ModRMOf(rm + 8 * reg + 64 * mod) == ModRM(mod, reg, rm)
  {
    Fields(rm, reg, mod);
  }

  /** A REX byte is 0x40 and, from the lowest bit on, the extensions of base, index, register and operand size. */
  lemma RexBits(extbase: nat, extindex: nat, extreg: nat, mode64: bool)
    requires extbase <= 1 && extindex <= 1 && extreg <= 1
    ensures var b := 0x40 + extbase + 2 * extindex + 4 * extreg + 8 * One(mode64);
            && b < 0x100 && PrefixOf(true, b) == Some(RexPrefix) && PrefixOf(false, b) == None
            && RexOf(b) == Rex(true, extbase, extindex, extreg, mode64)
  {
  }

  /** Numbers of one and of four bytes, least significant first. */
  lemma NumberBytes(a: Byte, b: Byte, c: Byte, d: Byte)
    ensures LittleEndian([]) == 0 && LittleEndian([a]) == a
    ensures LittleEndian([a, b, c, d]) == a + 0x100 * b + 0x1_0000 * c + 0x100_0000 * d
  {
    assert [a][1..] == [];
    assert [a, b, c, d][1..] == [b, c, d] && [b, c, d][1..] == [c, d] && [c, d][1..] == [d] && [d][1..] == [];
    assert LittleEndian([d]) == d;
    assert LittleEndian([c, d]) == c + 0x100 * d;
    assert LittleEndian([b, c, d]) == b + 0x100 * LittleEndian([c, d]);
  }

  /** How many bytes of SIB and displacement follow a ModRM byte. */
  lemma OperandLengths(reg: nat, rm: nat, s: Sib)
    requires reg <= 7 && rm <= 7
    ensures OperandBytes(ModRM(3, reg, rm), s) == 0
    ensures OperandBytes(ModRM(2, reg, rm), s) == if rm == 4 then 5 else 4
    ensures OperandBytes(ModRM(1, reg, rm), s) == if rm == 4 then 2 else 1
    ensures OperandBytes(ModRM(0, reg, rm), s) ==
            if rm == 4 then (if s.base == 5 then 5 else 1) else if rm == 5 then 4 else 0
    ensures HasSib(ModRM(0, reg, 4)) && HasSib(ModRM(1, reg, 4)) && HasSib(ModRM(2, reg, 4))
  {
  }

  /** Sign extension is two's complement: the same value modulo the width, between the two halves of its range. */
  lemma SignsOfBytes(v: nat)
    ensures SignExtended(0, 0) == 0
    ensures v < 0x100 ==> SignExtended(v, 1) % 0x100 == v && -0x80 <= SignExtended(v, 1) < 0x80
    ensures v < TWO32 ==> SignExtended(v, 4) % TWO32 == v && -0x8000_0000 <= SignExtended(v, 4) < 0x8000_0000
  {
  }

  /** The prefix bytes; REX bytes are above, and no other byte is a prefix. */
  lemma PrefixBytes(use64: bool, b: Byte)
    ensures PrefixOf(use64, 0x26) == Some(SegmentOverride(ES)) && PrefixOf(use64, 0x2e) == Some(SegmentOverride(CS))
    ensures PrefixOf(use64, 0x36) == Some(SegmentOverride(SS)) && PrefixOf(use64, 0x3e) == Some(SegmentOverride(DS))
    ensures PrefixOf(use64, 0x64) == Some(SegmentOverride(FS)) && PrefixOf(use64, 0x65) == Some(SegmentOverride(GS))
    ensures PrefixOf(use64, 0x66) == Some(DataSize) && PrefixOf(use64, 0x67) == Some(AddrSize)
    ensures PrefixOf(use64, 0x9b) == Some(FWait) && PrefixOf(use64, 0xf0) == Some(Lock)
    ensures PrefixOf(use64, 0xf2) == Some(RepNZ) && PrefixOf(use64, 0xf3) == Some(RepZ)
    ensures b !in {0x26, 0x2e, 0x36, 0x3e, 0x64, 0x65, 0x66, 0x67, 0x9b, 0xf0, 0xf2, 0xf3} && !(0x40 <= b < 0x50) ==>
              PrefixOf(use64, b) == None
  {
  }

  /** How many bytes an operand has, as a power of two. */
  lemma OperandSizes(use64: bool, mode64: bool, opsize: bool)
    ensures SizeOf(BMode, use64, mode64, opsize) == Some(0) && SizeOf(WMode, use64, mode64, opsize) == Some(1)
    ensures SizeOf(DMode, use64, mode64, opsize) == Some(2) && SizeOf(QMode, use64, mode64, opsize) == Some(3)
    ensures SizeOf(VMode, use64, true, opsize) == Some(3)
    ensures SizeOf(VMode, use64, false, true) == Some(1) && SizeOf(VMode, use64, false, false) == Some(2)
    ensures SizeOf(MMode, true, mode64, opsize) == Some(3) && SizeOf(MMode, false, mode64, opsize) == Some(2)
    ensures SizeOf(DqMode, use64, true, opsize) == Some(3) && SizeOf(DqMode, use64, false, opsize) == Some(2)
    ensures SizeOf(XMode, use64, mode64, opsize) == Some(3)
    ensures SizeOf(CondJump, use64, mode64, opsize) == None && SizeOf(LoopJcxz, use64, mode64, opsize) == None
  {
  }

  lemma Powers()
    ensures Pow2(0) == 1 && Pow2(1) == 2 && Pow2(2) == 4 && Pow2(3) == 8
    ensures Pow2(31) == 0x8000_0000 && Pow2(63) == 0x8000_0000_0000_0000
  {
    assert Pow2(7) == 0x80 && Pow2(15) == 0x8000 && Pow2(23) == 0x80_0000 && Pow2(31) == 0x8000_0000;
    assert Pow2(39) == 0x80_0000_0000 && Pow2(47) == 0x8000_0000_0000;
    assert Pow2(55) == 0x80_0000_0000_0000 && Pow2(63) == 0x8000_0000_0000_0000;
  }

  /** Which displacements go into an access of each size: multiples of it, of at most 32 bits when divided by it. */
  lemma EncodableIff(offset: int)
    ensures Encodable(offset, 0, 32) <==> -0x8000_0000 <= offset < 0x8000_0000
    ensures Encodable(offset, 1, 32) <==> offset % 2 == 0 && -0x1_0000_0000 <= offset < 0x1_0000_0000
    ensures Encodable(offset, 2, 32) <==> offset % 4 == 0 && -0x2_0000_0000 <= offset < 0x2_0000_0000
    ensures Encodable(offset, 3, 32) <==> offset % 8 == 0 && -0x4_0000_0000 <= offset < 0x4_0000_0000
  {
    Powers();
    hide Pow2;
  }

  /** The words of the context block that hold the segment bases. */
  lemma SegmentWords()
    ensures BaseSlot(ES) == 0 && BaseSlot(CS) == 1 && BaseSlot(SS) == 2
    ensures BaseSlot(DS) == 3 && BaseSlot(FS) == 4 && BaseSlot(GS) == 5
  {
  }

  /** One override chooses its segment, none chooses none, and of several FS goes before GS, DS, SS, ES and CS. */
  lemma SegmentPrecedence(prefixes: set<Prefix>, g: Segment)
    ensures SegmentOverride(FS) in prefixes ==> ChosenSegment(prefixes) == [FS]
    ensures ChosenSegment(prefixes) == [g] ==> SegmentOverride(g) in prefixes
    ensures SegmentOverride(g) in prefixes ==> ChosenSegment(prefixes) != []
    ensures (forall h: Segment :: SegmentOverride(h) in prefixes <==> h == g) ==> ChosenSegment(prefixes) == [g]
    ensures ChosenSegment({SegmentOverride(GS), SegmentOverride(DS)}) == [GS]
    ensures ChosenSegment({SegmentOverride(DS), SegmentOverride(SS)}) == [DS]
    ensures ChosenSegment({SegmentOverride(SS), SegmentOverride(ES)}) == [SS]
    ensures ChosenSegment({SegmentOverride(ES), SegmentOverride(CS)}) == [ES]
  {
    assert SegmentOverride(g) in prefixes <==> !(SegmentOverride(g) !in prefixes);
  }
}
