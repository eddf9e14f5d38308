/** Partial 64-bit words with a byte mask, which stand for what loads and stores know of memory. */
module DoubleWords {
  import opened Outcomes
  import opened Bits

  type Byte = b: nat | b < 0x100

  /** A 64-bit value as its eight bytes, least significant first. */
  type Bytes = s: seq<Byte> | |s| == 8 witness [0, 0, 0, 0, 0, 0, 0, 0]

  /** An 8-bit mask, one bit per byte. */
  type Mask = s: seq<bool> | |s| == 8 witness [false, false, false, false, false, false, false, false]

  const TOP: nat := 0x1_0000_0000_0000_0000
  const INTS: nat := 0x1_0000_0000

  const ZERO: Bytes := [0, 0, 0, 0, 0, 0, 0, 0]
  const NONE: Mask := [false, false, false, false, false, false, false, false]

  datatype Fault = AlreadyMasked | EmptyMask | CrossesLine

  datatype Word = Word(value: Bytes, address: nat, size: nat, bytemask: Mask)

  // ---------------------------------------------------------------- 64-bit arithmetic on bytes and bits

  /** `value & MASKS[mask]`. */
  function And(value: Bytes, mask: Mask): Bytes {
    seq(8, k requires 0 <= k < 8 => if mask[k] then value[k] else 0)
  }

  /** `value & ~MASKS[mask]`. */
  function AndNot(value: Bytes, mask: Mask): Bytes {
    seq(8, k requires 0 <= k < 8 => if mask[k] then 0 else value[k])
  }

  /** `v | w`, of values that have no byte in common. */
  function Or(v: Bytes, w: Bytes): Bytes
    requires forall k :: 0 <= k < 8 ==> v[k] == 0 || w[k] == 0
  {
    seq(8, k requires 0 <= k < 8 => if v[k] == 0 then w[k] else v[k])
  }

  function OrMask(v: Mask, w: Mask): Mask {
    seq(8, k requires 0 <= k < 8 => v[k] || w[k])
  }

  function AndMask(v: Mask, w: Mask): Mask {
    seq(8, k requires 0 <= k < 8 => v[k] && w[k])
  }

  /** `(1 << size) - 1`, cut to eight bits. */
  function LowMask(size: nat): Mask {
    seq(8, k requires 0 <= k < 8 => k < size)
  }

  /** `value >> 8 * n`, or for a mask `mask >> n`. */
  function Right<T>(s: seq<T>, n: nat, zero: T): (r: seq<T>)
    requires |s| == 8 && n <= 8
    ensures |r| == 8
  {
    s[n..] + seq(n, _ => zero)
  }

  /** `value << 8 * n`, or for a mask `mask << n & 0xff`. */
  function Left<T>(s: seq<T>, n: nat, zero: T): (r: seq<T>)
    requires |s| == 8 && n <= 8
    ensures |r| == 8
  {
    seq(n, _ => zero) + s[..8-n]
  }

  /** `(int)(a - b)` for 64-bit addresses: the low 32 bits of the difference, with a sign. */
  function Difference(a: nat, b: nat): int {
    var d := (a - b) % TOP % INTS;
    if d < INTS / 2 then d else d - INTS
  }

  lemma SmallDifference(a: nat, b: nat)
    requires a < TOP && b < TOP && -8 < a - b < 8
    ensures Difference(a, b) == a - b
  {
    if a < b {
      assert (a - b) % TOP == a - b + TOP;
      assert (a - b + TOP) % INTS == a - b + INTS;
    }
  }

  // ---------------------------------------------------------------- words as pieces of memory

  /** Fields as wide as their types, and as many bytes as the value has. */
  predicate Sized(w: Word) {
    w.size <= 8 && w.address < TOP
  }

  /** A word, possibly empty, that is all within the address space. */
  predicate Placed(w: Word) {
    Sized(w) && w.address + w.size <= TOP
  }

  /** And that does not have the very last byte of it. */
  predicate InRange(w: Word) {
    Placed(w) && w.address + w.size < TOP
  }

  /** The mask lies within the size. */
  predicate Exact(w: Word) {
    forall k :: 0 <= k < 8 && w.bytemask[k] ==> k < w.size
  }

  /** Bytes that are not masked are zero. */
  predicate Clean(w: Word) {
    forall k :: 0 <= k < 8 && !w.bytemask[k] ==> w.value[k] == 0
  }

  /** The word has a byte for address `a`. */
  predicate Holds(w: Word, a: nat) {
    w.address <= a < w.address + 8 && w.bytemask[a - w.address]
  }

  function ByteOf(w: Word, a: nat): Byte
    requires Holds(w, a)
  {
    w.value[a - w.address]
  }

  /** `a` is an address of the word. */
  predicate Spans(w: Word, a: nat) {
    w.address <= a < w.address + w.size
  }

  ghost predicate Meet(v: Word, w: Word) {
    exists a: nat :: Spans(v, a) && Spans(w, a)
  }

  // ---------------------------------------------------------------- overlap

  /** What the program computes, in 64-bit addresses. */
  predicate Overlaps(v: Word, w: Word) {
    if w.address <= v.address then (w.address + w.size) % TOP > v.address
    else (v.address + v.size) % TOP > w.address
  }

  function Lower(v: Word, w: Word): Word {
    if w.address <= v.address then w else v
  }

  function Higher(v: Word, w: Word): Word {
    if w.address <= v.address then v else w
  }

  /** The lower word reaches to the address of the higher one. */
  predicate Reaches(v: Word, w: Word) {
    Spans(Lower(v, w), Higher(v, w).address)
  }

  lemma MeetIsReach(v: Word, w: Word)
    ensures Meet(v, w) <==> Reaches(v, w) && Higher(v, w).size > 0
  {
    var h := Higher(v, w);
    if Reaches(v, w) && h.size > 0 {
      assert Spans(v, h.address) && Spans(w, h.address);
    }
  }

  lemma OverlapIsReach(v: Word, w: Word)
    requires Placed(v) && Placed(w)
    ensures Overlaps(v, w) <==> Reaches(v, w) && InRange(Lower(v, w))
  {
  }

  /**
   * For the program, words overlap if the lower one reaches the higher one and does not end with the last byte of the
   * address space, where the sum of address and size wraps around. That means that they share an address if and only if
   * the higher word is not empty just when the lower one does not end there, or the lower one does not reach it at all.
   */
  lemma OverlapsIff(v: Word, w: Word)
    requires Placed(v) && Placed(w)
    ensures Overlaps(v, w) <==> Reaches(v, w) && InRange(Lower(v, w))
    ensures Meet(v, w) <==> Reaches(v, w) && Higher(v, w).size > 0
    ensures (Overlaps(v, w) <==> Meet(v, w)) <==>
              (Reaches(v, w) ==> (Higher(v, w).size > 0 <==> InRange(Lower(v, w))))
  {
    hide Overlaps, Meet, Reaches, InRange, Placed;
    OverlapIsReach(v, w);
    MeetIsReach(v, w);
  }

  /** Two words for the last eight bytes of the address space are not found to overlap. */
  lemma OverlapFailsAtTheTop()
    ensures var w := Word(ZERO, TOP - 8, 8, LowMask(8)); Meet(w, w) && !Overlaps(w, w)
  {
    var w := Word(ZERO, TOP - 8, 8, LowMask(8));
    assert Spans(w, TOP - 8);
  }

  /** A word without bytes is found to overlap one around its address. */
  lemma EmptyWordOverlaps()
    ensures var v, w := Word(ZERO, 4, 0, NONE), Word(ZERO, 0, 8, LowMask(8)); Overlaps(v, w) && !Meet(v, w)
  {
  }

  // ---------------------------------------------------------------- overlays

  /** `s` over `t`, as the program does it. */
  function OverlayOn(s: Word, t: Word): Word {
    if !Overlaps(s, t) then t
    else
      var shift := Difference(t.address, s.address);
      t.(value := Written(s, t.value, shift), bytemask := OrMask(t.bytemask, Landed(s, shift)))
  }

  /** Byte `k` of the target gets one from the word that is `shift` bytes below it. */
  predicate Lands(w: Word, k: int, shift: int) {
    0 <= k + shift < 8 && w.bytemask[k + shift]
  }

  function Landed(w: Word, shift: int): Mask {
    seq(8, k requires 0 <= k < 8 => Lands(w, k, shift))
  }

  function Written(w: Word, target: Bytes, shift: int): Bytes {
    seq(8, k requires 0 <= k < 8 => if Lands(w, k, shift) then w.value[k + shift] else target[k])
  }

  function OverlayAll(stores: seq<Word>, t: Word): Word {
    if stores == [] then t else OverlayOn(stores[|stores|-1], OverlayAll(stores[..|stores|-1], t))
  }

  /** The word `r`, which `t` has become, has at `a` the byte of `s`, if that has one, and otherwise what `t` had. */
  predicate OverlaidAt(s: Word, t: Word, r: Word, a: nat) {
    && (Holds(r, a) <==> Holds(s, a) || Holds(t, a))
    && (Holds(s, a) && Holds(r, a) ==> ByteOf(r, a) == ByteOf(s, a))
    && (Holds(t, a) && !Holds(s, a) && Holds(r, a) ==> ByteOf(r, a) == ByteOf(t, a))
  }

  /** One store: each byte of the range is the store's if it has it, and is left alone otherwise. */
  lemma OverlayByte(s: Word, t: Word, a: nat)
    requires Sized(s) && Sized(t) && Spans(t, a) && (Overlaps(s, t) || !Holds(s, a))
    ensures var r := OverlayOn(s, t); r.address == t.address && r.size == t.size && OverlaidAt(s, t, r, a)
  {
    if Overlaps(s, t) {
      OverlapsAreNear(s, t);
    }
  }

  /** The store has nothing for the word, or is found to overlap it. */
  ghost predicate Reached(s: Word, t: Word) {
    Overlaps(s, t) || forall a: nat :: Spans(t, a) ==> !Holds(s, a)
  }

  /** For a mask within the size that is so unless the lower of the two ends with the last byte of the address space. */
  lemma ReachedIff(s: Word, t: Word)
    requires Placed(s) && Placed(t) && Exact(s)
    ensures Reached(s, t) <==> InRange(Lower(s, t)) || forall a: nat :: Spans(t, a) ==> !Holds(s, a)
  {
    hide Overlaps, Placed;
    OverlapIsReach(s, t);
    assert forall a: nat :: Holds(s, a) ==> Spans(s, a);
  }

  /**
   * An overlay is right at every address of the target if and only if the words are found to overlap, or the target has
   * already what the store has for it.
   */
  lemma OverlayIsRightIff(s: Word, t: Word)
    requires Sized(s) && Sized(t)
    ensures (forall a: nat :: Spans(t, a) ==> OverlaidAt(s, t, OverlayOn(s, t), a))
            <==> (|| Overlaps(s, t)
                  || forall a: nat :: Spans(t, a) && Holds(s, a) ==> Holds(t, a) && ByteOf(t, a) == ByteOf(s, a))
  {
    hide Sized, Spans, Holds, ByteOf;
    if Overlaps(s, t) {
      forall a: nat | Spans(t, a) ensures OverlaidAt(s, t, OverlayOn(s, t), a) {
        OverlayByte(s, t, a);
      }
    } else {
      forall a: nat ensures OverlaidAt(s, t, t, a) <==>
                              (Holds(s, a) ==> Holds(t, a) && ByteOf(t, a) == ByteOf(s, a)) {
      }
    }
  }

  /** A store to the last eight bytes of the address space is lost on a word for the same bytes. */
  lemma OverlayFailsAtTheTop()
    ensures var s, t := Word([1, 0, 0, 0, 0, 0, 0, 0], TOP - 8, 8, LowMask(8)), Word(ZERO, TOP - 8, 8, NONE);
            Spans(t, TOP - 8) && Holds(s, TOP - 8) && !Holds(OverlayAll([s], t), TOP - 8)
  {
    var s, t := Word([1, 0, 0, 0, 0, 0, 0, 0], TOP - 8, 8, LowMask(8)), Word(ZERO, TOP - 8, 8, NONE);
    assert [s][..0] == [];
    assert OverlayAll([s], t) == OverlayOn(s, t);
  }

  lemma OverlayStaysClean(s: Word, t: Word)
    requires Clean(t)
    ensures Clean(OverlayOn(s, t))
  {
  }

  lemma SameReach(s: Word, t: Word, r: Word)
    requires r.address == t.address && r.size == t.size
    ensures Overlaps(s, r) == Overlaps(s, t) && forall a: nat :: Spans(r, a) == Spans(t, a)
    ensures Reached(s, t) ==> Reached(s, r)
    ensures Sized(t) ==> Sized(r)
  {
  }

  /** `s` is the last of the stores that has a byte for `a`. */
  ghost predicate Latest(stores: seq<Word>, j: nat, a: nat) {
    j < |stores| && Holds(stores[j], a) && forall i :: j < i < |stores| ==> !Holds(stores[i], a)
  }

  /**
   * Any number of stores: each byte of the range is the one of the latest store that has it, the mask marks exactly the
   * bytes that some store has, beside those marked before, and bytes that are not marked are still zero.
   */
  lemma {:induction false} OverlaysAreLatest(stores: seq<Word>, t: Word, a: nat)
    requires Sized(t) && (forall s :: s in stores ==> Sized(s) && Reached(s, t)) && Spans(t, a)
    ensures var r := OverlayAll(stores, t);
            && r.address == t.address && r.size == t.size
            && (Holds(r, a) <==> Holds(t, a) || exists i :: 0 <= i < |stores| && Holds(stores[i], a))
            && (forall j: nat :: Latest(stores, j, a) ==> ByteOf(r, a) == ByteOf(stores[j], a))
            && (Holds(t, a) && (forall i :: 0 <= i < |stores| ==> !Holds(stores[i], a))
                ==> ByteOf(r, a) == ByteOf(t, a))
            && (Clean(t) ==> Clean(r))
  {
    hide Holds, ByteOf, OverlayOn, Clean, Overlaps, Sized, Spans;
    if stores != [] {
      var before, s := stores[..|stores|-1], stores[|stores|-1];
      OverlaysAreLatest(before, t, a);
      var r := OverlayAll(before, t);
      SameReach(s, t, r);
      OverlayByte(s, r, a);
      if Clean(t) { OverlayStaysClean(s, r); }
      assert forall i :: 0 <= i < |before| ==> before[i] == stores[i];
      forall j: nat | Latest(stores, j, a) ensures ByteOf(OverlayOn(s, r), a) == ByteOf(stores[j], a) {
        if j < |before| {
          assert !Holds(stores[|stores|-1], a);
          assert Latest(before, j, a);
        }
      }
    }
  }

  // ---------------------------------------------------------------- against a byte-addressed memory

  /** Memory after a store. */
  ghost function Stored(memory: nat -> Byte, s: Word): nat -> Byte {
    a => if Holds(s, a) then ByteOf(s, a) else memory(a)
  }

  ghost function StoredAll(memory: nat -> Byte, stores: seq<Word>): nat -> Byte {
    if stores == [] then memory else Stored(StoredAll(memory, stores[..|stores|-1]), stores[|stores|-1])
  }

  /** What a load sees that takes from the word what it has and the rest from memory. */
  function Forwarded(memory: nat -> Byte, w: Word, a: nat): Byte {
    if Holds(w, a) then ByteOf(w, a) else memory(a)
  }

  /** Forwarding from a queue of stores gives what memory would hold after them. */
  lemma {:induction false} ForwardingIsMemory(memory: nat -> Byte, stores: seq<Word>, t: Word, a: nat)
    requires Sized(t) && (forall s :: s in stores ==> Sized(s) && Reached(s, t)) && Spans(t, a) && !Holds(t, a)
    ensures Forwarded(memory, OverlayAll(stores, t), a) == StoredAll(memory, stores)(a)
  {
    hide Holds, ByteOf, OverlayOn;
    if stores != [] {
      var before, s := stores[..|stores|-1], stores[|stores|-1];
      ForwardingIsMemory(memory, before, t, a);
      OverlaysAreLatest(before, t, a);
      SameReach(s, t, OverlayAll(before, t));
      OverlayByte(s, OverlayAll(before, t), a);
    }
  }

  /** The stores that are found to overlap a word. */
  function Found(stores: seq<Word>, t: Word): (f: seq<Word>)
    ensures forall s :: s in f ==> s in stores && Overlaps(s, t)
  {
    if stores == [] then [] else
    var before, s := Found(stores[..|stores|-1], t), stores[|stores|-1];
    if Overlaps(s, t) then before + [s] else before
  }

  /** Whatever the stores, forwarding gives what memory would hold if only those found had been made. */
  lemma {:induction false} ForwardingIsFound(memory: nat -> Byte, stores: seq<Word>, t: Word, a: nat)
    requires Sized(t) && (forall s :: s in stores ==> Sized(s)) && Spans(t, a) && !Holds(t, a)
    ensures Forwarded(memory, OverlayAll(stores, t), a) == StoredAll(memory, Found(stores, t))(a)
  {
    OthersAreSkipped(stores, t);
    ForwardingIsMemory(memory, Found(stores, t), t, a);
  }

  lemma {:induction false} OthersAreSkipped(stores: seq<Word>, t: Word)
    ensures OverlayAll(stores, t) == OverlayAll(Found(stores, t), t)
    ensures OverlayAll(stores, t).address == t.address && OverlayAll(stores, t).size == t.size
  {
    if stores != [] {
      var before, s := stores[..|stores|-1], stores[|stores|-1];
      OthersAreSkipped(before, t);
      SameReach(s, t, OverlayAll(before, t));
      assert (Found(before, t) + [s])[..|Found(before, t)|] == Found(before, t);
    }
  }

  /** The byte the latest of the stores has for an address, if any has one. */
  function LatestByte(stores: seq<Word>, a: nat): Option<Byte> {
    if stores == [] then None else
    var s := stores[|stores|-1];
    if Holds(s, a) then Some(ByteOf(s, a)) else LatestByte(stores[..|stores|-1], a)
  }

  lemma {:induction false} StoredIsLatest(memory: nat -> Byte, stores: seq<Word>, a: nat)
    ensures StoredAll(memory, stores)(a) == match LatestByte(stores, a) case None => memory(a) case Some(b) => b
  {
    if stores != [] {
      StoredIsLatest(memory, stores[..|stores|-1], a);
    }
  }

  /** Forwarding gives what this memory would hold after the stores. */
  ghost predicate ForwardsRight(memory: nat -> Byte, stores: seq<Word>, t: Word, a: nat) {
    Forwarded(memory, OverlayAll(stores, t), a) == StoredAll(memory, stores)(a)
  }

  /** It does so for every memory if and only if the latest byte stored is also the latest of those found. */
  lemma ForwardingIsMemoryIff(stores: seq<Word>, t: Word, a: nat)
    requires Sized(t) && (forall s :: s in stores ==> Sized(s)) && Spans(t, a) && !Holds(t, a)
    ensures (forall memory: nat -> Byte :: ForwardsRight(memory, stores, t, a))
            <==> LatestByte(stores, a) == LatestByte(Found(stores, t), a)
  {
    hide Sized, Spans, Holds, StoredAll, OverlayAll, LatestByte, Found, Forwarded;
    var all, found := LatestByte(stores, a), LatestByte(Found(stores, t), a);
    forall memory: nat -> Byte
      ensures ForwardsRight(memory, stores, t, a) <==>
                (match found case None => memory(a) case Some(b) => b)
                == (match all case None => memory(a) case Some(b) => b)
    {
      ForwardingIsFound(memory, stores, t, a);
      StoredIsLatest(memory, stores, a);
      StoredIsLatest(memory, Found(stores, t), a);
    }
    if all != found {
      var b: Byte := if all.Some? then all.value else found.value;
      var other: Byte := if b == 0 then 1 else 0;
      var memory: nat -> Byte := _ => other;
      assert !ForwardsRight(memory, stores, t, a);
    }
  }

  // ---------------------------------------------------------------- comparisons

  /** The two words have the same byte wherever both have one. */
  ghost predicate Agree(v: Word, w: Word) {
    forall a: nat :: Holds(v, a) && Holds(w, a) ==> ByteOf(v, a) == ByteOf(w, a)
  }

  /** The comparison the program makes at byte `k` of `w`. */
  predicate SameAt(v: Word, w: Word, k: nat)
    requires k < 8
  {
    var shift := Difference(w.address, v.address);
    Lands(v, k, shift) && w.bytemask[k] ==> v.value[k + shift] == w.value[k]
  }

  predicate Matches(v: Word, w: Word) {
    Overlaps(v, w) ==> forall k :: 0 <= k < 8 ==> SameAt(v, w, k)
  }

  /** The two words both have a byte for some address. */
  ghost predicate Share(v: Word, w: Word) {
    exists a: nat :: Holds(v, a) && Holds(w, a)
  }

  /** Words that are found to overlap match exactly if they agree, and other words always match. */
  lemma MatchesIff(v: Word, w: Word)
    requires Placed(v) && Placed(w)
    ensures Matches(v, w) <==> (Overlaps(v, w) ==> Agree(v, w))
    ensures Exact(v) && Exact(w) && InRange(Lower(v, w)) ==> (Matches(v, w) <==> Agree(v, w))
  {
    OverlapsIff(v, w);
    if Overlaps(v, w) {
      SmallDifference(w.address, v.address);
      if Matches(v, w) {
        forall a: nat | Holds(v, a) && Holds(w, a) ensures ByteOf(v, a) == ByteOf(w, a) {
          assert SameAt(v, w, a - w.address);
        }
      }
      if Agree(v, w) {
        forall k | 0 <= k < 8 ensures SameAt(v, w, k) {
          if Lands(v, k, w.address - v.address) && w.bytemask[k] {
            assert Holds(v, w.address + k) && Holds(w, w.address + k);
          }
        }
      }
    } else if Exact(v) && Exact(w) {
      SharedIsMet(v, w);
    }
  }

  /** The test gives the right answer for the values `x` and `y`. */
  ghost predicate TestIsRight(v: Word, w: Word, x: Bytes, y: Bytes) {
    Matches(v.(value := x), w.(value := y)) <==> Agree(v.(value := x), w.(value := y))
  }

  lemma ValuesDoNotMatter(v: Word, w: Word, x: Bytes, y: Bytes)
    ensures Overlaps(v.(value := x), w.(value := y)) == Overlaps(v, w)
    ensures forall a: nat :: Holds(v.(value := x), a) == Holds(v, a) && Holds(w.(value := y), a) == Holds(w, a)
  {
  }

  lemma TestIsRightFor(v: Word, w: Word, x: Bytes, y: Bytes)
    requires Placed(v) && Placed(w) && (Overlaps(v, w) || !Share(v, w))
    ensures TestIsRight(v, w, x, y)
  {
    hide Overlaps, Holds, Matches;
    ValuesDoNotMatter(v, w, x, y);
    var v', w' := v.(value := x), w.(value := y);
    MatchesIff(v', w');
    if !Share(v, w) {
      assert forall a: nat :: Holds(v', a) && Holds(w', a) ==> Holds(v, a) && Holds(w, a);
      assert Agree(v', w');
    }
  }

  lemma SharedAddress(v: Word, w: Word) returns (a: nat)
    requires Share(v, w)
    ensures Holds(v, a) && Holds(w, a)
  {
    a :| Holds(v, a) && Holds(w, a);
  }

  lemma TestIsWrongFor(v: Word, w: Word) returns (x: Bytes, y: Bytes)
    requires !Overlaps(v, w) && Share(v, w)
    ensures !TestIsRight(v, w, x, y)
  {
    hide Overlaps, SameAt, Share;
    x, y := ZERO, seq(8, _ => 1);
    var a := SharedAddress(v, w);
    var v', w' := v.(value := x), w.(value := y);
    ValuesDoNotMatter(v, w, x, y);
    assert ByteOf(v', a) == 0 && ByteOf(w', a) == 1;
  }

  /** It does so for all values if and only if the words are found to overlap or have no address in common. */
  lemma TestIsRightIff(v: Word, w: Word)
    requires Placed(v) && Placed(w)
    ensures (forall x: Bytes, y: Bytes :: TestIsRight(v, w, x, y)) <==> Overlaps(v, w) || !Share(v, w)
  {
    hide Overlaps, TestIsRight, Share;
    if Overlaps(v, w) || !Share(v, w) {
      forall x: Bytes, y: Bytes ensures TestIsRight(v, w, x, y) {
        TestIsRightFor(v, w, x, y);
      }
    } else {
      var x, y := TestIsWrongFor(v, w);
    }
  }

  /** A word whose mask goes beyond its size may differ unnoticed from one that begins behind it. */
  lemma MatchFailsBeyondTheSize()
    ensures var v, w := Word([1, 0, 0, 0, 0, 0, 0, 0], 6, 1, LowMask(1)), Word(ZERO, 0, 4, LowMask(8));
            Placed(v) && Placed(w) && Matches(v, w) && !Agree(v, w)
  {
    var v, w := Word([1, 0, 0, 0, 0, 0, 0, 0], 6, 1, LowMask(1)), Word(ZERO, 0, 4, LowMask(8));
    assert Holds(v, 6) && Holds(w, 6) && ByteOf(v, 6) != ByteOf(w, 6);
  }

  lemma SharedIsMet(v: Word, w: Word)
    requires Exact(v) && Exact(w)
    ensures forall a: nat :: Holds(v, a) && Holds(w, a) ==> Meet(v, w)
  {
    forall a: nat | Holds(v, a) && Holds(w, a) ensures Meet(v, w) {
      assert Spans(v, a) && Spans(w, a);
    }
  }

  predicate CoveredBy(v: Word, w: Word) {
    && Overlaps(v, w) && v.address >= w.address
    && forall k :: 0 <= k < 8 && k < v.size ==> Lands(w, k, Difference(v.address, w.address))
  }

  /** Every byte of `v` is in `w`. */
  ghost predicate AllIn(v: Word, w: Word) {
    forall a: nat :: Spans(v, a) ==> Holds(w, a)
  }

  /**
   * A word is found to be covered exactly if its address is within the other one, which does not end with the last byte
   * of the address space, and all its bytes are in it. For a word that is not empty the first follows from the last, if
   * the other word's mask is within its size.
   */
  lemma CoveredIff(v: Word, w: Word)
    requires Placed(v) && Placed(w)
    ensures CoveredBy(v, w) <==> Spans(w, v.address) && InRange(w) && AllIn(v, w)
    ensures Exact(w) && InRange(w) && v.size > 0 ==> (CoveredBy(v, w) <==> AllIn(v, w))
  {
    OverlapsIff(v, w);
    if Overlaps(v, w) && v.address >= w.address {
      SmallDifference(v.address, w.address);
      if CoveredBy(v, w) {
        forall a: nat | Spans(v, a) ensures Holds(w, a) {
          assert Lands(w, a - v.address, v.address - w.address);
        }
      }
      if AllIn(v, w) {
        forall k | 0 <= k < 8 && k < v.size ensures Lands(w, k, Difference(v.address, w.address)) {
          assert Spans(v, v.address + k);
        }
      }
    }
    if Exact(w) && v.size > 0 && AllIn(v, w) {
      assert Spans(v, v.address);
      assert Holds(w, v.address) && Spans(w, v.address);
    }
  }

  /** A word without bytes, all of whose bytes are anywhere, is not found to be covered by itself. */
  lemma EmptyWordIsNotCovered()
    ensures var v := Word(ZERO, 0, 0, NONE); AllIn(v, v) && Exact(v) && !CoveredBy(v, v)
  {
  }

  // ---------------------------------------------------------------- writing without adding

  /** `s` written into what `t` has already. */
  function WrittenOver(s: Word, t: Word): Word {
    if Overlaps(s, t) then t.(value := And(Written(s, t.value, Difference(t.address, s.address)), t.bytemask)) else t
  }

  /** The word `r`, which `t` has become, has at `a` the byte of `s`, if that has one, and otherwise that of `t`. */
  predicate WrittenAt(s: Word, t: Word, r: Word, a: nat)
    requires Holds(t, a)
  {
    Holds(r, a) && ByteOf(r, a) == if Holds(s, a) then ByteOf(s, a) else ByteOf(t, a)
  }

  /** Exactly the bytes both words have change, to those of `s`. */
  lemma WrittenOverByte(s: Word, t: Word, a: nat)
    requires Sized(s) && Sized(t) && (Overlaps(s, t) || Agree(s, t)) && Holds(t, a)
    ensures var r := WrittenOver(s, t);
            && r.address == t.address && r.size == t.size && r.bytemask == t.bytemask
            && WrittenAt(s, t, r, a)
    ensures Clean(t) ==> Clean(WrittenOver(s, t))
  {
    if Overlaps(s, t) {
      OverlapsAreNear(s, t);
    }
  }

  /** Writing is right at every byte of the target if and only if the words are found to overlap, or agree already. */
  lemma WrittenOverIsRightIff(s: Word, t: Word)
    requires Sized(s) && Sized(t)
    ensures (forall a: nat :: Holds(t, a) ==> WrittenAt(s, t, WrittenOver(s, t), a)) <==> Overlaps(s, t) || Agree(s, t)
  {
    hide Sized, Holds, ByteOf, Overlaps;
    if Overlaps(s, t) || Agree(s, t) {
      forall a: nat | Holds(t, a) ensures WrittenAt(s, t, WrittenOver(s, t), a) {
        WrittenOverByte(s, t, a);
      }
    } else {
      var a: nat :| Holds(s, a) && Holds(t, a) && ByteOf(s, a) != ByteOf(t, a);
      assert !WrittenAt(s, t, WrittenOver(s, t), a);
    }
  }

  /** A write to the last eight bytes of the address space is lost on a word that has the same bytes. */
  lemma WriteFailsAtTheTop()
    ensures var s := Word([1, 0, 0, 0, 0, 0, 0, 0], TOP - 8, 8, LowMask(8));
            var t := s.(value := ZERO);
            Holds(s, TOP - 8) && Holds(t, TOP - 8) && !WrittenAt(s, t, WrittenOver(s, t), TOP - 8)
  {
  }

  lemma OverlapsAreNear(v: Word, w: Word)
    requires Sized(v) && Sized(w) && (Overlaps(v, w) || Overlaps(w, v))
    ensures -8 < w.address - v.address < 8 && Difference(w.address, v.address) == w.address - v.address
  {
    SmallDifference(w.address, v.address);
  }

  // ---------------------------------------------------------------- lines

  lemma PowersInside(m: nat, n: nat)
    requires m <= n
    ensures Up(Pow2(n - m), m) == Pow2(n)
  {
    UpOne(n - m);
    UpUp(1, n - m, m);
    UpOne(n);
  }

  lemma TopIsPower()
    ensures Pow2(64) == TOP
  {
    assert Pow2(4) == 0x10;
    assert Pow2(8) == 0x100;
    assert Pow2(12) == 0x1000;
    assert Pow2(16) == 0x1_0000;
    UpTimes(Pow2(16), 16);
    UpOne(16);
    PowersInside(16, 32);
    assert Pow2(32) == 0x1_0000_0000;
    UpTimes(Pow2(32), 32);
    UpOne(32);
    PowersInside(32, 64);
  }

  /** Where an access ends within its line, although the address may have wrapped around. */
  lemma EndInLine(a: nat, bytes: nat, lineBits: nat)
    requires a < TOP && bytes < TOP && lineBits <= 64
    ensures var offset, line := Low(a, lineBits), Pow2(lineBits);
            && Low((a + bytes) % TOP, lineBits) == Low(offset + bytes, lineBits)
            && (offset + bytes < line ==> Low(offset + bytes, lineBits) == offset + bytes)
            && (line <= offset + bytes < 2 * line ==> Low(offset + bytes, lineBits) == offset + bytes - line)
  {
    hide Up, Low, Shift, Pow2;
    var offset, line := Low(a, lineBits), Pow2(lineBits);
    var end := a + bytes;
    TopIsPower();
    PowersInside(lineBits, 64);
    if end >= TOP {
      LowOfSum(Pow2(64 - lineBits), end - TOP, lineBits);
      assert Low(end % TOP, lineBits) == Low(end, lineBits);
    }
    HighAndLow(a, lineBits);
    LowOfSum(Shift(a, lineBits), offset + bytes, lineBits);
    if offset + bytes < line {
      LowOfSmall(offset + bytes, lineBits);
    } else if offset + bytes < 2 * line {
      LowOfSmall(offset + bytes - line, lineBits);
      UpOne(lineBits);
      LowOfSum(1, offset + bytes - line, lineBits);
    }
  }

  /** When the program's own check on an access passes: it is empty, or ends short of the end of the next line. */
  predicate FitsTwoLines(a: nat, bytes: nat, lineBits: nat) {
    bytes % 0x100 == 0 || Low(a, lineBits) + bytes % 0x100 < 2 * Pow2(lineBits)
  }

  /** Sixteen bytes from the start of an eight-byte line on do not pass it. */
  lemma TwoWholeLinesFail()
    ensures !FitsTwoLines(0, 16, 3)
  {
    assert Pow2(3) == 8;
  }

  // ---------------------------------------------------------------- the class

  class DoubleWord {
    var value: Bytes
    var address: nat
    var size: nat
    var bytemask: Mask

    function View(): Word
      reads this
    {
      Word(value, address, size, bytemask)
    }

    constructor ()
      ensures View() == Word(ZERO, 0, 0, NONE)
    {
      value, address, size, bytemask := ZERO, 0, 0, NONE;
    }

    /**
     * Place the word at `a`, cut at the end of its line of 2^lineBits bytes; what does not fit is returned. Only the
     * low eight bits of the size count. The call goes through exactly when the access ends short of the end of the
     * next line.
     */
    method SetAddress(a: nat, bytes: nat, lineBits: nat) returns (r: Result<nat, Fault>)
      requires a < TOP && lineBits <= 64
      modifies this
      ensures r.Success? <==> FitsTwoLines(a, bytes, lineBits)
      ensures var offset, line, n := Low(a, lineBits), Pow2(lineBits), bytes % 0x100;
              r.Success? ==>
                && View() == Word(ZERO, a, if offset + n <= line then n else line - offset, old(bytemask))
                && size + r.value == n
      ensures r.Failure? ==> r.error == CrossesLine
    {
      address, size, value := a, bytes % 0x100, ZERO;
      var overflow := Low((address + size) % TOP, lineBits);
      EndInLine(a, size, lineBits);
      if overflow < size {
        size := size - overflow;
      } else {
        overflow := 0;
      }
      if size + Low(address, lineBits) > Pow2(lineBits) {
        return Failure(CrossesLine);
      }
      r := Success(overflow);
    }

    /** The first value of a word: exactly its `size` low bytes. */
    method SetValue(v: Bytes) returns (o: Outcome<Fault>)
      modifies this
      ensures o == if old(bytemask) != NONE then Fail(AlreadyMasked) else if size == 0 then Fail(EmptyMask) else Pass
      ensures o.Pass? ==>
        && View() == old(View()).(value := value, bytemask := bytemask) && Exact(View()) && Clean(View())
        && forall k :: 0 <= k < 8 && k < size ==> bytemask[k] && value[k] == v[k]
    {
      if bytemask != NONE {
        return Fail(AlreadyMasked);
      }
      bytemask := LowMask(size);
      assert bytemask[0] <==> size > 0;
      if bytemask == NONE {
        return Fail(EmptyMask);
      }
      value := And(v, bytemask);
      o := Pass;
    }

    /** The word's bytes are those of `v`, as far as the mask goes. */
    function CompareValue(v: Bytes): (r: bool)
      reads this
      requires Clean(View())
      ensures r <==> forall k :: 0 <= k < 8 && bytemask[k] ==> value[k] == v[k]
    {
      assert value == And(v, bytemask) <==> forall k :: 0 <= k < 8 ==> value[k] == And(v, bytemask)[k];
      value == And(v, bytemask)
    }

    /** Merge this value into `target`, which is `shift` bytes above it. */
    method WriteShifted(target: Bytes, shift: int) returns (merged: Bytes, landed: Mask)
      requires -8 <= shift <= 8
      ensures merged == Written(View(), target, shift)
      ensures landed == Landed(View(), shift)
    {
      var shiftedValue, shiftedBytemask := value, bytemask;
      if shift < 0 {
        shiftedValue := Left(value, -shift, 0);
        shiftedBytemask := Left(bytemask, -shift, false);
      } else if shift > 0 {
        shiftedValue := Right(value, shift, 0);
        shiftedBytemask := Right(bytemask, shift, false);
      }
      merged := Or(AndNot(target, shiftedBytemask), And(shiftedValue, shiftedBytemask));
      landed := shiftedBytemask;
    }

    /** Write this word into what another one has, without adding to it. */
    method WriteValue(target: DoubleWord)
      requires Sized(View()) && Sized(target.View())
      modifies target
      ensures target.View() == old(WrittenOver(View(), target.View()))
    {
      if Overlaps(View(), target.View()) {
        OverlapsAreNear(View(), target.View());
        var merged, _ := WriteShifted(target.value, Difference(target.address, address));
        target.value := And(merged, target.bytemask);
      }
    }

    /** Lay this word over another one, which may gain bytes. */
    method Overlay(target: DoubleWord)
      requires Sized(View()) && Sized(target.View())
      modifies target
      ensures target.View() == old(OverlayOn(View(), target.View()))
    {
      if Overlaps(View(), target.View()) {
        OverlapsAreNear(View(), target.View());
        var merged, landed := WriteShifted(target.value, Difference(target.address, address));
        target.value := merged;
        target.bytemask := OrMask(target.bytemask, landed);
      }
    }

    /** Whether the words have the same bytes where they meet, whatever was in the scratch value before. */
    method OverlapMatches(dw: DoubleWord, scratch: Bytes) returns (r: bool)
      requires Sized(View()) && Sized(dw.View())
      ensures r <==> Matches(View(), dw.View())
    {
      if !Overlaps(View(), dw.View()) {
        return true;
      }
      OverlapsAreNear(View(), dw.View());
      var shift := Difference(dw.address, address);
      var shifted, landed := WriteShifted(scratch, shift);
      var both := AndMask(landed, dw.bytemask);
      r := And(shifted, both) == And(dw.value, both);
      assert r <==> forall k :: 0 <= k < 8 ==> And(shifted, both)[k] == And(dw.value, both)[k];
      assert forall k :: 0 <= k < 8 ==>
               (SameAt(View(), dw.View(), k) <==> And(shifted, both)[k] == And(dw.value, both)[k]);
    }

    /** Whether all of this word's bytes are in the other one. */
    method Covers(dw: DoubleWord) returns (r: bool)
      requires Sized(View()) && Sized(dw.View())
      ensures r <==> CoveredBy(View(), dw.View())
    {
      if !Overlaps(View(), dw.View()) {
        r := false;
      } else if address < dw.address {
        r := false;
      } else {
        OverlapsAreNear(dw.View(), View());
        var shift := Difference(address, dw.address);
        var desired := LowMask(size);
        var found := AndMask(Right(dw.bytemask, shift, false), desired);
        r := found == desired;
        assert forall k :: 0 <= k < 8 ==> (found[k] == desired[k] <==> (k < size ==> Lands(dw.View(), k, shift)));
        assert r <==> forall k :: 0 <= k < 8 ==> found[k] == desired[k];
      }
    }
  }
}
