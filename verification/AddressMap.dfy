/** The six address mapping schemes of the memory controller, and the integer logarithm that sizes them. */
module AddressMap {
  import opened Bits

  datatype Scheme = Scheme1 | Scheme2 | Scheme3 | Scheme4 | Scheme5 | Scheme6

  /** Bit widths of the fields of a physical address, and the order in which they are packed. */
  datatype Mapping = Mapping(scheme: Scheme, offsetBits: nat, rankBits: nat, bankBits: nat, rowBits: nat, colBits: nat)

  datatype Location = Location(rank: nat, bank: nat, row: nat, col: nat)

  /** The field a physical address names: fields are peeled off from the least significant end. */
  function Locate(m: Mapping, address: nat): (l: Location)
    ensures l.rank < Pow2(m.rankBits) && l.bank < Pow2(m.bankBits)
    ensures l.row < Pow2(m.rowBits) && l.col < Pow2(m.colBits)
  {
    var a := Shift(address, m.offsetBits);
    match m.scheme
    case Scheme1 =>
      var b := Shift(a, m.bankBits);
      var d := Shift(b, m.colBits);
      var e := Shift(d, m.rowBits);
      Location(Low(e, m.rankBits), Low(a, m.bankBits), Low(d, m.rowBits), Low(b, m.colBits))
    case Scheme2 =>
      var b := Shift(a, m.rankBits);
      var d := Shift(b, m.bankBits);
      var e := Shift(d, m.colBits);
      Location(Low(a, m.rankBits), Low(b, m.bankBits), Low(e, m.rowBits), Low(d, m.colBits))
    case Scheme3 =>
      var b := Shift(a, m.rowBits);
      var d := Shift(b, m.colBits);
      var e := Shift(d, m.bankBits);
      Location(Low(e, m.rankBits), Low(d, m.bankBits), Low(a, m.rowBits), Low(b, m.colBits))
    case Scheme4 =>
      var b := Shift(a, m.colBits);
      var d := Shift(b, m.rowBits);
      var e := Shift(d, m.bankBits);
      Location(Low(e, m.rankBits), Low(d, m.bankBits), Low(b, m.rowBits), Low(a, m.colBits))
    case Scheme5 =>
      var b := Shift(a, m.bankBits);
      var d := Shift(b, m.rankBits);
      var e := Shift(d, m.colBits);
      Location(Low(b, m.rankBits), Low(a, m.bankBits), Low(e, m.rowBits), Low(d, m.colBits))
    case Scheme6 =>
      var b := Shift(a, m.colBits);
      var d := Shift(b, m.rankBits);
      var e := Shift(d, m.bankBits);
      Location(Low(b, m.rankBits), Low(d, m.bankBits), Low(e, m.rowBits), Low(a, m.colBits))
  }

  /** The same peeling, done in place on one variable. */
  method AddressMapping(m: Mapping, physicalAddress: nat) returns (rank: nat, bank: nat, row: nat, col: nat)
    ensures Location(rank, bank, row, col) == Locate(m, physicalAddress)
  {
    var a := Shift(physicalAddress, m.offsetBits);
    match m.scheme
    case Scheme1 =>
      bank, a := Low(a, m.bankBits), Shift(a, m.bankBits);
      col, a := Low(a, m.colBits), Shift(a, m.colBits);
      row, a := Low(a, m.rowBits), Shift(a, m.rowBits);
      rank, a := Low(a, m.rankBits), Shift(a, m.rankBits);
    case Scheme2 =>
      rank, a := Low(a, m.rankBits), Shift(a, m.rankBits);
      bank, a := Low(a, m.bankBits), Shift(a, m.bankBits);
      col, a := Low(a, m.colBits), Shift(a, m.colBits);
      row, a := Low(a, m.rowBits), Shift(a, m.rowBits);
    case Scheme3 =>
      row, a := Low(a, m.rowBits), Shift(a, m.rowBits);
      col, a := Low(a, m.colBits), Shift(a, m.colBits);
      bank, a := Low(a, m.bankBits), Shift(a, m.bankBits);
      rank, a := Low(a, m.rankBits), Shift(a, m.rankBits);
    case Scheme4 =>
      col, a := Low(a, m.colBits), Shift(a, m.colBits);
      row, a := Low(a, m.rowBits), Shift(a, m.rowBits);
      bank, a := Low(a, m.bankBits), Shift(a, m.bankBits);
      rank, a := Low(a, m.rankBits), Shift(a, m.rankBits);
    case Scheme5 =>
      bank, a := Low(a, m.bankBits), Shift(a, m.bankBits);
      rank, a := Low(a, m.rankBits), Shift(a, m.rankBits);
      col, a := Low(a, m.colBits), Shift(a, m.colBits);
      row, a := Low(a, m.rowBits), Shift(a, m.rowBits);
    case Scheme6 =>
      col, a := Low(a, m.colBits), Shift(a, m.colBits);
      rank, a := Low(a, m.rankBits), Shift(a, m.rankBits);
      bank, a := Low(a, m.bankBits), Shift(a, m.bankBits);
      row, a := Low(a, m.rowBits), Shift(a, m.rowBits);
  }

  // ---------------------------------------------------------------- packing fields back together

  /** `high << width | low`. */
  function Join(high: nat, low: nat, width: nat): nat {
    if width == 0 then high else low % 2 + 2 * Join(high, low / 2, width - 1)
  }

  /** What shifting and dropping mean in arithmetic. */
  lemma {:induction false} ShiftAndLow(value: nat, width: nat)
    ensures value == Shift(value, width) * Pow2(width) + Low(value, width)
  {
    if width > 0 {
      ShiftAndLow(value / 2, width - 1);
      Doubled(value, Shift(value / 2, width - 1), Pow2(width - 1), Low(value / 2, width - 1));
    }
  }

  lemma Doubled(value: nat, high: nat, p: nat, low: nat)
    requires value / 2 == high * p + low
    ensures value == high * (2 * p) + (value % 2 + 2 * low)
  {
  }

  lemma {:induction false} JoinSplit(value: nat, width: nat)
    ensures Join(Shift(value, width), Low(value, width), width) == value
  {
    if width > 0 {
      JoinSplit(value / 2, width - 1);
    }
  }

  lemma {:induction false} SplitJoin(high: nat, low: nat, width: nat)
    requires low < Pow2(width)
    ensures Shift(Join(high, low, width), width) == high && Low(Join(high, low, width), width) == low
  {
    if width > 0 {
      SplitJoin(high, low / 2, width - 1);
      assert Join(high, low, width) / 2 == Join(high, low / 2, width - 1);
    }
  }

  lemma {:induction false} JoinBound(high: nat, low: nat, width: nat, n: nat)
    requires low < Pow2(width)
    ensures Join(high, low, width) < Pow2(width + n) <==> high < Pow2(n)
  {
    if width > 0 {
      JoinBound(high, low / 2, width - 1, n);
    }
  }

  lemma {:induction false} ShiftBound(value: nat, width: nat, n: nat)
    ensures value < Pow2(width + n) <==> Shift(value, width) < Pow2(n)
  {
    if width > 0 {
      ShiftBound(value / 2, width - 1, n);
    }
  }

  /** The fields of a mapping, least significant first: their widths, and a location's values for them. */
  function Widths(m: Mapping): (w: seq<nat>)
    ensures |w| == 4 && w[0] + w[1] + w[2] + w[3] == m.rankBits + m.bankBits + m.rowBits + m.colBits
  {
    match m.scheme
    case Scheme1 => [m.bankBits, m.colBits, m.rowBits, m.rankBits]
    case Scheme2 => [m.rankBits, m.bankBits, m.colBits, m.rowBits]
    case Scheme3 => [m.rowBits, m.colBits, m.bankBits, m.rankBits]
    case Scheme4 => [m.colBits, m.rowBits, m.bankBits, m.rankBits]
    case Scheme5 => [m.bankBits, m.rankBits, m.colBits, m.rowBits]
    case Scheme6 => [m.colBits, m.rankBits, m.bankBits, m.rowBits]
  }

  function Fields(scheme: Scheme, l: Location): (f: seq<nat>)
    ensures |f| == 4
  {
    match scheme
    case Scheme1 => [l.bank, l.col, l.row, l.rank]
    case Scheme2 => [l.rank, l.bank, l.col, l.row]
    case Scheme3 => [l.row, l.col, l.bank, l.rank]
    case Scheme4 => [l.col, l.row, l.bank, l.rank]
    case Scheme5 => [l.bank, l.rank, l.col, l.row]
    case Scheme6 => [l.col, l.rank, l.bank, l.row]
  }

  /** The number of the line stored at a location. */
  function LineOf(m: Mapping, l: Location): nat {
    var f, w := Fields(m.scheme, l), Widths(m);
    Join(Join(Join(f[3], f[2], w[2]), f[1], w[1]), f[0], w[0])
  }

  predicate FitsMapping(m: Mapping, l: Location) {
    l.rank < Pow2(m.rankBits) && l.bank < Pow2(m.bankBits) && l.row < Pow2(m.rowBits) && l.col < Pow2(m.colBits)
  }

  function Lines(m: Mapping): nat {
    Pow2(m.rankBits + m.bankBits + m.rowBits + m.colBits)
  }

  lemma FieldsFit(m: Mapping, l: Location)
    ensures FitsMapping(m, l) <==> forall i :: 0 <= i < 4 ==> Fields(m.scheme, l)[i] < Pow2(Widths(m)[i])
  {
    hide Pow2;
    var f, w := Fields(m.scheme, l), Widths(m);
    assert (forall i :: 0 <= i < 4 ==> f[i] < Pow2(w[i]))
       <==> f[0] < Pow2(w[0]) && f[1] < Pow2(w[1]) && f[2] < Pow2(w[2]) && f[3] < Pow2(w[3]);
  }

  lemma FieldsDetermine(scheme: Scheme, l: Location, l': Location)
    ensures Fields(scheme, l) == Fields(scheme, l') <==> l == l'
  {
    var f, f' := Fields(scheme, l), Fields(scheme, l');
    assert f == f' ==> f[0] == f'[0] && f[1] == f'[1] && f[2] == f'[2] && f[3] == f'[3];
  }

  /** What the peeling computes, field by field. */
  lemma LocateFields(m: Mapping, address: nat)
    ensures var a := Shift(address, m.offsetBits);
            var w := Widths(m);
            var b := Shift(a, w[0]);
            var d := Shift(b, w[1]);
            Fields(m.scheme, Locate(m, address))
                == [Low(a, w[0]), Low(b, w[1]), Low(d, w[2]), Low(Shift(d, w[2]), w[3])]
  {
    hide Low, Shift, Pow2;
  }

  /** A line below the capacity is the one stored at the location its address names. */
  lemma LineOfLocate(m: Mapping, address: nat)
    requires Shift(address, m.offsetBits) < Lines(m)
    ensures FitsMapping(m, Locate(m, address)) && LineOf(m, Locate(m, address)) == Shift(address, m.offsetBits)
  {
    hide Locate, Shift, Low, Join, Widths, Fields, Pow2;
    var a := Shift(address, m.offsetBits);
    var w := Widths(m);
    var b := Shift(a, w[0]);
    var d := Shift(b, w[1]);
    LocateFields(m, address);
    JoinSplit(a, w[0]);
    JoinSplit(b, w[1]);
    JoinSplit(d, w[2]);
    ShiftBound(a, w[0], w[1] + w[2] + w[3]);
    ShiftBound(b, w[1], w[2] + w[3]);
    ShiftBound(d, w[2], w[3]);
    LowOfSmall(Shift(d, w[2]), w[3]);
  }

  /** Every location in range stores a line below the capacity, and that line's address names it. */
  lemma LocateLineOf(m: Mapping, l: Location, address: nat)
    requires FitsMapping(m, l) && Shift(address, m.offsetBits) == LineOf(m, l)
    ensures Shift(address, m.offsetBits) < Lines(m) && Locate(m, address) == l
  {
    hide Locate, Shift, Low, Join, Widths, Fields, Pow2;
    var f, w := Fields(m.scheme, l), Widths(m);
    FieldsFit(m, l);
    FieldsDetermine(m.scheme, Locate(m, address), l);
    LocateFields(m, address);
    SplitJoin(f[3], f[2], w[2]);
    SplitJoin(Join(f[3], f[2], w[2]), f[1], w[1]);
    SplitJoin(Join(Join(f[3], f[2], w[2]), f[1], w[1]), f[0], w[0]);
    LowOfSmall(f[3], w[3]);
    JoinBound(f[3], f[2], w[2], w[3]);
    JoinBound(Join(f[3], f[2], w[2]), f[1], w[1], w[2] + w[3]);
    JoinBound(Join(Join(f[3], f[2], w[2]), f[1], w[1]), f[0], w[0], w[1] + w[2] + w[3]);
  }

  /** Two addresses below the capacity name the same location exactly when they are in the same line. */
  lemma LocateIsInjective(m: Mapping, x: nat, y: nat)
    requires Shift(x, m.offsetBits) < Lines(m) && Shift(y, m.offsetBits) < Lines(m)
    ensures Locate(m, x) == Locate(m, y) <==> Shift(x, m.offsetBits) == Shift(y, m.offsetBits)
  {
    LineOfLocate(m, x);
    LineOfLocate(m, y);
  }

  /** And every location in range is named by some address below the capacity. */
  lemma LocateIsSurjective(m: Mapping, l: Location) returns (address: nat)
    requires FitsMapping(m, l)
    ensures Shift(address, m.offsetBits) < Lines(m) && Locate(m, address) == l
  {
    address := Join(LineOf(m, l), 0, m.offsetBits);
    SplitJoin(LineOf(m, l), 0, m.offsetBits);
    LocateLineOf(m, l, address);
  }

  // ---------------------------------------------------------------- sizes

  lemma {:induction false} Pow2Grows(i: nat, j: nat)
    requires i < j
    ensures 2 * Pow2(i) <= Pow2(j)
  {
    if i < j - 1 {
      Pow2Grows(i, j - 1);
    }
  }

  lemma {:induction false} ShiftAgain(value: nat, width: nat)
    ensures Shift(value, width) / 2 == Shift(value, width + 1)
  {
    if width > 0 {
      ShiftAgain(value / 2, width - 1);
    }
  }

  /** The width of a field that has to hold `size` values: the least power of two that is large enough. */
  method Log2(size: nat) returns (r: nat)
    ensures Pow2(r) >= size
    ensures forall s: nat :: s < r ==> Pow2(s) < size
  {
    r := 0;
    var value := size / 2;
    while value > 0
      invariant value == Shift(size, r + 1)
      invariant r > 0 ==> Pow2(r) <= size
    {
      ShiftBound(size, r + 1, 0);
      ShiftAgain(size, r + 1);
      value := value / 2;
      r := r + 1;
    }
    ShiftBound(size, r + 1, 0);
    if Pow2(r) < size {
      r := r + 1;
    }
    forall s: nat | s < r ensures Pow2(s) < size {
      Pow2Grows(s, r);
    }
  }
}
