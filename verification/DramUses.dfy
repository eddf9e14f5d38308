/** How often an opened row is used before it is closed. */
module DramUses {
  import opened Outcomes
  import opened DramTypes
  import opened DramControl
  import opened DramQueue
  import opened DramTiming
  import opened DramOrder

  predicate IsFor(out: Option<Packet>, r: nat, b: nat) {
    out.Some? && out.value.rank == r && out.value.bank == b
  }

  /** What the commands sent to a bank so far make of it: is a row open, which one, and how often has it been used. */
  datatype Row = Row(open: bool, row: nat, uses: nat)

  function AfterSent(h: Row, p: Packet): Row {
    match p.kind
    case Activate => Row(true, p.row, 0)
    case Read | Write => h.(uses := h.uses + 1)
    case ReadP | WriteP => h.(open := false, uses := h.uses + 1)
    case Precharge => h.(open := false)
    case Refresh | Data => h
  }

  function RowOf(issued: seq<Option<Packet>>, r: nat, b: nat): Row {
    if issued == [] then Row(false, 0, 0) else
    var out := issued[|issued|-1];
    var before := RowOf(issued[..|issued|-1], r, b);
    if IsFor(out, r, b) then AfterSent(before, out.value) else before
  }

  /** A queue holds the column command whose ACTIVATE opened the bank. */
  predicate HasOrphan(q: seq<Packet>, b: nat) {
    exists j :: 0 <= j < |q| && Orphan(q, j) && q[j].bank == b
  }

  /**
   * The bank is open exactly if the history says so, and then its row either still waits for its first use, or has been
   * used once more than the counter says.
   */
  predicate RowOk(c: Config, m: BankState, q: seq<Packet>, access: nat, b: nat, h: Row) {
    && (Live(m) <==> h.open)
    && (Live(m) ==>
          && m.openRow == h.row
          && (if HasOrphan(q, b) then h.uses == 0 else c.policy == OpenPage && h.uses == access + 1))
  }

  predicate RowsOk(c: Config, banks: Table, v: QueueState, issued: seq<Option<Packet>>)
    requires TableShape(c, banks) && QueueShape(c, v)
  {
    forall r, b :: 0 <= r < c.numRanks && 0 <= b < c.numBanks ==>
      RowOk(c, banks[r][b], v.queues[r][c.Slot(b)], v.rowAccess[r][b], b, RowOf(issued, r, b))
  }

  /**
   * What may be sent after a history: an ACTIVATE to a closed bank; a column command to an open bank, for the row
   * that is open in it and not too often; a PRECHARGE to an open bank, after at least one use; a REFRESH to a rank
   * whose banks are all closed. Nothing else is a command.
   */
  predicate FitsHistory(c: Config, issued: seq<Option<Packet>>, p: Packet) {
    var h := RowOf(issued, p.rank, p.bank);
    match p.kind
    case Activate => !h.open
    case Read | Write => c.policy == OpenPage && h.open && p.row == h.row && h.uses <= c.totalRowAccesses
    case ReadP | WriteP => c.policy == ClosePage && h.open && p.row == h.row && h.uses == 0
    case Precharge => c.policy == OpenPage && h.open && 1 <= h.uses <= c.totalRowAccesses + 1
    case Refresh => forall b :: 0 <= b < c.numBanks ==> !RowOf(issued, p.rank, b).open
    case Data => false
  }

  predicate HistoryOk(c: Config, issued: seq<Option<Packet>>) {
    forall t :: 0 <= t < |issued| && issued[t].Some? ==> FitsHistory(c, issued[..t], issued[t].value)
  }

  /** Where a command that stays behind stands afterwards. */
  function After(i: nat, withAct: bool, k: nat): int {
    if k < (if withAct then i - 1 else i) then k else if withAct then k - 2 else k - 1
  }

  lemma WithoutLosesNoOrphan(q: seq<Packet>, i: nat, withAct: bool, k: nat)
    requires Paired(q) && i < |q| && (withAct ==> i > 0 && Mates(q[i-1], q[i]))
    requires !withAct && q[i].kind != Activate ==> Orphan(q, i)
    requires Orphan(q, k) && k != i
    ensures 0 <= After(i, withAct, k) < |Without(q, i, withAct)|
    ensures Without(q, i, withAct)[After(i, withAct, k)] == q[k] && Orphan(Without(q, i, withAct), After(i, withAct, k))
  {
    WithoutAt(q, i, withAct);
    var lo := if withAct then i - 1 else i;
    assert lo > 0 && q[lo-1].kind == Activate ==> Mates(q[lo-1], q[lo]);
  }

  /** Taking a command away makes no orphan of another bank, and loses none. */
  lemma WithoutKeepsOrphans(q: seq<Packet>, i: nat, withAct: bool, b: nat)
    requires Paired(q) && i < |q| && (withAct ==> i > 0 && Mates(q[i-1], q[i]))
    requires !withAct && q[i].kind != Activate ==> Orphan(q, i)
    requires b != q[i].bank
    ensures HasOrphan(Without(q, i, withAct), b) <==> HasOrphan(q, b)
  {
    var w := Without(q, i, withAct);
    if HasOrphan(q, b) {
      var k :| 0 <= k < |q| && Orphan(q, k) && q[k].bank == b;
      WithoutLosesNoOrphan(q, i, withAct, k);
    }
    if HasOrphan(w, b) {
      WithoutKeepsPaired(q, i, withAct);
      WithoutAt(q, i, withAct);
      var j :| 0 <= j < |w| && Orphan(w, j) && w[j].bank == b;
      assert Orphan(q, Before(i, withAct, j));
    }
  }

  lemma HistoryAppend(issued: seq<Option<Packet>>, out: Option<Packet>, r: nat, b: nat)
    ensures RowOf(issued + [out], r, b)
            == if IsFor(out, r, b) then AfterSent(RowOf(issued, r, b), out.value) else RowOf(issued, r, b)
  {
    assert (issued + [out])[..|issued|] == issued;
  }

  /** The bank an ACTIVATE is taken for has its column command still to come. */
  lemma TakenActivateOrphans(c: Config, v: QueueState, banks: Table, now: int, r: nat, slot: nat, i: nat, withAct: bool)
    requires c.Valid() && QueueShape(c, v) && TableShape(c, banks)
    requires LegalTake(c, v, banks, now, r, slot, i, withAct)
    requires QueuesOk(c, banks, v) && v.queues[r][slot][i].kind == Activate
    ensures HasOrphan(Without(v.queues[r][slot], i, withAct), v.queues[r][slot][i].bank)
  {
    var q := v.queues[r][slot];
    assert Placed(c, q, r, slot) && QueueOk(banks[r], v.rowAccess[r], q);
    PickedActivateIsFirst(c, v, banks, now, r, slot, i, withAct);
    WithoutAt(q, i, withAct);
    assert Mates(q[i], q[i+1]) && (i > 0 && q[i-1].kind == Activate ==> Mates(q[i-1], q[i]));
    assert Orphan(Without(q, i, withAct), i);
  }

  lemma TakeActivateKeepsRow(c: Config, v: QueueState, banks: Table, now: int, r: nat, slot: nat, i: nat, withAct: bool,
                             issued: seq<Option<Packet>>)
    requires c.Valid() && QueueShape(c, v) && TableShape(c, banks)
    requires LegalTake(c, v, banks, now, r, slot, i, withAct)
    requires QueuesOk(c, banks, v) && SaneTable(c, banks, now) && v.queues[r][slot][i].kind == Activate
    requires RowsOk(c, banks, v, issued)
    ensures var p := v.queues[r][slot][i];
            && p.rank == r && p.bank < c.numBanks && c.Slot(p.bank) == slot
            && FitsHistory(c, issued, p)
            && RowOk(c, IssueBank(c, banks[r][p.bank], p, r, p.bank, now), Without(v.queues[r][slot], i, withAct),
                     Removed(c, v, banks, now, Take(r, slot, i, withAct)).rowAccess[r][p.bank], p.bank,
                     RowOf(issued + [Some(p)], r, p.bank))
  {
    var p := v.queues[r][slot][i];
    assert Placed(c, v.queues[r][slot], r, slot);
    HistoryAppend(issued, Some(p), r, p.bank);
    assert Sane(c, banks[r][p.bank], now);
    assert RowOk(c, banks[r][p.bank], v.queues[r][slot], v.rowAccess[r][p.bank], p.bank, RowOf(issued, r, p.bank));
    TakenActivateOrphans(c, v, banks, now, r, slot, i, withAct);
  }

  lemma TakeColumnKeepsRow(c: Config, v: QueueState, banks: Table, now: int, r: nat, slot: nat, i: nat, withAct: bool,
                           issued: seq<Option<Packet>>)
    requires c.Valid() && QueueShape(c, v) && TableShape(c, banks)
    requires LegalTake(c, v, banks, now, r, slot, i, withAct)
    requires QueuesOk(c, banks, v) && KindsOk(c, v) && SaneTable(c, banks, now) && v.queues[r][slot][i].kind != Activate
    requires RowsOk(c, banks, v, issued)
    ensures var p := v.queues[r][slot][i];
            && p.rank == r && p.bank < c.numBanks && c.Slot(p.bank) == slot
            && FitsHistory(c, issued, p)
            && RowOk(c, IssueBank(c, banks[r][p.bank], p, r, p.bank, now), Without(v.queues[r][slot], i, withAct),
                     Removed(c, v, banks, now, Take(r, slot, i, withAct)).rowAccess[r][p.bank], p.bank,
                     RowOf(issued + [Some(p)], r, p.bank))
  {
    var q := v.queues[r][slot];
    var p := q[i];
    assert Orphan(q, i) ==> HasOrphan(q, p.bank);
    hide HasOrphan, LegalScan, LegalDrain;
    HistoryAppend(issued, Some(p), r, p.bank);
    assert Placed(c, q, r, slot) && KindOk(c, p) && QueueOk(banks[r], v.rowAccess[r], q);
    assert Sane(c, banks[r][p.bank], now) && AccessOk(c, banks[r][p.bank], v.rowAccess[r][p.bank]);
    assert RowOk(c, banks[r][p.bank], q, v.rowAccess[r][p.bank], p.bank, RowOf(issued, r, p.bank));
    PickedColumnIsOrphan(c, v, banks, now, r, slot, i, withAct);
    TakenOrphanIsLast(c, v, banks, now, r, slot, i, withAct);
    assert Orphan(q, i) ==> OrphanOk(banks[r], v.rowAccess[r], q, i);
  }

  /** Once a column command has gone, its bank has no orphan left; a hit only goes when there was none before. */
  lemma TakenOrphanIsLast(c: Config, v: QueueState, banks: Table, now: int, r: nat, slot: nat, i: nat, withAct: bool)
    requires c.Valid() && QueueShape(c, v) && TableShape(c, banks)
    requires LegalTake(c, v, banks, now, r, slot, i, withAct)
    requires QueuesOk(c, banks, v) && v.queues[r][slot][i].kind != Activate
    ensures !HasOrphan(Without(v.queues[r][slot], i, withAct), v.queues[r][slot][i].bank)
    ensures withAct ==> !HasOrphan(v.queues[r][slot], v.queues[r][slot][i].bank)
  {
    var q := v.queues[r][slot];
    var w := Without(q, i, withAct);
    assert Placed(c, q, r, slot) && QueueOk(banks[r], v.rowAccess[r], q);
    PickedColumnIsOrphan(c, v, banks, now, r, slot, i, withAct);
    WithoutKeepsPaired(q, i, withAct);
    WithoutAt(q, i, withAct);
    forall k | 0 <= k < |q| && Orphan(q, k) && k != i ensures q[k].bank != q[i].bank {
      OtherOrphansElsewhere(c, v, banks, now, r, slot, i, withAct, k);
    }
    forall j | 0 <= j < |w| && Orphan(w, j) ensures w[j].bank != q[i].bank {
      assert Orphan(q, Before(i, withAct, j));
    }
  }

  /** Rows of banks the sent command is not for. */
  lemma OtherRowKept(c: Config, b: BankState, p: Packet, r: nat, i: nat, now: int, q: seq<Packet>, q': seq<Packet>,
                     access: nat, issued: seq<Option<Packet>>)
    requires RowOk(c, b, q, access, i, RowOf(issued, r, i))
    requires r != p.rank || i != p.bank
    requires p.rank == r && p.kind == Refresh ==> b.status != RowActive
    requires HasOrphan(q, i) <==> HasOrphan(q', i)
    ensures RowOk(c, IssueBank(c, b, p, r, i, now), q', access, i, RowOf(issued + [Some(p)], r, i))
  {
    hide IssueBank, HasOrphan, RowOf;
    HistoryAppend(issued, Some(p), r, i);
    OtherBankKept(c, b, p, r, i, now);
  }

  lemma OtherBankKept(c: Config, b: BankState, p: Packet, r: nat, i: nat, now: int)
    requires r != p.rank || i != p.bank
    requires p.rank == r && p.kind == Refresh ==> b.status != RowActive
    ensures var b' := IssueBank(c, b, p, r, i, now); (Live(b') <==> Live(b)) && (Live(b) ==> b'.openRow == b.openRow)
  {
  }

  /** What the removal of a command means for another bank. */
  lemma RemovedElsewhere(c: Config, v: QueueState, banks: Table, now: int, r: nat, slot: nat, i: nat, withAct: bool,
                         a: nat, b: nat)
    requires c.Valid() && QueueShape(c, v) && TableShape(c, banks)
    requires LegalTake(c, v, banks, now, r, slot, i, withAct)
    requires a < c.numRanks && b < c.numBanks && (a != r || b != v.queues[r][slot][i].bank)
    ensures withAct ==> i > 0
    ensures var v' := Removed(c, v, banks, now, Take(r, slot, i, withAct));
            && v.queues[r][slot][i].rank == r
            && v'.rowAccess[a][b] == v.rowAccess[a][b]
            && v'.queues[a][c.Slot(b)] == if a == r && c.Slot(b) == slot then Without(v.queues[r][slot], i, withAct)
                                          else v.queues[a][c.Slot(b)]
  {
    assert Placed(c, v.queues[r][slot], r, slot);
  }

  lemma TakeKeepsOtherRow(c: Config, v: QueueState, banks: Table, now: int, r: nat, slot: nat, i: nat, withAct: bool,
                          issued: seq<Option<Packet>>, a: nat, b: nat)
    requires c.Valid() && QueueShape(c, v) && TableShape(c, banks)
    requires QueuesOk(c, banks, v) && KindsOk(c, v)
    requires LegalTake(c, v, banks, now, r, slot, i, withAct)
    requires a < c.numRanks && b < c.numBanks && (a != r || b != v.queues[r][slot][i].bank)
    requires v.queues[r][slot][i].kind != Activate && !withAct ==> Orphan(v.queues[r][slot], i)
    requires RowOk(c, banks[a][b], v.queues[a][c.Slot(b)], v.rowAccess[a][b], b, RowOf(issued, a, b))
    ensures var p := v.queues[r][slot][i];
            var v' := Removed(c, v, banks, now, Take(r, slot, i, withAct));
            RowOk(c, IssueTable(c, banks, p, now)[a][b], v'.queues[a][c.Slot(b)], v'.rowAccess[a][b], b,
                  RowOf(issued + [Some(p)], a, b))
  {
    var p := v.queues[r][slot][i];
    assert p.kind != Refresh by { assert KindOk(c, p); }
    assert Paired(v.queues[r][slot]) by { assert QueueOk(banks[r], v.rowAccess[r], v.queues[r][slot]); }
    RemovedElsewhere(c, v, banks, now, r, slot, i, withAct, a, b);
    hide IssueBank, RowOk, QueueOk, Issuable, LegalScan, LegalDrain, HasOrphan, KindOk, QueuesOk, KindsOk, RowOf,
         Removed;
    var v' := Removed(c, v, banks, now, Take(r, slot, i, withAct));
    if a == r && c.Slot(b) == slot {
      WithoutKeepsOrphans(v.queues[r][slot], i, withAct, b);
    }
    OtherRowKept(c, banks[a][b], p, a, b, now, v.queues[a][c.Slot(b)], v'.queues[a][c.Slot(b)], v.rowAccess[a][b],
        issued);
  }

  lemma TakeKeepsOwnRow(c: Config, v: QueueState, banks: Table, now: int, r: nat, slot: nat, i: nat, withAct: bool,
                        issued: seq<Option<Packet>>)
    requires c.Valid() && QueueShape(c, v) && TableShape(c, banks)
    requires QueuesOk(c, banks, v) && KindsOk(c, v) && SaneTable(c, banks, now)
    requires LegalTake(c, v, banks, now, r, slot, i, withAct)
    requires RowsOk(c, banks, v, issued)
    ensures var p := v.queues[r][slot][i];
            var v' := Removed(c, v, banks, now, Take(r, slot, i, withAct));
            && p.bank < c.numBanks && FitsHistory(c, issued, p)
            && (p.kind != Activate && !withAct ==> Orphan(v.queues[r][slot], i))
            && RowOk(c, IssueTable(c, banks, p, now)[r][p.bank], v'.queues[r][c.Slot(p.bank)], v'.rowAccess[r][p.bank],
                     p.bank, RowOf(issued + [Some(p)], r, p.bank))
  {
    hide FitsHistory, RowOk, Issuable, LegalScan, LegalDrain, HasOrphan, KindsOk, SaneTable, RowOf, IssueBank, RowsOk,
         Orphan;
    var p := v.queues[r][slot][i];
    assert Placed(c, v.queues[r][slot], r, slot);
    if p.kind == Activate {
      TakeActivateKeepsRow(c, v, banks, now, r, slot, i, withAct, issued);
    } else {
      TakeColumnKeepsRow(c, v, banks, now, r, slot, i, withAct, issued);
      PickedColumnIsOrphan(c, v, banks, now, r, slot, i, withAct) by {
        assert QueueOk(banks[r], v.rowAccess[r], v.queues[r][slot]);
      }
    }
  }

  lemma TakeKeepsRows(c: Config, v: QueueState, banks: Table, now: int, r: nat, slot: nat, i: nat, withAct: bool,
                      issued: seq<Option<Packet>>)
    requires c.Valid() && QueueShape(c, v) && TableShape(c, banks)
    requires QueuesOk(c, banks, v) && KindsOk(c, v) && SaneTable(c, banks, now)
    requires LegalTake(c, v, banks, now, r, slot, i, withAct)
    requires RowsOk(c, banks, v, issued)
    ensures var p := v.queues[r][slot][i];
            && FitsHistory(c, issued, p)
            && RowsOk(c, IssueTable(c, banks, p, now), Removed(c, v, banks, now, Take(r, slot, i, withAct)),
                issued + [Some(p)])
  {
    hide IssueBank, FitsHistory, RowOk, QueueOk, Issuable, LegalScan, LegalDrain, HasOrphan, QueuesOk, KindsOk,
         SaneTable, RowOf, Placed, Orphan, Removed;
    var p := v.queues[r][slot][i];
    TakeKeepsOwnRow(c, v, banks, now, r, slot, i, withAct, issued);
    var v' := Removed(c, v, banks, now, Take(r, slot, i, withAct));
    forall a, b | 0 <= a < c.numRanks && 0 <= b < c.numBanks
      ensures RowOk(c, IssueTable(c, banks, p, now)[a][b], v'.queues[a][c.Slot(b)], v'.rowAccess[a][b], b,
                    RowOf(issued + [Some(p)], a, b))
    {
      if a != r || b != p.bank {
        assert RowOk(c, banks[a][b], v.queues[a][c.Slot(b)], v.rowAccess[a][b], b, RowOf(issued, a, b));
        TakeKeepsOtherRow(c, v, banks, now, r, slot, i, withAct, issued, a, b);
      }
    }
  }

  lemma CloseKeepsRows(c: Config, v: QueueState, banks: Table, now: int, r: nat, b: nat, issued: seq<Option<Packet>>)
    requires c.Valid() && QueueShape(c, v) && TableShape(c, banks)
    requires QueuesOk(c, banks, v) && SaneTable(c, banks, now)
    requires LegalClose(c, v, banks, now, r, b)
    requires RowsOk(c, banks, v, issued)
    ensures var p := Packet(Precharge, 0, 0, 0, r, b);
            && FitsHistory(c, issued, p)
            && RowsOk(c, IssueTable(c, banks, p, now), Removed(c, v, banks, now, Close(r, b)), issued + [Some(p)])
  {
    var p := Packet(Precharge, 0, 0, 0, r, b);
    var q := v.queues[r][c.Slot(b)];
    assert Placed(c, q, r, c.Slot(b)) && QueueOk(banks[r], v.rowAccess[r], q);
    assert Sane(c, banks[r][b], now) && AccessOk(c, banks[r][b], v.rowAccess[r][b]);
    assert RowOk(c, banks[r][b], q, v.rowAccess[r][b], b, RowOf(issued, r, b));
    forall i | 0 <= i < |q| && Orphan(q, i) ensures q[i].bank != b {
      CloseStrandsNothing(c, v, banks, now, r, b, i);
    }
    var v' := Removed(c, v, banks, now, Close(r, b));
    forall i, j | 0 <= i < c.numRanks && 0 <= j < c.numBanks
      ensures RowOk(c, IssueTable(c, banks, p, now)[i][j], v'.queues[i][c.Slot(j)], v'.rowAccess[i][j], j,
                    RowOf(issued + [Some(p)], i, j))
    {
      if i != r || j != b {
        OtherRowKept(c, banks[i][j], p, i, j, now, v.queues[i][c.Slot(j)], v.queues[i][c.Slot(j)], v.rowAccess[i][j],
            issued);
      }
    }
  }

  lemma RefreshKeepsRows(c: Config, v: QueueState, banks: Table, now: int, r: nat, issued: seq<Option<Packet>>)
    requires c.Valid() && QueueShape(c, v) && TableShape(c, banks)
    requires LegalRefresh(c, v, banks, now, r)
    requires RowsOk(c, banks, v, issued)
    ensures var p := Packet(Refresh, 0, 0, 0, r, 0);
            && FitsHistory(c, issued, p)
            && RowsOk(c, IssueTable(c, banks, p, now), Removed(c, v, banks, now, RefreshAll(r)), issued + [Some(p)])
  {
    var p := Packet(Refresh, 0, 0, 0, r, 0);
    forall b | 0 <= b < c.numBanks ensures !RowOf(issued, r, b).open {
      assert RowOk(c, banks[r][b], v.queues[r][c.Slot(b)], v.rowAccess[r][b], b, RowOf(issued, r, b));
    }
    HistoryAppend(issued, Some(p), r, 0);
    forall i, j | 0 <= i < c.numRanks && 0 <= j < c.numBanks
      ensures RowOk(c, IssueTable(c, banks, p, now)[i][j], v.queues[i][c.Slot(j)], v.rowAccess[i][j], j,
                    RowOf(issued + [Some(p)], i, j))
    {
      if i != r || j != 0 {
        OtherRowKept(c, banks[i][j], p, i, j, now, v.queues[i][c.Slot(j)], v.queues[i][c.Slot(j)], v.rowAccess[i][j],
            issued);
      }
    }
  }

  lemma ChoiceKeepsRows(c: Config, v: QueueState, banks: Table, now: int, choice: Choice, issued: seq<Option<Packet>>)
    requires c.Valid() && QueueShape(c, v) && TableShape(c, banks)
    requires QueuesOk(c, banks, v) && KindsOk(c, v) && SaneTable(c, banks, now)
    requires Legal(c, v, banks, now, choice)
    requires RowsOk(c, banks, v, issued)
    ensures var out := Chosen(c, v, banks, now, choice);
            && (out.Some? ==> FitsHistory(c, issued, out.value))
            && RowsOk(c, if out.Some? then IssueTable(c, banks, out.value, now) else banks,
                Removed(c, v, banks, now, choice), issued + [out])
  {
    hide RowOk, QueuesOk, KindsOk, SaneTable, LegalTake, LegalClose, LegalRefresh, FitsHistory;
    match choice
    case Nothing =>
      forall r, b | 0 <= r < c.numRanks && 0 <= b < c.numBanks
        ensures RowOf(issued + [None], r, b) == RowOf(issued, r, b)
      {
        HistoryAppend(issued, None, r, b);
      }
    case Take(r, slot, i, withAct) => TakeKeepsRows(c, v, banks, now, r, slot, i, withAct, issued);
    case Close(r, b) => CloseKeepsRows(c, v, banks, now, r, b, issued);
    case RefreshAll(r) => RefreshKeepsRows(c, v, banks, now, r, issued);
  }

  /** One pop keeps the account of every row, and sends nothing the history does not allow. */
  lemma PopKeepsRows(c: Config, v: QueueState, banks: Table, now: int, issued: seq<Option<Packet>>)
    requires c.Valid() && QueueShape(c, v) && TableShape(c, banks)
    requires QueuesOk(c, banks, v) && KindsOk(c, v) && SaneTable(c, banks, now)
    requires RowsOk(c, banks, v, issued) && HistoryOk(c, issued)
    ensures var (v', out) := Pop(c, v, banks, now);
            && RowsOk(c, if out.Some? then IssueTable(c, banks, out.value, now) else banks, v', issued + [out])
            && HistoryOk(c, issued + [out])
  {
    var v1 := Aged(c, v);
    QueuesOkFrame(c, banks, v, v1);
    assert KindsOk(c, v1);
    assert RowsOk(c, banks, v1, issued);
    hide RowOk, QueuesOk, KindsOk, SaneTable, Legal, FitsHistory, Decide, Chosen, Removed;
    var choice := DecisionOf(c, v, banks, now).choice;
    ChoiceKeepsRows(c, v1, banks, now, choice, issued);
    var out := Pop(c, v, banks, now).1;
    assert (issued + [out])[..|issued|] == issued;
    assert forall t :: 0 <= t < |issued| ==> (issued + [out])[..t] == issued[..t];
  }
}
