/** What command queues look like in every reachable state. */
module DramOrder {
  import opened DramTypes
  import opened DramControl
  import opened DramQueue
  import opened DramTiming

  /** `col` is the column command that was queued together with ACTIVATE `act`. */
  predicate Mates(act: Packet, col: Packet) {
    act.kind == Activate && IsColumn(col.kind) && col == act.(kind := col.kind)
  }

  /** Every queued ACTIVATE is directly followed by its own column command. */
  predicate Paired(q: seq<Packet>) {
    forall i :: 0 <= i < |q| && q[i].kind == Activate ==> i + 1 < |q| && Mates(q[i], q[i+1])
  }

  /** A column command whose ACTIVATE has been sent ahead of it. */
  predicate Orphan(q: seq<Packet>, i: nat) {
    i < |q| && q[i].kind != Activate && (i == 0 || q[i-1].kind != Activate)
  }

  predicate FirstOfBank(q: seq<Packet>, i: nat)
    requires i < |q|
  {
    forall j :: 0 <= j < i ==> q[j].bank != q[i].bank
  }

  /** An orphan is the oldest command of its bank, and its row is open, unused and about to stay open. */
  predicate OrphanOk(row: seq<BankState>, access: seq<nat>, q: seq<Packet>, i: nat)
    requires i < |q| && q[i].bank < |row| == |access|
  {
    && FirstOfBank(q, i)
    && Live(row[q[i].bank]) && row[q[i].bank].openRow == q[i].row
    && access[q[i].bank] == 0
  }

  predicate InRange(q: seq<Packet>, n: nat) {
    forall i :: 0 <= i < |q| ==> q[i].bank < n
  }

  predicate QueueOk(row: seq<BankState>, access: seq<nat>, q: seq<Packet>)
    requires InRange(q, |row|) && |row| == |access|
  {
    Paired(q) && forall i :: 0 <= i < |q| && Orphan(q, i) ==> OrphanOk(row, access, q, i)
  }

  /** Uses of an open row, counted only once its first column command has gone. */
  predicate AccessOk(c: Config, b: BankState, n: nat) {
    && n <= c.totalRowAccesses
    && (b.status != RowActive || c.policy == ClosePage ==> n == 0)
  }

  // ---------------------------------------------------------------- one queue

  /**
   * If nothing before `q[j]` is for a bank that could be activated, and `q[j]` may not go, it is not for that bank
   * either.
   */
  lemma NotForBank(c: Config, v: QueueState, banks: Table, now: int, r: nat, slot: nat, j: nat, p: Packet)
    requires c.Valid() && QueueShape(c, v) && TableShape(c, banks) && r < c.numRanks && slot < c.Slots()
    requires InRange(v.queues[r][slot], c.numBanks) && QueueOk(banks[r], v.rowAccess[r], v.queues[r][slot])
    requires j < |v.queues[r][slot]| && !Selectable(c, v, banks, now, v.queues[r][slot], j, r, slot)
    requires p.kind == Activate && p.rank == r && p.bank < c.numBanks && Issuable(c, v, banks, now, p)
    requires forall i :: 0 <= i < j ==> v.queues[r][slot][i].bank != p.bank
    ensures v.queues[r][slot][j].bank != p.bank
  {
    var q := v.queues[r][slot];
    assert j > 0 && q[j-1].kind == Activate ==> Mates(q[j-1], q[j]);
    assert Orphan(q, j) ==> OrphanOk(banks[r], v.rowAccess[r], q, j);
    assert j > 0 && c.queuing == PerRankPerBank ==> q[0].bank == q[j].bank by {
      assert Placed(c, q, r, slot);
    }
  }

  /** An ACTIVATE that is picked is the oldest command of its bank. */
  lemma PickedActivateIsFirst(c: Config, v: QueueState, banks: Table, now: int, r: nat, slot: nat, i: nat,
                              withAct: bool)
    requires c.Valid() && QueueShape(c, v) && TableShape(c, banks)
    requires LegalTake(c, v, banks, now, r, slot, i, withAct)
    requires v.queues[r][slot][i].kind == Activate
    requires InRange(v.queues[r][slot], c.numBanks) && QueueOk(banks[r], v.rowAccess[r], v.queues[r][slot])
    ensures !withAct && FirstOfBank(v.queues[r][slot], i)
  {
    var q := v.queues[r][slot];
    assert LegalScan(c, v, banks, now, r, slot, i, withAct);
    assert i > 0 && q[i-1].kind == Activate ==> Mates(q[i-1], q[i]);
    assert Placed(c, q, r, slot);
    var k := 0;
    while k < i
      invariant k <= i && forall j :: 0 <= j < k ==> q[j].bank != q[i].bank
    {
      NotForBank(c, v, banks, now, r, slot, k, q[i]);
      k := k + 1;
    }
  }

  /** A column command that is picked without its ACTIVATE is one whose ACTIVATE has gone before. */
  lemma PickedColumnIsOrphan(c: Config, v: QueueState, banks: Table, now: int, r: nat, slot: nat, i: nat, withAct: bool)
    requires c.Valid() && QueueShape(c, v) && TableShape(c, banks)
    requires LegalTake(c, v, banks, now, r, slot, i, withAct)
    requires v.queues[r][slot][i].kind != Activate && Paired(v.queues[r][slot])
    ensures withAct ==> i > 0 && Mates(v.queues[r][slot][i-1], v.queues[r][slot][i])
    ensures !withAct ==> Orphan(v.queues[r][slot], i)
  {
    var q := v.queues[r][slot];
    assert i > 0 && q[i-1].kind == Activate ==> Mates(q[i-1], q[i]) && IsHit(c, q[i-1], q[i].bank, q[i].row);
  }

  /** No row is closed over a column command that still needs it. */
  lemma CloseStrandsNothing(c: Config, v: QueueState, banks: Table, now: int, r: nat, b: nat, i: nat)
    requires c.Valid() && QueueShape(c, v) && TableShape(c, banks)
    requires LegalClose(c, v, banks, now, r, b)
    requires InRange(v.queues[r][c.Slot(b)], c.numBanks) && QueueOk(banks[r], v.rowAccess[r], v.queues[r][c.Slot(b)])
    requires Orphan(v.queues[r][c.Slot(b)], i)
    ensures v.queues[r][c.Slot(b)][i].bank != b
  {
    var q := v.queues[r][c.Slot(b)];
    assert OrphanOk(banks[r], v.rowAccess[r], q, i);
    assert Placed(c, q, r, c.Slot(b));
    if v.rowAccess[r][b] != c.totalRowAccesses {
      var k: nat :| NoHitBefore(c, q, k, b, banks[r][b].openRow)
                    && (k < |q| ==> IsHit(c, q[k], b, banks[r][b].openRow) && q[k].kind == Activate);
      if k < i {
        assert q[k].bank == b;
      }
    }
  }

  /** Where a command of the shortened queue stood before. */
  function Before(i: nat, withAct: bool, j: nat): nat {
    if withAct then (if j + 1 < i then j else j + 2) else if j < i then j else j + 1
  }

  lemma WithoutAt(q: seq<Packet>, i: nat, withAct: bool)
    requires i < |q| && (withAct ==> i > 0)
    ensures |Without(q, i, withAct)| == |q| - (if withAct then 2 else 1)
    ensures forall j :: 0 <= j < |Without(q, i, withAct)| ==> Without(q, i, withAct)[j] == q[Before(i, withAct, j)]
  {
  }

  /** Taking a command out leaves a well-formed queue; only a lone ACTIVATE makes a new orphan, at its own place. */
  lemma WithoutKeepsPaired(q: seq<Packet>, i: nat, withAct: bool)
    requires Paired(q) && i < |q| && (withAct ==> i > 0 && Mates(q[i-1], q[i]))
    requires !withAct && q[i].kind != Activate ==> Orphan(q, i)
    ensures Paired(Without(q, i, withAct))
    ensures forall j :: 0 <= j < |Without(q, i, withAct)| && Orphan(Without(q, i, withAct), j) ==>
              || Orphan(q, Before(i, withAct, j))
              || (j == i && q[i].kind == Activate && !withAct && Mates(q[i], q[i+1]))
  {
    WithoutAt(q, i, withAct);
    var w := Without(q, i, withAct);
    forall j | 0 <= j < |w| && w[j].kind == Activate ensures j + 1 < |w| && Mates(w[j], w[j+1]) {
      assert Mates(q[Before(i, withAct, j)], q[Before(i, withAct, j) + 1]);
    }
    forall j | 0 <= j < |w| && Orphan(w, j)
      ensures Orphan(q, Before(i, withAct, j)) || (j == i && q[i].kind == Activate && !withAct && Mates(q[i], q[i+1]))
    {
      assert q[i].kind == Activate ==> Mates(q[i], q[i+1]);
    }
  }

  lemma WithoutKeepsFirst(q: seq<Packet>, i: nat, withAct: bool, j: nat)
    requires i < |q| && (withAct ==> i > 0)
    requires j < |Without(q, i, withAct)| && Before(i, withAct, j) < |q| && FirstOfBank(q, Before(i, withAct, j))
    ensures FirstOfBank(Without(q, i, withAct), j)
  {
    WithoutAt(q, i, withAct);
  }

  // ---------------------------------------------------------------- all queues, with the bank table

  predicate QueuesOk(c: Config, banks: Table, v: QueueState)
    requires QueueShape(c, v) && TableShape(c, banks)
  {
    && (forall r, l :: 0 <= r < c.numRanks && 0 <= l < c.Slots() ==>
          Placed(c, v.queues[r][l], r, l) && QueueOk(banks[r], v.rowAccess[r], v.queues[r][l]))
    && (forall r, b :: 0 <= r < c.numRanks && 0 <= b < c.numBanks ==> AccessOk(c, banks[r][b], v.rowAccess[r][b]))
  }

  /** A queue stays well formed while the banks of its orphans stay open and unused. */
  lemma QueueOkFrame(row: seq<BankState>, access: seq<nat>, row': seq<BankState>, access': seq<nat>, q: seq<Packet>)
    requires |row| == |access| == |row'| == |access'| && InRange(q, |row|) && QueueOk(row, access, q)
    requires forall i :: 0 <= i < |q| && Orphan(q, i) ==>
      && Live(row'[q[i].bank]) && row'[q[i].bank].openRow == row[q[i].bank].openRow && access'[q[i].bank] == 0
    ensures QueueOk(row', access', q)
  {
    forall i | 0 <= i < |q| && Orphan(q, i) ensures OrphanOk(row', access', q, i) {
      assert OrphanOk(row, access, q, i);
    }
  }

  lemma IssueElsewhereKeepsBank(c: Config, b: BankState, p: Packet, r: nat, i: nat, now: int)
    requires r != p.rank || (i != p.bank && p.kind != Refresh)
    ensures var b' := IssueBank(c, b, p, r, i, now);
            b'.status == b.status && b'.countdown == b.countdown && b'.openRow == b.openRow
  {
  }

  /** The orphans of the queue a command is taken from, other than the command itself, belong to other banks. */
  lemma OtherOrphansElsewhere(c: Config, v: QueueState, banks: Table, now: int, r: nat, slot: nat, i: nat,
                              withAct: bool, j: nat)
    requires c.Valid() && QueueShape(c, v) && TableShape(c, banks)
    requires LegalTake(c, v, banks, now, r, slot, i, withAct)
    requires InRange(v.queues[r][slot], c.numBanks) && QueueOk(banks[r], v.rowAccess[r], v.queues[r][slot])
    requires Orphan(v.queues[r][slot], j) && j != i
    ensures v.queues[r][slot][j].bank != v.queues[r][slot][i].bank
  {
    var q := v.queues[r][slot];
    assert OrphanOk(banks[r], v.rowAccess[r], q, j);
    assert Orphan(q, i) ==> OrphanOk(banks[r], v.rowAccess[r], q, i);
    assert Placed(c, q, r, slot);
    if q[i].kind != Activate {
      PickedColumnIsOrphan(c, v, banks, now, r, slot, i, withAct);
    }
  }

  /** What is left of the queue a command was taken from. */
  lemma TakeKeepsQueue(c: Config, v: QueueState, banks: Table, now: int, r: nat, slot: nat, i: nat, withAct: bool,
                       row': seq<BankState>, access': seq<nat>)
    requires c.Valid() && QueueShape(c, v) && TableShape(c, banks)
    requires LegalTake(c, v, banks, now, r, slot, i, withAct)
    requires InRange(v.queues[r][slot], c.numBanks) && QueueOk(banks[r], v.rowAccess[r], v.queues[r][slot])
    requires |row'| == c.numBanks == |access'|
    requires var p := v.queues[r][slot][i];
             && (forall b :: 0 <= b < c.numBanks && b != p.bank ==>
                   && Live(row'[b]) == Live(banks[r][b]) && row'[b].openRow == banks[r][b].openRow
                   && access'[b] == v.rowAccess[r][b])
             && (p.kind == Activate ==> Live(row'[p.bank]) && row'[p.bank].openRow == p.row && access'[p.bank] == 0)
    ensures InRange(Without(v.queues[r][slot], i, withAct), c.numBanks)
    ensures QueueOk(row', access', Without(v.queues[r][slot], i, withAct))
  {
    var q := v.queues[r][slot];
    var w := Without(q, i, withAct);
    if q[i].kind == Activate {
      PickedActivateIsFirst(c, v, banks, now, r, slot, i, withAct);
    } else {
      PickedColumnIsOrphan(c, v, banks, now, r, slot, i, withAct);
    }
    WithoutKeepsPaired(q, i, withAct);
    WithoutAt(q, i, withAct);
    forall j | 0 <= j < |w| && Orphan(w, j) ensures OrphanOk(row', access', w, j) {
      var k := Before(i, withAct, j);
      if Orphan(q, k) {
        assert OrphanOk(banks[r], v.rowAccess[r], q, k);
        OtherOrphansElsewhere(c, v, banks, now, r, slot, i, withAct, k);
        WithoutKeepsFirst(q, i, withAct, j);
      }
    }
  }

  predicate SaneTable(c: Config, banks: Table, d: int)
    requires TableShape(c, banks)
  {
    forall r, i :: 0 <= r < c.numRanks && 0 <= i < c.numBanks ==> Sane(c, banks[r][i], d)
  }

  /** A queue that the sent command does not come from. */
  lemma OtherQueueKept(c: Config, v: QueueState, banks: Table, p: Packet, r: nat, l: nat, access': seq<nat>, now: int)
    requires c.Sized() && QueueShape(c, v) && TableShape(c, banks) && r < c.numRanks && l < c.Slots()
    requires Placed(c, v.queues[r][l], r, l) && InRange(v.queues[r][l], c.numBanks)
    requires QueueOk(banks[r], v.rowAccess[r], v.queues[r][l])
    requires p.kind == Refresh && p.rank == r ==> forall b :: 0 <= b < c.numBanks ==> banks[r][b].status != RowActive
    requires p.kind != Refresh && p.rank == r ==> forall i :: 0 <= i < |v.queues[r][l]| && Orphan(v.queues[r][l], i) ==>
                                                    v.queues[r][l][i].bank != p.bank
    requires |access'| == c.numBanks
    requires forall b :: 0 <= b < c.numBanks && (r != p.rank || b != p.bank) ==> access'[b] == v.rowAccess[r][b]
    ensures QueueOk(IssueTable(c, banks, p, now)[r], access', v.queues[r][l])
  {
    hide IssueBank;
    var q := v.queues[r][l];
    var row' := IssueTable(c, banks, p, now)[r];
    forall i | 0 <= i < |q| && Orphan(q, i)
      ensures Live(row'[q[i].bank]) && row'[q[i].bank].openRow == banks[r][q[i].bank].openRow && access'[q[i].bank] == 0
    {
      assert OrphanOk(banks[r], v.rowAccess[r], q, i);
      IssueElsewhereKeepsBank(c, banks[r][q[i].bank], p, r, q[i].bank, now);
    }
    QueueOkFrame(banks[r], v.rowAccess[r], row', access', q);
  }

  lemma IssueKeepsAccess(c: Config, b: BankState, p: Packet, r: nat, i: nat, now: int, n: nat, n': nat)
    requires c.Valid() && AccessOk(c, b, n)
    requires n' == n || n' == 0
             || (c.policy == OpenPage && p.rank == r && p.bank == i && p.kind in {Read, Write} && b.status == RowActive
             && n' <= c.totalRowAccesses)
    requires p.rank == r && p.bank == i && p.kind == Precharge ==> n' == 0
    requires p.rank == r && p.kind == Refresh ==> b.status != RowActive
    ensures AccessOk(c, IssueBank(c, b, p, r, i, now), n')
  {
  }

  /** What taking a command does to the use counter of its own row. */
  lemma TakenAccess(c: Config, v: QueueState, banks: Table, now: int, r: nat, slot: nat, i: nat, withAct: bool)
    requires c.Valid() && QueueShape(c, v) && TableShape(c, banks)
    requires QueuesOk(c, banks, v) && KindsOk(c, v)
    requires LegalTake(c, v, banks, now, r, slot, i, withAct)
    ensures var p := v.queues[r][slot][i];
            var n' := Removed(c, v, banks, now, Take(r, slot, i, withAct)).rowAccess[r][p.bank];
            && p.rank == r && p.bank < c.numBanks && p.kind !in {Refresh, Precharge}
            && (p.kind == Activate ==> !withAct && n' == 0)
            && AccessOk(c, IssueBank(c, banks[r][p.bank], p, r, p.bank, now), n')
  {
    var q := v.queues[r][slot];
    var p := q[i];
    assert Placed(c, q, r, slot) && KindOk(c, p) && QueueOk(banks[r], v.rowAccess[r], q);
    if p.kind == Activate {
      PickedActivateIsFirst(c, v, banks, now, r, slot, i, withAct);
    } else {
      PickedColumnIsOrphan(c, v, banks, now, r, slot, i, withAct);
    }
    assert AccessOk(c, banks[r][p.bank], v.rowAccess[r][p.bank]);
    var n := v.rowAccess[r][p.bank];
    IssueKeepsAccess(c, banks[r][p.bank], p, r, p.bank, now, n, if withAct then n + 1 else n);
  }

  lemma TakeKeepsQueues(c: Config, v: QueueState, banks: Table, now: int, r: nat, slot: nat, i: nat, withAct: bool)
    requires c.Valid() && QueueShape(c, v) && TableShape(c, banks)
    requires QueuesOk(c, banks, v) && SaneTable(c, banks, now) && KindsOk(c, v)
    requires LegalTake(c, v, banks, now, r, slot, i, withAct)
    ensures QueuesOk(c, IssueTable(c, banks, v.queues[r][slot][i], now),
            Removed(c, v, banks, now, Take(r, slot, i, withAct)))
  {
    hide IssueBank, QueueOk, AccessOk, LegalScan, LegalDrain, Issuable, Sane, KindOk;
    TakenAccess(c, v, banks, now, r, slot, i, withAct);
    var p := v.queues[r][slot][i];
    var v' := Removed(c, v, banks, now, Take(r, slot, i, withAct));
    var banks': Table := IssueTable(c, banks, p, now);
    forall a, l | 0 <= a < c.numRanks && 0 <= l < c.Slots()
      ensures Placed(c, v'.queues[a][l], a, l) && QueueOk(banks'[a], v'.rowAccess[a], v'.queues[a][l])
    {
      assert Placed(c, v.queues[a][l], a, l) && QueueOk(banks[a], v.rowAccess[a], v.queues[a][l]);
      if a == r && l == slot {
        assert Sane(c, banks[r][p.bank], now);
        TakenQueueKept(c, v, banks, now, r, slot, i, withAct, v'.rowAccess[r]);
      } else {
        OtherQueueKept(c, v, banks, p, a, l, v'.rowAccess[a], now);
      }
    }
    forall a, b | 0 <= a < c.numRanks && 0 <= b < c.numBanks ensures AccessOk(c, banks'[a][b], v'.rowAccess[a][b]) {
      if a != r || b != p.bank {
        IssueKeepsAccess(c, banks[a][b], p, a, b, now, v.rowAccess[a][b], v'.rowAccess[a][b]);
      }
    }
  }

  lemma TakenQueueKept(c: Config, v: QueueState, banks: Table, now: int, r: nat, slot: nat, i: nat, withAct: bool,
                       access': seq<nat>)
    requires c.Valid() && QueueShape(c, v) && TableShape(c, banks)
    requires LegalTake(c, v, banks, now, r, slot, i, withAct)
    requires InRange(v.queues[r][slot], c.numBanks) && QueueOk(banks[r], v.rowAccess[r], v.queues[r][slot])
    requires Sane(c, banks[r][v.queues[r][slot][i].bank], now)
    requires v.queues[r][slot][i].kind != Refresh && |access'| == c.numBanks
    requires forall b :: 0 <= b < c.numBanks && b != v.queues[r][slot][i].bank ==> access'[b] == v.rowAccess[r][b]
    requires v.queues[r][slot][i].kind == Activate ==> access'[v.queues[r][slot][i].bank] == 0
    ensures InRange(Without(v.queues[r][slot], i, withAct), c.numBanks)
    ensures QueueOk(IssueTable(c, banks, v.queues[r][slot][i], now)[r], access', Without(v.queues[r][slot], i, withAct))
  {
    var p := v.queues[r][slot][i];
    assert Placed(c, v.queues[r][slot], r, slot);
    var row' := IssueTable(c, banks, p, now)[r];
    forall b | 0 <= b < c.numBanks && b != p.bank
      ensures Live(row'[b]) == Live(banks[r][b]) && row'[b].openRow == banks[r][b].openRow
    {
      IssueElsewhereKeepsBank(c, banks[r][b], p, r, b, now);
    }
    TakeKeepsQueue(c, v, banks, now, r, slot, i, withAct, row', access');
  }

  lemma CloseKeepsQueues(c: Config, v: QueueState, banks: Table, now: int, r: nat, b: nat)
    requires c.Valid() && QueueShape(c, v) && TableShape(c, banks)
    requires QueuesOk(c, banks, v)
    requires LegalClose(c, v, banks, now, r, b)
    ensures QueuesOk(c, IssueTable(c, banks, Packet(Precharge, 0, 0, 0, r, b), now),
            Removed(c, v, banks, now, Close(r, b)))
  {
    var p := Packet(Precharge, 0, 0, 0, r, b);
    var v' := Removed(c, v, banks, now, Close(r, b));
    var banks': Table := IssueTable(c, banks, p, now);
    forall a, l | 0 <= a < c.numRanks && 0 <= l < c.Slots()
      ensures Placed(c, v'.queues[a][l], a, l) && QueueOk(banks'[a], v'.rowAccess[a], v'.queues[a][l])
    {
      var q := v.queues[a][l];
      assert Placed(c, q, a, l) && QueueOk(banks[a], v.rowAccess[a], q);
      forall i | 0 <= i < |q| && Orphan(q, i) && a == r ensures q[i].bank != b {
        if l == c.Slot(b) {
          CloseStrandsNothing(c, v, banks, now, r, b, i);
        }
      }
      OtherQueueKept(c, v, banks, p, a, l, v'.rowAccess[a], now);
    }
    forall i, j | 0 <= i < c.numRanks && 0 <= j < c.numBanks ensures AccessOk(c, banks'[i][j], v'.rowAccess[i][j]) {
      IssueKeepsAccess(c, banks[i][j], p, i, j, now, v.rowAccess[i][j], v'.rowAccess[i][j]);
    }
  }

  lemma RefreshKeepsQueues(c: Config, v: QueueState, banks: Table, now: int, r: nat)
    requires c.Valid() && QueueShape(c, v) && TableShape(c, banks)
    requires QueuesOk(c, banks, v)
    requires LegalRefresh(c, v, banks, now, r)
    ensures QueuesOk(c, IssueTable(c, banks, Packet(Refresh, 0, 0, 0, r, 0), now),
            Removed(c, v, banks, now, RefreshAll(r)))
  {
    var p := Packet(Refresh, 0, 0, 0, r, 0);
    var banks': Table := IssueTable(c, banks, p, now);
    forall a, l | 0 <= a < c.numRanks && 0 <= l < c.Slots()
      ensures QueueOk(banks'[a], v.rowAccess[a], v.queues[a][l])
    {
      assert Placed(c, v.queues[a][l], a, l) && QueueOk(banks[a], v.rowAccess[a], v.queues[a][l]);
      OtherQueueKept(c, v, banks, p, a, l, v.rowAccess[a], now);
    }
    forall i, j | 0 <= i < c.numRanks && 0 <= j < c.numBanks ensures AccessOk(c, banks'[i][j], v.rowAccess[i][j]) {
      IssueKeepsAccess(c, banks[i][j], p, i, j, now, v.rowAccess[i][j], v.rowAccess[i][j]);
    }
  }

  /** The relation does not depend on the round-robin positions, the window counters or the refresh flags. */
  lemma QueuesOkFrame(c: Config, banks: Table, v: QueueState, v': QueueState)
    requires QueueShape(c, v) && QueueShape(c, v') && TableShape(c, banks) && QueuesOk(c, banks, v)
    requires v'.queues == v.queues && v'.rowAccess == v.rowAccess
    ensures QueuesOk(c, banks, v')
  {
  }

  lemma RemovedKeepsQueues(c: Config, v: QueueState, banks: Table, now: int, choice: Choice)
    requires c.Valid() && QueueShape(c, v) && TableShape(c, banks)
    requires QueuesOk(c, banks, v) && SaneTable(c, banks, now) && KindsOk(c, v)
    requires Legal(c, v, banks, now, choice)
    ensures var out := Chosen(c, v, banks, now, choice);
            QueuesOk(c, if out.Some? then IssueTable(c, banks, out.value, now) else banks,
                Removed(c, v, banks, now, choice))
  {
    hide IssueBank, QueueOk, AccessOk, LegalTake, LegalClose, LegalRefresh, Sane, KindOk;
    match choice
    case Nothing =>
    case Take(r, slot, i, withAct) => TakeKeepsQueues(c, v, banks, now, r, slot, i, withAct);
    case Close(r, b) => CloseKeepsQueues(c, v, banks, now, r, b);
    case RefreshAll(r) => RefreshKeepsQueues(c, v, banks, now, r);
  }

  /** Popping keeps every queue well formed, in all four modes. */
  lemma PopKeepsQueues(c: Config, v: QueueState, banks: Table, now: int)
    requires c.Valid() && QueueShape(c, v) && TableShape(c, banks)
    requires QueuesOk(c, banks, v) && SaneTable(c, banks, now) && KindsOk(c, v)
    ensures var (v', out) := Pop(c, v, banks, now);
            QueuesOk(c, if out.Some? then IssueTable(c, banks, out.value, now) else banks, v')
  {
    var v1 := Aged(c, v);
    QueuesOkFrame(c, banks, v, v1);
    hide QueuesOk, Decide, Removed, Chosen, IssueTable, Legal;
    var choice := DecisionOf(c, v, banks, now).choice;
    RemovedKeepsQueues(c, v1, banks, now, choice);
    var out := Chosen(c, v1, banks, now, choice);
    QueuesOkFrame(c, if out.Some? then IssueTable(c, banks, out.value, now) else banks,
                  Removed(c, v1, banks, now, choice), Pop(c, v, banks, now).0);
  }
}
