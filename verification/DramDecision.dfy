/** What a pop has to decide, said of the queues and the bank table alone, and that it does. */
module DramDecision {
  import opened Outcomes
  import opened DramTypes
  import opened DramQueue

  // ---------------------------------------------------------------- what could go

  /** A queued command whose time has come and that waits for no earlier one, in a rank that may be served. */
  predicate MayGo(c: Config, v: QueueState, banks: Table, now: int, r: nat, slot: nat, i: nat)
    requires QueueShape(c, v) && TableShape(c, banks)
    requires r < c.numRanks && slot < c.Slots() && i < |v.queues[r][slot]|
  {
    && !(v.refreshWaiting && r == v.refreshRank)
    && Issuable(c, v, banks, now, v.queues[r][slot][i]) && !MustWait(c, v.queues[r][slot], i)
  }

  /**
   * With closed pages a command waits for everything in its bank's queue, or, where the banks of a rank share a queue,
   * only for the ACTIVATE of its own transaction. With open pages a command waits for the column commands for its row.
   */
  predicate MustWait(c: Config, q: seq<Packet>, i: nat)
    requires i < |q|
  {
    match (c.policy, c.queuing)
    case (ClosePage, PerRankPerBank) => i != 0
    case (ClosePage, PerRank) =>
      q[i].kind != Data && i > 0 && q[i-1].kind == Activate && q[i-1].address == q[i].address
    case (OpenPage, PerRankPerBank) =>
      q[i].kind != Data && exists j :: 0 <= j < i && q[j].row == q[i].row && q[j].kind != Activate
    case (OpenPage, PerRank) =>
      && q[i].kind != Data
      && exists j :: 0 <= j < i && q[j].row == q[i].row && q[j].bank == q[i].bank && q[j].kind != Activate
  }

  lemma MustWaitIff(c: Config, q: seq<Packet>, i: nat)
    requires i < |q|
    ensures MustWait(c, q, i) <==> Blocked(c, q, i)
  {
  }

  predicate QueueIsStuck(c: Config, v: QueueState, banks: Table, now: int, r: nat, slot: nat)
    requires QueueShape(c, v) && TableShape(c, banks) && r < c.numRanks && slot < c.Slots()
  {
    forall i :: 0 <= i < |v.queues[r][slot]| ==> !MayGo(c, v, banks, now, r, slot, i)
  }

  predicate NothingMayGo(c: Config, v: QueueState, banks: Table, now: int)
    requires QueueShape(c, v) && TableShape(c, banks)
  {
    forall r, slot :: 0 <= r < c.numRanks && 0 <= slot < c.Slots() ==> QueueIsStuck(c, v, banks, now, r, slot)
  }

  /** A bank that holds a refresh of its rank up. */
  predicate HoldsUp(b: BankState, now: int) {
    b.status == RowActive || b.nextActivate > now
  }

  /** The waiting refresh may be sent: no bank of its rank holds it up, and the rank is awake. */
  predicate RefreshMayGo(c: Config, v: QueueState, banks: Table, now: int)
    requires QueueShape(c, v) && TableShape(c, banks) && c.Sized()
  {
    && v.refreshWaiting
    && (forall b :: 0 <= b < c.numBanks ==> !HoldsUp(banks[v.refreshRank][b], now))
    && banks[v.refreshRank][0].status != PowerDown
  }

  /** Bank `k` is the first that holds the waiting refresh up, and it has an open row. */
  predicate OpenInTheWay(c: Config, v: QueueState, banks: Table, now: int, k: nat)
    requires QueueShape(c, v) && TableShape(c, banks) && k < c.numBanks
  {
    && v.refreshWaiting && banks[v.refreshRank][k].status == RowActive
    && forall b :: 0 <= b < k ==> !HoldsUp(banks[v.refreshRank][b], now)
  }

  /** `q[j]` is the first command for the row that is open in bank `k`. */
  predicate FirstForRow(c: Config, q: seq<Packet>, j: nat, k: nat, row: nat) {
    && j < |q| && q[j].row == row && (c.queuing == PerRank ==> q[j].bank == k)
    && forall i :: 0 <= i < j ==> !(q[i].row == row && (c.queuing == PerRank ==> q[i].bank == k))
  }

  predicate NoneForRow(c: Config, q: seq<Packet>, k: nat, row: nat) {
    forall i :: 0 <= i < |q| ==> !(q[i].row == row && (c.queuing == PerRank ==> q[i].bank == k))
  }

  /** The use of an open row that the waiting refresh lets pass. */
  predicate DrainMayGo(c: Config, v: QueueState, banks: Table, now: int, k: nat, j: nat)
    requires QueueShape(c, v) && TableShape(c, banks) && k < c.numBanks
  {
    && OpenInTheWay(c, v, banks, now, k)
    && var q := v.queues[v.refreshRank][c.Slot(k)];
    && FirstForRow(c, q, j, k, banks[v.refreshRank][k].openRow)
    && q[j].kind != Activate && Issuable(c, v, banks, now, q[j])
  }

  /** An open row in the way of the waiting refresh, of which no column command is next, may be closed. */
  ghost predicate CloseForRefreshMayGo(c: Config, v: QueueState, banks: Table, now: int, k: nat)
    requires QueueShape(c, v) && TableShape(c, banks) && k < c.numBanks
  {
    && c.policy == OpenPage && OpenInTheWay(c, v, banks, now, k) && now >= banks[v.refreshRank][k].nextPrecharge
    && var q, row := v.queues[v.refreshRank][c.Slot(k)], banks[v.refreshRank][k].openRow;
    && forall j: nat :: FirstForRow(c, q, j, k, row) ==> q[j].kind == Activate
  }

  /** An open row that no queued command wants, or that has been used often enough, and whose time has come. */
  predicate CloseMayGo(c: Config, v: QueueState, banks: Table, now: int, r: nat, b: nat)
    requires QueueShape(c, v) && TableShape(c, banks) && r < c.numRanks && b < c.numBanks
  {
    && banks[r][b].status == RowActive && now >= banks[r][b].nextPrecharge
    && (NoneForRow(c, v.queues[r][c.Slot(b)], b, banks[r][b].openRow) || v.rowAccess[r][b] == c.totalRowAccesses)
  }

  // ---------------------------------------------------------------- whose turn it is

  /** Position (r, b) comes before (s, d) in the order of the round robin. */
  predicate Ahead(c: Config, x: (nat, nat), y: (nat, nat)) {
    if c.scheduling == RankThenBank then x.1 < y.1 || (x.1 == y.1 && x.0 < y.0)
    else x.0 < y.0 || (x.0 == y.0 && x.1 < y.1)
  }

  /** Going round from `start`, position `x` comes up before position `y`. */
  predicate Earlier(c: Config, start: (nat, nat), x: (nat, nat), y: (nat, nat)) {
    if Ahead(c, x, start) <==> Ahead(c, y, start) then Ahead(c, x, y) else Ahead(c, y, start)
  }

  predicate Position(c: Config, x: (nat, nat)) {
    x.0 < c.numRanks && x.1 < c.numBanks
  }

  /** Where a queue stands in the round robin; per-rank queues stand with the bank of the moment. */
  function Stand(c: Config, v: QueueState, r: nat, slot: nat): (nat, nat) {
    (r, if c.queuing == PerRank then v.nextBank else slot)
  }

  /** Going round from `x`, no position comes before `next`, and only if there is no other one it is `x` again. */
  ghost predicate ComesNext(c: Config, x: (nat, nat), next: (nat, nat)) {
    && Position(c, next)
    && (forall y: (nat, nat) :: Position(c, y) && y != x && y != next ==> !Earlier(c, x, y, next))
    && (next == x ==> forall y: (nat, nat) :: Position(c, y) ==> y == x)
  }

  /** Among the commands that may go, this is the first of its queue, and its queue the first that has one. */
  predicate FirstToGo(c: Config, v: QueueState, banks: Table, now: int, r: nat, slot: nat, i: nat)
    requires QueueShape(c, v) && TableShape(c, banks)
  {
    && r < c.numRanks && slot < c.Slots() && i < |v.queues[r][slot]| && MayGo(c, v, banks, now, r, slot, i)
    && (forall j :: 0 <= j < i ==> !MayGo(c, v, banks, now, r, slot, j))
    && forall s, d :: 0 <= s < c.numRanks && 0 <= d < c.Slots() &&
                      Earlier(c, (v.nextRank, v.nextBank), Stand(c, v, s, d), Stand(c, v, r, slot)) ==>
                        QueueIsStuck(c, v, banks, now, s, d)
  }

  /** Where the search for a row to close stops: with per-bank queues, at its start as two Booleans. */
  function CloseStop(c: Config, v: QueueState): (nat, nat) {
    if c.queuing == PerRank then (v.nextRankPre, v.nextBankPre)
    else (if v.nextRankPre > 0 then 1 else 0, if v.nextBankPre > 0 then 1 else 0)
  }

  /** The search for a row to close comes to this bank before it stops. */
  predicate InTurn(c: Config, v: QueueState, x: (nat, nat)) {
    !Earlier(c, CloseStop(c, v), x, (v.nextRankPre, v.nextBankPre))
  }

  /** The search for a row to close comes to position `x` before position `y`. */
  predicate SearchedBefore(c: Config, v: QueueState, x: (nat, nat), y: (nat, nat)) {
    InTurn(c, v, x) && Earlier(c, CloseStop(c, v), x, y)
  }

  predicate NoneToCloseBefore(c: Config, v: QueueState, banks: Table, now: int, y: (nat, nat))
    requires QueueShape(c, v) && TableShape(c, banks)
  {
    forall r, b :: 0 <= r < c.numRanks && 0 <= b < c.numBanks && SearchedBefore(c, v, (r, b), y) ==>
                     !CloseMayGo(c, v, banks, now, r, b)
  }

  predicate NoneToClose(c: Config, v: QueueState, banks: Table, now: int)
    requires QueueShape(c, v) && TableShape(c, banks)
  {
    forall r, b :: 0 <= r < c.numRanks && 0 <= b < c.numBanks && InTurn(c, v, (r, b)) ==>
                     !CloseMayGo(c, v, banks, now, r, b)
  }

  // ---------------------------------------------------------------- the right choice

  /** The waiting refresh has something sent. */
  ghost predicate RefreshTraffic(c: Config, v: QueueState, banks: Table, now: int)
    requires QueueShape(c, v) && TableShape(c, banks) && c.Sized()
  {
    || RefreshMayGo(c, v, banks, now)
    || (exists k: nat, j: nat :: k < c.numBanks && DrainMayGo(c, v, banks, now, k, j))
    || (exists k: nat :: k < c.numBanks && CloseForRefreshMayGo(c, v, banks, now, k))
  }

  /** An ACTIVATE in front of an open-page column command is thrown away with it. */
  predicate BehindActivate(c: Config, q: seq<Packet>, i: nat) {
    c.policy == OpenPage && 0 < i <= |q| && q[i-1].kind == Activate
  }

  /**
   * The refresh that waits comes first, then the uses of rows that are open in its rank and their closing, one bank
   * at a time; then the first command in turn of the other ranks; then the first row in turn that may be closed.
   */
  ghost predicate Right(c: Config, v: QueueState, banks: Table, now: int, choice: Choice)
    requires QueueShape(c, v) && TableShape(c, banks) && c.Sized()
  {
    match choice
    case RefreshAll(r) => r == v.refreshRank && RefreshMayGo(c, v, banks, now)
    case Take(r, slot, i, withAct) =>
      || (exists k: nat :: k < c.numBanks && DrainMayGo(c, v, banks, now, k, i)
                           && r == v.refreshRank && slot == c.Slot(k) && !withAct)
      || (&& !RefreshTraffic(c, v, banks, now) && FirstToGo(c, v, banks, now, r, slot, i)
          && withAct == BehindActivate(c, v.queues[r][slot], i))
    case Close(r, b) =>
      || (b < c.numBanks && r == v.refreshRank && CloseForRefreshMayGo(c, v, banks, now, b))
      || (&& !RefreshTraffic(c, v, banks, now) && NothingMayGo(c, v, banks, now) && c.policy == OpenPage
          && r < c.numRanks && b < c.numBanks && InTurn(c, v, (r, b)) && CloseMayGo(c, v, banks, now, r, b)
          && NoneToCloseBefore(c, v, banks, now, (r, b)))
    case Nothing =>
      && !RefreshTraffic(c, v, banks, now) && NothingMayGo(c, v, banks, now)
      && (c.policy == OpenPage ==> NoneToClose(c, v, banks, now))
  }

  // ---------------------------------------------------------------- the searches go round in order

  lemma NextInOrder(c: Config, start: (nat, nat), x: (nat, nat), next: (nat, nat), y: (nat, nat), ranksOnly: bool)
    requires Position(c, start) && Position(c, x) && Position(c, y)
    requires ranksOnly ==> c.queuing == PerRank && start.1 == x.1 == y.1
    requires next == if ranksOnly then AdvanceScan(c, x.0, x.1) else Advance(c, x.0, x.1)
    ensures next != start ==> (Earlier(c, start, y, next) <==> y == x || Earlier(c, start, y, x))
    ensures next == start ==> y == x || Earlier(c, start, y, x)
  {
  }

  lemma AdvanceComesNext(c: Config, x: (nat, nat))
    requires Position(c, x)
    ensures ComesNext(c, x, Advance(c, x.0, x.1))
  {
    var next := Advance(c, x.0, x.1);
    forall y: (nat, nat) | Position(c, y) && y != x && y != next ensures !Earlier(c, x, y, next) {
      NextInOrder(c, x, x, next, y, false);
    }
    if next == x {
      forall y: (nat, nat) | Position(c, y) ensures y == x {
        NextInOrder(c, x, x, next, y, false);
      }
    }
  }

  lemma StuckIff(c: Config, v: QueueState, banks: Table, now: int, r: nat, slot: nat)
    requires QueueShape(c, v) && TableShape(c, banks) && r < c.numRanks && slot < c.Slots()
    ensures Placed(c, v.queues[r][slot], r, slot)
    ensures var q := v.queues[r][slot];
            var i := FirstSelectable(c, v, banks, now, q, 0, r, slot);
            && (!Eligible(v, r) || i == |q| <==> QueueIsStuck(c, v, banks, now, r, slot))
            && (Eligible(v, r) && i < |q| ==>
                  MayGo(c, v, banks, now, r, slot, i) && forall j :: 0 <= j < i ==>
                                                           !MayGo(c, v, banks, now, r, slot, j))
  {
    hide Issuable, Blocked, MustWait;
    var q := v.queues[r][slot];
    assert Placed(c, q, r, slot);
    forall j | 0 <= j < |q| ensures MustWait(c, q, j) <==> Blocked(c, q, j) {
      MustWaitIff(c, q, j);
    }
    var i := FirstSelectable(c, v, banks, now, q, 0, r, slot);
    forall j | 0 <= j < i ensures !MayGo(c, v, banks, now, r, slot, j) {
      assert !Selectable(c, v, banks, now, q, j, r, slot);
    }
    if Eligible(v, r) && i < |q| {
      assert MayGo(c, v, banks, now, r, slot, i);
    }
  }

  /** What the search over the queues finds, from position (rank, bank) on. */
  lemma {:induction false} ScanFinds(c: Config, v: QueueState, banks: Table, now: int, rank: nat, bank: nat)
    requires QueueShape(c, v) && TableShape(c, banks)
    requires rank < c.numRanks && bank < c.numBanks
    requires c.queuing == PerRank ==> bank == v.nextBank
    ensures var start, (choice, r', b') := (v.nextRank, v.nextBank), ScanQueues(c, v, banks, now, rank, bank);
            && (choice.Nothing? ==>
                  && (r', b') == start
                  && forall s, d :: 0 <= s < c.numRanks && 0 <= d < c.Slots() &&
                                    !Earlier(c, start, Stand(c, v, s, d), (rank, bank)) ==>
                                      QueueIsStuck(c, v, banks, now, s, d))
            && (choice.Take? ==>
                  && choice.rank < c.numRanks && choice.slot < c.Slots()
                  && choice.index < |v.queues[choice.rank][choice.slot]|
                  && (r', b') == Stand(c, v, choice.rank, choice.slot)
                  && choice.withAct == BehindActivate(c, v.queues[choice.rank][choice.slot], choice.index)
                  && MayGo(c, v, banks, now, choice.rank, choice.slot, choice.index)
                  && (forall j :: 0 <= j < choice.index ==> !MayGo(c, v, banks, now, choice.rank, choice.slot, j))
                  && forall s, d :: 0 <= s < c.numRanks && 0 <= d < c.Slots() &&
                                    !Earlier(c, start, Stand(c, v, s, d), (rank, bank)) &&
                                    Earlier(c, start, Stand(c, v, s, d), (r', b')) ==>
                                      QueueIsStuck(c, v, banks, now, s, d))
    decreases Rounds(c, c.queuing == PerRank, rank, bank, (v.nextRank, v.nextBank)),
              Steps(c, c.queuing == PerRank, rank, bank)
  {
    assert v.nextRank < c.numRanks && v.nextBank < c.numBanks;
    hide QueueIsStuck, MayGo, FirstSelectable, QueueShape, TableShape;
    var start, slot := (v.nextRank, v.nextBank), c.Slot(bank);
    StuckIff(c, v, banks, now, rank, slot);
    var next := AdvanceScan(c, rank, bank);
    AdvanceComesCloser(c, c.queuing == PerRank, rank, bank, start);
    forall s, d | 0 <= s < c.numRanks && 0 <= d < c.Slots()
      ensures next != start ==> (Earlier(c, start, Stand(c, v, s, d), next) <==>
                                   (s == rank && d == slot) || Earlier(c, start, Stand(c, v, s, d), (rank, bank)))
      ensures next == start ==> (s == rank && d == slot) || Earlier(c, start, Stand(c, v, s, d), (rank, bank))
    {
      NextInOrder(c, start, (rank, bank), next, Stand(c, v, s, d), c.queuing == PerRank);
    }
    if QueueIsStuck(c, v, banks, now, rank, slot) && next != start {
      ScanFinds(c, v, banks, now, next.0, next.1);
    }
  }

  lemma ClosableIff(c: Config, v: QueueState, banks: Table, now: int, r: nat, b: nat)
    requires QueueShape(c, v) && TableShape(c, banks) && r < c.numRanks && b < c.numBanks
    ensures Closable(c, v, banks, now, r, b) <==> CloseMayGo(c, v, banks, now, r, b)
  {
    var q, row := v.queues[r][c.Slot(b)], banks[r][b].openRow;
    var i := FirstHit(c, q, b, row, 0);
    assert forall j :: 0 <= j < i ==> !IsHit(c, q[j], b, row);
    if i < |q| {
      assert IsHit(c, q[i], b, row);
    }
  }

  /** What the search for a row to close finds, from position (rank, bank) on. */
  lemma {:induction false} PrechargeFinds(c: Config, v: QueueState, banks: Table, now: int, rank: nat, bank: nat)
    requires QueueShape(c, v) && TableShape(c, banks)
    requires rank < c.numRanks && bank < c.numBanks
    ensures CloseStop(c, v) == ScanStop(c, v) && Position(c, CloseStop(c, v))
    ensures var stop, (choice, r', b') := CloseStop(c, v), ScanPrecharge(c, v, banks, now, rank, bank, CloseStop(c, v));
            && (choice == Nothing || (choice == Close(r', b') && Position(c, (r', b'))))
            && (choice == Nothing ==>
                  && (r', b') == stop
                  && forall r, b :: 0 <= r < c.numRanks && 0 <= b < c.numBanks &&
                                    !Earlier(c, stop, (r, b), (rank, bank)) ==>
                                      !CloseMayGo(c, v, banks, now, r, b))
            && (choice.Close? ==>
                  && CloseMayGo(c, v, banks, now, r', b') && !Earlier(c, stop, (r', b'), (rank, bank))
                  && forall r, b :: 0 <= r < c.numRanks && 0 <= b < c.numBanks &&
                                    !Earlier(c, stop, (r, b), (rank, bank)) && Earlier(c, stop, (r, b), (r', b')) ==>
                                      !CloseMayGo(c, v, banks, now, r, b))
    decreases Rounds(c, false, rank, bank, ScanStop(c, v)), Steps(c, false, rank, bank)
  {
    assert v.nextRankPre < c.numRanks && v.nextBankPre < c.numBanks;
    hide CloseMayGo, Closable, QueueShape, TableShape;
    var stop := CloseStop(c, v);
    ClosableIff(c, v, banks, now, rank, bank);
    var next := Advance(c, rank, bank);
    AdvanceComesCloser(c, false, rank, bank, stop);
    forall r, b | 0 <= r < c.numRanks && 0 <= b < c.numBanks
      ensures next != stop ==> (Earlier(c, stop, (r, b), next) <==>
                                  (r, b) == (rank, bank) || Earlier(c, stop, (r, b), (rank, bank)))
      ensures next == stop ==> (r, b) == (rank, bank) || Earlier(c, stop, (r, b), (rank, bank))
    {
      NextInOrder(c, stop, (rank, bank), next, (r, b), false);
    }
    if !CloseMayGo(c, v, banks, now, rank, bank) && next != stop {
      PrechargeFinds(c, v, banks, now, next.0, next.1);
    }
  }

  // ---------------------------------------------------------------- the refresh that waits

  lemma BusyIff(c: Config, v: QueueState, banks: Table, now: int)
    requires QueueShape(c, v) && TableShape(c, banks) && v.refreshWaiting
    ensures var row, i := banks[v.refreshRank], FirstBusy(banks[v.refreshRank], now, 0);
            && i <= c.numBanks && (forall b :: 0 <= b < i ==> !HoldsUp(row[b], now))
            && (i < c.numBanks ==> HoldsUp(row[i], now))
            && forall k: nat :: k < c.numBanks && OpenInTheWay(c, v, banks, now, k) <==>
                                  k == i && i < c.numBanks && row[i].status == RowActive
  {
    var row, i := banks[v.refreshRank], FirstBusy(banks[v.refreshRank], now, 0);
    assert forall b :: 0 <= b < i ==> row[b].status != RowActive && row[b].nextActivate <= now;
    forall k: nat ensures k < c.numBanks && OpenInTheWay(c, v, banks, now, k) <==>
                            k == i && i < c.numBanks && row[i].status == RowActive
    {
      if k < c.numBanks && OpenInTheWay(c, v, banks, now, k) && i < k {
        assert HoldsUp(row[i], now);
      }
    }
  }

  lemma FirstHitIff(c: Config, q: seq<Packet>, k: nat, row: nat)
    ensures var j := FirstHit(c, q, k, row, 0);
            && (j < |q| ==> FirstForRow(c, q, j, k, row))
            && forall m: nat :: FirstForRow(c, q, m, k, row) ==> m == j
  {
    var j := FirstHit(c, q, k, row, 0);
    assert forall i :: 0 <= i < j ==> !IsHit(c, q[i], k, row);
    forall m: nat | FirstForRow(c, q, m, k, row) ensures m == j {
      assert IsHit(c, q[m], k, row);
    }
  }

  /** What is sent for a waiting refresh is what may be sent for it. */
  lemma RefreshChoiceIsRight(c: Config, v: QueueState, banks: Table, now: int)
    requires QueueShape(c, v) && TableShape(c, banks) && c.Sized()
    ensures var choice, R := ChooseForRefresh(c, v, banks, now), v.refreshRank;
            && (choice == Nothing <==> !RefreshTraffic(c, v, banks, now))
            && (choice.RefreshAll? ==> choice.rank == R && RefreshMayGo(c, v, banks, now))
            && (choice.Take? ==> exists k: nat :: k < c.numBanks && DrainMayGo(c, v, banks, now, k, choice.index)
                                                  && choice == Take(R, c.Slot(k), choice.index, false))
            && (choice.Close? ==> choice.rank == R && choice.bank < c.numBanks
                                  && CloseForRefreshMayGo(c, v, banks, now, choice.bank))
  {
    if v.refreshWaiting {
      var R, row := v.refreshRank, banks[v.refreshRank];
      BusyIff(c, v, banks, now);
      var i := FirstBusy(row, now, 0);
      if i < c.numBanks && row[i].status == RowActive {
        var q := v.queues[R][c.Slot(i)];
        FirstHitIff(c, q, i, row[i].openRow);
        OpenChoiceIsRight(c, v, banks, now, i);
      } else {
        hide Issuable, FirstForRow;
        assert forall k: nat :: k < c.numBanks ==> !OpenInTheWay(c, v, banks, now, k);
      }
    }
  }

  lemma OpenChoiceIsRight(c: Config, v: QueueState, banks: Table, now: int, i: nat)
    requires QueueShape(c, v) && TableShape(c, banks) && c.Sized() && i < c.numBanks
    requires OpenInTheWay(c, v, banks, now, i) && i == FirstBusy(banks[v.refreshRank], now, 0)
    ensures var choice, R := ChooseForRefresh(c, v, banks, now), v.refreshRank;
            && (choice == Nothing <==> !RefreshTraffic(c, v, banks, now))
            && (choice == Nothing || (choice.Take? && DrainMayGo(c, v, banks, now, i, choice.index)
                                      && choice == Take(R, c.Slot(i), choice.index, false))
                || (choice == Close(R, i) && CloseForRefreshMayGo(c, v, banks, now, i)))
  {
    var q, row := v.queues[v.refreshRank][c.Slot(i)], banks[v.refreshRank][i].openRow;
    var j := FirstHit(c, q, i, row, 0);
    BusyIff(c, v, banks, now);
    FirstHitIff(c, q, i, row);
    hide Issuable, FirstForRow, OpenInTheWay;
    assert !RefreshMayGo(c, v, banks, now) by {
      assert HoldsUp(banks[v.refreshRank][i], now);
    }
    if j < |q| && q[j].kind != Activate {
      assert forall k: nat :: k < c.numBanks ==> !CloseForRefreshMayGo(c, v, banks, now, k);
      assert Issuable(c, v, banks, now, q[j]) ==> DrainMayGo(c, v, banks, now, i, j);
    } else {
      assert forall k: nat, m: nat :: k < c.numBanks ==> !DrainMayGo(c, v, banks, now, k, m);
      assert c.policy == OpenPage && now >= banks[v.refreshRank][i].nextPrecharge ==>
          CloseForRefreshMayGo(c, v, banks, now, i);
    }
  }

  // ---------------------------------------------------------------- the theorems

  /** Whatever may be sent is sent, in the order of its precedence and its turn, and nothing else. */
  lemma DecisionIsRight(c: Config, v: QueueState, banks: Table, now: int)
    requires QueueShape(c, v) && TableShape(c, banks) && c.Sized()
    ensures Right(c, v, banks, now, Decide(c, v, banks, now).choice)
  {
    hide Issuable, MustWait, MayGo, QueueIsStuck, CloseMayGo, ChooseForRefresh, ScanQueues, ScanPrecharge, RefreshMayGo,
         DrainMayGo, CloseForRefreshMayGo, RefreshTraffic;
    RefreshChoiceIsRight(c, v, banks, now);
    ScanFinds(c, v, banks, now, v.nextRank, v.nextBank);
    PrechargeFinds(c, v, banks, now, v.nextRankPre, v.nextBankPre);
  }

  lemma OneIsFirstToGo(c: Config, v: QueueState, banks: Table, now: int,
                       r: nat, slot: nat, i: nat, s: nat, d: nat, j: nat)
    requires QueueShape(c, v) && TableShape(c, banks)
    requires FirstToGo(c, v, banks, now, r, slot, i) && FirstToGo(c, v, banks, now, s, d, j)
    ensures r == s && slot == d && i == j
  {
    hide Issuable, MustWait, QueueShape, TableShape;
    var x, y, start := Stand(c, v, r, slot), Stand(c, v, s, d), (v.nextRank, v.nextBank);
    assert !QueueIsStuck(c, v, banks, now, r, slot) && !QueueIsStuck(c, v, banks, now, s, d);
    assert x == y || Earlier(c, start, x, y) || Earlier(c, start, y, x);
  }

  lemma OneIsFirstToClose(c: Config, v: QueueState, banks: Table, now: int, x: (nat, nat), y: (nat, nat))
    requires QueueShape(c, v) && TableShape(c, banks) && Position(c, x) && Position(c, y)
    requires InTurn(c, v, x) && CloseMayGo(c, v, banks, now, x.0, x.1) && NoneToCloseBefore(c, v, banks, now, x)
    requires InTurn(c, v, y) && CloseMayGo(c, v, banks, now, y.0, y.1) && NoneToCloseBefore(c, v, banks, now, y)
    ensures x == y
  {
    hide CloseMayGo, QueueShape, TableShape;
    var stop := CloseStop(c, v);
    assert x == y || Earlier(c, stop, x, y) || Earlier(c, stop, y, x);
  }

  lemma OneInTheWay(c: Config, v: QueueState, banks: Table, now: int, k: nat, l: nat)
    requires QueueShape(c, v) && TableShape(c, banks) && k < c.numBanks && l < c.numBanks
    requires OpenInTheWay(c, v, banks, now, k) && OpenInTheWay(c, v, banks, now, l)
    ensures k == l
  {
    assert HoldsUp(banks[v.refreshRank][k], now) && HoldsUp(banks[v.refreshRank][l], now);
  }

  /** What is sent for a waiting refresh is never a matter of choice. */
  lemma OneForRefresh(c: Config, v: QueueState, banks: Table, now: int, k: nat, i: nat, l: nat, j: nat)
    requires QueueShape(c, v) && TableShape(c, banks) && c.Sized() && k < c.numBanks && l < c.numBanks
    ensures OpenInTheWay(c, v, banks, now, k) ==> !RefreshMayGo(c, v, banks, now)
    ensures DrainMayGo(c, v, banks, now, k, i) && DrainMayGo(c, v, banks, now, l, j) ==> k == l && i == j
    ensures !(DrainMayGo(c, v, banks, now, k, i) && CloseForRefreshMayGo(c, v, banks, now, l))
    ensures CloseForRefreshMayGo(c, v, banks, now, k) && CloseForRefreshMayGo(c, v, banks, now, l) ==> k == l
  {
    if OpenInTheWay(c, v, banks, now, k) {
      assert HoldsUp(banks[v.refreshRank][k], now);
      if OpenInTheWay(c, v, banks, now, l) {
        OneInTheWay(c, v, banks, now, k, l);
        FirstHitIff(c, v.queues[v.refreshRank][c.Slot(k)], k, banks[v.refreshRank][k].openRow);
      }
    }
  }

  lemma OneForRefreshTraffic(c: Config, v: QueueState, banks: Table, now: int, x: Choice, y: Choice)
    requires QueueShape(c, v) && TableShape(c, banks) && c.Sized() && RefreshTraffic(c, v, banks, now)
    requires Right(c, v, banks, now, x) && Right(c, v, banks, now, y)
    ensures x == y
  {
    hide OpenInTheWay, FirstForRow, FirstToGo, CloseMayGo, InTurn, NoneToCloseBefore, QueueShape, TableShape;
    hide RefreshMayGo, RefreshTraffic, NoneToClose, NothingMayGo;
    var k, l := BankFor(c, v, banks, now, x), BankFor(c, v, banks, now, y);
    var i, j := if x.Take? then x.index else 0, if y.Take? then y.index else 0;
    OneForRefresh(c, v, banks, now, k, i, l, j);
    OneForRefresh(c, v, banks, now, l, j, k, i);
  }

  /** The bank that a choice made for a waiting refresh is about. */
  ghost function BankFor(c: Config, v: QueueState, banks: Table, now: int, x: Choice): (k: nat)
    requires QueueShape(c, v) && TableShape(c, banks) && c.Sized() && RefreshTraffic(c, v, banks, now)
    requires Right(c, v, banks, now, x)
    ensures k < c.numBanks
    ensures x.Take? ==> DrainMayGo(c, v, banks, now, k, x.index) && x == Take(v.refreshRank, c.Slot(k), x.index, false)
    ensures x.Close? ==> CloseForRefreshMayGo(c, v, banks, now, k) && x == Close(v.refreshRank, k)
  {
    if x.Take? then
      var k: nat :| k < c.numBanks && DrainMayGo(c, v, banks, now, k, x.index)
                    && x.rank == v.refreshRank && x.slot == c.Slot(k) && !x.withAct;
      k
    else if x.Close? then x.bank
    else 0
  }

  lemma NotBoth(c: Config, v: QueueState, banks: Table, now: int, x: Choice, y: Choice)
    requires QueueShape(c, v) && TableShape(c, banks) && c.Sized() && !RefreshTraffic(c, v, banks, now)
    requires Right(c, v, banks, now, x) && Right(c, v, banks, now, y)
    ensures !x.RefreshAll? && (x.Take? ==> y.Take?) && (x.Close? ==> !y.Nothing?)
  {
    hide MayGo, CloseMayGo, InTurn, Earlier, QueueShape, TableShape;
    if x.Take? {
      assert !QueueIsStuck(c, v, banks, now, x.rank, x.slot);
    }
  }

  /** That fixes the choice. */
  lemma OneChoiceIsRight(c: Config, v: QueueState, banks: Table, now: int, x: Choice, y: Choice)
    requires QueueShape(c, v) && TableShape(c, banks) && c.Sized()
    requires Right(c, v, banks, now, x) && Right(c, v, banks, now, y)
    ensures x == y
  {
    hide OpenInTheWay, FirstToGo, CloseMayGo, InTurn, NoneToCloseBefore, QueueShape, TableShape;
    if RefreshTraffic(c, v, banks, now) {
      OneForRefreshTraffic(c, v, banks, now, x, y);
    } else if x.Take? && y.Take? {
      OneIsFirstToGo(c, v, banks, now, x.rank, x.slot, x.index, y.rank, y.slot, y.index);
    } else if x.Close? && y.Close? {
      OneIsFirstToClose(c, v, banks, now, (x.rank, x.bank), (y.rank, y.bank));
    } else {
      NotBoth(c, v, banks, now, x, y);
      NotBoth(c, v, banks, now, y, x);
    }
  }

  // ---------------------------------------------------------------- the pop

  /** The command a choice stands for. */
  predicate Sends(c: Config, v: QueueState, choice: Choice, out: Option<Packet>) {
    match choice
    case Nothing => out == None
    case Take(r, slot, i, _) =>
      r < |v.queues| && slot < |v.queues[r]| && i < |v.queues[r][slot]| && out == Some(v.queues[r][slot][i])
    case Close(r, b) => out == Some(Packet(Precharge, 0, 0, 0, r, b))
    case RefreshAll(r) => out == Some(Packet(Refresh, 0, 0, 0, r, 0))
  }

  /** What else the queue remembers: only a REFRESH sent ends the wait for it. */
  predicate Waits(v: QueueState, choice: Choice, v': QueueState) {
    if choice.RefreshAll? then !v'.refreshWaiting
    else v'.refreshWaiting == v.refreshWaiting && v'.refreshRank == v.refreshRank
  }

  /** The queue a command was found in by the ordinary search, or where that search stands. */
  function FoundAt(c: Config, v: QueueState, choice: Choice, forRefresh: bool): (nat, nat) {
    if choice.Take? && !forRefresh then Stand(c, v, choice.rank, choice.slot) else (v.nextRank, v.nextBank)
  }

  /**
   * The round robins. After a command the one over the queues goes one on from where it was found, except, with posted
   * column commands, every other time; the one over the banks stays where it closed a row, or where it stopped.
   */
  ghost predicate Turns(c: Config, v: QueueState, choice: Choice, forRefresh: bool, v': QueueState) {
    && (if choice == Nothing then (v'.nextRank, v'.nextBank) == (v.nextRank, v.nextBank) && v'.sendAct == v.sendAct
        else if c.al > 0 && v.sendAct
            then (v'.nextRank, v'.nextBank) == FoundAt(c, v, choice, forRefresh) && !v'.sendAct
        else ComesNext(c, FoundAt(c, v, choice, forRefresh), (v'.nextRank, v'.nextBank)) && v'.sendAct)
    && (v'.nextRankPre, v'.nextBankPre) ==
         if forRefresh || choice.Take? || c.policy == ClosePage then (v.nextRankPre, v.nextBankPre)
         else if choice.Close? then (choice.rank, choice.bank)
         else CloseStop(c, v)
  }

  lemma RemovalTurnsNothing(c: Config, v: QueueState, banks: Table, now: int, choice: Choice)
    requires QueueShape(c, v) && TableShape(c, banks) && c.Sized() && Legal(c, v, banks, now, choice)
    ensures var w := Removed(c, v, banks, now, choice);
            && Sends(c, v, choice, Chosen(c, v, banks, now, choice)) && Waits(v, choice, w)
            && w.nextRank == v.nextRank && w.nextBank == v.nextBank && w.sendAct == v.sendAct
            && w.nextRankPre == v.nextRankPre && w.nextBankPre == v.nextBankPre
  {
    hide LegalScan, LegalDrain, LegalClose, LegalRefresh, Without, Put;
  }

  /** A pop makes the right choice, sends it, and moves the round robins. */
  lemma PopIsRight(c: Config, v: QueueState, banks: Table, now: int) returns (choice: Choice)
    requires QueueShape(c, v) && TableShape(c, banks) && c.Sized()
    ensures var a, (v', out) := Aged(c, v), Pop(c, v, banks, now);
            && Right(c, a, banks, now, choice) && Sends(c, a, choice, out) && Waits(a, choice, v')
            && Turns(c, a, choice, RefreshTraffic(c, a, banks, now), v')
  {
    hide Right, Decide, RefreshTraffic, Earlier, Legal, Removed, Chosen, Sends, ComesNext, QueueShape, TableShape,
         Advance;
    var a, d := Aged(c, v), DecisionOf(c, v, banks, now);
    choice := d.choice;
    TurnsAreRight(c, a, banks, now);
    DecisionIsRight(c, a, banks, now);
    RemovalTurnsNothing(c, a, banks, now, choice);
    AdvanceComesNext(c, (d.nextRank, d.nextBank));
  }

  lemma TurnsAreRight(c: Config, v: QueueState, banks: Table, now: int)
    requires QueueShape(c, v) && TableShape(c, banks) && c.Sized()
    ensures var d, forRefresh := Decide(c, v, banks, now), RefreshTraffic(c, v, banks, now);
            && (d.nextRank, d.nextBank) == FoundAt(c, v, d.choice, forRefresh)
            && (d.nextRankPre, d.nextBankPre) ==
                 if forRefresh || d.choice.Take? || c.policy == ClosePage then (v.nextRankPre, v.nextBankPre)
                 else if d.choice.Close? then (d.choice.rank, d.choice.bank)
                 else CloseStop(c, v)
  {
    hide Issuable, MustWait, MayGo, QueueIsStuck, CloseMayGo, ChooseForRefresh, ScanQueues, ScanPrecharge, RefreshMayGo,
         DrainMayGo, CloseForRefreshMayGo, RefreshTraffic;
    RefreshChoiceIsRight(c, v, banks, now);
    ScanFinds(c, v, banks, now, v.nextRank, v.nextBank);
    PrechargeFinds(c, v, banks, now, v.nextRankPre, v.nextBankPre);
  }

  /** A waiting refresh that may go is sent. */
  lemma ReadyRefreshIsSent(c: Config, v: QueueState, banks: Table, now: int)
    requires QueueShape(c, v) && TableShape(c, banks) && c.Sized() && RefreshMayGo(c, v, banks, now)
    ensures Pop(c, v, banks, now).1 == Some(Packet(Refresh, 0, 0, 0, v.refreshRank, 0))
  {
    var choice := PopIsRight(c, v, banks, now);
    hide Pop, FirstToGo, OpenInTheWay, NothingMayGo;
    assert RefreshMayGo(c, Aged(c, v), banks, now);
    assert Right(c, Aged(c, v), banks, now, RefreshAll(v.refreshRank));
    OneChoiceIsRight(c, Aged(c, v), banks, now, choice, RefreshAll(v.refreshRank));
  }
}
