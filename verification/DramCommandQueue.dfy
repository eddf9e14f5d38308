/** The command queue object: `Pop` searches, erases and counts in place; it refines the function `DramQueue.Pop`. */
module DramCommandQueue {
  import opened Outcomes
  import opened DramTypes
  import opened DramQueue
  import DramControl

  // ---------------------------------------------------------------- what a choice does, apart from the window counters

  predicate Targets(c: Config, v: QueueState, choice: Choice)
    requires QueueShape(c, v)
  {
    match choice
    case Nothing => true
    case Take(r, slot, i, withAct) =>
      r < c.numRanks && slot < c.Slots() && i < |v.queues[r][slot]| && (withAct ==> i > 0)
      && v.queues[r][slot][i].rank == r && v.queues[r][slot][i].bank < c.numBanks
    case Close(r, b) => r < c.numRanks && b < c.numBanks
    case RefreshAll(r) => r < c.numRanks
  }

  function Output(c: Config, v: QueueState, choice: Choice): (p: Option<Packet>)
    requires QueueShape(c, v) && Targets(c, v, choice)
    ensures p.None? <==> choice == Nothing
  {
    match choice
    case Nothing => None
    case Take(r, slot, i, _) => Some(v.queues[r][slot][i])
    case Close(r, b) => Some(Packet(Precharge, 0, 0, 0, r, b))
    case RefreshAll(r) => Some(Packet(Refresh, 0, 0, 0, r, 0))
  }

  function Applied(c: Config, v: QueueState, choice: Choice): (v': QueueState)
    requires QueueShape(c, v) && Targets(c, v, choice)
    ensures v'.faw == v.faw && v'.sendAct == v.sendAct
    ensures v'.nextRank == v.nextRank && v'.nextBank == v.nextBank && v'.nextRankPre == v.nextRankPre
            && v'.nextBankPre == v.nextBankPre
    ensures choice == Nothing ==> v' == v
  {
    match choice
    case Nothing => v
    case Take(r, slot, i, withAct) =>
      var b := v.queues[r][slot][i].bank;
      v.(queues := Put(v.queues, r, slot, Without(v.queues[r][slot], i, withAct)),
         rowAccess := if withAct then Put(v.rowAccess, r, b, v.rowAccess[r][b] + 1) else v.rowAccess)
    case Close(r, b) => v.(rowAccess := Put(v.rowAccess, r, b, 0))
    case RefreshAll(r) => v.(refreshRank := NO_RANK, refreshWaiting := false)
  }

  /** The window counters once `out` has been sent. */
  function Opened(c: Config, faw: seq<seq<nat>>, out: Option<Packet>): seq<seq<nat>> {
    if out.Some? && out.value.kind == Activate && out.value.rank < |faw|
    then faw[out.value.rank := faw[out.value.rank] + [c.tFAW]] else faw
  }

  lemma LegalIsApplied(c: Config, v: QueueState, banks: Table, now: int, choice: Choice)
    requires QueueShape(c, v) && TableShape(c, banks) && c.Sized() && Legal(c, v, banks, now, choice)
    ensures Targets(c, v, choice)
    ensures Chosen(c, v, banks, now, choice) == Output(c, v, choice)
    ensures Removed(c, v, banks, now, choice) == Applied(c, v, choice).(faw := Opened(c, v.faw, Output(c, v, choice)))
  {
    if choice.Take? {
      assert Placed(c, v.queues[choice.rank][choice.slot], choice.rank, choice.slot);
    }
  }

  /** Where the round robin stands plays no part in what may be sent. */
  lemma {:induction false} FirstSelectableFrame(c: Config, v: QueueState, v': QueueState, banks: Table, now: int,
                                                q: seq<Packet>, i: nat, rank: nat, slot: nat)
    requires QueueShape(c, v) && QueueShape(c, v') && TableShape(c, banks) && rank < c.numRanks
             && Placed(c, q, rank, slot)
    requires v'.faw == v.faw && v'.rowAccess == v.rowAccess && i <= |q|
    ensures FirstSelectable(c, v, banks, now, q, i, rank, slot) == FirstSelectable(c, v', banks, now, q, i, rank, slot)
    decreases |q| - i
  {
    if i < |q| {
      assert Issuable(c, v, banks, now, q[i]) == Issuable(c, v', banks, now, q[i]);
      FirstSelectableFrame(c, v, v', banks, now, q, i + 1, rank, slot);
    }
  }

  /** One turn of the command scan. */
  lemma ScanQueuesStep(c: Config, v: QueueState, banks: Table, now: int, rank: nat, bank: nat)
    requires QueueShape(c, v) && TableShape(c, banks)
    requires rank < c.numRanks && bank < c.numBanks
    requires c.queuing == PerRank ==> bank == v.nextBank
    ensures rank < |v.queues| && c.Slot(bank) < c.Slots() == |v.queues[rank]|
    ensures var q := v.queues[rank][c.Slot(bank)];
            && Placed(c, q, rank, c.Slot(bank))
            && var i := if Eligible(v, rank) then FirstSelectable(c, v, banks, now, q, 0, rank, c.Slot(bank)) else |q|;
               var next := AdvanceScan(c, rank, bank);
               var r := ScanQueues(c, v, banks, now, rank, bank);
               && (i < |q| ==> r == (TakeAt(c, q, i, rank, c.Slot(bank)), rank, bank))
               && (i >= |q| ==> r == if next == (v.nextRank, v.nextBank) then (Nothing, next.0, next.1)
                                     else ScanQueues(c, v, banks, now, next.0, next.1))
  {
  }

  /** Taking `q[i]`, with the ACTIVATE in front of it if the row is open already. */
  function TakeAt(c: Config, q: seq<Packet>, i: nat, rank: nat, slot: nat): Choice
    requires i < |q|
  {
    Take(rank, slot, i, c.policy == OpenPage && i > 0 && q[i-1].kind == Activate)
  }

  /** One turn of the precharge scan. */
  lemma ScanPrechargeStep(c: Config, v: QueueState, banks: Table, now: int, rank: nat, bank: nat, stop: (nat, nat))
    requires QueueShape(c, v) && TableShape(c, banks)
    requires rank < c.numRanks && bank < c.numBanks && stop.0 < c.numRanks && stop.1 < c.numBanks
    ensures var next := Advance(c, rank, bank);
            var r := ScanPrecharge(c, v, banks, now, rank, bank, stop);
            && (Closable(c, v, banks, now, rank, bank) ==> r == (Close(rank, bank), rank, bank))
            && (!Closable(c, v, banks, now, rank, bank) ==>
                  r == if next == stop then (Nothing, next.0, next.1)
                      else ScanPrecharge(c, v, banks, now, next.0, next.1, stop))
  {
  }

  lemma {:induction false} ScanPrechargeFrame(c: Config, v: QueueState, v': QueueState, banks: Table, now: int,
                                              rank: nat, bank: nat, stop: (nat, nat))
    requires QueueShape(c, v) && QueueShape(c, v') && TableShape(c, banks)
    requires v'.queues == v.queues && v'.rowAccess == v.rowAccess
    requires rank < c.numRanks && bank < c.numBanks && stop.0 < c.numRanks && stop.1 < c.numBanks
    ensures ScanPrecharge(c, v', banks, now, rank, bank, stop) == ScanPrecharge(c, v, banks, now, rank, bank, stop)
    decreases Rounds(c, false, rank, bank, stop), Steps(c, false, rank, bank)
  {
    hide Closable;
    ClosableFrame(c, v, v', banks, now, rank, bank);
    AdvanceComesCloser(c, false, rank, bank, stop);
    var next := Advance(c, rank, bank);
    if !Closable(c, v, banks, now, rank, bank) && next != stop {
      ScanPrechargeFrame(c, v, v', banks, now, next.0, next.1, stop);
    }
  }

  lemma AppliedFrame(c: Config, v: QueueState, nextRank: nat, nextBank: nat, choice: Choice)
    requires QueueShape(c, v) && nextRank < c.numRanks && nextBank < c.numBanks
    ensures var v' := v.(nextRank := nextRank, nextBank := nextBank);
            && (Targets(c, v', choice) <==> Targets(c, v, choice))
            && (Targets(c, v, choice) ==>
                  && Output(c, v', choice) == Output(c, v, choice)
                  && Applied(c, v', choice) == Applied(c, v, choice).(nextRank := nextRank, nextBank := nextBank))
  {
  }

  lemma ClosableFrame(c: Config, v: QueueState, v': QueueState, banks: Table, now: int, rank: nat, bank: nat)
    requires QueueShape(c, v) && QueueShape(c, v') && TableShape(c, banks) && rank < c.numRanks && bank < c.numBanks
    requires v'.queues == v.queues && v'.rowAccess == v.rowAccess
    ensures Closable(c, v', banks, now, rank, bank) == Closable(c, v, banks, now, rank, bank)
  {
  }

  class CommandQueue {
    const c: Config
    var queues: seq<seq<seq<Packet>>>
    var nextRank: nat
    var nextBank: nat
    var nextRankPRE: nat
    var nextBankPRE: nat
    var refreshRank: nat
    var refreshWaiting: bool
    var tFAWCountdown: seq<seq<nat>>
    var rowAccessCounters: seq<seq<nat>>
    var sendAct: bool
    var currentClockCycle: int

    ghost predicate Valid()
      reads this
    {
      c.Sized() && QueueShape(c, View())
    }

    ghost function View(): QueueState
      reads this
    {
      QueueState(queues, nextRank, nextBank, nextRankPRE, nextBankPRE, refreshRank, refreshWaiting,
                 tFAWCountdown, rowAccessCounters, sendAct)
    }

    constructor (c: Config)
      requires c.Sized()
      ensures Valid() && this.c == c && currentClockCycle == 0
      ensures View() == DramControl.InitialQueue(c)
    {
      this.c := c;
      queues := seq(c.numRanks, _ => seq(c.Slots(), _ => []));
      nextRank, nextBank, nextRankPRE, nextBankPRE := 0, 0, 0, 0;
      refreshRank, refreshWaiting := 0, false;
      tFAWCountdown := seq(c.numRanks, _ => []);
      rowAccessCounters := seq(c.numRanks, _ => seq(c.numBanks, _ => 0));
      sendAct := true;
      currentClockCycle := 0;
    }

    /** Add a command at the end of its queue. */
    method Enqueue(p: Packet) returns (o: Outcome<Exit>)
      requires Valid() && p.rank < c.numRanks && p.bank < c.numBanks
      modifies this`queues
      ensures o.Pass? ==> Valid()
      ensures DramControl.Enqueue(c, old(View()), p) == Done(o, View())
    {
      var slot := c.Slot(p.bank);
      assert Placed(c, queues[p.rank][slot], p.rank, slot);
      queues := Put(queues, p.rank, slot, queues[p.rank][slot] + [p]);
      o := if |queues[p.rank][slot]| > c.commandDepth then Fail(QueueOverflow) else Pass;
    }

    /**
     * Whether `n` more commands fit in their queue; the subtraction is unsigned, and wraps if the queue is overfull.
     */
    method HasRoomFor(n: nat, rank: nat, bank: nat) returns (yes: bool)
      requires Valid() && rank < c.numRanks && bank < c.numBanks
      ensures yes == DramControl.HasRoomFor(c, View(), n, rank, bank)
      ensures var size := |queues[rank][c.Slot(bank)]|;
              size <= c.commandDepth < 0x1_0000_0000 ==> (yes <==> size + n <= c.commandDepth)
      ensures var size := |queues[rank][c.Slot(bank)]|;
              c.commandDepth < size <= 0x1_0000_0000 && n <= 0x1_0000_0000 ==> yes
    {
      yes := (c.commandDepth - |queues[rank][c.Slot(bank)]|) % 0x1_0000_0000_0000_0000 >= n;
    }

    /** No queue of the rank holds a command. */
    method IsEmpty(rank: nat) returns (yes: bool)
      requires Valid() && rank < c.numRanks
      ensures yes == DramControl.RankEmpty(c, View(), rank)
    {
      for slot := 0 to c.Slots()
        invariant forall s :: 0 <= s < slot ==> queues[rank][s] == []
      {
        if queues[rank][slot] != [] {
          return false;
        }
      }
      yes := true;
    }

    /** A refresh of `rank` is due; one that is still waiting is forgotten. */
    method NeedRefresh(rank: nat)
      requires Valid() && rank < c.numRanks
      modifies this`refreshWaiting, this`refreshRank
      ensures Valid() && View() == old(View()).(refreshWaiting := true, refreshRank := rank)
    {
      refreshWaiting := true;
      refreshRank := rank;
    }

    method Step()
      requires Valid()
      modifies this`currentClockCycle
      ensures Valid() && View() == old(View()) && currentClockCycle == old(currentClockCycle) + 1
    {
      currentClockCycle := currentClockCycle + 1;
    }

    /** The controller's test whether a queued command may go now. */
    method IsIssuable(banks: Table, p: Packet) returns (yes: bool)
      requires Valid() && TableShape(c, banks) && p.rank < c.numRanks && p.bank < c.numBanks
      ensures yes == Issuable(c, View(), banks, currentClockCycle, p)
    {
      var b := banks[p.rank][p.bank];
      match p.kind
      case Refresh => yes := false;
      case Activate =>
        yes := (b.status == Idle || b.status == Refreshing) && currentClockCycle >= b.nextActivate
            && |tFAWCountdown[p.rank]| < 4;
      case Write | WriteP =>
        yes := b.status == RowActive && currentClockCycle >= b.nextWrite && p.row == b.openRow &&
               rowAccessCounters[p.rank][p.bank] < c.totalRowAccesses;
      case Read | ReadP =>
        yes := b.status == RowActive && currentClockCycle >= b.nextRead && p.row == b.openRow &&
               rowAccessCounters[p.rank][p.bank] < c.totalRowAccesses;
      case Precharge =>
        yes := b.status == RowActive && currentClockCycle >= b.nextPrecharge;
      case Data => yes := true;
    }

    /** Count all activation windows down, and drop the oldest of each rank when it has run out. */
    method AgeWindows()
      requires Valid()
      modifies this`tFAWCountdown
      ensures Valid() && View() == Aged(c, old(View()))
    {
      for i := 0 to c.numRanks
        modifies this`tFAWCountdown
        invariant |tFAWCountdown| == c.numRanks
        invariant forall r :: 0 <= r < i ==> tFAWCountdown[r] == Age(old(tFAWCountdown)[r])
        invariant forall r :: i <= r < c.numRanks ==> tFAWCountdown[r] == old(tFAWCountdown)[r]
      {
        var window := tFAWCountdown[i];
        for j := 0 to |window|
          invariant |window| == |old(tFAWCountdown)[i]|
          invariant forall k :: 0 <= k < j ==> window[k] == Dec(old(tFAWCountdown)[i][k])
          invariant forall k :: j <= k < |window| ==> window[k] == old(tFAWCountdown)[i][k]
        {
          window := window[j := Dec(window[j])];
        }
        assert window == DecAll(old(tFAWCountdown)[i]);
        if |window| > 0 && window[0] == 0 {
          window := window[1..];
        }
        tFAWCountdown := tFAWCountdown[i := window];
      }
      assert tFAWCountdown == AgeAll(old(tFAWCountdown));
    }

    /** Send the oldest column command for the row that bank `bank` of the waiting rank holds open, or close the row. */
    method DrainOrClose(banks: Table, bank: nat) returns (out: Option<Packet>)
      requires Valid() && TableShape(c, banks) && refreshWaiting && bank < c.numBanks
      requires bank == FirstBusy(banks[refreshRank], currentClockCycle, 0)
               && banks[refreshRank][bank].status == RowActive
      modifies this`queues, this`rowAccessCounters
      ensures var v := old(View());
              var choice := ChooseForRefresh(c, v, banks, currentClockCycle);
              Targets(c, v, choice) && out == Output(c, v, choice) && View() == Applied(c, v, choice)
    {
      out := None;
      var slot := c.Slot(bank);
      var q := queues[refreshRank][slot];
      assert Placed(c, q, refreshRank, slot);
      var row := banks[refreshRank][bank].openRow;
      var j := 0;
      while j < |q| && !IsHit(c, q[j], bank, row)
        invariant j <= |q| && FirstHit(c, q, bank, row, 0) == FirstHit(c, q, bank, row, j)
      {
        j := j + 1;
      }
      if j < |q| && q[j].kind != Activate {
        var may := IsIssuable(banks, q[j]);
        if may {
          out := Some(q[j]);
          queues := Put(queues, refreshRank, slot, q[..j] + q[j+1..]);
        }
      } else if c.policy == OpenPage && currentClockCycle >= banks[refreshRank][bank].nextPrecharge {
        rowAccessCounters := Put(rowAccessCounters, refreshRank, bank, 0);
        out := Some(Packet(Precharge, 0, 0, 0, refreshRank, bank));
      }
    }

    /** While a refresh is waiting: get its rank idle, then send the refresh. */
    method PopForRefresh(banks: Table) returns (out: Option<Packet>)
      requires Valid() && TableShape(c, banks)
      modifies this`queues, this`rowAccessCounters, this`refreshRank, this`refreshWaiting
      ensures var v := old(View());
              var choice := ChooseForRefresh(c, v, banks, currentClockCycle);
              Targets(c, v, choice) && out == Output(c, v, choice) && View() == Applied(c, v, choice)
    {
      out := None;
      if refreshWaiting {
        var r := refreshRank;
        var i := 0;
        while i < c.numBanks && banks[r][i].status != RowActive && banks[r][i].nextActivate <= currentClockCycle
          invariant i <= c.numBanks
                    && FirstBusy(banks[r], currentClockCycle, 0) == FirstBusy(banks[r], currentClockCycle, i)
        {
          i := i + 1;
        }
        if i < c.numBanks {
          if banks[r][i].status == RowActive {
            out := DrainOrClose(banks, i);
          }
          return;
        }
        if banks[r][0].status != PowerDown {
          out := Some(Packet(Refresh, 0, 0, 0, r, 0));
          refreshRank := NO_RANK;
          refreshWaiting := false;
        }
      }
    }

    /** `q[i]` has to wait for an earlier command of its queue. */
    method MustWait(q: seq<Packet>, i: nat) returns (yes: bool)
      requires i < |q|
      ensures yes == Blocked(c, q, i)
    {
      if c.policy == ClosePage {
        yes := i > 0 && (c.queuing == PerRank ==>
                           q[i].kind != Data && q[i-1].kind == Activate && q[i-1].address == q[i].address);
      } else if q[i].kind == Data {
        yes := false;
      } else {
        yes := false;
        for j := 0 to i
          invariant !yes
          invariant forall k :: 0 <= k < j ==>
            !(q[k].kind != Activate && q[k].row == q[i].row && (c.queuing == PerRank ==> q[k].bank == q[i].bank))
        {
          if q[j].kind != Activate && q[j].row == q[i].row && (c.queuing == PerRank ==> q[j].bank == q[i].bank) {
            return true;
          }
        }
      }
    }

    /** The first command of one queue that may go; its length if there is none. */
    method FindFirst(banks: Table, rank: nat, slot: nat) returns (i: nat)
      requires Valid() && TableShape(c, banks) && rank < c.numRanks && slot < c.Slots()
      requires Placed(c, queues[rank][slot], rank, slot)
      ensures i == FirstSelectable(c, View(), banks, currentClockCycle, queues[rank][slot], 0, rank, slot)
    {
      var q := queues[rank][slot];
      i := 0;
      while i < |q|
        invariant i <= |q|
        invariant FirstSelectable(c, View(), banks, currentClockCycle, q, 0, rank, slot)
               == FirstSelectable(c, View(), banks, currentClockCycle, q, i, rank, slot)
      {
        var may := IsIssuable(banks, q[i]);
        if may {
          var wait := MustWait(q, i);
          if !wait {
            return;
          }
        }
        i := i + 1;
      }
    }

    /** Take a command out of its queue, with the ACTIVATE in front of it if that is now needless. */
    method TakeOut(rank: nat, slot: nat, i: nat) returns (p: Packet)
      requires Valid() && rank < c.numRanks && slot < c.Slots() && i < |queues[rank][slot]|
      requires Placed(c, queues[rank][slot], rank, slot)
      modifies this`queues, this`rowAccessCounters
      ensures var v := old(View());
              var choice := TakeAt(c, v.queues[rank][slot], i, rank, slot);
              Targets(c, v, choice) && p == v.queues[rank][slot][i] && View() == Applied(c, v, choice)
    {
      var q := queues[rank][slot];
      p := q[i];
      if c.policy == OpenPage && i > 0 && q[i-1].kind == Activate {
        rowAccessCounters := Put(rowAccessCounters, p.rank, p.bank, rowAccessCounters[p.rank][p.bank] + 1);
        queues := Put(queues, rank, slot, q[..i-1] + q[i+1..]);
      } else {
        queues := Put(queues, rank, slot, q[..i] + q[i+1..]);
      }
    }

    /** Look into the queue the round robin stands at, unless its rank waits for a refresh. */
    method FindHere(banks: Table, ghost v: QueueState) returns (i: Option<nat>)
      requires Valid() && TableShape(c, banks) && QueueShape(c, v)
      requires View() == v.(nextRank := nextRank, nextBank := nextBank)
      requires c.queuing == PerRank ==> nextBank == v.nextBank
      ensures var slot := c.Slot(nextBank);
              var next := AdvanceScan(c, nextRank, nextBank);
              var r := ScanQueues(c, v, banks, currentClockCycle, nextRank, nextBank);
              && (i.Some? ==> i.value < |queues[nextRank][slot]|
                              && r == (TakeAt(c, queues[nextRank][slot], i.value, nextRank, slot), nextRank, nextBank))
              && (i.None? ==> r == if next == (v.nextRank, v.nextBank) then (Nothing, next.0, next.1)
                                   else ScanQueues(c, v, banks, currentClockCycle, next.0, next.1))
    {
      hide ScanQueues, FirstSelectable, Issuable;
      var slot := c.Slot(nextBank);
      ScanQueuesStep(c, v, banks, currentClockCycle, nextRank, nextBank);
      i := None;
      if !(nextRank == refreshRank && refreshWaiting) {
        FirstSelectableFrame(c, v, View(), banks, currentClockCycle, queues[nextRank][slot], 0, nextRank, slot);
        var k := FindFirst(banks, nextRank, slot);
        if k < |queues[nextRank][slot]| {
          i := Some(k);
        }
      }
    }

    /** Go round the queues, from where the round robin stands, until one has something to send. */
    method FindQueue(banks: Table) returns (i: Option<nat>)
      requires Valid() && TableShape(c, banks)
      modifies this`nextRank, this`nextBank
      ensures Valid()
      ensures var v := old(View());
              var (choice, rank, bank) := ScanQueues(c, v, banks, currentClockCycle, v.nextRank, v.nextBank);
              && (nextRank, nextBank) == (rank, bank)
              && (i.Some? ==> i.value < |queues[rank][c.Slot(bank)]|
                              && choice == TakeAt(c, queues[rank][c.Slot(bank)], i.value, rank, c.Slot(bank)))
              && (i.None? ==> choice == Nothing)
    {
      hide ScanQueues, Placed, Rounds, Steps, Advance, TableShape;
      ghost var v := View();
      var startingRank, startingBank := nextRank, nextBank;
      while true
        invariant Valid()
        invariant c.queuing == PerRank ==> nextBank == startingBank
        invariant ScanQueues(c, v, banks, currentClockCycle, v.nextRank, v.nextBank)
               == ScanQueues(c, v, banks, currentClockCycle, nextRank, nextBank)
        decreases Rounds(c, c.queuing == PerRank, nextRank, nextBank, (startingRank, startingBank)),
                  Steps(c, c.queuing == PerRank, nextRank, nextBank)
      {
        i := FindHere(banks, v);
        if i.Some? {
          return;
        }
        AdvanceComesCloser(c, c.queuing == PerRank, nextRank, nextBank, (startingRank, startingBank));
        MoveScan();
        if nextRank == startingRank && nextBank == startingBank {
          return;
        }
      }
      i := None;
    }

    method ScanForCommand(banks: Table) returns (out: Option<Packet>)
      requires Valid() && TableShape(c, banks)
      modifies this`queues, this`rowAccessCounters, this`nextRank, this`nextBank
      ensures var v := old(View());
              var (choice, rank, bank) := ScanQueues(c, v, banks, currentClockCycle, v.nextRank, v.nextBank);
              && Targets(c, v, choice) && out == Output(c, v, choice)
              && View() == Applied(c, v, choice).(nextRank := rank, nextBank := bank)
    {
      ghost var v := View();
      hide ScanQueues, Put;
      var i := FindQueue(banks);
      if i.None? {
        return None;
      }
      var slot := c.Slot(nextBank);
      assert Placed(c, queues[nextRank][slot], nextRank, slot);
      AppliedFrame(c, v, nextRank, nextBank, TakeAt(c, queues[nextRank][slot], i.value, nextRank, slot));
      hide Placed, Without, TableShape;
      var p := TakeOut(nextRank, slot, i.value);
      out := Some(p);
    }

    /** The queue the scan looks at next: per-rank queues go round the ranks only. */
    method MoveScan()
      requires Valid()
      modifies this`nextRank, this`nextBank
      ensures Valid()
      ensures (nextRank, nextBank) == AdvanceScan(c, old(nextRank), old(nextBank))
    {
      if c.queuing == PerRank {
        nextRank := nextRank + 1;
        if nextRank == c.numRanks {
          nextRank := 0;
        }
      } else {
        MoveRoundRobin();
      }
    }

    /** One step of the round robin over all banks. */
    method MoveRoundRobin()
      requires nextRank < c.numRanks && nextBank < c.numBanks
      modifies this`nextRank, this`nextBank
      ensures (nextRank, nextBank) == Advance(c, old(nextRank), old(nextBank))
    {
      if c.scheduling == RankThenBank {
        nextRank := nextRank + 1;
        if nextRank == c.numRanks {
          nextRank := 0;
          nextBank := nextBank + 1;
          if nextBank == c.numBanks {
            nextBank := 0;
          }
        }
      } else {
        nextBank := nextBank + 1;
        if nextBank == c.numBanks {
          nextBank := 0;
          nextRank := nextRank + 1;
          if nextRank == c.numRanks {
            nextRank := 0;
          }
        }
      }
    }

    /** The same step for the precharge scan. */
    method MovePrechargeRoundRobin()
      requires nextRankPRE < c.numRanks && nextBankPRE < c.numBanks
      modifies this`nextRankPRE, this`nextBankPRE
      ensures (nextRankPRE, nextBankPRE) == Advance(c, old(nextRankPRE), old(nextBankPRE))
    {
      if c.scheduling == RankThenBank {
        nextRankPRE := nextRankPRE + 1;
        if nextRankPRE == c.numRanks {
          nextRankPRE := 0;
          nextBankPRE := nextBankPRE + 1;
          if nextBankPRE == c.numBanks {
            nextBankPRE := 0;
          }
        }
      } else {
        nextBankPRE := nextBankPRE + 1;
        if nextBankPRE == c.numBanks {
          nextBankPRE := 0;
          nextRankPRE := nextRankPRE + 1;
          if nextRankPRE == c.numRanks {
            nextRankPRE := 0;
          }
        }
      }
    }

    /** A row may be closed: nobody queued wants it, or it has been used up, and it has been open long enough. */
    method MayClose(banks: Table, rank: nat, bank: nat) returns (yes: bool)
      requires Valid() && TableShape(c, banks) && rank < c.numRanks && bank < c.numBanks
      ensures yes == Closable(c, View(), banks, currentClockCycle, rank, bank)
    {
      var b := banks[rank][bank];
      if b.status != RowActive {
        return false;
      }
      var q := queues[rank][c.Slot(bank)];
      var i := 0;
      while i < |q| && !IsHit(c, q[i], bank, b.openRow)
        invariant i <= |q| && FirstHit(c, q, bank, b.openRow, 0) == FirstHit(c, q, bank, b.openRow, i)
      {
        i := i + 1;
      }
      var found := i < |q|;
      yes := (!found || rowAccessCounters[rank][bank] == c.totalRowAccesses) && currentClockCycle >= b.nextPrecharge;
    }

    /** Open page only: go round the banks until one may be closed. */
    method ScanForPrecharge(banks: Table) returns (out: Option<Packet>)
      requires Valid() && TableShape(c, banks)
      modifies this`rowAccessCounters, this`nextRankPRE, this`nextBankPRE
      ensures var v := old(View());
              var (choice, rank, bank) :=
                  ScanPrecharge(c, v, banks, currentClockCycle, v.nextRankPre, v.nextBankPre, ScanStop(c, v));
              && Targets(c, v, choice) && out == Output(c, v, choice)
              && View() == Applied(c, v, choice).(nextRankPre := rank, nextBankPre := bank)
    {
      hide ScanPrecharge, Closable, Rounds, Steps, Advance, Placed;
      ghost var v := View();
      var startingRank, startingBank := nextRankPRE, nextBankPRE;
      if c.queuing == PerRankPerBank {
        // the per-bank mode keeps its start in two Booleans
        startingRank := if startingRank == 0 then 0 else 1;
        startingBank := if startingBank == 0 then 0 else 1;
      }
      while true
        modifies this`nextRankPRE, this`nextBankPRE
        invariant nextRankPRE < c.numRanks && nextBankPRE < c.numBanks
        invariant ScanPrecharge(c, v, banks, currentClockCycle, v.nextRankPre, v.nextBankPre, ScanStop(c, v))
               == ScanPrecharge(c, v, banks, currentClockCycle, nextRankPRE, nextBankPRE, ScanStop(c, v))
        decreases Rounds(c, false, nextRankPRE, nextBankPRE, (startingRank, startingBank)),
                  Steps(c, false, nextRankPRE, nextBankPRE)
      {
        ScanPrechargeStep(c, v, banks, currentClockCycle, nextRankPRE, nextBankPRE, (startingRank, startingBank));
        ClosableFrame(c, v, View(), banks, currentClockCycle, nextRankPRE, nextBankPRE);
        var may := MayClose(banks, nextRankPRE, nextBankPRE);
        if may {
          break;
        }
        AdvanceComesCloser(c, false, nextRankPRE, nextBankPRE, (startingRank, startingBank));
        MovePrechargeRoundRobin();
        if nextRankPRE == startingRank && nextBankPRE == startingBank {
          return None;
        }
      }
      rowAccessCounters := Put(rowAccessCounters, nextRankPRE, nextBankPRE, 0);
      out := Some(Packet(Precharge, 0, 0, 0, nextRankPRE, nextBankPRE));
    }

    /** After a command is sent, move on, except between an ACTIVATE and its posted column command. */
    method MoveOnAfterSend()
      requires Valid()
      modifies this`sendAct, this`nextRank, this`nextBank
      ensures Valid() && View() == MoveOn(c, old(View()))
    {
      if c.al > 0 && sendAct {
        sendAct := false;
      } else {
        sendAct := true;
        MoveRoundRobin();
      }
    }

    method OpenWindow(p: Packet)
      requires Valid() && p.rank < c.numRanks
      modifies this`tFAWCountdown
      ensures Valid() && View() == old(View()).(faw := Opened(c, old(View()).faw, Some(p)))
    {
      if p.kind == Activate {
        tFAWCountdown := tFAWCountdown[p.rank := tFAWCountdown[p.rank] + [c.tFAW]];
      }
    }

    /** Choose and remove a command, or a row to close, when there is no refresh traffic. */
    method SelectOrdinary(banks: Table) returns (out: Option<Packet>)
      requires Valid() && TableShape(c, banks)
      modifies this`queues, this`rowAccessCounters, this`nextRank, this`nextBank, this`nextRankPRE, this`nextBankPRE
      ensures var v := old(View());
              var d := DecideOrdinary(c, v, banks, currentClockCycle);
              && Targets(c, v, d.choice) && out == Output(c, v, d.choice)
              && View() == At(Applied(c, v, d.choice), d)
    {
      hide ScanQueues, ScanPrecharge, QueuePlaced, TableShape, Targets, Output, Applied;
      ghost var v := View();
      out := ScanForCommand(banks);
      if out.None? && c.policy == OpenPage {
        ghost var u := View();
        ScanPrechargeFrame(c, v, u, banks, currentClockCycle, u.nextRankPre, u.nextBankPre, ScanStop(c, u));
        out := ScanForPrecharge(banks);
        AppliedFrame(c, v, u.nextRank, u.nextBank,
            ScanPrecharge(c, u, banks, currentClockCycle, u.nextRankPre, u.nextBankPre, ScanStop(c, u)).0);
      }
    }

    /** Everything a pop does to choose and remove a command, before it moves on. */
    method Select(banks: Table) returns (out: Option<Packet>)
      requires Valid() && TableShape(c, banks)
      modifies this`queues, this`rowAccessCounters, this`refreshRank, this`refreshWaiting,
               this`nextRank, this`nextBank, this`nextRankPRE, this`nextBankPRE
      ensures var v := old(View());
              var d := Decide(c, v, banks, currentClockCycle);
              && Targets(c, v, d.choice) && out == Output(c, v, d.choice)
              && View() == At(Applied(c, v, d.choice), d)
    {
      hide ChooseForRefresh, DecideOrdinary, QueuePlaced, TableShape, Targets, Output, Applied;
      out := PopForRefresh(banks);
      if out.None? {
        out := SelectOrdinary(banks);
      }
    }

    /** Remove the next command according to the scheduling policy. */
    method Pop(banks: Table) returns (out: Option<Packet>)
      requires Valid() && TableShape(c, banks)
      modifies this
      ensures Valid() && currentClockCycle == old(currentClockCycle)
      ensures (View(), out) == DramQueue.Pop(c, old(View()), banks, currentClockCycle)
    {
      hide Decide, TableShape, Legal, Removed, Chosen, Targets, Output, Applied;
      AgeWindows();
      ghost var v := View();
      ghost var d := DecisionOf(c, old(View()), banks, currentClockCycle);
      LegalIsApplied(c, v, banks, currentClockCycle, d.choice);
      out := Select(banks);
      if out.Some? {
        MoveOnAfterSend();
        OpenWindow(out.value);
      }
    }
  }
}
