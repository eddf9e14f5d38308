/** The second half of a cycle, and the theorems about whole runs of the memory system. */
module DramRuns {
  import opened Outcomes
  import opened AddressMap
  import opened DramTypes
  import opened DramControl
  import opened DramTiming
  import opened DramBus
  import opened DramOrder
  import opened DramHistory
  import opened DramUses
  import opened DramRefresh
  import opened DramReads
  import opened DramProtocol
  import DramQueue

  // ---------------------------------------- what new transactions and returned data do not touch

  predicate SameTiming(s: System, s': System) {
    && s'.now == s.now && s'.ranks == s.ranks
    && s'.control == s.control.(pendingReads := s'.control.pendingReads, toReturn := s'.control.toReturn,
                                transactions := s'.control.transactions)
  }

  ghost predicate Timing(c: Config, s: System)
    requires Shape(c, s)
  {
    && InStep(c, StepPhase(c, s)) && Busy(c, s.control)
    && WritesClear(c, s.control, c.WL(), s.now)
    && AllReadsClear(c, s.control, s.ranks, c.RL() + 1, s.now)
    && AllData(s.ranks)
    && Scheduled(c, CountPhase(c, s).control, s.now + 1)
  }

  lemma TimingFrame(c: Config, s: System, s': System)
    requires Shape(c, s) && Shape(c, s') && Timing(c, s) && SameTiming(s, s')
    ensures Timing(c, s')
  {
    hide InStep, AllReadsClear, WritesClear, Scheduled, QueueShape;
    InStepFrame(c, StepPhase(c, s), StepPhase(c, s'));
    WritesClearFrame(c, s.control, s'.control, c.WL(), s.now);
    ScheduledFrame(c, CountPhase(c, s).control, CountPhase(c, s').control, s.now + 1);
    ReadsClearSame(c, s, s', s.now);
  }

  lemma ReadsClearSame(c: Config, s: System, s': System, now: int)
    requires Shape(c, s) && Shape(c, s') && SameTiming(s, s')
    requires AllReadsClear(c, s.control, s.ranks, c.RL() + 1, now)
    ensures AllReadsClear(c, s'.control, s'.ranks, c.RL() + 1, now)
  {
    hide ReadsClear;
  }

  // ---------------------------------------------------------------- new transactions

  /** A pair that joins the end of a queue makes no orphan and takes none away. */
  lemma PairKeepsOrphans(q: seq<Packet>, act: Packet, col: Packet, j: nat)
    requires Paired(q) && Mates(act, col)
    ensures Paired(q + [act] + [col])
    ensures Orphan(q + [act] + [col], j) <==> Orphan(q, j)
  {
    var w := q + [act] + [col];
    forall i | 0 <= i < |w| && w[i].kind == Activate ensures i + 1 < |w| && Mates(w[i], w[i+1]) {
      if i < |q| {
        assert Mates(q[i], q[i+1]);
      }
    }
  }

  lemma PairKeepsQueue(row: seq<BankState>, access: seq<nat>, q: seq<Packet>, act: Packet, col: Packet)
    requires InRange(q, |row|) && |row| == |access| && QueueOk(row, access, q)
    requires Mates(act, col) && act.bank < |row|
    ensures InRange(q + [act] + [col], |row|) && QueueOk(row, access, q + [act] + [col])
    ensures forall b :: HasOrphan(q + [act] + [col], b) <==> HasOrphan(q, b)
  {
    var w := q + [act] + [col];
    forall j: nat ensures Orphan(w, j) <==> Orphan(q, j) {
      PairKeepsOrphans(q, act, col, j);
    }
    PairKeepsOrphans(q, act, col, 0);
    forall j | 0 <= j < |w| && Orphan(w, j) ensures OrphanOk(row, access, w, j) {
      assert Orphan(q, j) && OrphanOk(row, access, q, j);
    }
    forall b ensures HasOrphan(w, b) <==> HasOrphan(q, b) {
      if HasOrphan(q, b) {
        var j :| 0 <= j < |q| && Orphan(q, j) && q[j].bank == b;
        assert Orphan(w, j);
      }
      if HasOrphan(w, b) {
        var j :| 0 <= j < |w| && Orphan(w, j) && w[j].bank == b;
        assert Orphan(q, j);
      }
    }
  }

  /** The queues once a pair has been appended to one of them. */
  function Appended(c: Config, v: QueueState, act: Packet, col: Packet): QueueState
    requires QueueShape(c, v) && act.rank < c.numRanks && act.bank < c.numBanks
  {
    var slot := c.Slot(act.bank);
    v.(queues := DramQueue.Put(v.queues, act.rank, slot, v.queues[act.rank][slot] + [act] + [col]))
  }

  lemma PairKeepsQueues(c: Config, banks: Table, v: QueueState, act: Packet, col: Packet, issued: seq<Option<Packet>>)
    requires c.Sized() && QueueShape(c, v) && TableShape(c, banks)
    requires Mates(act, col) && act.rank < c.numRanks && act.bank < c.numBanks
    requires QueuesOk(c, banks, v) && RowsOk(c, banks, v, issued)
    requires QueueShape(c, Appended(c, v, act, col))
    ensures QueuesOk(c, banks, Appended(c, v, act, col)) && RowsOk(c, banks, Appended(c, v, act, col), issued)
  {
    hide RowOk, QueueOk, HasOrphan, AccessOk, RowOf;
    var slot := c.Slot(act.bank);
    var v' := Appended(c, v, act, col);
    PairKeepsQueue(banks[act.rank], v.rowAccess[act.rank], v.queues[act.rank][slot], act, col) by {
      assert Placed(c, v.queues[act.rank][slot], act.rank, slot);
    }
    forall r, l | 0 <= r < c.numRanks && 0 <= l < c.Slots()
      ensures Placed(c, v'.queues[r][l], r, l) && QueueOk(banks[r], v.rowAccess[r], v'.queues[r][l])
      ensures forall b :: HasOrphan(v'.queues[r][l], b) <==> HasOrphan(v.queues[r][l], b)
    {
      assert Placed(c, v.queues[r][l], r, l) && QueueOk(banks[r], v.rowAccess[r], v.queues[r][l]);
    }
    forall r, b | 0 <= r < c.numRanks && 0 <= b < c.numBanks
      ensures RowOk(c, banks[r][b], v'.queues[r][c.Slot(b)], v.rowAccess[r][b], b, RowOf(issued, r, b))
    {
      RowFrame(c, banks[r][b], v.queues[r][c.Slot(b)], v'.queues[r][c.Slot(b)], v.rowAccess[r][b], b,
          RowOf(issued, r, b));
    }
  }

  lemma RowFrame(c: Config, m: BankState, q: seq<Packet>, q': seq<Packet>, access: nat, b: nat, h: Row)
    requires RowOk(c, m, q, access, b, h) && (HasOrphan(q', b) <==> HasOrphan(q, b))
    ensures RowOk(c, m, q', access, b, h)
  {
  }

  lemma PairKeepsBounds(c: Config, v: QueueState, act: Packet, col: Packet)
    requires c.Sized() && QueueShape(c, v) && KindsOk(c, v) && Bounded(c, v)
    requires act.rank < c.numRanks && act.bank < c.numBanks
    requires KindOk(c, act) && KindOk(c, col) && |v.queues[act.rank][c.Slot(act.bank)]| + 2 <= c.commandDepth
    requires QueueShape(c, Appended(c, v, act, col))
    ensures KindsOk(c, Appended(c, v, act, col)) && Bounded(c, Appended(c, v, act, col))
  {
    BoundsAreQueueKinds(c, v);
    hide KindsOk, Bounded, AllQueueKinds;
    var slot := c.Slot(act.bank);
    SlotKinds(c, v.queues, act.rank, slot);
    PutKeepsKinds(c, v.queues, act.rank, slot, v.queues[act.rank][slot] + [act] + [col]);
    BoundsAreQueueKinds(c, Appended(c, v, act, col));
  }

  /** There is room when the controller says so, hence no queue overflows. */
  lemma AdmitSucceeds(c: Config, s: System, i: nat)
    requires Shape(c, s) && c.Valid() && i < |s.control.transactions|
    requires Bounded(c, s.queue) && Requests(s.control.transactions)
    requires var l := Locate(c.mapping, s.control.transactions[i].address); HasRoomFor(c, s.queue, 2, l.rank, l.bank)
    ensures Admit(c, s, i).Success?
  {
    var l := Locate(c.mapping, s.control.transactions[i].address);
    assert |s.queue.queues[l.rank][c.Slot(l.bank)]| <= c.commandDepth;
  }

  lemma AdmitKeeps(c: Config, s: System, i: nat)
    requires c.Valid() && Late(c, s) && i < |s.control.transactions|
    requires var l := Locate(c.mapping, s.control.transactions[i].address); HasRoomFor(c, s.queue, 2, l.rank, l.bank)
    ensures Admit(c, s, i).Success? && Late(c, Admit(c, s, i).value)
  {
    AdmitSucceeds(c, s, i);
    AdmitEffect(c, s, i);
    var s' := Admit(c, s, i).value;
    var t := s.control.transactions[i];
    var act := ActivateFor(c, t);
    var col := ColumnFor(c, t);
    assert s'.queue == Appended(c, s.queue, act, col);
    hide Timing, QueuesOk, RowsOk, KindsOk, Bounded, HistoryOk, InOrder, Balanced, BalancedFor, Mates;
    TimingFrame(c, s, s');
    PairKeepsQueues(c, s.control.banks, s.queue, act, col, s.issued);
    PairKeepsBounds(c, s.queue, act, col);
    AdmitKeepsOrder(c, s, i);
    AdmitKeepsBalance(c, s, i);
  }

  lemma AdmitKeepsBalance(c: Config, s: System, i: nat)
    requires Shape(c, s) && c.Sized() && i < |s.control.transactions| && Admit(c, s, i).Success? && Balanced(s)
    ensures Balanced(Admit(c, s, i).value)
  {
    hide Admit, BalancedFor, Shape;
    forall a: nat ensures BalancedFor(Admit(c, s, i).value, a) {
      assert BalancedFor(s, a);
      AdmitBalances(c, s, i, a);
    }
  }

  lemma {:induction false} AdmitPhaseKeeps(c: Config, s: System, i: nat)
    requires c.Valid() && Late(c, s)
    ensures AdmitPhase(c, s, i).Success? && Late(c, AdmitPhase(c, s, i).value)
    decreases |s.control.transactions| - i
  {
    assert Shape(c, s);
    hide Late, HasRoomFor, Admit;
    if i < |s.control.transactions| {
      var l := Locate(c.mapping, s.control.transactions[i].address);
      if HasRoomFor(c, s.queue, 2, l.rank, l.bank) {
        AdmitKeeps(c, s, i);
        AdmitPhaseKeeps(c, Admit(c, s, i).value, i + 1);
      } else {
        AdmitPhaseKeeps(c, s, i + 1);
      }
    }
  }

  // ---------------------------------------------------------------- power

  /** What powering a rank down or up may do to a bank: nothing while a row is open or a countdown runs. */
  predicate Nap(b: BankState, b': BankState) {
    && b'.nextRead == b.nextRead && b'.nextWrite == b.nextWrite
    && (b' == b || (b.status in {Idle, PowerDown} && b'.status in {Idle, PowerDown}))
  }

  predicate Napped(c: Config, s: System, s': System)
    requires Shape(c, s) && Shape(c, s')
  {
    && s' == s.(control := s'.control, ranks := s'.ranks)
    && s'.control == s.control.(banks := s'.control.banks, powerDown := s'.control.powerDown)
    && (forall r, i :: 0 <= r < c.numRanks && 0 <= i < c.numBanks ==>
          Nap(s.control.banks[r][i], s'.control.banks[r][i]))
    && (forall r :: 0 <= r < c.numRanks ==>
          s'.ranks[r] == s.ranks[r].(banks := s'.ranks[r].banks, isPowerDown := s'.ranks[r].isPowerDown))
  }

  lemma PowerRankNaps(c: Config, s: System, r: nat)
    requires Shape(c, s) && c.Valid() && r < c.numRanks && InStep(c, StepPhase(c, s))
    requires PowerRank(c, s, r).Success?
    ensures Napped(c, s, PowerRank(c, s, r).value)
  {
    assert PowerAgrees(c, s.control.banks, s.control.powerDown, r);
    hide InStep, QueueShape, RankEmpty;
  }

  /** Every power-down and power-up is accepted by its rank, and disturbs no bank in use. */
  lemma {:induction false} PowerPhaseNaps(c: Config, s: System, r: nat)
    requires Shape(c, s) && c.Valid() && r <= c.numRanks
    requires InStep(c, StepPhase(c, s)) && Busy(c, s.control)
    ensures PowerPhase(c, s, r).Success?
    ensures var s' := PowerPhase(c, s, r).value;
            InStep(c, StepPhase(c, s')) && Busy(c, s'.control) && Napped(c, s, s')
    decreases c.numRanks - r
  {
    hide InStep, Busy, PowerRank, QueueShape;
    if r < c.numRanks && c.lowPower {
      PowerRankKeepsStep(c, s, r);
      PowerRankNaps(c, s, r);
      PowerPhaseNaps(c, PowerRank(c, s, r).value, r + 1);
    }
  }

  lemma NapKeepsQueues(c: Config, s: System, s': System)
    requires Shape(c, s) && Shape(c, s') && Napped(c, s, s')
    requires QueuesOk(c, s.control.banks, s.queue) && RowsOk(c, s.control.banks, s.queue, s.issued)
    ensures QueuesOk(c, s'.control.banks, s.queue) && RowsOk(c, s'.control.banks, s.queue, s.issued)
  {
    hide HasOrphan, RowOf, FirstOfBank, Paired;
    var banks, banks', v := s.control.banks, s'.control.banks, s.queue;
    forall r, l | 0 <= r < c.numRanks && 0 <= l < c.Slots()
      ensures Placed(c, v.queues[r][l], r, l) && QueueOk(banks'[r], v.rowAccess[r], v.queues[r][l])
    {
      var q := v.queues[r][l];
      assert Placed(c, q, r, l) && QueueOk(banks[r], v.rowAccess[r], q);
      forall i | 0 <= i < |q| && Orphan(q, i)
        ensures Live(banks'[r][q[i].bank]) && banks'[r][q[i].bank].openRow == banks[r][q[i].bank].openRow
                && v.rowAccess[r][q[i].bank] == 0
      {
        assert OrphanOk(banks[r], v.rowAccess[r], q, i) && Nap(banks[r][q[i].bank], banks'[r][q[i].bank]);
      }
      QueueOkFrame(banks[r], v.rowAccess[r], banks'[r], v.rowAccess[r], q);
    }
    forall r, b | 0 <= r < c.numRanks && 0 <= b < c.numBanks
      ensures AccessOk(c, banks'[r][b], v.rowAccess[r][b])
      ensures RowOk(c, banks'[r][b], v.queues[r][c.Slot(b)], v.rowAccess[r][b], b, RowOf(s.issued, r, b))
    {
      assert Nap(banks[r][b], banks'[r][b]) && AccessOk(c, banks[r][b], v.rowAccess[r][b]);
      assert RowOk(c, banks[r][b], v.queues[r][c.Slot(b)], v.rowAccess[r][b], b, RowOf(s.issued, r, b));
    }
  }

  lemma NapKeepsBuses(c: Config, s: System, s': System)
    requires Shape(c, s) && Shape(c, s') && Napped(c, s, s')
    requires WritesClear(c, s.control, c.WL(), s.now) && AllReadsClear(c, s.control, s.ranks, c.RL() + 1, s.now)
    ensures WritesClear(c, s'.control, c.WL(), s.now) && AllReadsClear(c, s'.control, s'.ranks, c.RL() + 1, s.now)
  {
    hide Clear, Spaced, Within, QueueShape;
    forall r, i | 0 <= r < c.numRanks && 0 <= i < c.numBanks
      ensures s'.control.banks[r][i].nextWrite == s.control.banks[r][i].nextWrite
      ensures s'.control.banks[r][i].status == RowActive ==> s.control.banks[r][i].status == RowActive
    {
      assert Nap(s.control.banks[r][i], s'.control.banks[r][i]);
    }
    WritesClearFrame(c, s.control, s'.control, c.WL(), s.now);
    forall r | 0 <= r < c.numRanks
      ensures ReadsClear(c, s'.control.banks[r], ReadLine(c, s'.ranks[r], s'.control.command, r), c.RL() + 1, s.now)
    {
      assert ReadsClear(c, s.control.banks[r], ReadLine(c, s.ranks[r], s.control.command, r), c.RL() + 1, s.now);
      assert forall i :: 0 <= i < c.numBanks ==> Nap(s.control.banks[r][i], s'.control.banks[r][i]);
    }
  }

  lemma NapKeepsRest(c: Config, s: System, s': System)
    requires Shape(c, s) && Shape(c, s') && Napped(c, s, s')
    requires AllData(s.ranks) && Balanced(s) && InOrder(c, s) && Scheduled(c, CountPhase(c, s).control, s.now + 1)
    ensures AllData(s'.ranks) && Balanced(s') && InOrder(c, s') && Scheduled(c, CountPhase(c, s').control, s.now + 1)
  {
    forall r | 0 <= r < c.numRanks ensures DataOnly(s'.ranks[r]) {
      assert DataOnly(s.ranks[r]);
    }
    hide BalancedFor, InOrder, Scheduled, Nap, ControlShape, QueueShape;
    OrderFrame(c, s, s');
    ScheduledFrame(c, CountPhase(c, s).control, CountPhase(c, s').control, s.now + 1);
    forall x: nat ensures BalancedFor(s', x) {
      assert BalancedFor(s, x);
      BalancedFrame(s, s', x);
    }
  }

  lemma PowerKeeps(c: Config, s: System)
    requires c.Valid() && Late(c, s)
    ensures PowerPhase(c, s, 0).Success? && Late(c, PowerPhase(c, s, 0).value)
  {
    hide InStep, Busy, QueuesOk, RowsOk, KindsOk, Bounded, HistoryOk, InOrder, Balanced, Scheduled, WritesClear,
         AllReadsClear, AllData;
    PowerPhaseNaps(c, s, 0);
    var s' := PowerPhase(c, s, 0).value;
    NapKeepsQueues(c, s, s');
    NapKeepsBuses(c, s, s');
    NapKeepsRest(c, s, s');
  }

  // ---------------------------------------------------------------- returned data, counters and clocks

  lemma ReturnKeeps(c: Config, s: System)
    requires c.Valid() && Late(c, s)
    ensures Late(c, ReturnPhase(c, s))
  {
    var s' := ReturnPhase(c, s);
    hide Timing, QueueSide, BalancedFor, InOrder;
    assert Timing(c, s);
    TimingFrame(c, s, s');
    QueueSideFrame(c, StepPhase(c, s), StepPhase(c, s'));
    OrderFrame(c, s, s');
    forall a: nat ensures BalancedFor(s', a) {
      ReturnPhaseBalances(c, s, a);
    }
  }

  lemma CountAndStepKeeps(c: Config, s: System)
    requires c.Valid() && Late(c, s)
    ensures Inv(c, StepPhase(c, CountPhase(c, s)))
  {
    var s' := StepPhase(c, CountPhase(c, s));
    hide QueueSide, InStep, BalancedFor, InOrder, WritesClear, AllReadsClear, Scheduled;
    InStepFrame(c, StepPhase(c, s), s');
    QueueSideFrame(c, StepPhase(c, s), s');
    OrderFrame(c, s, s');
    WritesClearFrame(c, s.control, s'.control, c.WL(), s.now);
    assert AllReadsClear(c, s'.control, s'.ranks, c.RL() + 1, s.now) by {
      CountKeepsReads(c, s);
    }
    forall a: nat ensures BalancedFor(s', a) {
      assert BalancedFor(s, a);
      BalancedFrame(s, s', a);
    }
  }

  lemma CountKeepsReads(c: Config, s: System)
    requires Shape(c, s) && AllReadsClear(c, s.control, s.ranks, c.RL() + 1, s.now)
    ensures AllReadsClear(c, CountPhase(c, s).control, s.ranks, c.RL() + 1, s.now)
  {
    hide ReadsClear;
  }

  lemma ServedKeeps(c: Config, s: System)
    requires c.Valid() && Late(c, s)
    ensures Served(c, s).Success? && Late(c, Served(c, s).value)
  {
    assert Shape(c, s);
    hide Late, Shape;
    AdmitPhaseKeeps(c, s, 0);
    PowerKeeps(c, AdmitPhase(c, s, 0).value);
  }

  lemma BeforeReturnKeeps(c: Config, s: System)
    requires c.Valid() && Inv(c, s)
    ensures BeforeReturn(c, s).Success? && Late(c, BeforeReturn(c, s).value)
  {
    assert Shape(c, s);
    hide Late, Inv, Mid, Shape, Front, PopPhase, Served;
    FrontKeeps(c, s);
    PopKeeps(c, Front(c, s).value);
    ServedKeeps(c, PopPhase(c, Front(c, s).value).value);
  }

  /** A whole cycle: no exit is reached and the invariant holds again. */
  lemma UpdateKeeps(c: Config, s: System)
    requires c.Valid() && Inv(c, s)
    ensures DramControl.Update(c, s).Success? && Inv(c, DramControl.Update(c, s).value)
  {
    BeforeReturnKeeps(c, s);
    var s1 := BeforeReturn(c, s).value;
    assert Shape(c, s) && Shape(c, s1);
    hide Late, Inv, Shape, BeforeReturn, ReturnPhase, CountPhase, StepPhase;
    ReturnKeeps(c, s1);
    CountAndStepKeeps(c, ReturnPhase(c, s1));
  }

  // ---------------------------------------------------------------- runs

  lemma EmptyCounts(c: Config, a: nat)
    requires c.Sized()
    ensures BalancedFor(Initial(c), a)
  {
    EmptyQueues(InitialQueue(c).queues, a);
    EmptyRanks(Initial(c).ranks, a);
  }

  lemma {:induction false} EmptyRow(row: seq<seq<Packet>>, a: nat)
    requires forall i :: 0 <= i < |row| ==> row[i] == []
    ensures RowReads(row, a) == 0
  {
    if row != [] {
      EmptyRow(row[..|row|-1], a);
    }
  }

  lemma {:induction false} EmptyQueues(queues: seq<seq<seq<Packet>>>, a: nat)
    requires forall r, i :: 0 <= r < |queues| && 0 <= i < |queues[r]| ==> queues[r][i] == []
    ensures QueuedReads(queues, a) == 0
  {
    if queues != [] {
      EmptyQueues(queues[..|queues|-1], a);
      EmptyRow(queues[|queues|-1], a);
    }
  }

  lemma {:induction false} EmptyRanks(ranks: seq<RankState>, a: nat)
    requires forall r :: 0 <= r < |ranks| ==> ranks[r].readReturn == [] && ranks[r].outgoing == None
    ensures InRanks(ranks, a) == 0
  {
    if ranks != [] {
      EmptyRanks(ranks[..|ranks|-1], a);
    }
  }

  lemma InitialQueueSide(c: Config)
    requires c.Valid()
    ensures QueueSide(c, Initial(c))
  {
    var s := Initial(c);
    forall r, b | 0 <= r < c.numRanks && 0 <= b < c.numBanks ensures !HasOrphan(s.queue.queues[r][c.Slot(b)], b) {}
  }

  /** The refresh counters start on schedule, in round zero. */
  lemma InitialSchedule(c: Config)
    requires c.Valid()
    ensures Scheduled(c, Initial(c).control, 0)
  {
    var m := Initial(c).control;
    forall i | 0 <= i < c.numRanks ensures m.refreshCountdown[i] + 0 == Due(c, i, 0) {}
    assert OnSchedule(c, m.refreshCountdown, m.refreshRank, 0, 0);
  }

  lemma InitialInStep(c: Config)
    requires c.Valid()
    ensures InStep(c, Initial(c)) && InOrder(c, Initial(c))
  {
    hide Scheduled, QueueSide;
  }

  lemma InitialInv(c: Config)
    requires c.Valid()
    ensures Inv(c, Initial(c))
  {
    hide QueueSide, Scheduled, InStep, InOrder;
    var s := Initial(c);
    InitialQueueSide(c);
    InitialSchedule(c);
    InitialInStep(c);
    forall a: nat ensures BalancedFor(s, a) {
      EmptyCounts(c, a);
    }
  }

  /** A request from the processor, whether or not the controller has room for it. */
  lemma ArriveKeeps(c: Config, s: System, isWrite: bool, address: nat)
    requires c.Valid() && Inv(c, s)
    ensures Inv(c, Arrive(c, s, isWrite, address))
  {
    hide QueueSide, InStep, Balanced, InOrder, WritesClear, AllReadsClear, Scheduled, AllData, QueueShape, TableShape,
         RankShape;
    var s' := Arrive(c, s, isWrite, address);
    InStepFrame(c, s, s');
    QueueSideFrame(c, s, s');
    OrderFrame(c, s, s');
    WritesClearFrame(c, s.control, s'.control, c.WL(), s.now - 1);
    ScheduledFrame(c, s.control, s'.control, s.now);
    ReadsClearSame(c, s, s', s.now - 1);
    ArriveBalances(c, s, isWrite, address);
  }

  lemma ArriveBalances(c: Config, s: System, isWrite: bool, address: nat)
    requires Shape(c, s) && Balanced(s)
    ensures Balanced(Arrive(c, s, isWrite, address))
  {
    hide BalancedFor, QueueShape, TableShape, RankShape;
    var s' := Arrive(c, s, isWrite, address);
    forall a: nat ensures BalancedFor(s', a) {
      assert BalancedFor(s, a);
      BalancedFrame(s, s', a);
    }
  }

  /**
   * The central theorem. No run reaches an exit: every command is accepted by its rank's own table, every
   * power-down and power-up is, no bus is driven twice, no queue overflows and no packet is of a kind nobody
   * handles. The invariant holds after every run.
   */
  lemma {:induction false} RunIsSafe(c: Config, events: seq<Event>)
    requires c.Valid()
    ensures Exec(c, events).Success? && Inv(c, Exec(c, events).value)
  {
    hide Inv, Shape, DramControl.Update, Arrive, Initial;
    if events == [] {
      InitialInv(c);
    } else {
      RunIsSafe(c, events[..|events|-1]);
      var s := Exec(c, events[..|events|-1]).value;
      match events[|events|-1]
      case Request(isWrite, address) => ArriveKeeps(c, s, isWrite, address);
      case Cycle => UpdateKeeps(c, s);
    }
  }
}
