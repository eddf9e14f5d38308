/** Everything that holds in every reachable state of the memory system, and the theorems about its runs. */
module DramProtocol {
  import opened Outcomes
  import opened DramTypes
  import opened DramControl
  import opened DramTiming
  import opened DramBus
  import opened DramOrder
  import opened DramHistory
  import opened DramWindow
  import opened DramUses
  import opened DramRefresh
  import opened DramReads
  import DramRank
  import DramQueue

  predicate Bounded(c: Config, v: QueueState)
    requires QueueShape(c, v)
  {
    forall r, l :: 0 <= r < c.numRanks && 0 <= l < c.Slots() ==> |v.queues[r][l]| <= c.commandDepth
  }

  predicate Requests(t: seq<Transaction>) {
    forall i :: 0 <= i < |t| ==> t[i].kind != ReturnData
  }

  predicate AllData(ranks: seq<RankState>) {
    forall r :: 0 <= r < |ranks| ==> DataOnly(ranks[r])
  }

  ghost predicate Scheduled(c: Config, m: ControlState, now: int) {
    exists k: nat :: OnSchedule(c, m.refreshCountdown, m.refreshRank, now, k)
  }

  /** The part of the state that the pop reads and changes. */
  predicate QueueSide(c: Config, s: System)
    requires Shape(c, s)
  {
    && QueuesOk(c, s.control.banks, s.queue) && KindsOk(c, s.queue) && Bounded(c, s.queue)
    && RowsOk(c, s.control.banks, s.queue, s.issued) && HistoryOk(c, s.issued)
    && WindowsOk(c, s)
  }

  /** The inductive invariant, at the start of a cycle. */
  ghost predicate Inv(c: Config, s: System) {
    && Shape(c, s)
    && InStep(c, s)
    && QueueSide(c, s)
    && WritesClear(c, s.control, c.WL(), s.now - 1)
    && AllReadsClear(c, s.control, s.ranks, c.RL() + 1, s.now - 1)
    && AllData(s.ranks)
    && Scheduled(c, s.control, s.now)
    && Balanced(s) && InOrder(c, s)
    && Requests(s.control.transactions) && Requests(s.pending)
  }

  // ---------------------------------------------------------------- up to the pop

  lemma RanksStartTheCycle(c: Config, s: System)
    requires Shape(c, s) && c.Valid() && AllData(s.ranks)
    requires AllReadsClear(c, s.control, s.ranks, c.RL() + 1, s.now - 1)
    ensures AllRanks(s.ranks, 0)
  {
    forall r | 0 <= r < c.numRanks ensures DataOnly(s.ranks[r]) && DramReads.OverwritesNothing(s.ranks[r]) {
      assert ReadsClear(c, s.control.banks[r], ReadLine(c, s.ranks[r], s.control.command, r), c.RL() + 1, s.now - 1);
      RankUpdateStepsLine(c, s.ranks[r], s.control.command, r);
    }
  }

  /** A rank after its own cycle and the arrival of the command on the bus. */
  function RankAfter(c: Config, k: RankState, command: Option<Packet>, r: nat, now: int): RankState
    requires RankShape(c, k) && (command.Some? ==> command.value.bank < c.numBanks)
    requires command.Some? && command.value.rank == r ==> DramRank.Check(k, command.value, now).Pass?
  {
    var u := DramRank.Update(c, k).0;
    if command.Some? && command.value.rank == r then DramRank.Receive(c, u, command.value, now).value else u
  }

  lemma ArrivingStep(c: Config, s: System)
    requires Shape(c, s) && c.Valid() && InStep(c, s) && AllRanks(s.ranks, 0)
    ensures Arriving(c, s).Success? && InStepNow(c, Arriving(c, s).value)
    ensures var a := Arriving(c, s).value; var m := s.control;
            && a.now == s.now && a.entered == s.entered && a.issued == s.issued && a.queue == s.queue
            && a.control.powerDown == m.powerDown && a.control.pendingReads == m.pendingReads
            && a.control.banks == TickTable(c, m.banks) && WriteLine(a.control) == WriteLine(m)
            && (Requests(m.transactions) && Requests(s.pending)
                ==> Requests(a.control.transactions) && Requests(a.pending))
            && a.control.refreshCountdown == m.refreshCountdown && a.control.refreshRank == m.refreshRank
            && forall r :: 0 <= r < c.numRanks ==> a.ranks[r] == RankAfter(c, s.ranks[r], m.command, r, s.now)
  {
    hide Synced, OrphanOk, ControlShape, QueueShape, TickTable, DramRank.Check, DramRank.Receive, DramRank.Update;
    RankPhaseSucceeds(c, s, 0);
    var s1 := PendingPhase(c, RankPhase(c, s, 0).value);
    InStepFrame(c, s, s1);
    TickAndDeliver(c, s1);
  }

  // ---------------------------------------------------------------- each property, up to the pop

  lemma TickKeepsQueues(c: Config, banks: Table, v: QueueState, d: int)
    requires QueueShape(c, v) && TableShape(c, banks)
    requires QueuesOk(c, banks, v) && SaneTable(c, banks, d)
    ensures QueuesOk(c, TickTable(c, banks), v)
  {
    var t: Table := TickTable(c, banks);
    forall r, l | 0 <= r < c.numRanks && 0 <= l < c.Slots()
      ensures Placed(c, v.queues[r][l], r, l) && QueueOk(t[r], v.rowAccess[r], v.queues[r][l])
    {
      var q := v.queues[r][l];
      assert Placed(c, q, r, l) && QueueOk(banks[r], v.rowAccess[r], q);
      forall i | 0 <= i < |q| && Orphan(q, i)
        ensures Live(t[r][q[i].bank]) && t[r][q[i].bank].openRow == banks[r][q[i].bank].openRow
                && v.rowAccess[r][q[i].bank] == 0
      {
        assert OrphanOk(banks[r], v.rowAccess[r], q, i);
      }
      QueueOkFrame(banks[r], v.rowAccess[r], t[r], v.rowAccess[r], q);
    }
    forall r, b | 0 <= r < c.numRanks && 0 <= b < c.numBanks ensures AccessOk(c, t[r][b], v.rowAccess[r][b]) {
      assert Sane(c, banks[r][b], d) && AccessOk(c, banks[r][b], v.rowAccess[r][b]);
    }
  }

  lemma TickKeepsRows(c: Config, banks: Table, v: QueueState, issued: seq<Option<Packet>>, d: int)
    requires QueueShape(c, v) && TableShape(c, banks)
    requires RowsOk(c, banks, v, issued) && SaneTable(c, banks, d)
    ensures RowsOk(c, TickTable(c, banks), v, issued)
  {
    hide HasOrphan;
    forall r, b | 0 <= r < c.numRanks && 0 <= b < c.numBanks
      ensures RowOk(c, TickTable(c, banks)[r][b], v.queues[r][c.Slot(b)], v.rowAccess[r][b], b, RowOf(issued, r, b))
    {
      assert Sane(c, banks[r][b], d);
      assert RowOk(c, banks[r][b], v.queues[r][c.Slot(b)], v.rowAccess[r][b], b, RowOf(issued, r, b));
    }
  }

  lemma ArrivingKeepsQueueSide(c: Config, s: System, a: System)
    requires Shape(c, s) && Shape(c, a) && c.Valid() && InStep(c, s) && QueueSide(c, s)
    requires a.queue == s.queue && a.issued == s.issued && a.now == s.now
             && a.control.banks == TickTable(c, s.control.banks)
    ensures QueueSide(c, a)
  {
    assert SaneTable(c, s.control.banks, s.now - 1);
    hide Synced, QueuesOk, RowsOk, SaneTable, HistoryOk, KindsOk, Bounded;
    TickKeepsQueues(c, s.control.banks, s.queue, s.now - 1);
    TickKeepsRows(c, s.control.banks, s.queue, s.issued, s.now - 1);
  }

  lemma SameLineClear(l: Line, m: Line, gap: int, latency: int, next: int, now: int)
    requires SameLine(l, m) && Clear(l, gap, latency, next, now)
    ensures Clear(m, gap, latency, next, now)
  {
  }

  lemma SameLineSpaced(l: Line, m: Line, gap: int, latency: int)
    requires SameLine(l, m) && Spaced(l, gap) && Within(l, latency)
    ensures Spaced(m, gap) && Within(m, latency)
  {
  }

  lemma RankAfterLine(c: Config, k: RankState, command: Option<Packet>, r: nat, now: int)
    requires c.Valid() && RankShape(c, k) && (command.Some? ==> command.value.bank < c.numBanks)
    requires command.Some? && command.value.rank == r ==> DramRank.Check(k, command.value, now).Pass?
    requires Spaced(ReadLine(c, k, command, r), c.Burst())
    ensures SameLine(StepLine(ReadLine(c, k, command, r), c.Burst()),
            ReadLine(c, RankAfter(c, k, command, r, now), None, r))
  {
    RankUpdateStepsLine(c, k, command, r);
    hide StepLine, DramRank.Update, DramRank.Check, DramRank.BanksAfter, Spaced;
  }

  lemma LineStepKeepsReadsClear(c: Config, row: seq<BankState>, row': seq<BankState>, l: Line, l': Line, now: int)
    requires c.Valid() && ReadsClear(c, row, l, c.RL() + 1, now - 1)
    requires SameLine(StepLine(l, c.Burst()), l')
    requires |row'| == |row| && forall i :: 0 <= i < |row| ==> row'[i].nextRead == row[i].nextRead
    ensures ReadsClear(c, row', l', c.RL(), now)
  {
    StepKeepsSpacing(l, c.Burst(), c.RL() + 1);
    SameLineSpaced(StepLine(l, c.Burst()), l', c.Burst(), c.RL());
    hide Spaced, Within, StepLine, SameLine;
    forall i | 0 <= i < |row'| ensures Clear(l', c.Burst(), c.RL() + 1, row'[i].nextRead, now) {
      StepKeepsClear(l, c.Burst(), c.RL() + 1, row[i].nextRead, now - 1);
      SameLineClear(StepLine(l, c.Burst()), l', c.Burst(), c.RL() + 1, row[i].nextRead, now);
    }
  }

  lemma ArrivingKeepsReads(c: Config, s: System, a: System, r: nat)
    requires Shape(c, s) && Shape(c, a) && c.Valid() && InStep(c, s) && r < c.numRanks
    requires AllReadsClear(c, s.control, s.ranks, c.RL() + 1, s.now - 1)
    requires a.control.banks == TickTable(c, s.control.banks)
    requires a.ranks[r] == RankAfter(c, s.ranks[r], s.control.command, r, s.now)
    ensures ReadsClear(c, a.control.banks[r], ReadLine(c, a.ranks[r], None, r), c.RL(), s.now)
  {
    InStepAccepts(c, s);
    hide InStep, QueueShape, Spaced, Within, Clear, StepLine, SameLine, DramRank.Check, DramRank.Update,
         DramRank.Receive, RankAfter;
    var l := ReadLine(c, s.ranks[r], s.control.command, r);
    assert ReadsClear(c, s.control.banks[r], l, c.RL() + 1, s.now - 1);
    RankAfterLine(c, s.ranks[r], s.control.command, r, s.now);
    LineStepKeepsReadsClear(c, s.control.banks[r], a.control.banks[r], l, ReadLine(c, a.ranks[r], None, r), s.now);
  }

  lemma RankAfterDataOnly(c: Config, k: RankState, command: Option<Packet>, r: nat, now: int)
    requires c.Valid() && RankShape(c, k) && (command.Some? ==> command.value.bank < c.numBanks)
    requires command.Some? && command.value.rank == r ==> DramRank.Check(k, command.value, now).Pass?
    requires DataOnly(k)
    ensures DataOnly(RankAfter(c, k, command, r, now))
  {
  }

  lemma ArrivingBalances(c: Config, s: System, x: nat)
    requires Shape(c, s) && c.Valid() && AllRanks(s.ranks, 0) && BalancedFor(s, x)
    requires Arriving(c, s).Success?
    ensures BalancedFor(Arriving(c, s).value, x)
  {
    RankPhaseBalances(c, s, 0, x);
    var s1 := PendingPhase(c, RankPhase(c, s, 0).value);
    hide Shape, Wanted, InRanks, QueuedReads;
    assert BalancedFor(s1, x);
    CommandPhaseBalances(c, TickPhase(c, s1), x);
  }

  /** In the middle of a cycle, from the arrival of the command to the pop. */
  ghost predicate Core(c: Config, s: System)
    requires Shape(c, s)
  {
    && InStepNow(c, s)
    && QueueSide(c, s)
    && AllReadsClear(c, s.control, s.ranks, c.RL(), s.now)
    && AllData(s.ranks)
    && Balanced(s) && InOrder(c, s)
    && Requests(s.control.transactions) && Requests(s.pending)
  }

  ghost predicate Arrival(c: Config, s: System) {
    && Shape(c, s) && Core(c, s)
    && WritesClear(c, s.control, c.WL(), s.now - 1)
    && Scheduled(c, s.control, s.now)
  }

  lemma OrderFrame(c: Config, s: System, s': System)
    requires Shape(c, s) && Shape(c, s') && InOrder(c, s)
    requires s'.entered == s.entered && s'.issued == s.issued && s'.queue.queues == s.queue.queues
    ensures InOrder(c, s')
  {
    forall k: Key | k.rank < c.numRanks && k.bank < c.numBanks ensures InOrderFor(c, s', k) {
      assert InOrderFor(c, s, k);
    }
  }

  lemma ArrivingKeepsRanks(c: Config, s: System, a: System)
    requires Shape(c, s) && Shape(c, a) && c.Valid() && InStep(c, s) && a.control.command == None
    requires AllReadsClear(c, s.control, s.ranks, c.RL() + 1, s.now - 1) && AllData(s.ranks)
    requires a.control.banks == TickTable(c, s.control.banks)
    requires forall r :: 0 <= r < c.numRanks ==> a.ranks[r] == RankAfter(c, s.ranks[r], s.control.command, r, s.now)
    ensures AllReadsClear(c, a.control, a.ranks, c.RL(), s.now) && AllData(a.ranks)
  {
    InStepAccepts(c, s);
    hide InStep, ReadsClear, DataOnly, RankAfter, QueueShape, DramRank.Check;
    forall r | 0 <= r < c.numRanks
      ensures ReadsClear(c, a.control.banks[r], ReadLine(c, a.ranks[r], a.control.command, r), c.RL(), s.now)
      ensures DataOnly(a.ranks[r])
    {
      assert a.ranks[r] == RankAfter(c, s.ranks[r], s.control.command, r, s.now);
      ArrivingKeepsReads(c, s, a, r);
      assert DataOnly(s.ranks[r]);
      RankAfterDataOnly(c, s.ranks[r], s.control.command, r, s.now);
    }
  }

  lemma ArrivingKeepsBalance(c: Config, s: System)
    requires Shape(c, s) && c.Valid() && AllRanks(s.ranks, 0) && Balanced(s) && Arriving(c, s).Success?
    ensures Balanced(Arriving(c, s).value)
  {
    hide Arriving, BalancedFor, Shape, AllRanks;
    forall x: nat ensures BalancedFor(Arriving(c, s).value, x) {
      assert BalancedFor(s, x);
      ArrivingBalances(c, s, x);
    }
  }

  lemma ArrivingKeeps(c: Config, s: System)
    requires c.Valid() && Inv(c, s)
    ensures Arriving(c, s).Success? && Arrival(c, Arriving(c, s).value)
  {
    hide Arriving, InStep, InStepNow, QueueSide, WritesClear, AllReadsClear, AllData, Scheduled, InOrder, Balanced,
         RankAfter, QueueShape, ControlShape, AllRanks, Requests;
    RanksStartTheCycle(c, s);
    ArrivingStep(c, s);
    var a := Arriving(c, s).value;
    InStepNowBusFree(c, a);
    ArrivingKeepsQueueSide(c, s, a);
    TickKeepsWrites(c, s.control, a.control, s.now);
    ArrivingKeepsRanks(c, s, a);
    ArrivingKeepsBalance(c, s);
    OrderFrame(c, s, a);
    ScheduledFrame(c, s.control, a.control, s.now);
  }

  lemma InStepNowBusFree(c: Config, s: System)
    requires Shape(c, s) && InStepNow(c, s)
    ensures s.control.command == None
  {
  }

  lemma InStepAccepts(c: Config, s: System)
    requires Shape(c, s) && InStep(c, s)
    ensures s.control.command.Some?
            ==> DramRank.Check(s.ranks[s.control.command.value.rank], s.control.command.value, s.now).Pass?
  {
  }

  lemma ScheduledFrame(c: Config, m: ControlState, m': ControlState, now: int)
    requires Scheduled(c, m, now) && m'.refreshCountdown == m.refreshCountdown && m'.refreshRank == m.refreshRank
    ensures Scheduled(c, m', now)
  {
  }

  lemma TickKeepsWrites(c: Config, m: ControlState, m': ControlState, now: int)
    requires ControlShape(c, m) && ControlShape(c, m') && WritesClear(c, m, c.WL(), now - 1)
    requires m'.banks == TickTable(c, m.banks) && WriteLine(m') == WriteLine(m)
    ensures WritesClear(c, m', c.WL(), now - 1)
  {
    WritesClearFrame(c, m, m', c.WL(), now - 1);
  }

  /** Right before the pop. */
  ghost predicate Mid(c: Config, s: System) {
    && Shape(c, s) && Core(c, s)
    && WritesClear(c, s.control, c.WL() - 1, s.now)
    && Scheduled(c, CountPhase(c, s).control, s.now + 1)
  }

  lemma BalancedFrame(s: System, s': System, x: nat)
    requires BalancedFor(s, x)
    requires s'.control.pendingReads == s.control.pendingReads && s'.control.command == s.control.command
    requires s'.control.toReturn == s.control.toReturn && s'.queue.queues == s.queue.queues
    requires |s'.ranks| == |s.ranks|
    requires forall r :: 0 <= r < |s.ranks| ==>
               s'.ranks[r].readReturn == s.ranks[r].readReturn && s'.ranks[r].outgoing == s.ranks[r].outgoing
    ensures BalancedFor(s', x)
  {
    InRanksSame(s.ranks, s'.ranks, x);
  }

  lemma QueueSideFrame(c: Config, s: System, s': System)
    requires Shape(c, s) && Shape(c, s') && QueueSide(c, s)
    requires s'.control.banks == s.control.banks && s'.issued == s.issued && s'.now == s.now
    requires s'.queue.queues == s.queue.queues && s'.queue.rowAccess == s.queue.rowAccess && s'.queue.faw == s.queue.faw
    ensures QueueSide(c, s')
  {
    QueuesOkFrame(c, s.control.banks, s.queue, s'.queue);
  }

  lemma ReadsFrame(c: Config, s: System, s': System)
    requires Shape(c, s) && Shape(c, s') && AllReadsClear(c, s.control, s.ranks, c.RL(), s.now)
    requires s'.control.banks == s.control.banks && s'.control.command == s.control.command
    requires forall r :: 0 <= r < c.numRanks ==>
               s'.ranks[r] == s.ranks[r].(refreshWaiting := s'.ranks[r].refreshWaiting)
    ensures AllReadsClear(c, s'.control, s'.ranks, c.RL(), s.now)
  {
    hide ReadsClear;
    forall r | 0 <= r < c.numRanks
      ensures ReadsClear(c, s'.control.banks[r], ReadLine(c, s'.ranks[r], s'.control.command, r), c.RL(), s.now)
    {
      assert ReadsClear(c, s.control.banks[r], ReadLine(c, s.ranks[r], s.control.command, r), c.RL(), s.now);
    }
  }

  /** The data bus and the refresh counters are no part of the core. */
  predicate SameCore(c: Config, s: System, s': System)
    requires Shape(c, s) && Shape(c, s')
  {
    && s'.now == s.now && s'.entered == s.entered && s'.issued == s.issued && s'.pending == s.pending
    && s'.queue == s.queue.(refreshWaiting := s'.queue.refreshWaiting, refreshRank := s'.queue.refreshRank)
    && s'.control.banks == s.control.banks && s'.control.powerDown == s.control.powerDown
    && s'.control.command == s.control.command
    && s'.control.pendingReads == s.control.pendingReads && s'.control.toReturn == s.control.toReturn
    && s'.control.transactions == s.control.transactions
    && forall r :: 0 <= r < c.numRanks ==> s'.ranks[r] == s.ranks[r].(refreshWaiting := s'.ranks[r].refreshWaiting)
  }

  lemma CoreFrame(c: Config, s: System, s': System)
    requires Shape(c, s) && Shape(c, s') && Core(c, s) && SameCore(c, s, s')
    ensures Core(c, s')
  {
    forall r | 0 <= r < c.numRanks ensures DataOnly(s'.ranks[r]) {
      assert DataOnly(s.ranks[r]);
    }
    hide InStepNow, QueueSide, AllReadsClear, DataOnly, BalancedFor, InOrder, QueueShape, ControlShape, Requests;
    InStepNowFrame(c, s, s');
    QueueSideFrame(c, s, s');
    ReadsFrame(c, s, s');
    OrderFrame(c, s, s');
    forall x: nat ensures BalancedFor(s', x) {
      assert BalancedFor(s, x);
      BalancedFrame(s, s', x);
    }
  }

  lemma WriteKeeps(c: Config, a: System)
    requires c.Valid() && Arrival(c, a)
    ensures WritePhase(c, DataPhase(c, a)).Success?
    ensures var w := WritePhase(c, DataPhase(c, a)).value;
            Core(c, w) && WritesClear(c, w.control, c.WL() - 1, w.now) && Scheduled(c, w.control, w.now)
  {
    hide Core, Scheduled, InStepNow;
    WritePhaseKeepsClear(c, a);
    var w := WritePhase(c, DataPhase(c, a)).value;
    hide WritesClear;
    CoreFrame(c, a, w);
    ScheduledFrame(c, a.control, w.control, a.now);
  }

  lemma RefreshKeeps(c: Config, w: System)
    requires c.Valid() && Shape(c, w) && Core(c, w) && WritesClear(c, w.control, c.WL() - 1, w.now)
             && Scheduled(c, w.control, w.now)
    ensures Mid(c, RefreshPhase(c, w))
  {
    hide Core, InStepNow, Spaced, Clear, Within, QueueShape;
    var f := RefreshPhase(c, w);
    var k: nat :| OnSchedule(c, w.control.refreshCountdown, w.control.refreshRank, w.now, k);
    var k' := CycleKeepsSchedule(c, w.control.refreshCountdown, w.control.refreshRank, w.now, k);
    hide OnSchedule;
    assert CountPhase(c, f).control.refreshCountdown == Counted(c, w.control.refreshCountdown, w.control.refreshRank);
    CoreFrame(c, w, f);
  }

  /** The first half of a cycle runs into no exit. */
  lemma FrontKeeps(c: Config, s: System)
    requires c.Valid() && Inv(c, s)
    ensures Front(c, s).Success? && Mid(c, Front(c, s).value)
  {
    hide Mid, Core, WritesClear, Scheduled, InStep, QueueSide, AllReadsClear, QueueShape, ControlShape;
    ArrivingKeeps(c, s);
    WriteKeeps(c, Arriving(c, s).value);
    RefreshKeeps(c, WritePhase(c, DataPhase(c, Arriving(c, s).value)).value);
  }

  // ---------------------------------------------------------------- the pop and what follows it

  /** From the pop to the end of the cycle; the command that was popped is on the bus. */
  ghost predicate Late(c: Config, s: System) {
    && Shape(c, s)
    && InStep(c, StepPhase(c, s)) && Busy(c, s.control)
    && QueueSide(c, StepPhase(c, s))
    && WritesClear(c, s.control, c.WL(), s.now)
    && AllReadsClear(c, s.control, s.ranks, c.RL() + 1, s.now)
    && AllData(s.ranks)
    && Scheduled(c, CountPhase(c, s).control, s.now + 1)
    && Balanced(s) && InOrder(c, s)
    && Requests(s.control.transactions) && Requests(s.pending)
  }

  predicate QueueKinds(c: Config, q: seq<Packet>) {
    |q| <= c.commandDepth && forall i :: 0 <= i < |q| ==> KindOk(c, q[i])
  }

  predicate AllQueueKinds(c: Config, queues: seq<seq<seq<Packet>>>) {
    forall r, l :: 0 <= r < |queues| && 0 <= l < |queues[r]| ==> QueueKinds(c, queues[r][l])
  }

  lemma BoundsAreQueueKinds(c: Config, v: QueueState)
    requires QueueShape(c, v)
    ensures KindsOk(c, v) && Bounded(c, v) <==> AllQueueKinds(c, v.queues)
  {
    if AllQueueKinds(c, v.queues) {
      forall r, l, i | 0 <= r < c.numRanks && 0 <= l < c.Slots() && 0 <= i < |v.queues[r][l]|
        ensures KindOk(c, v.queues[r][l][i])
      {
        assert QueueKinds(c, v.queues[r][l]);
      }
    }
  }

  lemma PutKeepsKinds(c: Config, queues: seq<seq<seq<Packet>>>, r: nat, slot: nat, q: seq<Packet>)
    requires AllQueueKinds(c, queues) && r < |queues| && slot < |queues[r]| && QueueKinds(c, q)
    ensures AllQueueKinds(c, DramQueue.Put(queues, r, slot, q))
  {
  }

  lemma WithoutKeepsKinds(c: Config, q: seq<Packet>, i: nat, withAct: bool)
    requires QueueKinds(c, q) && i < |q| && (withAct ==> i > 0)
    ensures QueueKinds(c, DramQueue.Without(q, i, withAct))
  {
    WithoutAt(q, i, withAct);
  }

  lemma RemovedKeepsBounds(c: Config, v: QueueState, banks: Table, now: int, choice: DramQueue.Choice)
    requires c.Valid() && QueueShape(c, v) && TableShape(c, banks) && KindsOk(c, v) && Bounded(c, v)
    requires DramQueue.Legal(c, v, banks, now, choice)
    ensures KindsOk(c, DramQueue.Removed(c, v, banks, now, choice))
            && Bounded(c, DramQueue.Removed(c, v, banks, now, choice))
  {
    BoundsAreQueueKinds(c, v);
    hide KindsOk, Bounded, QueueKinds, AllQueueKinds, DramQueue.Issuable, DramQueue.LegalClose, DramQueue.LegalRefresh;
    if choice.Take? {
      var Take(r, slot, i, withAct) := choice;
      assert withAct ==> i > 0;
      assert QueueKinds(c, v.queues[r][slot]) by { SlotKinds(c, v.queues, r, slot); }
      WithoutKeepsKinds(c, v.queues[r][slot], i, withAct);
      PutKeepsKinds(c, v.queues, r, slot, DramQueue.Without(v.queues[r][slot], i, withAct));
    }
    BoundsAreQueueKinds(c, DramQueue.Removed(c, v, banks, now, choice));
  }

  lemma SlotKinds(c: Config, queues: seq<seq<seq<Packet>>>, r: nat, slot: nat)
    requires AllQueueKinds(c, queues) && r < |queues| && slot < |queues[r]|
    ensures QueueKinds(c, queues[r][slot])
  {
  }

  lemma BoundsFrame(c: Config, v: QueueState, v': QueueState)
    requires QueueShape(c, v) && QueueShape(c, v') && KindsOk(c, v) && Bounded(c, v) && v'.queues == v.queues
    ensures KindsOk(c, v') && Bounded(c, v')
  {
  }

  lemma PopKeepsBounds(c: Config, v: QueueState, banks: Table, now: int)
    requires c.Valid() && QueueShape(c, v) && TableShape(c, banks) && KindsOk(c, v) && Bounded(c, v)
    ensures KindsOk(c, DramQueue.Pop(c, v, banks, now).0) && Bounded(c, DramQueue.Pop(c, v, banks, now).0)
  {
    hide DramQueue.Decide, DramQueue.Removed, DramQueue.Legal, KindsOk, Bounded, Placed;
    var v1 := DramQueue.Aged(c, v);
    BoundsFrame(c, v, v1);
    var choice := DramQueue.DecisionOf(c, v, banks, now).choice;
    RemovedKeepsBounds(c, v1, banks, now, choice);
    BoundsFrame(c, DramQueue.Removed(c, v1, banks, now, choice), DramQueue.Pop(c, v, banks, now).0);
  }

  lemma PopKeepsQueueSide(c: Config, s: System)
    requires Shape(c, s) && c.Valid() && QueueSide(c, s) && SaneTable(c, s.control.banks, s.now)
    requires PopPhase(c, s).Success?
    ensures QueueSide(c, StepPhase(c, PopPhase(c, s).value))
  {
    hide QueuesOk, KindsOk, SaneTable, Bounded, RowsOk, HistoryOk, WindowsOk, DramQueue.Pop;
    var m := s.control;
    PopKeepsQueues(c, s.queue, m.banks, s.now);
    PopKeepsBounds(c, s.queue, m.banks, s.now);
    PopKeepsRows(c, s.queue, m.banks, s.now, s.issued);
    PopKeepsWindows(c, s);
  }

  lemma MidGives(c: Config, s: System)
    requires Mid(c, s)
    ensures s.control.command.None? && SaneTable(c, s.control.banks, s.now)
    ensures KindsOk(c, s.queue) && QueuesOk(c, s.control.banks, s.queue)
    ensures forall r :: 0 <= r < c.numRanks ==> PowerAgrees(c, s.control.banks, s.control.powerDown, r)
  {
  }

  /** The pop phase hands the controller something it may issue, and otherwise only touches the queue. */
  lemma PopKeeps(c: Config, s: System)
    requires c.Valid() && Mid(c, s)
    ensures PopPhase(c, s).Success? && Late(c, PopPhase(c, s).value)
  {
    hide DramQueue.Pop, MayIssue, InStep, InStepNow, QueueSide, WritesClear, AllReadsClear, AllData, Balanced, InOrder,
         Scheduled,
         QueuesOk, KindsOk, SaneTable, PowerAgrees, QueueShape, IssueTable, Requests;
    MidGives(c, s);
    var (v, out) := DramQueue.Pop(c, s.queue, s.control.banks, s.now);
    PopMayIssue(c, s.queue, s.control.banks, s.control.powerDown, s.now);
    PopKeepsStep(c, s);
    SendIsBusy(c, s, v, out);
    SendKeepsWritesClear(c, s, v, out);
    SendKeepsReadsClear(c, s, v, out);
    PopKeepsQueueSide(c, s);
    PopKeepsOrder(c, s);
    PopKeepsBalance(c, s);
    ScheduledFrame(c, CountPhase(c, s).control, CountPhase(c, PopPhase(c, s).value).control, s.now + 1);
  }

  lemma PopKeepsBalance(c: Config, s: System)
    requires Shape(c, s) && c.Valid() && PopPhase(c, s).Success?
    requires QueuesOk(c, s.control.banks, s.queue) && s.control.command.None? && Balanced(s)
    ensures Balanced(PopPhase(c, s).value)
  {
    hide PopPhase, BalancedFor, Shape, QueuesOk;
    forall x: nat ensures BalancedFor(PopPhase(c, s).value, x) {
      assert BalancedFor(s, x);
      PopPhaseBalances(c, s, x);
    }
  }
}
