/** In every run, what the controller finds ready to be sent is exactly what the commands sent before allow. */
module DramReady {
  import opened Outcomes
  import opened DramTypes
  import opened DramControl
  import opened DramTiming
  import opened DramTimes
  import opened DramOrder
  import opened DramBus
  import opened DramHistory
  import opened DramReads
  import opened DramUses
  import opened DramWindow
  import opened DramProtocol
  import opened DramAdmission
  import opened DramSpacing
  import opened DramLedger
  import opened DramDecision
  import opened DramProgress
  import DramQueue

  /** Four ACTIVATEs of the rank are less than tFAW cycles old. */
  predicate FourRecent(c: Config, issued: seq<Option<Packet>>, r: nat, now: int) {
    var t := ActTimes(issued, r);
    |t| >= 4 && t[|t|-4] + c.tFAW > now
  }

  /**
   * What was sent before allows the command: a bank of a rank that is awake is activated while it is idle or being
   * refreshed and no four ACTIVATEs of its rank are recent, a column command needs its row open and not used up, a
   * PRECHARGE some row open; and none comes sooner than every command before it allows.
   */
  ghost predicate Allowed(c: Config, issued: seq<Option<Packet>>, wake: Option<int>, asleep: bool, now: int, p: Packet)
  {
    var h := RowOf(issued, p.rank, p.bank);
    match p.kind
    case Activate =>
      && !asleep && StatusIn(c, issued, p.rank, p.bank, now) in {Idle, Refreshing}
      && Waited(c, issued, wake, p.rank, p.bank, ToActivate, now) && !FourRecent(c, issued, p.rank, now)
    case Read | ReadP =>
      && h.open && p.row == h.row && h.uses <= c.totalRowAccesses
      && Waited(c, issued, wake, p.rank, p.bank, ToRead, now)
    case Write | WriteP =>
      && h.open && p.row == h.row && h.uses <= c.totalRowAccesses
      && Waited(c, issued, wake, p.rank, p.bank, ToWrite, now)
    case Precharge =>
      && StatusIn(c, issued, p.rank, p.bank, now) == RowActive
      && Waited(c, issued, wake, p.rank, p.bank, ToPrecharge, now)
    case Refresh => false
    case Data => true
  }

  /** A bank's time has come exactly if everything that held it has been waited for. */
  lemma TimeHasComeIff(c: Config, m: BankState, issued: seq<Option<Packet>>, wake: Option<int>, r: nat, b: nat, w: Wait,
                       now: int)
    requires TimeOk(c, m, issued, wake, r, b, w) && now >= 0
    ensures now >= Earliest(m, w) ==> Waited(c, issued, wake, r, b, w, now)
    ensures || (w in {ToRead, ToWrite} && c.policy == ClosePage && (c.lowPower || !IsOpenRow(issued, r, b)))
            || (Waited(c, issued, wake, r, b, w, now) ==> now >= Earliest(m, w))
  {
    hide HeldBy, GapAt, IsOpenRow;
  }

  lemma WindowIff(c: Config, times: seq<int>, window: seq<nat>, now: int)
    requires WindowOk(c, times, window, now)
    ensures |window| < 4 <==> !(|times| >= 4 && times[|times|-4] + c.tFAW > now)
  {
    var n, m := |times|, |window|;
    if m == 4 {
      assert window[0] == times[n-m..][0] + c.tFAW - now;
    } else if n >= 4 {
      assert times[n-4] + c.tFAW <= now;
    }
  }

  lemma OpenIff(c: Config, m: BankState, issued: seq<Option<Packet>>, r: nat, b: nat, d: int)
    requires c.Valid() && PhaseOk(c, m, issued, r, b, d)
    ensures Live(m) <==> IsOpenRow(issued, r, b)
  {
  }

  /** The counter of an open row is one less than its uses, unless there were none. */
  lemma UsesIff(c: Config, row: seq<BankState>, access: seq<nat>, q: seq<Packet>, b: nat, h: Row)
    requires c.Valid() && b < |row| == |access| && InRange(q, |row|)
    requires QueueOk(row, access, q) && RowOk(c, row[b], q, access[b], b, h) && Live(row[b])
    ensures access[b] < c.totalRowAccesses <==> h.uses <= c.totalRowAccesses
  {
    if HasOrphan(q, b) {
      var j :| 0 <= j < |q| && Orphan(q, j) && q[j].bank == b;
      assert OrphanOk(row, access, q, j);
    }
  }

  /** What the pop reads, at its time. */
  ghost predicate AtPop(c: Config, s: System, wakes: seq<Option<int>>) {
    && Mid(c, s) && s.now == |s.issued| && |wakes| == c.numRanks
    && Ledger(c, s.control.banks, s.issued, wakes, s.now)
  }

  lemma BankAtPop(c: Config, s: System, wakes: seq<Option<int>>, r: nat, b: nat)
    requires c.Valid() && AtPop(c, s, wakes) && r < c.numRanks && b < c.numBanks
    ensures Shape(c, s) && s.now >= 0 && |wakes| == c.numRanks
    ensures var m, h := s.control.banks[r][b], RowOf(s.issued, r, b);
            && BankOk(c, m, s.issued, wakes[r], r, b, s.now)
            && (m.status == PowerDown <==> s.control.powerDown[r])
            && (m.status == RowActive && (s.now >= m.nextRead || s.now >= m.nextWrite) ==> Live(m))
            && (Live(m) <==> h.open) && (h.open ==> m.openRow == h.row)
            && (h.open ==> (s.queue.rowAccess[r][b] < c.totalRowAccesses <==> h.uses <= c.totalRowAccesses))
  {
    hide BankOk, WindowsOk, AllReadsClear, Balanced, InOrder, QueueOk, OrphanOk, RowOf;
    MidGives(c, s);
    assert PowerAgrees(c, s.control.banks, s.control.powerDown, r);
    var q := s.queue.queues[r][c.Slot(b)];
    assert Placed(c, q, r, c.Slot(b));
    assert RowOk(c, s.control.banks[r][b], q, s.queue.rowAccess[r][b], b, RowOf(s.issued, r, b));
    assert QueueOk(s.control.banks[r], s.queue.rowAccess[r], q);
    assert Sane(c, s.control.banks[r][b], s.now);
    if Live(s.control.banks[r][b]) {
      UsesIff(c, s.control.banks[r], s.queue.rowAccess[r], q, b, RowOf(s.issued, r, b));
    }
  }

  lemma WindowAtPop(c: Config, s: System, wakes: seq<Option<int>>, r: nat)
    requires c.Valid() && AtPop(c, s, wakes) && r < c.numRanks
    ensures Shape(c, s)
    ensures |DramQueue.Aged(c, s.queue).faw[r]| < 4 <==> !FourRecent(c, s.issued, r, s.now)
  {
    hide BankOk, AllReadsClear, Balanced, InOrder, QueuesOk, RowsOk, ActTimes, DramQueue.Age, WindowOk, Ledger;
    assert Shape(c, s) && WindowsOk(c, s);
    ActTimesIncrease(s.issued, r);
    assert WindowOk(c, ActTimes(s.issued, r), s.queue.faw[r], s.now - 1);
    AgeKeepsWindow(c, ActTimes(s.issued, r), s.queue.faw[r], s.now);
    WindowIff(c, ActTimes(s.issued, r), DramQueue.Age(s.queue.faw[r]), s.now);
  }

  /** What a command of this kind waits for. */
  function WaitFor(k: Kind): Wait {
    match k
    case Read | ReadP => ToRead
    case Write | WriteP => ToWrite
    case Precharge => ToPrecharge
    case _ => ToActivate
  }

  /**
   * What the controller finds ready is allowed, and whatever is allowed it finds ready; with auto-precharge and power
   * management a column command may also be kept waiting for what its bank had to wait for before the rank slept.
   */
  lemma ReadyIff(c: Config, s: System, wakes: seq<Option<int>>, p: Packet)
    requires c.Valid() && AtPop(c, s, wakes) && p.rank < c.numRanks && p.bank < c.numBanks
    ensures Shape(c, s)
    ensures var ready := DramQueue.Issuable(c, DramQueue.Aged(c, s.queue), s.control.banks, s.now, p);
            var allowed := Allowed(c, s.issued, wakes[p.rank], s.control.powerDown[p.rank], s.now, p);
            && (ready ==> allowed)
            && (allowed ==> ready || (IsColumn(p.kind) && c.policy == ClosePage && c.lowPower))
  {
    hide AtPop, PhaseOk, TimeOk, Waited, StatusIn, RowOf, FourRecent, IsOpenRow, Placed, RanksShape, DramQueue.AgeAll;
    var r, b := p.rank, p.bank;
    BankAtPop(c, s, wakes, r, b);
    WindowAtPop(c, s, wakes, r);
    var m := s.control.banks[r][b];
    OpenIff(c, m, s.issued, r, b, s.now);
    PhaseIsStatus(c, m, s.issued, r, b, s.now);
    TimeHasComeIff(c, m, s.issued, wakes[r], r, b, WaitFor(p.kind), s.now);
    var v := DramQueue.Aged(c, s.queue);
    EntryIff(c, m, p, s.now, v.rowAccess[r][b], |v.faw[r]|, RowOf(s.issued, r, b),
             StatusIn(c, s.issued, r, b, s.now), s.control.powerDown[r]);
    hide Live, EntryReady, DramQueue.Issuable;
    assert DramQueue.Issuable(c, v, s.control.banks, s.now, p)
           <==> EntryReady(c, m, p, s.now, v.rowAccess[r][b], |v.faw[r]|) by {
      SameTest(c, v, s.control.banks, s.now, p);
    }
    AllowedIs(c, s.issued, wakes[r], s.control.powerDown[r], s.now, p);
    hide Allowed;
  }

  lemma SameTest(c: Config, v: DramTypes.QueueState, banks: Table, now: int, p: Packet)
    requires QueueShape(c, v) && TableShape(c, banks) && p.rank < c.numRanks && p.bank < c.numBanks
    ensures DramQueue.Issuable(c, v, banks, now, p) <==>
            EntryReady(c, banks[p.rank][p.bank], p, now, v.rowAccess[p.rank][p.bank], |v.faw[p.rank]|)
  {
  }

  /** The controller's test on one bank, by its entry, its use counter and the length of its rank's window. */
  predicate EntryReady(c: Config, m: BankState, p: Packet, now: int, access: nat, window: nat) {
    match p.kind
    case Activate => m.status in {Idle, Refreshing} && now >= m.nextActivate && window < 4
    case Read | ReadP => m.status == RowActive && now >= m.nextRead && p.row == m.openRow && access < c.totalRowAccesses
    case Write | WriteP =>
      m.status == RowActive && now >= m.nextWrite && p.row == m.openRow && access < c.totalRowAccesses
    case Precharge => m.status == RowActive && now >= m.nextPrecharge
    case Refresh => false
    case Data => true
  }

  /** The same by what the history says of the bank. */
  predicate HistoryReady(c: Config, p: Packet, h: Row, status: Status, asleep: bool, due: bool, few: bool) {
    match p.kind
    case Activate => !asleep && status in {Idle, Refreshing} && due && few
    case Read | ReadP | Write | WriteP => h.open && p.row == h.row && h.uses <= c.totalRowAccesses && due
    case Precharge => status == RowActive && due
    case Refresh => false
    case Data => true
  }

  lemma EntryIff(c: Config, m: BankState, p: Packet, now: int, access: nat, window: nat, h: Row, status: Status,
                 asleep: bool)
    requires (m.status == PowerDown <==> asleep) && m.status == (if asleep then PowerDown else status)
    requires asleep ==> status == Idle
    requires m.status == RowActive && (now >= m.nextRead || now >= m.nextWrite) ==> Live(m)
    requires (Live(m) <==> h.open) && (h.open ==> m.openRow == h.row)
    requires h.open ==> (access < c.totalRowAccesses <==> h.uses <= c.totalRowAccesses)
    ensures EntryReady(c, m, p, now, access, window) <==>
            HistoryReady(c, p, h, status, asleep, now >= Earliest(m, WaitFor(p.kind)), window < 4)
  {
  }

  lemma AllowedIs(c: Config, issued: seq<Option<Packet>>, wake: Option<int>, asleep: bool, now: int, p: Packet)
    ensures Allowed(c, issued, wake, asleep, now, p) <==>
            HistoryReady(c, p, RowOf(issued, p.rank, p.bank), StatusIn(c, issued, p.rank, p.bank, now), asleep,
                         Waited(c, issued, wake, p.rank, p.bank, WaitFor(p.kind), now),
                         !FourRecent(c, issued, p.rank, now))
  {
    hide RowOf, StatusIn, Waited, FourRecent;
  }

  /** A bank holds a refresh of its rank up exactly while its row is open or it may not be activated. */
  lemma HoldsUpIff(c: Config, s: System, wakes: seq<Option<int>>, r: nat, b: nat)
    requires c.Valid() && AtPop(c, s, wakes) && r < c.numRanks && b < c.numBanks
    ensures Shape(c, s)
    ensures HoldsUp(s.control.banks[r][b], s.now) <==>
              || StatusIn(c, s.issued, r, b, s.now) == RowActive
              || !Waited(c, s.issued, wakes[r], r, b, ToActivate, s.now)
  {
    BankAtPop(c, s, wakes, r, b);
    var m := s.control.banks[r][b];
    PhaseIsStatus(c, m, s.issued, r, b, s.now);
    TimeHasComeIff(c, m, s.issued, wakes[r], r, b, ToActivate, s.now);
    hide AtPop, PhaseOk, TimeOk, Waited, StatusIn;
  }

  // ---------------------------------------------------------------- runs

  lemma RunIsAtPop(c: Config, events: seq<Event>)
    requires c.Valid()
    ensures Exec(c, events).Success? && AtPop(c, BeforePop(c, events), Wakes(c, events))
    ensures BeforePop(c, events).control.powerDown == Exec(c, events).value.control.powerDown
    ensures BeforePop(c, events).issued == Exec(c, events).value.issued
  {
    hide Exec, Inv, Mid, Front, Ledger, Shape, PopPhase;
    RunKeepsLedger(c, events);
    RunReachesAdmission(c, events);
    var s := Exec(c, events).value;
    assert Shape(c, s) by { InvGivesShape(c, s); }
    FrontKeepsLedger(c, s, Wakes(c, events));
    FrontKeeps(c, s);
  }

  lemma InvGivesShape(c: Config, s: System)
    requires Inv(c, s)
    ensures Shape(c, s)
  {
  }

  /**
   * In every run, a command is found ready by the next cycle only if what was sent before allows it, and whenever that
   * allows it; with auto-precharge and power management, column commands only if.
   */
  lemma RunFindsReadyIff(c: Config, events: seq<Event>, p: Packet)
    requires c.Valid() && p.rank < c.numRanks && p.bank < c.numBanks
    ensures Exec(c, events).Success?
    ensures var f := BeforePop(c, events);
            var ready := DramQueue.Issuable(c, DramQueue.Aged(c, f.queue), f.control.banks, f.now, p);
            var allowed := Allowed(c, Exec(c, events).value.issued, Wakes(c, events)[p.rank],
                                   Exec(c, events).value.control.powerDown[p.rank], f.now, p);
            && f.now == |f.issued|
            && (ready ==> allowed)
            && (allowed ==> ready || (IsColumn(p.kind) && c.policy == ClosePage && c.lowPower))
  {
    hide Exec, BeforePop, Allowed, DramQueue.Issuable, Ledger, Mid;
    RunIsAtPop(c, events);
    ReadyIff(c, BeforePop(c, events), Wakes(c, events), p);
  }

  /** In every run, a bank holds a waiting refresh up exactly while its row is open or it may not be activated. */
  lemma RunHoldsUpIff(c: Config, events: seq<Event>, r: nat, b: nat)
    requires c.Valid() && r < c.numRanks && b < c.numBanks
    ensures Exec(c, events).Success?
    ensures var f := BeforePop(c, events);
            HoldsUp(f.control.banks[r][b], f.now) <==>
              || StatusIn(c, f.issued, r, b, f.now) == RowActive
              || !Waited(c, f.issued, Wakes(c, events)[r], r, b, ToActivate, f.now)
  {
    hide Exec, BeforePop, Waited, StatusIn, Ledger, Mid, HoldsUp;
    RunIsAtPop(c, events);
    HoldsUpIff(c, BeforePop(c, events), Wakes(c, events), r, b);
  }

  /** The banks a command needs: a REFRESH all of its rank, and ready to be activated. */
  predicate Needs(c: Config, p: Packet, b: nat) {
    b < c.numBanks && (p.kind == Refresh || b == p.bank)
  }

  /** In every run, no command is sent sooner after an earlier one than the two allow. */
  lemma RunKeepsDistances(c: Config, events: seq<Event>, b: nat)
    requires c.Valid()
    ensures Exec(c, events).Success? && Exec(c, events + [Cycle]).Success?
    ensures var s, issued := Exec(c, events).value, Exec(c, events + [Cycle]).value.issued;
            && |issued| == |s.issued| + 1
            && var out := issued[|s.issued|];
            (out.Some? ==>
               && out.value.rank < c.numRanks
               && (Needs(c, out.value, b) ==>
                     Waited(c, s.issued, Wakes(c, events)[out.value.rank], out.value.rank, b, WaitFor(out.value.kind),
                            |s.issued|)))
  {
    hide Exec, BeforePop, DramQueue.Pop, Waited, Ledger, Mid, PopPhase, MayIssueNow;
    RunIsAtPop(c, events);
    CycleIssuesPop(c, events);
    var f := BeforePop(c, events);
    PopHasWaited(c, f, Wakes(c, events), b);
  }

  lemma PopHasWaited(c: Config, s: System, wakes: seq<Option<int>>, b: nat)
    requires c.Valid() && AtPop(c, s, wakes)
    ensures Shape(c, s)
    ensures var out := DramQueue.Pop(c, s.queue, s.control.banks, s.now).1;
            out.Some? ==>
              && out.value.rank < c.numRanks
              && (Needs(c, out.value, b) ==>
                    Waited(c, s.issued, wakes[out.value.rank], out.value.rank, b, WaitFor(out.value.kind), s.now))
  {
    hide DramQueue.Pop, Waited, Mid, PhaseOk, TimeOk, QueuesOk, KindsOk, PowerAgrees, SaneTable, Placed;
    MidIsOnTime(c, s);
    MidGives(c, s);
    PopMayIssueNow(c, s.queue, s.control.banks, s.control.powerDown, s.now);
    var out := DramQueue.Pop(c, s.queue, s.control.banks, s.now).1;
    if out.Some? && Needs(c, out.value, b) {
      var p := out.value;
      assert BankOk(c, s.control.banks[p.rank][b], s.issued, wakes[p.rank], p.rank, b, s.now);
      TimeHasComeIff(c, s.control.banks[p.rank][b], s.issued, wakes[p.rank], p.rank, b, WaitFor(p.kind), s.now);
    }
  }
}
