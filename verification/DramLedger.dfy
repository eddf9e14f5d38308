/** In every run the controller's bank table is what the commands sent and the wakings of the ranks make it. */
module DramLedger {
  import opened Outcomes
  import opened DramTypes
  import opened DramControl
  import opened DramTiming
  import opened DramTimes
  import opened DramOrder
  import opened DramProtocol
  import opened DramRuns
  import opened DramSpacing
  import opened DramPower
  import DramQueue

  ghost predicate BankOk(c: Config, m: BankState, issued: seq<Option<Packet>>, wake: Option<int>, r: nat, b: nat,
                         d: int)
  {
    PhaseOk(c, m, issued, r, b, d) && forall w :: TimeOk(c, m, issued, wake, r, b, w)
  }

  /** `d` is the last cycle in which the table has been ticked, `wakes` when each rank was last woken. */
  ghost predicate Ledger(c: Config, banks: Table, issued: seq<Option<Packet>>, wakes: seq<Option<int>>, d: int)
    requires TableShape(c, banks)
  {
    && |wakes| == c.numRanks
    && (forall r :: 0 <= r < c.numRanks && wakes[r].Some? ==> wakes[r].value < |issued|)
    && forall r, b :: 0 <= r < c.numRanks && 0 <= b < c.numBanks ==> BankOk(c, banks[r][b], issued, wakes[r], r, b, d)
  }

  // ---------------------------------------------------------------- each step

  lemma TickKeepsLedger(c: Config, banks: Table, issued: seq<Option<Packet>>, wakes: seq<Option<int>>, d: int)
    requires c.Valid() && TableShape(c, banks) && Ledger(c, banks, issued, wakes, d) && d >= |issued| - 1
    ensures Ledger(c, TickTable(c, banks), issued, wakes, d + 1)
  {
    var t: Table := TickTable(c, banks);
    forall r, b | 0 <= r < c.numRanks && 0 <= b < c.numBanks ensures BankOk(c, t[r][b], issued, wakes[r], r, b, d + 1) {
      assert BankOk(c, banks[r][b], issued, wakes[r], r, b, d);
      TickKeepsBank(c, banks[r][b], issued, wakes[r], r, b, d);
    }
  }

  lemma SameTimes(c: Config, m: BankState, m': BankState, issued: seq<Option<Packet>>, wake: Option<int>, r: nat,
                  b: nat, w: Wait)
    requires TimeOk(c, m, issued, wake, r, b, w)
    requires Earliest(m', w) == Earliest(m, w) && m'.nextActivate == m.nextActivate
    ensures TimeOk(c, m', issued, wake, r, b, w)
  {
    hide Waited, NoLonger, IsOpenRow;
  }

  lemma TickKeepsBank(c: Config, m: BankState, issued: seq<Option<Packet>>, wake: Option<int>, r: nat, b: nat, d: int)
    requires c.Valid() && BankOk(c, m, issued, wake, r, b, d) && d >= |issued| - 1
    ensures BankOk(c, TickBank(c, m), issued, wake, r, b, d + 1)
  {
    TickKeepsPhase(c, m, issued, r, b, d);
    hide PhaseOk, TimeOk;
    forall w ensures TimeOk(c, TickBank(c, m), issued, wake, r, b, w) {
      SameTimes(c, m, TickBank(c, m), issued, wake, r, b, w);
    }
  }

  /** The time for a refresh has come for every bank of a rank that is sent one. */
  lemma PopMayIssueNow(c: Config, v: DramTypes.QueueState, banks: Table, powerDown: seq<bool>, now: int)
    requires c.Valid() && QueueShape(c, v) && TableShape(c, banks) && |powerDown| == c.numRanks
    requires forall r :: 0 <= r < c.numRanks ==> PowerAgrees(c, banks, powerDown, r)
    requires KindsOk(c, v)
    ensures var out := DramQueue.Pop(c, v, banks, now).1; out.Some? ==> MayIssueNow(c, banks, out.value, now)
  {
    PopMayIssue(c, v, banks, powerDown, now);
    var a, choice := DramQueue.Aged(c, v), DramQueue.DecisionOf(c, v, banks, now).choice;
    hide DramQueue.Issuable, DramQueue.Decide, DramQueue.LegalScan, DramQueue.LegalDrain, DramQueue.LegalClose,
         MayIssue;
    if choice.Take? {
      var p := a.queues[choice.rank][choice.slot][choice.index];
      assert KindOk(c, p);
      assert PowerAgrees(c, banks, powerDown, p.rank);
    } else if choice != DramQueue.Nothing {
      assert PowerAgrees(c, banks, powerDown, choice.rank);
    }
  }

  lemma SendKeepsLedger(c: Config, banks: Table, issued: seq<Option<Packet>>, wakes: seq<Option<int>>, p: Packet)
    requires c.Valid() && TableShape(c, banks) && MayIssueNow(c, banks, p, |issued|)
    requires SaneTable(c, banks, |issued|) && Ledger(c, banks, issued, wakes, |issued|)
    ensures Ledger(c, IssueTable(c, banks, p, |issued|), issued + [Some(p)], wakes, |issued|)
  {
    var t: Table := IssueTable(c, banks, p, |issued|);
    hide MayIssueNow, PhaseOk, TimeOk, IssueBank, Sane;
    forall r, b | 0 <= r < c.numRanks && 0 <= b < c.numBanks
      ensures BankOk(c, t[r][b], issued + [Some(p)], wakes[r], r, b, |issued|)
    {
      assert BankOk(c, banks[r][b], issued, wakes[r], r, b, |issued|);
      assert Sane(c, banks[r][b], |issued|);
      IssueKeepsPhase(c, banks, p, issued, r, b);
      forall w ensures TimeOk(c, t[r][b], issued + [Some(p)], wakes[r], r, b, w) {
        IssueKeepsTime(c, banks, p, issued, wakes[r], r, b, w);
      }
    }
  }

  lemma NothingKeepsBank(c: Config, m: BankState, issued: seq<Option<Packet>>, wake: Option<int>, r: nat, b: nat,
                         d: int)
    requires BankOk(c, m, issued, wake, r, b, d) && (wake.Some? ==> wake.value < |issued|)
    ensures BankOk(c, m, issued + [None], wake, r, b, d)
  {
    var all := issued + [None];
    LastAppend(issued, None, r, b);
    assert forall u :: 0 <= u < |issued| ==> all[u] == issued[u];
    hide Last, Waited, NoLonger, Phase;
    forall w ensures TimeOk(c, m, all, wake, r, b, w) {
      assert TimeOk(c, m, issued, wake, r, b, w);
      WaitedAppend(c, issued, None, wake, r, b, w, Earliest(m, w), Earliest(m, w));
    }
  }

  lemma NothingKeepsLedger(c: Config, banks: Table, issued: seq<Option<Packet>>, wakes: seq<Option<int>>, d: int)
    requires TableShape(c, banks) && Ledger(c, banks, issued, wakes, d)
    ensures Ledger(c, banks, issued + [None], wakes, d)
  {
    hide BankOk;
    forall r, b | 0 <= r < c.numRanks && 0 <= b < c.numBanks
      ensures BankOk(c, banks[r][b], issued + [None], wakes[r], r, b, d)
    {
      assert BankOk(c, banks[r][b], issued, wakes[r], r, b, d);
      NothingKeepsBank(c, banks[r][b], issued, wakes[r], r, b, d);
    }
  }

  /** A bank that is put to sleep. */
  lemma SleepKeepsBank(c: Config, m: BankState, issued: seq<Option<Packet>>, wake: Option<int>, r: nat, b: nat, d: int,
                       until: int)
    requires BankOk(c, m, issued, wake, r, b, d) && m.status == Idle
    ensures BankOk(c, m.(status := PowerDown, nextPowerUp := until), issued, wake, r, b, d)
  {
    var m' := m.(status := PowerDown, nextPowerUp := until);
    hide Last, TimeOk;
    forall w ensures TimeOk(c, m', issued, wake, r, b, w) {
      SameTimes(c, m, m', issued, wake, r, b, w);
    }
  }

  /** A bank that is woken forgets what it waited for before an ACTIVATE. */
  lemma WakeKeepsBank(c: Config, m: BankState, issued: seq<Option<Packet>>, wake: Option<int>, r: nat, b: nat, d: int,
                      now: int)
    requires BankOk(c, m, issued, wake, r, b, d) && m.status == PowerDown && now >= |issued| - 1 && c.lowPower
    ensures BankOk(c, m.(status := Idle, nextActivate := now + c.tXP), issued, Some(now), r, b, d)
  {
    var m' := m.(status := Idle, nextActivate := now + c.tXP);
    assert PhaseOk(c, m', issued, r, b, d) by { PhaseIsStatus(c, m, issued, r, b, d); }
    hide PhaseOk, GapAt, NotClosedSince, IsOpenRow;
    forall w ensures TimeOk(c, m', issued, Some(now), r, b, w) {
      assert TimeOk(c, m, issued, wake, r, b, w);
      forall t: nat ensures w != ToActivate ==>
                              (HeldBy(c, issued, Some(now), r, b, w, t) <==> HeldBy(c, issued, wake, r, b, w, t)) {}
    }
  }

  // ---------------------------------------------------------------- a cycle

  /** When each rank was last woken, after a cycle that left `after` of the flags `before` and ended at `now`. */
  function Woken(wakes: seq<Option<int>>, before: seq<bool>, after: seq<bool>, now: int): (w: seq<Option<int>>)
    requires |before| == |after| == |wakes|
    ensures |w| == |wakes|
    ensures forall r :: 0 <= r < |w| ==> w[r] == if before[r] && !after[r] then Some(now) else wakes[r]
  {
    seq(|wakes|, r requires 0 <= r < |wakes| => if before[r] && !after[r] then Some(now) else wakes[r])
  }

  ghost predicate RowsLedger(c: Config, row: seq<BankState>, issued: seq<Option<Packet>>, wake: Option<int>, r: nat,
                             d: int)
    requires |row| == c.numBanks
  {
    forall b :: 0 <= b < c.numBanks ==> BankOk(c, row[b], issued, wake, r, b, d)
  }

  lemma PoweredKeepsRow(c: Config, s: System, u: System, r: nat, wake: Option<int>)
    requires Shape(c, s) && Shape(c, u) && r < c.numRanks && c.lowPower && s.now >= |s.issued| - 1
    requires Powered(c, s, u, r) && PowerAgrees(c, s.control.banks, s.control.powerDown, r)
    requires RowsLedger(c, s.control.banks[r], s.issued, wake, r, s.now)
    ensures RowsLedger(c, u.control.banks[r], s.issued,
                       if s.control.powerDown[r] && !u.control.powerDown[r] then Some(s.now) else wake, r, s.now)
  {
    hide BankOk, HasWork, RankShape, QueueShape;
    var row, row' := s.control.banks[r], u.control.banks[r];
    if FellAsleep(c, s, u, r) && AllBanksIdle(c, s, r) && !HasWork(c, s, r) {
      forall b | 0 <= b < c.numBanks ensures BankOk(c, row'[b], s.issued, wake, r, b, s.now) {
        SleepKeepsBank(c, row[b], s.issued, wake, r, b, s.now, s.now + c.tCKE);
      }
    } else if Awoke(c, s, u, r) && s.control.powerDown[r] {
      forall b | 0 <= b < c.numBanks ensures BankOk(c, row'[b], s.issued, Some(s.now), r, b, s.now) {
        WakeKeepsBank(c, row[b], s.issued, wake, r, b, s.now, s.now);
      }
    }
  }

  lemma PowerKeepsLedger(c: Config, s: System, wakes: seq<Option<int>>)
    requires Shape(c, s) && c.Valid() && s.now == |s.issued| - 1 && PowerPhase(c, s, 0).Success?
    requires forall r :: 0 <= r < c.numRanks ==> PowerAgrees(c, s.control.banks, s.control.powerDown, r)
    requires Ledger(c, s.control.banks, s.issued, wakes, s.now)
    ensures var u := PowerPhase(c, s, 0).value;
            Ledger(c, u.control.banks, s.issued, Woken(wakes, s.control.powerDown, u.control.powerDown, s.now), s.now)
  {
    hide BankOk, Powered, PowerAgrees, PowerRank, RanksShape, QueueShape;
    var u := PowerPhase(c, s, 0).value;
    if c.lowPower {
      PowerPhaseIsRight(c, s, 0);
      var w := Woken(wakes, s.control.powerDown, u.control.powerDown, s.now);
      forall r | 0 <= r < c.numRanks ensures RowsLedger(c, u.control.banks[r], s.issued, w[r], r, s.now) {
        PoweredKeepsRow(c, s, u, r, wakes[r]);
      }
    } else {
      assert u == s && Woken(wakes, s.control.powerDown, u.control.powerDown, s.now) == wakes;
    }
  }

  /** The ledger of a state between cycles. */
  ghost predicate Kept(c: Config, s: System, wakes: seq<Option<int>>)
    requires Shape(c, s)
  {
    s.now == |s.issued| && Ledger(c, s.control.banks, s.issued, wakes, s.now - 1)
  }

  lemma FrontKeepsLedger(c: Config, s: System, wakes: seq<Option<int>>)
    requires c.Valid() && Inv(c, s) && Kept(c, s, wakes)
    ensures Front(c, s).Success?
    ensures var f := Front(c, s).value;
            && f.now == |f.issued| && f.issued == s.issued && f.now == s.now
            && f.control.powerDown == s.control.powerDown
            && Ledger(c, f.control.banks, f.issued, wakes, f.now)
  {
    assert Shape(c, s);
    hide Inv, Front, BankOk, TickTable, Ledger;
    FrontTicks(c, s);
    TickKeepsLedger(c, s.control.banks, s.issued, wakes, s.now - 1);
  }

  lemma PopKeepsLedger(c: Config, s: System, wakes: seq<Option<int>>)
    requires c.Valid() && Mid(c, s) && s.now == |s.issued| && Ledger(c, s.control.banks, s.issued, wakes, s.now)
    ensures PopPhase(c, s).Success?
    ensures var p := PopPhase(c, s).value;
            && p.now == s.now == |p.issued| - 1 && p.control.powerDown == s.control.powerDown
            && Ledger(c, p.control.banks, p.issued, wakes, p.now)
  {
    hide Ledger, DramQueue.Pop, Mid, MayIssueNow, IssueTable, SaneTable, Late, QueueShape, RanksShape, KindsOk,
         QueuesOk, PowerAgrees;
    MidIsOnTime(c, s);
    MidGives(c, s);
    PopKeeps(c, s);
    PopMayIssueNow(c, s.queue, s.control.banks, s.control.powerDown, s.now);
    var out := DramQueue.Pop(c, s.queue, s.control.banks, s.now).1;
    if out.Some? {
      SendKeepsLedger(c, s.control.banks, s.issued, wakes, out.value);
    } else {
      NothingKeepsLedger(c, s.control.banks, s.issued, wakes, s.now);
    }
  }

  lemma LateAgrees(c: Config, s: System)
    requires Late(c, s)
    ensures Shape(c, s)
    ensures forall r :: 0 <= r < c.numRanks ==> PowerAgrees(c, s.control.banks, s.control.powerDown, r)
  {
  }

  lemma AdmitChangesNoBank(c: Config, s: System)
    requires Shape(c, s) && c.Sized() && Served(c, s).Success?
    ensures var a := AdmitPhase(c, s, 0).value;
            && a.control.banks == s.control.banks && a.control.powerDown == s.control.powerDown
            && a.issued == s.issued && a.now == s.now && PowerPhase(c, a, 0).Success?
            && Finish(c, Served(c, s).value).control.banks == PowerPhase(c, a, 0).value.control.banks
            && Finish(c, Served(c, s).value).control.powerDown == PowerPhase(c, a, 0).value.control.powerDown
            && Finish(c, Served(c, s).value).issued == s.issued && Finish(c, Served(c, s).value).now == s.now + 1
  {
    hide AdmitPhase, PowerPhase, QueueShape, RanksShape;
  }

  lemma ServedKeepsLedger(c: Config, s: System, wakes: seq<Option<int>>)
    requires c.Valid() && Late(c, s) && s.now == |s.issued| - 1 && Ledger(c, s.control.banks, s.issued, wakes, s.now)
    ensures Served(c, s).Success?
    ensures var u := Finish(c, Served(c, s).value);
            Kept(c, u, Woken(wakes, s.control.powerDown, u.control.powerDown, s.now))
  {
    ServedKeeps(c, s);
    LateAgrees(c, s);
    AdmitChangesNoBank(c, s);
    hide Late, Ledger, AdmitPhase, PowerPhase, PowerAgrees, Finish, Served, QueueShape, RanksShape;
    PowerKeepsLedger(c, AdmitPhase(c, s, 0).value, wakes);
  }

  lemma CycleKeepsLedger(c: Config, s: System, wakes: seq<Option<int>>)
    requires c.Valid() && Inv(c, s) && Kept(c, s, wakes)
    ensures Update(c, s).Success?
    ensures var u := Update(c, s).value; Kept(c, u, Woken(wakes, s.control.powerDown, u.control.powerDown, s.now))
  {
    FrontKeepsLedger(c, s, wakes);
    FrontKeeps(c, s);
    var f := Front(c, s).value;
    PopKeepsLedger(c, f, wakes);
    PopKeeps(c, f);
    ServedKeepsLedger(c, PopPhase(c, f).value, wakes);
    hide Inv, Mid, Late, Shape, Front, PopPhase, Served, Finish, Ledger;
  }

  // ---------------------------------------------------------------- runs

  /** When each rank was last woken in a run. */
  function Wakes(c: Config, events: seq<Event>): (w: seq<Option<int>>)
    requires c.Sized()
    ensures |w| == c.numRanks
  {
    if events == [] then seq(c.numRanks, _ => None) else
    var before := events[..|events|-1];
    WokenBy(c, Wakes(c, before), Exec(c, before), Exec(c, events))
  }

  function WokenBy(c: Config, wakes: seq<Option<int>>, s: Result<System, Exit>, u: Result<System, Exit>):
      (w: seq<Option<int>>)
    requires |wakes| == c.numRanks
    requires (s.Success? ==> Shape(c, s.value)) && (u.Success? ==> Shape(c, u.value))
    ensures |w| == c.numRanks
  {
    if s.Success? && u.Success? then
      Woken(wakes, s.value.control.powerDown, u.value.control.powerDown, s.value.now)
    else wakes
  }

  lemma ArriveKeepsLedger(c: Config, s: System, wakes: seq<Option<int>>, isWrite: bool, address: nat)
    requires Shape(c, s) && Kept(c, s, wakes)
    ensures var u := Arrive(c, s, isWrite, address);
            Kept(c, u, Woken(wakes, s.control.powerDown, u.control.powerDown, s.now))
  {
    hide BankOk, QueueShape, RanksShape;
    var u := Arrive(c, s, isWrite, address);
    assert Woken(wakes, s.control.powerDown, u.control.powerDown, s.now) == wakes;
  }

  lemma InitialLedger(c: Config)
    requires c.Valid()
    ensures Kept(c, Initial(c), seq(c.numRanks, _ => None))
  {
    forall r, b, w | 0 <= r < c.numRanks && 0 <= b < c.numBanks
      ensures TimeOk(c, FRESH_BANK, [], None, r, b, w) && PhaseOk(c, FRESH_BANK, [], r, b, -1) {}
    hide TimeOk, PhaseOk;
  }

  lemma {:induction false} RunKeepsLedger(c: Config, events: seq<Event>)
    requires c.Valid()
    ensures Exec(c, events).Success? && Inv(c, Exec(c, events).value)
    ensures Kept(c, Exec(c, events).value, Wakes(c, events))
  {
    hide Inv, Shape, Update, Kept, Initial, Arrive, Woken;
    RunIsSafe(c, events);
    if events == [] {
      InitialLedger(c);
    } else {
      var before := events[..|events|-1];
      RunKeepsLedger(c, before);
      RunIsSafe(c, before);
      var s := Exec(c, before).value;
      match events[|events|-1]
      case Request(isWrite, address) => ArriveKeepsLedger(c, s, Wakes(c, before), isWrite, address);
      case Cycle => CycleKeepsLedger(c, s, Wakes(c, before));
    }
  }
}
