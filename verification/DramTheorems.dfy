/** What every run of the memory system guarantees to somebody who only sees its commands and its answers. */
module DramTheorems {
  import opened Bits
  import opened Outcomes
  import opened AddressMap
  import opened DramTypes
  import opened DramControl
  import opened DramTiming
  import opened DramBus
  import opened DramOrder
  import opened DramHistory
  import opened DramWindow
  import opened DramUses
  import opened DramRefresh
  import opened DramReads
  import opened DramProtocol
  import opened DramRuns
  import DramQueue

  /** Column commands for one row leave in the order they entered; those that have not left still wait, in order. */
  lemma RunIsFifo(c: Config, events: seq<Event>, k: Key)
    requires c.Valid() && k.rank < c.numRanks && k.bank < c.numBanks
    ensures Exec(c, events).Success?
    ensures var s := Exec(c, events).value;
            Picks(s.entered, k) == Picks(Sent(s.issued), k) + Waiting(c, s.queue, k)
  {
    RunIsSafe(c, events);
    hide Picks, Sent, QueueSide, Exec;
    assert InOrderFor(c, Exec(c, events).value, k);
  }

  lemma InvGivesWindows(c: Config, s: System)
    requires Inv(c, s)
    ensures Shape(c, s) && WindowsOk(c, s)
  {
    assert QueueSide(c, s);
  }

  /** No rank is sent five ACTIVATEs within tFAW cycles. */
  lemma RunSpreadsActivates(c: Config, events: seq<Event>, r: nat, t: seq<nat>)
    requires c.Valid() && r < c.numRanks
    requires Exec(c, events).Success? && FiveActivates(Exec(c, events).value.issued, r, t)
    ensures |t| == 5 && t[4] - t[0] >= c.tFAW
  {
    RunIsSafe(c, events);
    hide *;
    InvGivesWindows(c, Exec(c, events).value);
    FiveActivatesAreSpread(c, Exec(c, events).value, r, t);
  }

  /**
   * Every command fits what was sent before: an ACTIVATE is for a closed bank, a column command for an open one and the
   * row open in it, a PRECHARGE for an open bank after at least one and at most TOTAL_ROW_ACCESSES + 1 uses, and a
   * REFRESH for a rank whose banks are all closed.
   */
  lemma RunUsesOpenedRows(c: Config, events: seq<Event>, t: nat)
    requires c.Valid() && Exec(c, events).Success?
    requires t < |Exec(c, events).value.issued| && Exec(c, events).value.issued[t].Some?
    ensures FitsHistory(c, Exec(c, events).value.issued[..t], Exec(c, events).value.issued[t].value)
  {
    RunIsSafe(c, events);
    hide Exec, FitsHistory, QueuesOk, RowsOk, WindowsOk;
  }

  /** After every run, no rank is about to overwrite a read that is still on its data bus. */
  lemma RunOverwritesNoRead(c: Config, events: seq<Event>, r: nat)
    requires c.Valid() && r < c.numRanks
    ensures Exec(c, events).Success? && DramReads.OverwritesNothing(Exec(c, events).value.ranks[r])
  {
    RunIsSafe(c, events);
    hide Exec, QueueSide, DramReads.OverwritesNothing, DataOnly;
    RanksStartTheCycle(c, Exec(c, events).value);
  }

  // ---------------------------------------------------------------- refresh

  /** Before its refresh step a cycle leaves the refresh counters alone. */
  lemma FrontRefreshes(c: Config, s: System)
    requires c.Valid() && Inv(c, s)
    ensures Front(c, s).Success?
    ensures var f := Front(c, s).value;
            && f.queue == (if RefreshDue(c, s.control).Some?
                           then s.queue.(refreshWaiting := true, refreshRank := s.control.refreshRank) else s.queue)
            && DecAll(f.control.refreshCountdown) == Counted(c, s.control.refreshCountdown, s.control.refreshRank)
            && f.control.refreshCountdown == (if RefreshDue(c, s.control).Some?
                           then s.control.refreshCountdown[s.control.refreshRank := c.refreshPeriod]
                               else s.control.refreshCountdown)
  {
    hide QueueSide, AllReadsClear, WritesClear, Scheduled, InOrder, Balanced, InStep, AllData, Core, RankAfter,
         Arriving, AllRanks, QueueShape;
    RanksStartTheCycle(c, s);
    ArrivingStep(c, s);
    ArrivingKeeps(c, s);
    WriteKeeps(c, Arriving(c, s).value);
  }

  /**
   * In every run, rank `i` asks for a refresh exactly in the cycles Stagger(i) + k * refreshPeriod: that is when
   * the command queue is told to wait for it, and in no other cycle is it told anything.
   */
  lemma RunRefreshesOnTime(c: Config, events: seq<Event>, i: nat)
    requires c.Valid() && i < c.numRanks
    ensures Exec(c, events).Success?
    ensures var s := Exec(c, events).value;
            && Front(c, s).Success?
            && (RefreshDue(c, s.control) == Some(i) <==> exists k: nat :: s.now == Due(c, i, k))
            && Front(c, s).value.queue == (if RefreshDue(c, s.control).Some?
                 then s.queue.(refreshWaiting := true, refreshRank := s.control.refreshRank) else s.queue)
  {
    RunIsSafe(c, events);
    hide Exec, QueueSide;
    var s := Exec(c, events).value;
    FrontRefreshes(c, s);
    var m := s.control;
    var k: nat :| OnSchedule(c, m.refreshCountdown, m.refreshRank, s.now, k);
    if RefreshDue(c, m) == Some(i) {
      assert s.now == Due(c, i, Round(i, m.refreshRank, k));
    }
    if l: nat :| s.now == Due(c, i, l) {
      DueNow(c, m.refreshCountdown, m.refreshRank, s.now, k, i, l);
    }
  }

  /** The counter whose turn it is is the least, and no counter is decremented at zero. */
  lemma RunNeverWrapsACounter(c: Config, events: seq<Event>, i: nat)
    requires c.Valid() && i < c.numRanks
    ensures Exec(c, events).Success?
    ensures var s := Exec(c, events).value;
            && (i != s.control.refreshRank
                ==> s.control.refreshCountdown[s.control.refreshRank] < s.control.refreshCountdown[i])
            && Front(c, s).Success? && Front(c, s).value.control.refreshCountdown[i] >= 1
  {
    RunIsSafe(c, events);
    hide Exec, QueueSide, InStep, Balanced, InOrder, AllReadsClear, WritesClear, AllData, QueueShape, ControlShape, Due;
    var s := Exec(c, events).value;
    FrontRefreshes(c, s);
    PeriodIsPositive(c);
    hide Front, Config.Valid;
    var m := s.control;
    var k: nat :| OnSchedule(c, m.refreshCountdown, m.refreshRank, s.now, k);
    if i != m.refreshRank {
      TurnIsLeast(c, m.refreshCountdown, m.refreshRank, s.now, k, i);
    }
  }

  // ---------------------------------------------------------------- every read is answered once

  /** Addresses of the reads handed to the processor in a run, in order. */
  function Reported(c: Config, events: seq<Event>): seq<nat>
    requires c.Sized()
  {
    if events == [] then [] else
    var before := events[..|events|-1];
    Reported(c, before) + ReportedBy(c, Exec(c, before), events[|events|-1])
  }

  function ReportedBy(c: Config, r: Result<System, Exit>, e: Event): seq<nat>
    requires c.Sized() && (r.Success? ==> Shape(c, r.value))
  {
    if e == Cycle && r.Success? && BeforeReturn(c, r.value).Success? then
      var m := BeforeReturn(c, r.value).value.control;
      if m.toReturn == [] then [] else [m.toReturn[0].address]
    else []
  }

  function Count(addresses: seq<nat>, a: nat): nat {
    if addresses == [] then 0 else Count(addresses[..|addresses|-1], a) + One(addresses[|addresses|-1] == a)
  }

  /** Reads admitted for an address, minus the ones not yet answered. */
  function Answered(s: System, a: nat): int {
    Reads(s.entered, a) - Wanted(s.control.pendingReads, a)
  }

  lemma AdmitAnswersNothing(c: Config, s: System, i: nat, a: nat)
    requires Shape(c, s) && c.Sized() && i < |s.control.transactions| && Admit(c, s, i).Success?
    ensures Answered(Admit(c, s, i).value, a) == Answered(s, a)
  {
    AdmitEffect(c, s, i);
    hide Shape;
    hide ActivateFor, ColumnFor, Reads, Wanted;
    var t := s.control.transactions[i];
    ReadsAppend(s.entered, ActivateFor(c, t), a);
    ReadsAppend(s.entered + [ActivateFor(c, t)], ColumnFor(c, t), a);
    WantedAppend(s.control.pendingReads, t, a);
  }

  lemma {:induction false} AdmitPhaseAnswersNothing(c: Config, s: System, i: nat, a: nat)
    requires Shape(c, s) && c.Sized() && AdmitPhase(c, s, i).Success?
    ensures Answered(AdmitPhase(c, s, i).value, a) == Answered(s, a)
    decreases |s.control.transactions| - i
  {
    hide Answered, HasRoomFor, Admit, QueueShape;
    if i < |s.control.transactions| {
      var l := Locate(c.mapping, s.control.transactions[i].address);
      if HasRoomFor(c, s.queue, 2, l.rank, l.bank) {
        AdmitAnswersNothing(c, s, i, a);
        AdmitPhaseAnswersNothing(c, Admit(c, s, i).value, i + 1, a);
      } else {
        AdmitPhaseAnswersNothing(c, s, i + 1, a);
      }
    }
  }

  lemma FrontAnswersNothing(c: Config, s: System, a: nat)
    requires c.Valid() && Inv(c, s) && Front(c, s).Success?
    ensures Answered(Front(c, s).value, a) == Answered(s, a)
  {
    ArrivingKeepsPending(c, s);
    assert Shape(c, s) && Arriving(c, s).Success?;
    RestKeepsPending(c, Arriving(c, s).value);
    hide Inv, Reads, Wanted, Shape, Arriving, DataPhase, WritePhase, RefreshPhase;
  }

  lemma RestKeepsPending(c: Config, s: System)
    requires Shape(c, s) && WritePhase(c, DataPhase(c, s)).Success?
    ensures var f := RefreshPhase(c, WritePhase(c, DataPhase(c, s)).value);
            f.entered == s.entered && f.control.pendingReads == s.control.pendingReads
  {
  }

  lemma ArrivingKeepsPending(c: Config, s: System)
    requires c.Valid() && Inv(c, s)
    ensures Arriving(c, s).Success?
    ensures Arriving(c, s).value.entered == s.entered
            && Arriving(c, s).value.control.pendingReads == s.control.pendingReads
  {
    hide QueueSide, AllReadsClear, WritesClear, Scheduled, InOrder, Balanced, InStep, AllData, RankAfter, Arriving,
         AllRanks;
    RanksStartTheCycle(c, s);
    ArrivingStep(c, s);
  }

  lemma PopAnswersNothing(c: Config, s: System, a: nat)
    requires Shape(c, s) && c.Sized() && PopPhase(c, s).Success?
    ensures Answered(PopPhase(c, s).value, a) == Answered(s, a)
  {
    hide Shape, DramQueue.Pop, Reads, Wanted;
  }

  lemma ServedAnswersNothing(c: Config, s: System, a: nat)
    requires Shape(c, s) && c.Sized() && Served(c, s).Success?
    ensures Answered(Served(c, s).value, a) == Answered(s, a)
  {
    hide Shape, AdmitPhase, PowerPhase, Reads, Wanted;
    AdmitPhaseAnswersNothing(c, s, 0, a);
  }

  lemma BeforeReturnAnswersNothing(c: Config, s: System, a: nat)
    requires c.Valid() && Inv(c, s) && BeforeReturn(c, s).Success?
    ensures Answered(BeforeReturn(c, s).value, a) == Answered(s, a)
  {
    assert Shape(c, s);
    FrontAnswersNothing(c, s, a);
    hide Inv, Answered, Shape, Front, PopPhase, Served;
    PopAnswersNothing(c, Front(c, s).value, a);
    ServedAnswersNothing(c, PopPhase(c, Front(c, s).value).value, a);
  }

  lemma ReturnAnswersOne(c: Config, s: System, a: nat)
    requires c.Valid() && Late(c, s)
    ensures Answered(Finish(c, s), a)
            == Answered(s, a) + (if s.control.toReturn == [] then 0 else One(s.control.toReturn[0].address == a))
  {
    hide QueueSide, Timing, InOrder;
    var m := s.control;
    if m.toReturn != [] {
      assert BalancedFor(s, m.toReturn[0].address);
      ReturnFindsPending(s);
      WantedWithout(m.pendingReads, FirstPending(m.pendingReads, m.toReturn[0].address, 0), a);
    }
  }

  lemma EventAnswers(c: Config, events: seq<Event>, a: nat)
    requires c.Valid() && events != []
    ensures var before := events[..|events|-1];
            && Exec(c, before).Success? && Exec(c, events).Success?
            && Answered(Exec(c, events).value, a)
               == Answered(Exec(c, before).value, a) + Count(ReportedBy(c, Exec(c, before), events[|events|-1]), a)
  {
    hide Inv, Late, Shape, BeforeReturn, Finish, Reads, Wanted;
    var before := events[..|events|-1];
    RunIsSafe(c, before);
    var s := Exec(c, before).value;
    if events[|events|-1] == Cycle {
      BeforeReturnKeeps(c, s);
      BeforeReturnAnswersNothing(c, s, a);
      ReturnAnswersOne(c, BeforeReturn(c, s).value, a);
      hide Answered;
    }
  }

  /**
   * Every read is reported exactly once: for each address, the reads admitted to the command queue so far are
   * those already reported and those still on the list of pending reads, and each of the latter is in a command
   * queue, on the command bus, in a rank, on a rank's data bus or about to be reported.
   */
  lemma {:induction false} RunAnswersEveryRead(c: Config, events: seq<Event>, a: nat)
    requires c.Valid()
    ensures Exec(c, events).Success?
    ensures var s := Exec(c, events).value;
            && Reads(s.entered, a) == Count(Reported(c, events), a) + Wanted(s.control.pendingReads, a)
            && BalancedFor(s, a)
  {
    RunIsSafe(c, events);
    hide QueueSide, BalancedFor, Reads, Wanted, ReportedBy;
    if events != [] {
      hide Exec, Inv;
      var before := events[..|events|-1];
      RunAnswersEveryRead(c, before, a);
      EventAnswers(c, events, a);
      CountConcat(Reported(c, before), ReportedBy(c, Exec(c, before), events[|events|-1]), a);
    } else {
      NothingYet(c, a);
    }
  }

  lemma NothingYet(c: Config, a: nat)
    requires c.Valid()
    ensures Answered(Initial(c), a) == 0
  {
  }

  lemma {:induction false} CountConcat(x: seq<nat>, y: seq<nat>, a: nat)
    ensures Count(x + y, a) == Count(x, a) + Count(y, a)
  {
    if y == [] {
      assert x + y == x;
    } else {
      CountConcat(x, y[..|y|-1], a);
      assert (x + y)[..|x + y|-1] == x + y[..|y|-1];
    }
  }
}
