/** When ranks are put to sleep and when they are woken. */
module DramPower {
  import opened Outcomes
  import opened DramTypes
  import opened DramControl
  import opened DramTiming
  import opened DramProtocol
  import opened DramRuns
  import opened DramAdmission
  import opened DramBus
  import opened DramSpacing
  import DramQueue
  import DramRank

  /** Something is queued for the rank, or it waits to be refreshed. */
  predicate HasWork(c: Config, s: System, r: nat)
    requires Shape(c, s) && r < c.numRanks
  {
    s.ranks[r].refreshWaiting || exists slot :: 0 <= slot < c.Slots() && s.queue.queues[r][slot] != []
  }

  predicate AllBanksIdle(c: Config, s: System, r: nat)
    requires Shape(c, s) && r < c.numRanks
  {
    forall b :: 0 <= b < c.numBanks ==> s.control.banks[r][b].status == Idle
  }

  /** The rank has been put to sleep: every bank in both tables, for at least tCKE cycles, and nothing else of it. */
  predicate FellAsleep(c: Config, s: System, u: System, r: nat)
    requires Shape(c, s) && Shape(c, u) && r < c.numRanks
  {
    && u.control.powerDown[r] && u.ranks[r].isPowerDown
    && u.ranks[r] == s.ranks[r].(banks := u.ranks[r].banks, isPowerDown := true)
    && forall b :: 0 <= b < c.numBanks ==>
         && u.control.banks[r][b] == s.control.banks[r][b].(status := PowerDown, nextPowerUp := s.now + c.tCKE)
         && u.ranks[r].banks[b] == s.ranks[r].banks[b].(status := PowerDown, nextPowerUp := s.now + c.tCKE)
  }

  /** The rank has been woken: every bank in both tables, to be activated tXP cycles later, and nothing else of it. */
  predicate Awoke(c: Config, s: System, u: System, r: nat)
    requires Shape(c, s) && Shape(c, u) && r < c.numRanks
  {
    && !u.control.powerDown[r] && !u.ranks[r].isPowerDown
    && u.ranks[r] == s.ranks[r].(banks := u.ranks[r].banks, isPowerDown := false)
    && forall b :: 0 <= b < c.numBanks ==>
         && u.control.banks[r][b] == s.control.banks[r][b].(status := Idle, nextActivate := s.now + c.tXP)
         && u.ranks[r].banks[b] == s.ranks[r].banks[b].(status := Idle, nextActivate := s.now + c.tXP)
  }

  predicate LeftAlone(s: System, u: System, r: nat) {
    && r < |s.ranks| == |u.ranks| && r < |s.control.banks| == |u.control.banks|
    && r < |s.control.powerDown| == |u.control.powerDown|
    && u.ranks[r] == s.ranks[r] && u.control.banks[r] == s.control.banks[r]
    && u.control.powerDown[r] == s.control.powerDown[r]
  }

  /** An idle rank without work goes to sleep, a sleeping one with work wakes when it may, and others are left alone. */
  predicate Powered(c: Config, s: System, u: System, r: nat)
    requires Shape(c, s) && Shape(c, u) && r < c.numRanks
  {
    if !HasWork(c, s, r) && AllBanksIdle(c, s, r) then FellAsleep(c, s, u, r)
    else if HasWork(c, s, r) && s.control.powerDown[r] && s.now >= s.control.banks[r][0].nextPowerUp then
      Awoke(c, s, u, r)
    else LeftAlone(s, u, r)
  }

  lemma PowerRankIsRight(c: Config, s: System, r: nat)
    requires Shape(c, s) && c.Sized() && r < c.numRanks && PowerRank(c, s, r).Success?
    ensures var u := PowerRank(c, s, r).value;
            && Powered(c, s, u, r) && u.queue == s.queue && u.now == s.now
            && forall q :: 0 <= q < c.numRanks && q != r ==> LeftAlone(s, u, q)
  {
    hide QueueShape;
    assert RankEmpty(c, s.queue, r) && !s.ranks[r].refreshWaiting <==> !HasWork(c, s, r);
    assert AllIdle(s.control.banks[r]) <==> AllBanksIdle(c, s, r);
  }

  lemma SameForOthers(c: Config, s: System, s1: System, u: System, q: nat)
    requires Shape(c, s) && Shape(c, s1) && Shape(c, u) && q < c.numRanks
    requires LeftAlone(s, s1, q) && s1.queue == s.queue && s1.now == s.now && Powered(c, s1, u, q)
    ensures Powered(c, s, u, q)
  {
  }

  lemma ThenLeftAlone(c: Config, s: System, s1: System, u: System, r: nat)
    requires Shape(c, s) && Shape(c, s1) && Shape(c, u) && r < c.numRanks
    requires Powered(c, s, s1, r) && LeftAlone(s1, u, r)
    ensures Powered(c, s, u, r)
  {
  }

  lemma AlwaysLeftAlone(s: System, s1: System, u: System, q: nat)
    requires LeftAlone(s, s1, q) && LeftAlone(s1, u, q)
    ensures LeftAlone(s, u, q)
  {
  }

  lemma LeftAsItIs(c: Config, s: System, q: nat)
    requires Shape(c, s) && q < c.numRanks
    ensures LeftAlone(s, s, q)
  {
  }

  lemma {:induction false} PowerPhaseIsRight(c: Config, s: System, r: nat)
    requires Shape(c, s) && c.Sized() && c.lowPower && r <= c.numRanks && PowerPhase(c, s, r).Success?
    ensures var u := PowerPhase(c, s, r).value;
            && (forall q :: r <= q < c.numRanks ==> Powered(c, s, u, q))
            && (forall q :: 0 <= q < r ==> LeftAlone(s, u, q))
    decreases c.numRanks - r
  {
    hide PowerRank, Shape, Powered, LeftAlone;
    if r == c.numRanks {
      forall q | 0 <= q < r ensures LeftAlone(s, s, q) {
        LeftAsItIs(c, s, q);
      }
    } else {
      PowerRankIsRight(c, s, r);
      var s1 := PowerRank(c, s, r).value;
      PowerPhaseIsRight(c, s1, r + 1);
      var u := PowerPhase(c, s1, r + 1).value;
      ThenLeftAlone(c, s, s1, u, r);
      forall q | r < q < c.numRanks ensures Powered(c, s, u, q) {
        SameForOthers(c, s, s1, u, q);
      }
      forall q | 0 <= q < r ensures LeftAlone(s, u, q) {
        AlwaysLeftAlone(s, s1, u, q);
      }
    }
  }

  /** No rank that has something to do sleeps on beyond its tCKE, and none that has nothing to do stays awake. */
  predicate WellPowered(c: Config, u: System, r: nat, now: int)
    requires Shape(c, u) && r < c.numRanks
  {
    && (HasWork(c, u, r) && u.control.powerDown[r] ==> now < u.control.banks[r][0].nextPowerUp)
    && (!HasWork(c, u, r) ==> !AllBanksIdle(c, u, r))
  }

  lemma PoweredIsWell(c: Config, s: System, u: System, r: nat)
    requires Shape(c, s) && Shape(c, u) && r < c.numRanks && c.Sized()
    requires Powered(c, s, u, r) && u.queue == s.queue
    ensures WellPowered(c, u, r, s.now)
  {
    if FellAsleep(c, s, u, r) {
      assert u.control.banks[r][0].status == PowerDown;
    }
  }

  lemma FinishPowersNothing(c: Config, s: System, r: nat)
    requires Shape(c, s) && r < c.numRanks
    ensures WellPowered(c, Finish(c, s), r, s.now) <==> WellPowered(c, s, r, s.now)
    ensures Finish(c, s).now == s.now + 1
  {
    hide QueueShape, TableShape;
  }

  /** After every cycle of every run with power management every rank is powered as it should be. */
  lemma RunPowersRanks(c: Config, events: seq<Event>, r: nat)
    requires c.Valid() && c.lowPower && r < c.numRanks
    ensures Exec(c, events + [Cycle]).Success?
    ensures var u := Exec(c, events + [Cycle]).value; WellPowered(c, u, r, u.now - 1)
  {
    hide Exec, Inv, Front, PopPhase, AdmitPhase, PowerPhase, Powered, WellPowered, Finish, Shape;
    CycleAfter(c, events);
    var p := PopPhase(c, Front(c, Exec(c, events).value).value).value;
    var a := AdmitPhase(c, p, 0).value;
    var v := PowerPhase(c, a, 0).value;
    PowerPhaseIsRight(c, a, 0);
    PoweredIsWell(c, a, v, r);
    FinishPowersNothing(c, v, r);
  }

  // ---------------------------------------------------------------- which ranks know of a refresh

  /** A REFRESH for the rank arrives in the next cycle. */
  predicate RefreshArrives(m: ControlState, r: nat) {
    m.command.Some? && m.command.value.kind == Refresh && m.command.value.rank == r
  }

  /** It is the rank's turn, and a refresh is due, or, for a rank that sleeps, due within the time it takes to wake. */
  predicate ToldOfRefresh(c: Config, m: ControlState, r: nat)
    requires ControlShape(c, m) && r < c.numRanks
  {
    && r == m.refreshRank
    && (m.refreshCountdown[r] == 0 || (m.powerDown[r] && m.refreshCountdown[r] <= c.tXP))
  }

  lemma ArrivalFlags(c: Config, k: RankState, command: Option<Packet>, r: nat, now: int)
    requires RankShape(c, k) && (command.Some? ==> command.value.bank < c.numBanks)
    requires command.Some? && command.value.rank == r ==> DramRank.Check(k, command.value, now).Pass?
    ensures RankAfter(c, k, command, r, now).refreshWaiting
            <==> k.refreshWaiting && !(command.Some? && command.value.kind == Refresh && command.value.rank == r)
  {
    hide DramRank.BanksAfter;
  }

  lemma RestFlags(c: Config, s: System, r: nat)
    requires Shape(c, s) && WritePhase(c, DataPhase(c, s)).Success? && r < c.numRanks
    ensures RefreshPhase(c, WritePhase(c, DataPhase(c, s)).value).ranks[r].refreshWaiting
            <==> s.ranks[r].refreshWaiting || ToldOfRefresh(c, s.control, r)
  {
    hide QueueShape, TableShape;
  }

  lemma FrontFlags(c: Config, s: System, r: nat)
    requires c.Valid() && Inv(c, s) && r < c.numRanks
    ensures Shape(c, s) && Front(c, s).Success?
    ensures Front(c, s).value.ranks[r].refreshWaiting <==>
            (s.ranks[r].refreshWaiting && !RefreshArrives(s.control, r)) || ToldOfRefresh(c, s.control, r)
  {
    assert Shape(c, s) && InStep(c, s) && AllData(s.ranks);
    assert AllReadsClear(c, s.control, s.ranks, c.RL() + 1, s.now - 1);
    hide Inv, Mid, AllReadsClear, AllData, RankAfter, Arriving, DataPhase, WritePhase, RefreshPhase,
         QueueShape, TableShape, Requests;
    FrontKeeps(c, s);
    RanksStartTheCycle(c, s);
    ArrivingStep(c, s);
    InStepAccepts(c, s);
    hide InStep, InStepNow;
    ArrivalFlags(c, s.ranks[r], s.control.command, r, s.now);
    RestFlags(c, Arriving(c, s).value, r);
  }

  lemma LaterFlags(c: Config, s: System, r: nat)
    requires c.Valid() && Shape(c, s) && PopPhase(c, s).Success? && Late(c, PopPhase(c, s).value) && r < c.numRanks
    ensures Served(c, PopPhase(c, s).value).Success?
    ensures Finish(c, Served(c, PopPhase(c, s).value).value).ranks[r].refreshWaiting == s.ranks[r].refreshWaiting
  {
    hide Late, DramQueue.Pop, IssueTable, AdmitPhase, PowerPhase, QueueShape, TableShape, Nap;
    ServedNaps(c, PopPhase(c, s).value);
  }

  /**
   * In every run, a rank knows of a refresh after the next cycle exactly if it is told of it then, or knew before and
   * no REFRESH has arrived.
   */
  lemma RunTellsOfRefresh(c: Config, events: seq<Event>, r: nat)
    requires c.Valid() && r < c.numRanks
    ensures Exec(c, events).Success? && Exec(c, events + [Cycle]).Success?
    ensures var s, u := Exec(c, events).value, Exec(c, events + [Cycle]).value;
            u.ranks[r].refreshWaiting <==>
            (s.ranks[r].refreshWaiting && !RefreshArrives(s.control, r)) || ToldOfRefresh(c, s.control, r)
  {
    hide Exec, Inv, Late, Front, PopPhase, Served, Finish, RefreshArrives, ToldOfRefresh;
    CycleAfter(c, events);
    RunReachesAdmission(c, events);
    RunIsSafe(c, events);
    FrontFlags(c, Exec(c, events).value, r);
    LaterFlags(c, Front(c, Exec(c, events).value).value, r);
  }
}
