/** The staggered refresh schedule. */
module DramRefresh {
  import opened DramTypes
  import opened DramControl

  /** The cycle in which rank `i` asks for its refresh number `k`. */
  function Due(c: Config, i: nat, k: nat): int {
    c.refreshStep * (i + 1) + k * c.refreshPeriod
  }

  lemma DueSteps(c: Config, i: nat, k: nat)
    ensures Due(c, i, k + 1) == Due(c, i, k) + c.refreshPeriod
  {
  }

  lemma {:induction false} DueGrows(c: Config, i: nat, k: nat, l: nat)
    requires k < l
    ensures Due(c, i, k) + c.refreshPeriod <= Due(c, i, l)
  {
    hide Due;
    DueSteps(c, i, l - 1);
    if k < l - 1 {
      DueGrows(c, i, k, l - 1);
    }
  }

  lemma StaggerSteps(c: Config, i: nat)
    ensures Stagger(c, i + 1) == Stagger(c, i) + c.refreshStep
  {
  }

  lemma {:induction false} StaggerGrows(c: Config, i: nat, j: nat)
    requires i <= j
    ensures Stagger(c, i) <= Stagger(c, j)
    ensures i < j ==> Stagger(c, i) + c.refreshStep <= Stagger(c, j)
  {
    hide Stagger;
    if i < j {
      StaggerSteps(c, j - 1);
      StaggerGrows(c, i, j - 1);
    }
  }

  lemma StaggerSpan(c: Config)
    requires c.Valid()
    ensures Stagger(c, c.numRanks - 1) < Stagger(c, 0) + c.refreshPeriod
  {
    assert Stagger(c, c.numRanks - 1) == (c.numRanks - 1) * c.refreshStep + c.refreshStep;
  }

  lemma StaggerOrder(c: Config, i: nat, j: nat)
    requires c.Valid() && i < j < c.numRanks
    ensures Stagger(c, i) < Stagger(c, j) < Stagger(c, i) + c.refreshPeriod
  {
    StaggerSpan(c);
    hide Stagger;
    StaggerGrows(c, i, j);
    StaggerGrows(c, 0, i);
    StaggerGrows(c, j, c.numRanks - 1);
  }

  /** The round a rank is in when ranks below `turn` have already asked in round `k`. */
  function Round(i: nat, turn: nat, k: nat): nat {
    if i < turn then k + 1 else k
  }

  /** Each counter says how long it is until its rank's next request; no request is missed. */
  predicate OnSchedule(c: Config, countdown: seq<nat>, turn: nat, now: int, k: nat) {
    && |countdown| == c.numRanks && turn < c.numRanks
    && forall i :: 0 <= i < c.numRanks ==>
         && countdown[i] + now == Due(c, i, Round(i, turn, k))
         && (Round(i, turn, k) > 0 ==> countdown[i] < c.refreshPeriod)
  }

  /** The rank whose turn it is has the smallest counter. */
  lemma TurnIsLeast(c: Config, countdown: seq<nat>, turn: nat, now: int, k: nat, i: nat)
    requires c.Valid() && OnSchedule(c, countdown, turn, now, k) && i < c.numRanks && i != turn
    ensures countdown[turn] < countdown[i]
  {
    if i < turn {
      StaggerOrder(c, i, turn);
      DueSteps(c, i, k);
    } else {
      StaggerOrder(c, turn, i);
    }
  }

  /** A request is made exactly at the cycles of the schedule. */
  lemma DueNow(c: Config, countdown: seq<nat>, turn: nat, now: int, k: nat, i: nat, l: nat)
    requires c.Valid() && OnSchedule(c, countdown, turn, now, k) && i < c.numRanks
    requires now == Due(c, i, l)
    ensures i == turn && countdown[i] == 0
  {
    var r := Round(i, turn, k);
    if l < r {
      DueGrows(c, i, l, r);
    } else if r < l {
      DueGrows(c, i, r, l);
    }
    if i != turn {
      TurnIsLeast(c, countdown, turn, now, k, i);
    }
  }

  function NextTurn(c: Config, turn: nat): nat {
    if turn + 1 == c.numRanks then 0 else turn + 1
  }

  /** Counters after one cycle: a request reloads the counter, then all count down. */
  function Counted(c: Config, countdown: seq<nat>, turn: nat): seq<nat>
    requires turn < |countdown|
  {
    DecAll(if countdown[turn] == 0 then countdown[turn := c.refreshPeriod] else countdown)
  }

  lemma PeriodIsPositive(c: Config)
    requires c.Valid()
    ensures c.refreshPeriod >= 1
  {
    assert (c.numRanks - 1) * c.refreshStep >= 0;
  }

  /** One cycle later every counter is still on schedule, and none has wrapped below zero. */
  lemma CycleKeepsSchedule(c: Config, countdown: seq<nat>, turn: nat, now: int, k: nat)
    returns (k': nat)
    requires c.Valid() && OnSchedule(c, countdown, turn, now, k)
    ensures OnSchedule(c, Counted(c, countdown, turn), if countdown[turn] == 0 then NextTurn(c, turn) else turn,
            now + 1, k')
  {
    PeriodIsPositive(c);
    hide Due, Config.Valid;
    var asked := countdown[turn] == 0;
    var turn' := if asked then NextTurn(c, turn) else turn;
    k' := if asked && turn + 1 == c.numRanks then k + 1 else k;
    var next := Counted(c, countdown, turn);
    forall i | 0 <= i < c.numRanks
      ensures next[i] + now + 1 == Due(c, i, Round(i, turn', k'))
      ensures Round(i, turn', k') > 0 ==> next[i] < c.refreshPeriod
    {
      if i != turn {
        TurnIsLeast(c, countdown, turn, now, k, i);
        assert Round(i, turn', k') == Round(i, turn, k);
      } else if asked {
        DueSteps(c, i, k);
      }
    }
  }
}
