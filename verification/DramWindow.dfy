/** The four-activate window: no rank receives five ACTIVATEs within tFAW cycles. */
module DramWindow {
  import opened Outcomes
  import opened DramTypes
  import opened DramControl
  import opened DramQueue

  predicate IsActivate(out: Option<Packet>, r: nat) {
    out.Some? && out.value.kind == Activate && out.value.rank == r
  }

  /** The cycles in which rank `r` was sent an ACTIVATE. */
  function ActTimes(issued: seq<Option<Packet>>, r: nat): (t: seq<int>)
    ensures forall i :: 0 <= i < |t| ==> 0 <= t[i] < |issued| && IsActivate(issued[t[i]], r)
  {
    if issued == [] then []
    else
      var last := |issued| - 1;
      ActTimes(issued[..last], r) + (if IsActivate(issued[last], r) then [last] else [])
  }

  predicate Increasing(t: seq<int>) {
    forall i, j :: 0 <= i < j < |t| ==> t[i] < t[j]
  }

  lemma {:induction false} ActTimesIncrease(issued: seq<Option<Packet>>, r: nat)
    ensures Increasing(ActTimes(issued, r))
  {
    if issued != [] {
      ActTimesIncrease(issued[..|issued|-1], r);
    }
  }

  lemma {:induction false} ActIndex(issued: seq<Option<Packet>>, r: nat, t: nat) returns (i: nat)
    requires t < |issued| && IsActivate(issued[t], r)
    ensures i < |ActTimes(issued, r)| && ActTimes(issued, r)[i] == t
  {
    if t == |issued| - 1 {
      i := |ActTimes(issued[..t], r)|;
    } else {
      i := ActIndex(issued[..|issued|-1], r, t);
    }
  }

  /** A later ACTIVATE has a later place in the list. */
  lemma LaterAct(issued: seq<Option<Packet>>, r: nat, i: nat, t: nat) returns (j: nat)
    requires i < |ActTimes(issued, r)| && ActTimes(issued, r)[i] < t
    requires t < |issued| && IsActivate(issued[t], r)
    ensures i < j < |ActTimes(issued, r)| && ActTimes(issued, r)[j] == t
  {
    hide ActTimes;
    j := ActIndex(issued, r, t);
    ActTimesIncrease(issued, r);
  }

  /** Counter values at cycle `now` of ACTIVATEs sent at the given cycles. */
  predicate Counts(c: Config, times: seq<int>, window: seq<nat>, now: int) {
    |window| == |times| && forall j :: 0 <= j < |times| ==> window[j] == times[j] + c.tFAW - now && window[j] >= 1
  }

  /** The window counters are the ACTIVATEs less than tFAW old, oldest first. */
  predicate WindowOk(c: Config, times: seq<int>, window: seq<nat>, now: int) {
    var n, m := |times|, |window|;
    && m <= 4 && m <= n
    && Counts(c, times[n-m..], window, now)
    && (forall j :: 0 <= j < n - m ==> times[j] + c.tFAW <= now)
    && (forall i, j :: 0 <= i && i + 4 <= j < n ==> times[i] + c.tFAW <= times[j])
  }

  predicate WindowsOk(c: Config, s: System)
    requires Shape(c, s)
  {
    && |s.issued| == s.now
    && forall r :: 0 <= r < c.numRanks ==> WindowOk(c, ActTimes(s.issued, r), s.queue.faw[r], s.now - 1)
  }

  lemma AgeKeepsCounts(c: Config, recent: seq<int>, window: seq<nat>, now: int)
    requires Counts(c, recent, window, now - 1)
    requires Increasing(recent)
    ensures |Age(window)| == |window| || |Age(window)| == |window| - 1
    ensures |Age(window)| == |window| ==> Counts(c, recent, Age(window), now)
    ensures |Age(window)| != |window|
            ==> |recent| > 0 && Counts(c, recent[1..], Age(window), now) && recent[0] + c.tFAW == now
  {
    var w := DecAll(window);
    assert forall j :: 0 <= j < |w| ==> w[j] == recent[j] + c.tFAW - now;
    assert forall j :: 1 <= j < |w| ==> w[0] < w[j];
  }

  lemma AgeKeepsWindow(c: Config, times: seq<int>, window: seq<nat>, now: int)
    requires WindowOk(c, times, window, now - 1) && Increasing(times)
    ensures WindowOk(c, times, Age(window), now)
  {
    hide Age, Counts;
    var d := |times| - |window|;
    assert Increasing(times[d..]);
    AgeKeepsCounts(c, times[d..], window, now);
    if |Age(window)| != |window| {
      assert times[d..][1..] == times[d+1..];
      assert times[d..][0] == times[d];
    }
  }

  lemma ActivateKeepsWindow(c: Config, times: seq<int>, window: seq<nat>, now: int)
    requires c.Valid() && WindowOk(c, times, window, now) && |window| < 4
    requires forall i :: 0 <= i < |times| ==> times[i] < now
    ensures WindowOk(c, times + [now], window + [c.tFAW], now)
  {
    var d := |times| - |window|;
    assert (times + [now])[d..] == times[d..] + [now];
  }

  lemma RemovedWindow(c: Config, v: QueueState, banks: Table, now: int, choice: Choice, r: nat)
    requires c.Valid() && QueueShape(c, v) && TableShape(c, banks) && r < c.numRanks && Legal(c, v, banks, now, choice)
    ensures var out := Chosen(c, v, banks, now, choice);
            Removed(c, v, banks, now, choice).faw[r] == v.faw[r] + if IsActivate(out, r) then [c.tFAW] else []
  {
    hide LegalScan, LegalDrain, LegalClose, LegalRefresh, Without;
    assert v.faw[r] + [] == v.faw[r];
  }

  lemma WindowHasRoom(c: Config, v: QueueState, banks: Table, now: int, choice: Choice, r: nat)
    requires c.Valid() && QueueShape(c, v) && TableShape(c, banks) && r < c.numRanks && Legal(c, v, banks, now, choice)
    ensures IsActivate(Chosen(c, v, banks, now, choice), r) ==> |v.faw[r]| < 4
  {
    hide Without;
    if choice.Take? {
      assert Placed(c, v.queues[choice.rank][choice.slot], choice.rank, choice.slot);
    }
  }

  /** What a pop does to the counters of one rank. */
  lemma PopWindow(c: Config, v: QueueState, banks: Table, now: int, r: nat)
    requires c.Valid() && QueueShape(c, v) && TableShape(c, banks) && r < c.numRanks
    ensures var (v', out) := Pop(c, v, banks, now);
            && v'.faw[r] == Age(v.faw[r]) + (if IsActivate(out, r) then [c.tFAW] else [])
            && (IsActivate(out, r) ==> |Age(v.faw[r])| < 4)
  {
    var choice := DecisionOf(c, v, banks, now).choice;
    WindowHasRoom(c, Aged(c, v), banks, now, choice, r);
    hide Decide, Legal, Removed, Chosen;
    RemovedWindow(c, Aged(c, v), banks, now, choice, r);
  }

  lemma ActTimesAppend(issued: seq<Option<Packet>>, out: Option<Packet>, r: nat)
    ensures ActTimes(issued + [out], r) == ActTimes(issued, r) + (if IsActivate(out, r) then [|issued|] else [])
  {
    assert (issued + [out])[..|issued|] == issued;
  }

  lemma PopKeepsWindows(c: Config, s: System)
    requires Shape(c, s) && c.Valid() && WindowsOk(c, s) && PopPhase(c, s).Success?
    ensures WindowsOk(c, StepPhase(c, PopPhase(c, s).value))
  {
    hide Decide;
    var (v, out) := Pop(c, s.queue, s.control.banks, s.now);
    forall r | 0 <= r < c.numRanks ensures WindowOk(c, ActTimes(s.issued + [out], r), v.faw[r], s.now) {
      PopWindow(c, s.queue, s.control.banks, s.now, r);
      StepWindow(c, s.issued, out, s.queue.faw[r], r);
    }
  }

  lemma StepWindow(c: Config, issued: seq<Option<Packet>>, out: Option<Packet>, window: seq<nat>, r: nat)
    requires c.Valid() && WindowOk(c, ActTimes(issued, r), window, |issued| - 1)
    requires IsActivate(out, r) ==> |Age(window)| < 4
    ensures WindowOk(c, ActTimes(issued + [out], r), Age(window) + (if IsActivate(out, r) then [c.tFAW] else []),
            |issued|)
  {
    var times := ActTimes(issued, r);
    ActTimesAppend(issued, out, r);
    ActTimesIncrease(issued, r);
    AgeKeepsWindow(c, times, window, |issued|);
    if IsActivate(out, r) {
      ActivateKeepsWindow(c, times, Age(window), |issued|);
    } else {
      assert Age(window) + [] == Age(window);
      assert times + [] == times;
    }
  }

  /** `t` lists five cycles, in order, in which rank `r` was sent an ACTIVATE. */
  predicate FiveActivates(issued: seq<Option<Packet>>, r: nat, t: seq<nat>) {
    && |t| == 5 && t[0] < t[1] < t[2] < t[3] < t[4] < |issued|
    && forall k :: 0 <= k < 5 ==> IsActivate(issued[t[k]], r)
  }

  /** Five ACTIVATEs to one rank span more than tFAW - 1 cycles, so no window of tFAW cycles holds five. */
  lemma FiveActivatesAreSpread(c: Config, s: System, r: nat, t: seq<nat>)
    requires Shape(c, s) && WindowsOk(c, s) && r < c.numRanks && FiveActivates(s.issued, r, t)
    ensures t[4] - t[0] >= c.tFAW
  {
    hide ActTimes;
    var i0 := ActIndex(s.issued, r, t[0]);
    var i1 := LaterAct(s.issued, r, i0, t[1]);
    var i2 := LaterAct(s.issued, r, i1, t[2]);
    var i3 := LaterAct(s.issued, r, i2, t[3]);
    var i4 := LaterAct(s.issued, r, i3, t[4]);
    assert WindowOk(c, ActTimes(s.issued, r), s.queue.faw[r], s.now - 1);
  }
}
