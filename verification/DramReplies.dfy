/** Data goes back to the processor in the order in which it leaves the ranks. */
module DramReplies {
  import opened Outcomes
  import opened DramTypes
  import opened DramControl
  import opened DramProtocol
  import opened DramRuns
  import opened DramAdmission
  import opened DramLatency
  import opened DramTheorems
  import DramQueue
  import DramRank

  /** What leaves some ranks in a cycle, one rank after the other. */
  function Arrivals(c: Config, ranks: seq<RankState>): seq<Packet>
    requires forall r :: 0 <= r < |ranks| ==> RankShape(c, ranks[r])
  {
    if ranks == [] then [] else AsList(DramRank.Update(c, ranks[0]).1) + Arrivals(c, ranks[1..])
  }

  /** What has left the ranks in a run. */
  function AllArrivals(c: Config, events: seq<Event>): seq<Packet>
    requires c.Sized()
  {
    if events == [] then [] else
    var before := events[..|events|-1];
    var s := Exec(c, before);
    AllArrivals(c, before) + if events[|events|-1] == Cycle && s.Success? then Arrivals(c, s.value.ranks) else []
  }

  function Addresses(q: seq<Packet>): seq<nat> {
    seq(|q|, i requires 0 <= i < |q| => q[i].address)
  }

  function Waiting(t: seq<Transaction>): seq<nat> {
    seq(|t|, i requires 0 <= i < |t| => t[i].address)
  }

  lemma RankOneQueues(c: Config, s: System, r: nat)
    requires Shape(c, s) && r < c.numRanks && RankOne(c, s, r).Success?
    ensures var s1 := RankOne(c, s, r).value;
            && Waiting(s1.control.toReturn)
               == Waiting(s.control.toReturn) + Addresses(AsList(DramRank.Update(c, s.ranks[r]).1))
            && s1.ranks[r+1..] == s.ranks[r+1..]
  {
    hide QueueShape, TableShape, DramRank.Update;
  }

  lemma ArrivalsFrom(c: Config, ranks: seq<RankState>, r: nat)
    requires RanksShape(c, ranks) && r < c.numRanks
    ensures Arrivals(c, ranks[r..]) == AsList(DramRank.Update(c, ranks[r]).1) + Arrivals(c, ranks[r+1..])
  {
    hide DramRank.Update;
    assert ranks[r..][0] == ranks[r] && ranks[r..][1..] == ranks[r+1..];
  }

  lemma {:induction false} RankPhaseQueues(c: Config, s: System, r: nat)
    requires Shape(c, s) && r <= c.numRanks && RankPhase(c, s, r).Success?
    ensures Waiting(RankPhase(c, s, r).value.control.toReturn)
            == Waiting(s.control.toReturn) + Addresses(Arrivals(c, s.ranks[r..]))
    decreases c.numRanks - r
  {
    hide QueueShape, TableShape, ControlShape, DramRank.Update, Waiting, Addresses, RankOne, AsList;
    if r < c.numRanks {
      RankOneQueues(c, s, r);
      ArrivalsFrom(c, s.ranks, r);
      AddressesConcat(AsList(DramRank.Update(c, s.ranks[r]).1), Arrivals(c, s.ranks[r+1..]));
      RankPhaseQueues(c, RankOne(c, s, r).value, r + 1);
    } else {
      assert s.ranks[r..] == [];
      NoAddresses();
    }
  }

  lemma NoAddresses()
    ensures Addresses([]) == []
  {
  }

  lemma ArrivingQueues(c: Config, s: System)
    requires Shape(c, s) && c.Sized() && Arriving(c, s).Success?
    ensures RankPhase(c, s, 0).Success?
    ensures Arriving(c, s).value.control.toReturn == RankPhase(c, s, 0).value.control.toReturn
  {
    hide QueueShape, TableShape, RankShape, RankPhase, DramRank.Receive, TickTable;
  }

  lemma RestQueuesNothing(c: Config, s: System)
    requires Shape(c, s) && WritePhase(c, DataPhase(c, s)).Success?
    ensures RefreshPhase(c, WritePhase(c, DataPhase(c, s)).value).control.toReturn == s.control.toReturn
  {
    hide QueueShape, TableShape, RanksShape;
  }

  lemma FrontQueues(c: Config, s: System)
    requires Shape(c, s) && c.Sized() && Front(c, s).Success?
    ensures Waiting(Front(c, s).value.control.toReturn) == Waiting(s.control.toReturn) + Addresses(Arrivals(c, s.ranks))
  {
    assert s.ranks[0..] == s.ranks;
    hide QueueShape, TableShape, RankPhase, Arrivals, Waiting, Addresses, Arriving, DataPhase, WritePhase, RefreshPhase;
    ArrivingQueues(c, s);
    RankPhaseQueues(c, s, 0);
    RestQueuesNothing(c, Arriving(c, s).value);
  }

  lemma LaterQueuesNothing(c: Config, s: System)
    requires Shape(c, s) && c.Sized() && PopPhase(c, s).Success? && Served(c, PopPhase(c, s).value).Success?
    ensures Served(c, PopPhase(c, s).value).value.control.toReturn == s.control.toReturn
  {
    hide QueueShape, TableShape, RanksShape, DramQueue.Pop, AdmitPhase, PowerPhase;
  }

  lemma ReturnTakesFirst(c: Config, s: System)
    requires Shape(c, s)
    ensures var t := s.control.toReturn;
            Waiting(t) == (if t == [] then [] else [t[0].address]) + Waiting(Finish(c, s).control.toReturn)
  {
    hide QueueShape, TableShape, RanksShape;
  }

  /** In every run, what leaves the ranks is, in order, what has been reported to the processor and what waits to be. */
  lemma {:induction false} RunReportsInOrder(c: Config, events: seq<Event>)
    requires c.Valid()
    ensures Exec(c, events).Success?
    ensures Addresses(AllArrivals(c, events))
            == Reported(c, events) + Waiting(Exec(c, events).value.control.toReturn)
  {
    hide Inv, QueueShape, TableShape, ControlShape, DramControl.Update, Initial, Waiting, Addresses, ReportedBy,
         Arrive, Exec, Arrivals;
    if events == [] {
      NothingWaits(c);
    } else {
      var before, e := events[..|events|-1], events[|events|-1];
      assert before + [e] == events;
      RunReportsInOrder(c, before);
      EventReports(c, before, e);
      var s := Exec(c, before).value;
      var arrived := if e == Cycle then Arrivals(c, s.ranks) else [];
      AddressesConcat(AllArrivals(c, before), arrived);
      NoAddresses();
      Regroup(Reported(c, before), Waiting(s.control.toReturn), Addresses(arrived),
              ReportedBy(c, Exec(c, before), e), Waiting(Exec(c, events).value.control.toReturn));
    }
  }

  lemma Regroup(a: seq<nat>, w: seq<nat>, x: seq<nat>, now: seq<nat>, later: seq<nat>)
    requires w + x == now + later
    ensures a + w + x == a + now + later
  {
    assert a + w + x == a + (w + x) && a + now + later == a + (now + later);
  }

  lemma NothingWaits(c: Config)
    requires c.Sized()
    ensures Exec(c, []) == Success(Initial(c)) && Waiting(Initial(c).control.toReturn) == [] == Addresses([])
  {
  }

  lemma AddressesConcat(q: seq<Packet>, p: seq<Packet>)
    ensures Addresses(q + p) == Addresses(q) + Addresses(p)
  {
  }

  lemma EventReports(c: Config, events: seq<Event>, e: Event)
    requires c.Valid()
    ensures Exec(c, events).Success? && Exec(c, events + [e]).Success?
    ensures var s, u := Exec(c, events).value, Exec(c, events + [e]).value;
            Waiting(s.control.toReturn) + (if e == Cycle then Addresses(Arrivals(c, s.ranks)) else [])
            == ReportedBy(c, Exec(c, events), e) + Waiting(u.control.toReturn)
  {
    hide Inv, Late, Shape, Front, PopPhase, Served, Finish, Addresses, Waiting, Arrivals;
    RunIsSafe(c, events);
    assert (events + [e])[..|events|] == events;
    var s := Exec(c, events).value;
    if e == Cycle {
      CycleAfter(c, events);
      var f := Front(c, s).value;
      var v := Served(c, PopPhase(c, f).value).value;
      FrontQueues(c, s);
      LaterQueuesNothing(c, f);
      ReturnTakesFirst(c, v);
    }
  }
}
