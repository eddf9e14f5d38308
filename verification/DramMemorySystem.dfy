/** The memory system object: it keeps its ranks, its controller and their clocks together, and runs without an exit. */
module DramMemorySystem {
  import opened Outcomes
  import opened DramTypes
  import opened DramControl
  import opened DramRankDevice
  import opened DramMemoryController
  import DramRank
  import DramProtocol
  import DramRuns

  function WorkAndStep(c: Config, s: System): (r: Result<System, Exit>)
    requires Shape(c, s) && c.Sized()
    ensures r.Success? ==> Shape(c, r.value)
  {
    var s1 :- Work(c, s);
    Success(StepPhase(c, s1))
  }

  /** A cycle of the whole system, seen from its parts. */
  lemma UpdateIsWork(c: Config, s: System)
    requires Shape(c, s) && c.Sized()
    ensures DramControl.Update(c, s) ==
            match RankPhase(c, s, 0)
            case Failure(e) => Failure(e)
            case Success(s1) => WorkAndStep(c, PendingPhase(c, s1))
  {
    hide Shape, RankPhase, PendingPhase, TickPhase, CommandPhase, DataPhase, WritePhase, RefreshPhase, PopPhase, Served,
         ReturnPhase, CountPhase, StepPhase;
  }

  /** Fresh ranks, all idle. */
  method MakeRanks(c: Config) returns (ranks: seq<Rank>)
    requires c.Sized()
    ensures forall i :: 0 <= i < |ranks| ==> fresh(ranks[i])
    ensures Suited(c, ranks) && ClocksShow(ranks, 0) && Views(ranks) == Initial(c).ranks && RanksShape(c, Views(ranks))
  {
    ranks := [];
    ghost var rank := RankState(seq(c.numBanks, _ => FRESH_BANK), false, false, [], [], None, 0);
    for i := 0 to c.numRanks
      invariant |ranks| == i
      invariant forall j :: 0 <= j < i ==> fresh(ranks[j])
      invariant forall j, k :: 0 <= j < k < i ==> ranks[j] != ranks[k]
      invariant forall j :: 0 <= j < i ==> ranks[j].c == c && ranks[j].currentClockCycle == 0 && ranks[j].View() == rank
    {
      var r := new Rank(c);
      ranks := ranks + [r];
    }
    ViewsAt(ranks);
    assert Views(ranks) == Initial(c).ranks;
  }

  class MemorySystem {
    const c: Config
    const ranks: seq<Rank>
    const memoryController: MemoryController
    var pendingTransactions: seq<Transaction>
    var currentClockCycle: int

    ghost function View(): System
      reads this, memoryController, memoryController.commandQueue, memoryController.ranks
    {
      memoryController.View(pendingTransactions)
    }

    ghost predicate Valid()
      reads this, memoryController, memoryController.commandQueue, memoryController.ranks
    {
      && memoryController.c == c && memoryController.ranks == ranks
      && memoryController.Valid() && memoryController.ClocksAgree()
      && memoryController.currentClockCycle == currentClockCycle
    }

    constructor (c: Config)
      requires c.Sized()
      ensures this.c == c && Valid() && View() == Initial(c)
      ensures fresh(memoryController) && fresh(memoryController.commandQueue)
              && fresh(set r | r in memoryController.ranks)
    {
      hide QueueShape, RanksShape, ControlShape, Views, Suited, ClocksShow;
      var ranks := MakeRanks(c);
      var controller := new MemoryController(c, ranks);
      this.c, this.ranks, memoryController := c, ranks, controller;
      pendingTransactions := [];
      currentClockCycle := 0;
    }

    /** A read or a write from the processor. */
    method AddTransaction(isWrite: bool, address: nat)
      requires Valid()
      modifies this`pendingTransactions, memoryController`transactionQueue
      ensures Valid() && View() == Arrive(c, old(View()), isWrite, address)
    {
      hide QueueShape, RanksShape, Views, Suited, ClocksShow;
      var t := Transaction(if isWrite then DataWrite else DataRead, address);
      if memoryController.WillAcceptTransaction() {
        var _ := memoryController.AddTransaction(t);
      } else {
        pendingTransactions := pendingTransactions + [t];
      }
    }

    method MoveRank(r: nat) returns (done: Option<Packet>)
      requires Suited(c, ranks) && RanksShape(c, Views(ranks)) && ClocksShow(ranks, currentClockCycle) && r < c.numRanks
      modifies ranks
      ensures ClocksShow(ranks, currentClockCycle)
      ensures var (k, out) := DramRank.Update(c, old(Views(ranks))[r]);
              done == out && Views(ranks) == old(Views(ranks))[r := k]
    {
      hide DramRank.Update;
      ViewsAt(ranks);
      done := ranks[r].Update();
      ViewsAt(ranks);
      assert Views(ranks) == old(Views(ranks))[r := ranks[r].View()];
    }

    /** One rank's cycle; what leaves its data bus goes to the controller. */
    method UpdateRank(r: nat) returns (o: Outcome<Exit>)
      requires Valid() && r < c.numRanks
      modifies ranks, memoryController`returnTransaction
      ensures RankOne(c, old(View()), r) == Done(o, View())
      ensures o.Pass? ==> Valid()
    {
      assert |ranks| == c.numRanks;
      hide QueueShape, TableShape, ControlShape, RanksShape, RankShape, Views, Suited, ClocksShow, DramRank.Update;
      var done := MoveRank(r);
      o := Pass;
      if done.Some? {
        o := memoryController.ReceiveFromBus(done.value);
      }
    }

    method UpdateRanks() returns (o: Outcome<Exit>)
      requires Valid()
      modifies ranks, memoryController`returnTransaction
      ensures RankPhase(c, old(View()), 0) == Done(o, View())
      ensures o.Pass? ==> Valid()
    {
      hide QueueShape, RanksShape, ControlShape, Views, Suited, ClocksShow, RankOne;
      var r := 0;
      while r < c.numRanks
        invariant r <= c.numRanks && Valid()
        invariant RankPhase(c, old(View()), 0) == RankPhase(c, View(), r)
      {
        o := UpdateRank(r);
        if o.Fail? {
          return;
        }
        r := r + 1;
      }
      o := Pass;
    }

    /** Hand over a transaction that found the controller full. */
    method HandOverPending()
      requires Valid()
      modifies this`pendingTransactions, memoryController`transactionQueue
      ensures Valid() && View() == PendingPhase(c, old(View()))
    {
      hide QueueShape, RanksShape, Views, Suited, ClocksShow;
      if |pendingTransactions| > 0 && memoryController.WillAcceptTransaction() {
        var _ := memoryController.AddTransaction(pendingTransactions[0]);
        pendingTransactions := pendingTransactions[1..];
      }
    }

    /** One more cycle on the clock of every rank. */
    method StepRanks()
      requires Suited(c, ranks) && RanksShape(c, Views(ranks)) && ClocksShow(ranks, currentClockCycle)
      modifies ranks
      ensures Views(ranks) == old(Views(ranks)) && ClocksShow(ranks, currentClockCycle + 1)
    {
      ghost var views := Views(ranks);
      ViewsAt(ranks);
      for i := 0 to |ranks|
        invariant forall j :: 0 <= j < |ranks| ==> ranks[j].View() == views[j]
        invariant forall j :: 0 <= j < i ==> ranks[j].currentClockCycle == currentClockCycle + 1
        invariant forall j :: i <= j < |ranks| ==> ranks[j].currentClockCycle == currentClockCycle
      {
        ranks[i].Step();
      }
      ViewsAt(ranks);
      assert Views(ranks) == views;
    }

    /** Step the clock of every object but the command queue, whose clock the controller steps. */
    method StepAll()
      requires memoryController.c == c && memoryController.ranks == ranks && memoryController.Valid()
      requires memoryController.currentClockCycle == currentClockCycle && ClocksShow(ranks, currentClockCycle)
      requires memoryController.commandQueue.currentClockCycle == currentClockCycle + 1
      modifies this`currentClockCycle, memoryController`currentClockCycle, ranks
      ensures View() == StepPhase(c, old(View()))
      ensures Valid()
    {
      hide QueueShape, ControlShape, RanksShape, Views, Suited, ClocksShow;
      StepRanks();
      memoryController.Step();
      currentClockCycle := currentClockCycle + 1;
    }

    /** The controller's cycle, and the end of everybody's. */
    method UpdateController() returns (o: Outcome<Exit>)
      requires Valid()
      modifies this, memoryController, memoryController.commandQueue, ranks
      ensures WorkAndStep(c, old(View())) == Done(o, View())
      ensures o.Pass? ==> Valid()
    {
      hide QueueShape, RanksShape, ControlShape, Views, Suited, ClocksShow, Work, StepPhase;
      o := memoryController.Update(pendingTransactions);
      if o.Pass? {
        StepAll();
      }
    }

    /** One cycle of the memory system. */
    method Update() returns (o: Outcome<Exit>)
      requires Valid()
      modifies this, memoryController, memoryController.commandQueue, ranks
      ensures DramControl.Update(c, old(View())) == Done(o, View())
      ensures o.Pass? ==> Valid()
    {
      UpdateIsWork(c, View());
      hide QueueShape, RanksShape, ControlShape, Views, Suited, ClocksShow, RankPhase, PendingPhase, WorkAndStep,
           DramControl.Update;
      o := UpdateRanks();
      if o.Pass? {
        HandOverPending();
        o := UpdateController();
      }
    }
  }

  /**
   * A run of the objects, from construction through any requests and cycles: it comes to no exit, and the state it
   * ends in is the one the specification computes, with every invariant of the protocol in force.
   */
  method Run(c: Config, events: seq<Event>) returns (m: MemorySystem, o: Outcome<Exit>)
    requires c.Valid()
    ensures o == Pass && m.Valid() && fresh(m)
    ensures Exec(c, events) == Success(m.View()) && DramProtocol.Inv(c, m.View())
  {
    hide DramControl.Update, Arrive, Initial, DramProtocol.Inv, QueueShape, RanksShape, ControlShape, Views, Suited,
         ClocksShow;
    m := new MemorySystem(c);
    o := Pass;
    for i := 0 to |events|
      invariant m.c == c && m.Valid() && fresh(m) && fresh(m.memoryController) && fresh(m.memoryController.commandQueue)
      invariant fresh(set r | r in m.memoryController.ranks)
      invariant o == Pass && Exec(c, events[..i]) == Success(m.View())
    {
      assert events[..i+1][..i] == events[..i];
      DramRuns.RunIsSafe(c, events[..i+1]);
      match events[i] {
      case Request(isWrite, address) =>
        m.AddTransaction(isWrite, address);
      case Cycle =>
        o := m.Update();
      }
    }
    assert events[..|events|] == events;
    DramRuns.RunIsSafe(c, events);
  }
}
