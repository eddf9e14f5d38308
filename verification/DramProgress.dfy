/** In every run each cycle sends what may be sent. */
module DramProgress {
  import opened Outcomes
  import opened DramTypes
  import opened DramControl
  import opened DramProtocol
  import opened DramAdmission
  import opened DramDecision
  import DramQueue

  /** The state in which the next cycle of a run comes to its pop. */
  function BeforePop(c: Config, events: seq<Event>): (s: System)
    requires c.Valid()
    ensures Shape(c, s) && PopPhase(c, s).Success?
  {
    RunReachesAdmission(c, events);
    Front(c, Exec(c, events).value).value
  }

  lemma CycleIssuesPop(c: Config, events: seq<Event>)
    requires c.Valid()
    ensures Exec(c, events).Success? && Exec(c, events + [Cycle]).Success?
    ensures var f := BeforePop(c, events);
            Exec(c, events + [Cycle]).value.issued
            == f.issued + [DramQueue.Pop(c, f.queue, f.control.banks, f.now).1]
  {
    hide Exec, Inv, Late, Front, Served, Finish, DramQueue.Pop, Shape;
    CycleAfter(c, events);
    RunReachesAdmission(c, events);
    var p := PopPhase(c, BeforePop(c, events)).value;
    LaterIssuesNothing(c, p);
  }

  lemma LaterIssuesNothing(c: Config, s: System)
    requires Shape(c, s) && c.Sized() && Served(c, s).Success?
    ensures Finish(c, Served(c, s).value).issued == s.issued
  {
    hide Shape, AdmitPhase, PowerPhase;
  }

  /** In every run the next cycle makes the right choice, which is nothing only if nothing may go, and sends it. */
  lemma RunSendsWhatMayGo(c: Config, events: seq<Event>) returns (choice: DramQueue.Choice)
    requires c.Valid()
    ensures Exec(c, events + [Cycle]).Success?
    ensures var f, issued := BeforePop(c, events), Exec(c, events + [Cycle]).value.issued;
            var v := DramQueue.Aged(c, f.queue);
            && |issued| == |f.issued| + 1 && Right(c, v, f.control.banks, f.now, choice)
            && Sends(c, v, choice, issued[|f.issued|])
  {
    hide Exec, BeforePop, DramQueue.Pop, Right, Sends, PopPhase;
    CycleIssuesPop(c, events);
    var f := BeforePop(c, events);
    choice := PopIsRight(c, f.queue, f.control.banks, f.now);
  }

  /** In every run a waiting refresh is sent in the first cycle in which nothing holds it up. */
  lemma RunSendsReadyRefresh(c: Config, events: seq<Event>)
    requires c.Valid()
    requires var f := BeforePop(c, events); RefreshMayGo(c, f.queue, f.control.banks, f.now)
    ensures Exec(c, events + [Cycle]).Success?
    ensures var f := BeforePop(c, events);
            Exec(c, events + [Cycle]).value.issued
            == f.issued + [Some(Packet(Refresh, 0, 0, 0, f.queue.refreshRank, 0))]
  {
    hide Exec, BeforePop, DramQueue.Pop, RefreshMayGo, PopPhase;
    CycleIssuesPop(c, events);
    var f := BeforePop(c, events);
    ReadyRefreshIsSent(c, f.queue, f.control.banks, f.now);
  }
}
