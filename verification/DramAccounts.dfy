/** What becomes of every request of the processor, and of every refresh that falls due. */
module DramAccounts {
  import opened Bits
  import opened Outcomes
  import opened DramAdmission
  import opened DramControl
  import opened DramProtocol
  import opened DramRefresh
  import opened DramRuns
  import opened DramShipped
  import opened DramSpacing
  import opened DramTheorems
  import opened DramTiming
  import opened DramTypes
  import DramQueue

  // ---------------------------------------------------------------- requests

  /** How often a run asks for address `a`. */
  function Asked(events: seq<Event>, isWrite: bool, a: nat): nat {
    if events == [] then 0
    else Asked(events[..|events|-1], isWrite, a) + One(events[|events|-1] == Request(isWrite, a))
  }

  function KindFor(isWrite: bool): TransactionKind {
    if isWrite then DataWrite else DataRead
  }

  /** How many of some transactions are such requests. */
  function Held(t: seq<Transaction>, isWrite: bool, a: nat): nat {
    if t == [] then 0
    else Held(t[..|t|-1], isWrite, a) + One(t[|t|-1] == Transaction(KindFor(isWrite), a))
  }

  /** How many column commands that entered the command queue stand for such requests. */
  function Entered(q: seq<Packet>, isWrite: bool, a: nat): nat {
    if q == [] then 0
    else
      var p := q[|q|-1];
      Entered(q[..|q|-1], isWrite, a) + One((if isWrite then IsWrite(p.kind) else IsRead(p.kind)) && p.address == a)
  }

  function Accounted(s: System, isWrite: bool, a: nat): nat {
    Entered(s.entered, isWrite, a) + Held(s.control.transactions, isWrite, a) + Held(s.pending, isWrite, a)
  }

  lemma {:induction false} HeldConcat(t: seq<Transaction>, u: seq<Transaction>, isWrite: bool, a: nat)
    ensures Held(t + u, isWrite, a) == Held(t, isWrite, a) + Held(u, isWrite, a)
  {
    if u == [] {
      assert t + u == t;
    } else {
      HeldConcat(t, u[..|u|-1], isWrite, a);
      assert (t + u)[..|t + u|-1] == t + u[..|u|-1];
    }
  }

  lemma EnteredAppend(q: seq<Packet>, p: Packet, isWrite: bool, a: nat)
    ensures Entered(q + [p], isWrite, a)
            == Entered(q, isWrite, a) + One((if isWrite then IsWrite(p.kind) else IsRead(p.kind)) && p.address == a)
  {
    assert (q + [p])[..|q|] == q;
  }

  lemma HeldOne(x: Transaction, isWrite: bool, a: nat)
    ensures Held([x], isWrite, a) == One(x == Transaction(KindFor(isWrite), a))
  {
    assert [x][..0] == [];
  }

  lemma HeldWithout(t: seq<Transaction>, i: nat, isWrite: bool, a: nat)
    requires i < |t|
    ensures Held(t, isWrite, a) == Held(t[..i] + t[i+1..], isWrite, a) + One(t[i] == Transaction(KindFor(isWrite), a))
  {
    hide Held;
    assert t == t[..i] + [t[i]] + t[i+1..];
    HeldConcat(t[..i] + [t[i]], t[i+1..], isWrite, a);
    HeldConcat(t[..i], [t[i]], isWrite, a);
    HeldConcat(t[..i], t[i+1..], isWrite, a);
    HeldOne(t[i], isWrite, a);
  }

  lemma AdmitMoves(c: Config, s: System, i: nat)
    requires Shape(c, s) && c.Sized() && i < |s.control.transactions| && Admit(c, s, i).Success?
    ensures var t, s1 := s.control.transactions, Admit(c, s, i).value;
            && t[i].kind != ReturnData && s1.pending == s.pending
            && s1.entered == s.entered + [ActivateFor(c, t[i])] + [ColumnFor(c, t[i])]
            && s1.control.transactions == t[..i] + t[i+1..]
  {
    hide Shape, ActivateFor, ColumnFor;
  }

  lemma AdmitAccounts(c: Config, s: System, i: nat, isWrite: bool, a: nat)
    requires Shape(c, s) && c.Sized() && i < |s.control.transactions| && Admit(c, s, i).Success?
    ensures Accounted(Admit(c, s, i).value, isWrite, a) == Accounted(s, isWrite, a)
  {
    hide Shape, Admit, Entered, Held;
    AdmitMoves(c, s, i);
    var t := s.control.transactions[i];
    EnteredAppend(s.entered, ActivateFor(c, t), isWrite, a);
    EnteredAppend(s.entered + [ActivateFor(c, t)], ColumnFor(c, t), isWrite, a);
    HeldWithout(s.control.transactions, i, isWrite, a);
  }

  lemma {:induction false} AdmitPhaseAccounts(c: Config, s: System, i: nat, isWrite: bool, a: nat)
    requires Shape(c, s) && c.Sized() && AdmitPhase(c, s, i).Success?
    ensures Accounted(AdmitPhase(c, s, i).value, isWrite, a) == Accounted(s, isWrite, a)
    decreases |s.control.transactions| - i
  {
    hide Shape, Admit, HasRoomFor, Accounted;
    if i < |s.control.transactions| {
      if Fits(c, s, i) {
        AdmitAccounts(c, s, i, isWrite, a);
        AdmitPhaseAccounts(c, Admit(c, s, i).value, i + 1, isWrite, a);
      } else {
        AdmitPhaseAccounts(c, s, i + 1, isWrite, a);
      }
    }
  }

  /** Nothing a cycle does loses a request or makes one up. */
  lemma CycleAccounts(c: Config, s: System, f: System, p: System, v: System, isWrite: bool, a: nat)
    requires c.Sized() && Shape(c, s) && Shape(c, f) && Shape(c, p) && Shape(c, v)
    requires Front(c, s) == Success(f) && PopPhase(c, f) == Success(p) && Served(c, p) == Success(v)
    ensures Accounted(Finish(c, v), isWrite, a) == Accounted(s, isWrite, a)
  {
    hide Shape, Front, PopPhase, AdmitPhase, PowerPhase, Held, Entered;
    FrontMovesUp(c, s);
    PopMovesNothing(c, f);
    AfterAdmission(c, p);
    AdmitPhaseAccounts(c, p, 0, isWrite, a);
    HeldConcat(s.control.transactions, s.pending, isWrite, a);
    HeldConcat(f.control.transactions, f.pending, isWrite, a);
  }

  lemma PopMovesNothing(c: Config, s: System)
    requires Shape(c, s) && c.Sized() && PopPhase(c, s).Success?
    ensures var p := PopPhase(c, s).value;
            p.control.transactions == s.control.transactions && p.pending == s.pending && p.entered == s.entered
  {
    hide Shape, DramQueue.Pop;
  }

  lemma RequestAccounts(c: Config, s: System, w: bool, b: nat, isWrite: bool, a: nat)
    requires Shape(c, s)
    ensures Accounted(Arrive(c, s, w, b), isWrite, a) == Accounted(s, isWrite, a) + One(w == isWrite && b == a)
  {
    hide Shape, Held, Entered;
    var t := Transaction(KindFor(w), b);
    HeldConcat(s.control.transactions, [t], isWrite, a);
    HeldConcat(s.pending, [t], isWrite, a);
    HeldOne(t, isWrite, a);
  }

  lemma CycleInRunAccounts(c: Config, events: seq<Event>, isWrite: bool, a: nat)
    requires c.Valid()
    ensures Exec(c, events).Success? && Exec(c, events + [Cycle]).Success?
    ensures Accounted(Exec(c, events + [Cycle]).value, isWrite, a) == Accounted(Exec(c, events).value, isWrite, a)
  {
    hide Exec, Shape, Front, PopPhase, Served, Finish, Accounted;
    CycleAfter(c, events);
    var s := Exec(c, events).value;
    var f := Front(c, s).value;
    var p := PopPhase(c, f).value;
    CycleAccounts(c, s, f, p, Served(c, p).value, isWrite, a);
  }

  /**
   * In every run, for each address, the requests of a kind so far are those that entered the command queue, those that
   * wait in the controller, and those held back because it was full.
   */
  lemma {:induction false} RunAccountsRequests(c: Config, events: seq<Event>, isWrite: bool, a: nat)
    requires c.Valid()
    ensures Exec(c, events).Success?
    ensures var s := Exec(c, events).value;
            Asked(events, isWrite, a)
            == Entered(s.entered, isWrite, a) + Held(s.control.transactions, isWrite, a) + Held(s.pending, isWrite, a)
  {
    hide Shape, Inv, DramControl.Update, Arrive;
    if events != [] {
      hide Held, Entered;
      var before, e := events[..|events|-1], events[|events|-1];
      assert before + [e] == events;
      RunAccountsRequests(c, before, isWrite, a);
      match e
      case Request(w, b) => RequestAccounts(c, Exec(c, before).value, w, b, isWrite, a);
      case Cycle => CycleInRunAccounts(c, before, isWrite, a);
    }
  }

  // ---------------------------------------------------------------- refreshes

  /** The next cycle asks for a refresh of rank `r`. */
  predicate AsksNext(c: Config, s: Result<System, Exit>, r: nat)
    requires s.Success? ==> Shape(c, s.value)
  {
    s.Success? && RefreshDue(c, s.value.control) == Some(r)
  }

  /** A refresh of rank `r` waits in the command queue. */
  predicate Waits(s: System, r: nat) {
    s.queue.refreshWaiting && s.queue.refreshRank == r
  }

  /** The next cycle asks for some refresh while one of rank `r` still waits, which is then forgotten. */
  predicate LosesNext(c: Config, s: Result<System, Exit>, r: nat)
    requires s.Success? ==> Shape(c, s.value)
  {
    s.Success? && RefreshDue(c, s.value.control).Some? && Waits(s.value, r)
  }

  /** How often a run asks for a refresh of rank `r`. */
  function RefreshesAsked(c: Config, events: seq<Event>, r: nat): nat
    requires c.Sized()
  {
    if events == [] then 0
    else
      var before := events[..|events|-1];
      RefreshesAsked(c, before, r) + One(events[|events|-1] == Cycle && AsksNext(c, Exec(c, before), r))
  }

  /** How often one of rank `r` is forgotten. */
  function RefreshesLost(c: Config, events: seq<Event>, r: nat): nat
    requires c.Sized()
  {
    if events == [] then 0
    else
      var before := events[..|events|-1];
      RefreshesLost(c, before, r) + One(events[|events|-1] == Cycle && LosesNext(c, Exec(c, before), r))
  }

  predicate IsRefresh(out: Option<Packet>, r: nat) {
    out.Some? && out.value.kind == Refresh && out.value.rank == r
  }

  function RefreshesSent(issued: seq<Option<Packet>>, r: nat): nat {
    if issued == [] then 0
    else RefreshesSent(issued[..|issued|-1], r) + One(IsRefresh(issued[|issued|-1], r))
  }

  /** Sending a rank's refresh is the only choice after which it no longer waits. */
  lemma ChoiceRefreshes(c: Config, v: QueueState, banks: Table, now: int, choice: DramQueue.Choice, r: nat)
    requires c.Valid() && QueueShape(c, v) && TableShape(c, banks) && KindsOk(c, v)
    requires DramQueue.Legal(c, v, banks, now, choice)
    ensures var v' := DramQueue.Removed(c, v, banks, now, choice);
            One(IsRefresh(DramQueue.Chosen(c, v, banks, now, choice), r))
            + One(v'.refreshWaiting && v'.refreshRank == r)
            == One(v.refreshWaiting && v.refreshRank == r)
  {
    hide DramQueue.LegalScan, DramQueue.LegalDrain, DramQueue.LegalClose, DramQueue.Without, DramQueue.Put;
    if choice.Take? {
      assert KindOk(c, v.queues[choice.rank][choice.slot][choice.index]);
    }
  }

  /** A pop sends a rank's refresh exactly if it was waiting and then no longer is. */
  lemma PopRefreshes(c: Config, s: System, r: nat)
    requires c.Valid() && Shape(c, s) && KindsOk(c, s.queue) && PopPhase(c, s).Success?
    ensures var p := PopPhase(c, s).value;
            RefreshesSent(p.issued, r) + One(Waits(p, r)) == RefreshesSent(s.issued, r) + One(Waits(s, r))
  {
    hide DramQueue.Decide, IssueTable, DramQueue.Legal, DramQueue.Removed, DramQueue.Chosen, IsRefresh;
    var v := DramQueue.Aged(c, s.queue);
    assert KindsOk(c, v);
    var choice := DramQueue.DecisionOf(c, s.queue, s.control.banks, s.now).choice;
    ChoiceRefreshes(c, v, s.control.banks, s.now, choice, r);
    var out := DramQueue.Pop(c, s.queue, s.control.banks, s.now).1;
    assert (s.issued + [out])[..|s.issued|] == s.issued;
  }

  /** From the pop on nothing changes about refreshes. */
  lemma ServedRefreshes(c: Config, s: System, r: nat)
    requires Shape(c, s) && c.Sized() && Served(c, s).Success?
    ensures var f := Finish(c, Served(c, s).value); f.issued == s.issued && Waits(f, r) == Waits(s, r)
  {
    hide Shape;
  }

  /** One cycle: a due refresh starts to wait, and overwrites one that waits already. */
  lemma CycleRefreshes(c: Config, s: System, f: System, p: System, v: System, r: nat)
    requires c.Valid() && Inv(c, s) && Shape(c, f) && Shape(c, p) && Shape(c, v) && KindsOk(c, f.queue)
    requires Front(c, s) == Success(f) && PopPhase(c, f) == Success(p) && Served(c, p) == Success(v)
    requires f.issued == s.issued
    ensures var u := Finish(c, v);
            RefreshesSent(u.issued, r) + One(Waits(u, r)) + One(LosesNext(c, Success(s), r))
            == RefreshesSent(s.issued, r) + One(Waits(s, r)) + One(AsksNext(c, Success(s), r))
  {
    hide Inv, Shape, KindsOk, Front, PopPhase, Served, Finish, RefreshesSent;
    FrontRefreshes(c, s);
    PopRefreshes(c, f, r);
    ServedRefreshes(c, p, r);
  }

  /**
   * In every run, the refreshes of a rank that were asked for are those sent, those that were forgotten because the
   * next one of any rank fell due before they were sent, and the one that may be waiting.
   */
  lemma {:induction false} RunAccountsRefreshes(c: Config, events: seq<Event>, r: nat)
    requires c.Valid()
    ensures Exec(c, events).Success?
    ensures var s := Exec(c, events).value;
            RefreshesAsked(c, events, r)
                == RefreshesSent(s.issued, r) + RefreshesLost(c, events, r) + One(Waits(s, r))
  {
    hide Shape, Inv, RefreshesSent, DramControl.Update, AsksNext, LosesNext, Waits, Initial;
    if events == [] {
      InitialRefreshes(c, r);
    } else {
      var before, e := events[..|events|-1], events[|events|-1];
      assert before + [e] == events;
      RunAccountsRefreshes(c, before, r);
      if e == Cycle {
        CycleInRunRefreshes(c, before, r);
      } else {
        ArriveRefreshes(c, Exec(c, before).value, e.isWrite, e.address, r);
      }
    }
  }

  lemma InitialRefreshes(c: Config, r: nat)
    requires c.Sized()
    ensures RefreshesSent(Initial(c).issued, r) == 0 && !Waits(Initial(c), r)
  {
  }

  lemma ArriveRefreshes(c: Config, s: System, isWrite: bool, address: nat, r: nat)
    requires Shape(c, s)
    ensures var u := Arrive(c, s, isWrite, address); u.issued == s.issued && Waits(u, r) == Waits(s, r)
  {
    hide Shape;
  }

  lemma CycleInRunRefreshes(c: Config, events: seq<Event>, r: nat)
    requires c.Valid()
    ensures Exec(c, events).Success? && Exec(c, events + [Cycle]).Success?
    ensures var s, u := Exec(c, events).value, Exec(c, events + [Cycle]).value;
            RefreshesSent(u.issued, r) + One(Waits(u, r)) + One(LosesNext(c, Success(s), r))
            == RefreshesSent(s.issued, r) + One(Waits(s, r)) + One(AsksNext(c, Success(s), r))
  {
    CycleAfter(c, events);
    RunIsSafe(c, events);
    var s := Exec(c, events).value;
    FrontKeeps(c, s);
    FrontTicks(c, s);
    var f := Front(c, s).value;
    MidGives(c, f);
    hide Exec, Inv, Mid, Shape, KindsOk, Front, PopPhase, Served, Finish, RefreshesSent, LosesNext, AsksNext, Waits;
    var p := PopPhase(c, f).value;
    CycleRefreshes(c, s, f, p, Served(c, p).value, r);
  }

  // ---------------------------------------------------------------- a refresh that is lost

  /** A REFRESH sent keeps its rank's banks from being activated or refreshed for tRFC cycles. */
  lemma RefreshDelays(c: Config, s: System, r: nat)
    requires c.Valid() && Shape(c, s) && PopPhase(c, s).Success? && r < c.numRanks
    ensures var p := PopPhase(c, s).value;
            && |p.issued| == |s.issued| + 1 && p.issued[..|s.issued|] == s.issued && p.now == s.now
            && (IsRefresh(p.issued[|s.issued|], r) ==> p.control.banks[r][0].nextActivate == s.now + c.tRFC)
  {
    hide DramQueue.Pop;
  }

  lemma DelayedIsNotChosen(c: Config, v: QueueState, banks: Table, now: int, choice: DramQueue.Choice, r: nat)
    requires c.Valid() && QueueShape(c, v) && TableShape(c, banks) && KindsOk(c, v) && r < c.numRanks
    requires DramQueue.Legal(c, v, banks, now, choice) && banks[r][0].nextActivate > now
    ensures !IsRefresh(DramQueue.Chosen(c, v, banks, now, choice), r)
  {
    hide DramQueue.LegalScan, DramQueue.LegalDrain, DramQueue.LegalClose;
    if choice.Take? {
      assert KindOk(c, v.queues[choice.rank][choice.slot][choice.index]);
    }
  }

  lemma DelayedIsNotSent(c: Config, s: System, r: nat)
    requires c.Valid() && Shape(c, s) && KindsOk(c, s.queue) && PopPhase(c, s).Success? && r < c.numRanks
    requires s.control.banks[r][0].nextActivate > s.now
    ensures var p := PopPhase(c, s).value; |p.issued| == |s.issued| + 1 && !IsRefresh(p.issued[|s.issued|], r)
  {
    hide DramQueue.Decide, IssueTable, DramQueue.Legal, DramQueue.Removed, DramQueue.Chosen, IsRefresh;
    var v := DramQueue.Aged(c, s.queue);
    assert KindsOk(c, v);
    var choice := DramQueue.DecisionOf(c, s.queue, s.control.banks, s.now).choice;
    DelayedIsNotChosen(c, v, s.control.banks, s.now, choice, r);
  }

  lemma ServedKeepsBanks(c: Config, s: System)
    requires Shape(c, s) && c.Sized() && !c.lowPower && Served(c, s).Success?
    ensures var f := Finish(c, Served(c, s).value);
            f.control.banks == s.control.banks && f.issued == s.issued && f.now == s.now + 1
  {
    hide Shape, AdmitPhase;
  }

  /** What the front of a cycle leaves alone. */
  lemma FrontLeaves(c: Config, s: System, r: nat)
    requires c.Valid() && Inv(c, s) && r < c.numRanks
    ensures Front(c, s).Success?
    ensures var f := Front(c, s).value;
            && KindsOk(c, f.queue) && f.issued == s.issued && f.now == s.now == |s.issued|
            && f.control.banks[r][0].nextActivate == s.control.banks[r][0].nextActivate
  {
    hide Inv, Mid, Shape, KindsOk, Front;
    InvGivesWindows(c, s);
    FrontKeeps(c, s);
    FrontTicks(c, s);
    var f := Front(c, s).value;
    MidGives(c, f);
    MidIsOnTime(c, f);
  }

  /** What a cycle, through `f`, `p` and `v`, does to the history, and to the bank of a rank that is sent a REFRESH. */
  lemma CycleIssues(c: Config, s: System, f: System, p: System, v: System, r: nat)
    requires c.Valid() && !c.lowPower && r < c.numRanks && Inv(c, s)
    requires Shape(c, s) && Shape(c, f) && Shape(c, p) && Shape(c, v)
    requires Front(c, s) == Success(f) && PopPhase(c, f) == Success(p) && Served(c, p) == Success(v)
    ensures var u := Finish(c, v);
            && |u.issued| == |s.issued| + 1 && u.issued[..|s.issued|] == s.issued && u.now == s.now + 1 > 0
            && (IsRefresh(u.issued[|s.issued|], r) ==> u.control.banks[r][0].nextActivate == s.now + c.tRFC)
            && (s.control.banks[r][0].nextActivate > s.now ==> !IsRefresh(u.issued[|s.issued|], r))
  {
    FrontLeaves(c, s, r);
    hide Inv, Shape, KindsOk, Front, PopPhase, Served, Finish, IsRefresh;
    RefreshDelays(c, f, r);
    if f.control.banks[r][0].nextActivate > f.now {
      DelayedIsNotSent(c, f, r);
    }
    ServedKeepsBanks(c, p);
  }

  lemma CycleInRunIssues(c: Config, events: seq<Event>, r: nat)
    requires c.Valid() && !c.lowPower && r < c.numRanks
    ensures Exec(c, events).Success? && Exec(c, events + [Cycle]).Success?
    ensures var s, u := Exec(c, events).value, Exec(c, events + [Cycle]).value;
            && |u.issued| == |s.issued| + 1 && u.issued[..|s.issued|] == s.issued && u.now == s.now + 1 > 0
            && (IsRefresh(u.issued[|s.issued|], r) ==> u.control.banks[r][0].nextActivate == s.now + c.tRFC)
            && (s.control.banks[r][0].nextActivate > s.now ==> !IsRefresh(u.issued[|s.issued|], r))
  {
    hide Exec, Inv, Shape, Front, PopPhase, Served, Finish, IsRefresh;
    CycleAfter(c, events);
    RunIsSafe(c, events);
    var s := Exec(c, events).value;
    var f := Front(c, s).value;
    var p := PopPhase(c, f).value;
    CycleIssues(c, s, f, p, Served(c, p).value, r);
  }

  /** Two cycles do not send two refreshes to one rank. */
  lemma OneRefreshInTwoCycles(c: Config, events: seq<Event>, r: nat)
    requires c.Valid() && !c.lowPower && c.tRFC >= 2 && r < c.numRanks
    ensures Exec(c, events).Success? && Exec(c, events + [Cycle] + [Cycle]).Success?
    ensures RefreshesSent(Exec(c, events + [Cycle] + [Cycle]).value.issued, r)
            <= RefreshesSent(Exec(c, events).value.issued, r) + 1
  {
    hide Exec, IsRefresh;
    CycleInRunIssues(c, events, r);
    CycleInRunIssues(c, events + [Cycle], r);
  }

  /** The next cycle of a run asks for a refresh. */
  lemma EveryCycleAsks(c: Config, events: seq<Event>)
    requires c.Valid() && c.numRanks == 1 && c.refreshStep == c.refreshPeriod == 1
    requires Exec(c, events).Success? && Exec(c, events).value.now >= 1
    ensures AsksNext(c, Exec(c, events), 0)
  {
    hide Exec;
    RunRefreshesOnTime(c, events, 0);
    assert Exec(c, events).value.now == Due(c, 0, Exec(c, events).value.now - 1);
  }

  /**
   * With a refresh due in every cycle, but not done within two, four cycles lose one: that of the second cycle is sent
   * at the earliest then, that of the third has to wait, and that of the fourth is put in its place.
   */
  lemma FourCyclesLoseOne(c: Config)
    requires c.Valid() && !c.lowPower && c.tRFC >= 2 && c.numRanks == 1 && c.refreshStep == c.refreshPeriod == 1
    ensures RefreshesLost(c, [Cycle, Cycle, Cycle, Cycle], 0) >= 1
  {
    hide Exec, Waits, RefreshesSent;
    var e0, e1 := [], [Cycle];
    var e2, e3 := e1 + [Cycle], e1 + [Cycle] + [Cycle];
    var e4 := e3 + [Cycle];
    assert e4 == [Cycle, Cycle, Cycle, Cycle] && e0 + [Cycle] == e1;
    assert e2[..1] == e1 && e3[..2] == e2 && e4[..3] == e3;
    CycleInRunIssues(c, e0, 0);
    CycleInRunIssues(c, e1, 0);
    CycleInRunIssues(c, e2, 0);
    OneRefreshInTwoCycles(c, e1, 0);
    EveryCycleAsks(c, e1);
    EveryCycleAsks(c, e2);
    EveryCycleAsks(c, e3);
    RunAccountsRefreshes(c, e1, 0);
    RunAccountsRefreshes(c, e3, 0);
  }

  /** The shipped device on one rank, without power-down, if it were due for a refresh in every cycle. */
  const EAGER: Config := SG125.(numRanks := 1, refreshStep := 1, refreshPeriod := 1, lowPower := false,
                                mapping := SG125.mapping.(rankBits := 0))

  lemma EagerIsValid()
    ensures EAGER.Valid() && EAGER.tRFC >= 2
  {
    assert Pow2(0) == 1 && Pow2(3) == 8;
  }

  /** A configuration and a run in which a refresh is lost. */
  lemma ARefreshIsLost()
    ensures EAGER.Valid() && RefreshesLost(EAGER, [Cycle, Cycle, Cycle, Cycle], 0) >= 1
  {
    hide RefreshesLost, Config.Valid;
    EagerIsValid();
    FourCyclesLoseOne(EAGER);
  }
}
