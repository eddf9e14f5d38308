/** In which order waiting transactions enter the command queue. */
module DramAdmission {
  import opened AddressMap
  import opened Outcomes
  import opened DramTypes
  import opened DramControl
  import opened DramHistory
  import opened DramOrder
  import opened DramProtocol
  import DramQueue
  import opened DramRuns
  import opened DramShipped
  import opened DramTiming

  // ---------------------------------------------------------------- which transactions a cycle admits

  /** There is room for the two commands of the `i`th waiting transaction. */
  predicate Fits(c: Config, s: System, i: nat)
    requires Shape(c, s) && c.Sized() && i < |s.control.transactions|
  {
    var l := Locate(c.mapping, s.control.transactions[i].address);
    HasRoomFor(c, s.queue, 2, l.rank, l.bank)
  }

  /**
   * The transactions that the loop admits from position `i` on, by their numbers in the list as it was before the
   * cycle, after `gone` of them have been erased.
   */
  function Admitted(c: Config, s: System, i: nat, gone: nat): seq<nat>
    requires Shape(c, s) && c.Sized() && AdmitPhase(c, s, i).Success?
    decreases |s.control.transactions| - i
  {
    if i >= |s.control.transactions| then []
    else if Fits(c, s, i) then [i + gone] + Admitted(c, Admit(c, s, i).value, i + 1, gone + 1)
    else Admitted(c, s, i + 1, gone)
  }

  predicate Below(picks: seq<nat>, n: nat) {
    forall k :: 0 <= k < |picks| ==> picks[k] < n
  }

  /** The commands of some of the transactions `t`. */
  function Commands(c: Config, t: seq<Transaction>, picks: seq<nat>): seq<Packet>
    requires Below(picks, |t|)
  {
    if picks == [] then []
    else
      assert picks[0] < |t|;
      [ActivateFor(c, t[picks[0]]), ColumnFor(c, t[picks[0]])] + Commands(c, t, picks[1..])
  }

  /** Later ones have greater numbers. */
  lemma {:induction false} AdmittedIncrease(c: Config, s: System, i: nat, gone: nat)
    requires Shape(c, s) && c.Sized() && AdmitPhase(c, s, i).Success?
    ensures var picks := Admitted(c, s, i, gone);
            && Below(picks, |s.control.transactions| + gone)
            && (forall k :: 0 <= k < |picks| ==> i + gone <= picks[k])
            && (forall a, b :: 0 <= a < b < |picks| ==> picks[a] < picks[b])
    decreases |s.control.transactions| - i
  {
    hide Shape, HasRoomFor, Admit;
    if i < |s.control.transactions| {
      if Fits(c, s, i) {
        AdmittedIncrease(c, Admit(c, s, i).value, i + 1, gone + 1);
      } else {
        AdmittedIncrease(c, s, i + 1, gone);
      }
    }
  }

  /** `s` is what is left of the waiting transactions `t` when `gone` have been erased before position `i`. */
  ghost predicate LeftOf(s: System, t: seq<Transaction>, i: nat, gone: nat) {
    && |t| == |s.control.transactions| + gone
    && forall k :: i <= k < |s.control.transactions| ==> s.control.transactions[k] == t[k + gone]
  }

  /** One round of the loop. */
  lemma AdmitStep(c: Config, s: System, i: nat, gone: nat)
    requires Shape(c, s) && c.Sized() && i < |s.control.transactions| && AdmitPhase(c, s, i).Success?
    ensures Fits(c, s, i) ==>
              && Admit(c, s, i).Success? && AdmitPhase(c, s, i) == AdmitPhase(c, Admit(c, s, i).value, i + 1)
              && Admitted(c, s, i, gone) == [i + gone] + Admitted(c, Admit(c, s, i).value, i + 1, gone + 1)
    ensures !Fits(c, s, i) ==>
              AdmitPhase(c, s, i) == AdmitPhase(c, s, i + 1) && Admitted(c, s, i, gone) == Admitted(c, s, i + 1, gone)
  {
    hide Shape, HasRoomFor, Admit;
  }

  lemma AdmitDone(c: Config, s: System, t: seq<Transaction>, i: nat, gone: nat)
    requires Shape(c, s) && c.Sized() && i >= |s.control.transactions|
    ensures AdmitPhase(c, s, i) == Success(s) && Admitted(c, s, i, gone) == [] && Below(Admitted(c, s, i, gone), |t|)
    ensures s.entered == s.entered + Commands(c, t, Admitted(c, s, i, gone))
  {
    hide Shape;
  }

  lemma CommandsStep(c: Config, t: seq<Transaction>, p: nat, rest: seq<nat>)
    requires p < |t| && Below(rest, |t|)
    ensures Below([p] + rest, |t|)
    ensures Commands(c, t, [p] + rest) == [ActivateFor(c, t[p]), ColumnFor(c, t[p])] + Commands(c, t, rest)
  {
    hide ActivateFor, ColumnFor;
    assert ([p] + rest)[1..] == rest;
  }

  /** Exactly the commands of these transactions enter, in this order. */
  lemma {:induction false} AdmittedEnter(c: Config, s: System, t: seq<Transaction>, i: nat, gone: nat)
    requires Shape(c, s) && c.Sized() && AdmitPhase(c, s, i).Success? && LeftOf(s, t, i, gone)
    ensures Below(Admitted(c, s, i, gone), |t|)
    ensures AdmitPhase(c, s, i).value.entered == s.entered + Commands(c, t, Admitted(c, s, i, gone))
    decreases |s.control.transactions| - i
  {
    hide Shape, HasRoomFor, ActivateFor, ColumnFor, Admit, LeftOf, Below, Fits, AdmitPhase, Admitted, Commands;
    LeftFurther(s, t, i, gone);
    if i >= |s.control.transactions| {
      AdmitDone(c, s, t, i, gone);
    } else {
      AdmitStep(c, s, i, gone);
      if Fits(c, s, i) {
        var s1 := Admit(c, s, i).value;
        AdmitOne(c, s, t, i, gone);
        AdmittedEnter(c, s1, t, i + 1, gone + 1);
        var rest := Admitted(c, s1, i + 1, gone + 1);
        CommandsStep(c, t, i + gone, rest);
        var both := [ActivateFor(c, t[i + gone]), ColumnFor(c, t[i + gone])];
        assert s.entered + both + Commands(c, t, rest) == s.entered + (both + Commands(c, t, rest));
      } else {
        AdmittedEnter(c, s, t, i + 1, gone);
      }
    }
  }

  lemma LeftFurther(s: System, t: seq<Transaction>, i: nat, gone: nat)
    requires LeftOf(s, t, i, gone)
    ensures LeftOf(s, t, i + 1, gone) && |t| == |s.control.transactions| + gone
  {
  }

  lemma AdmitOne(c: Config, s: System, t: seq<Transaction>, i: nat, gone: nat)
    requires Shape(c, s) && c.Sized() && i < |s.control.transactions| && Admit(c, s, i).Success?
             && LeftOf(s, t, i, gone)
    ensures var s1 := Admit(c, s, i).value;
            && s1.control.transactions == s.control.transactions[..i] + s.control.transactions[i+1..]
            && i + gone < |t| && LeftOf(s1, t, i + 1, gone + 1)
            && |s1.control.transactions| == |s.control.transactions| - 1
            && s1.entered == s.entered + [ActivateFor(c, t[i + gone]), ColumnFor(c, t[i + gone])]
  {
    hide Shape, ActivateFor, ColumnFor, Enqueue;
  }

  // ---------------------------------------------------------------- when arrival order is kept

  /** Those admitted are the first ones. */
  predicate FirstOnes(picks: seq<nat>) {
    forall k :: 0 <= k < |picks| ==> picks[k] == k
  }

  /** None from position `i` on has room. */
  predicate NoneFits(c: Config, s: System, i: nat)
    requires Shape(c, s) && c.Sized()
  {
    forall j :: i <= j < |s.control.transactions| ==> !Fits(c, s, j)
  }

  lemma {:induction false} NoneAdmitted(c: Config, s: System, i: nat, gone: nat)
    requires Shape(c, s) && c.Sized() && AdmitPhase(c, s, i).Success?
    ensures Admitted(c, s, i, gone) == [] <==> NoneFits(c, s, i)
    decreases |s.control.transactions| - i
  {
    hide Shape, HasRoomFor, Admit;
    if i < |s.control.transactions| && !Fits(c, s, i) {
      NoneAdmitted(c, s, i + 1, gone);
    }
  }

  /**
   * What can be looked up before a cycle, with no more than the test for room: nobody fits but possibly the first, and
   * once that one has entered nobody behind the second.
   */
  predicate KeepsOrder(c: Config, s: System)
    requires Shape(c, s) && c.Sized() && AdmitPhase(c, s, 0).Success?
  {
    s.control.transactions == [] || NoneFits(c, if Fits(c, s, 0) then Admit(c, s, 0).value else s, 1)
  }

  /**
   * A cycle admits transactions in the order of their arrival, without passing one over, if and only if the guard
   * holds.
   */
  lemma AdmitsInOrderIff(c: Config, s: System)
    requires Shape(c, s) && c.Sized() && AdmitPhase(c, s, 0).Success?
    ensures FirstOnes(Admitted(c, s, 0, 0)) <==> KeepsOrder(c, s)
  {
    hide Shape, HasRoomFor, Admit;
    var t := s.control.transactions;
    if t != [] {
      if Fits(c, s, 0) {
        var s1 := Admit(c, s, 0).value;
        NoneAdmitted(c, s1, 1, 1);
        AdmittedIncrease(c, s1, 1, 1);
        var rest := Admitted(c, s1, 1, 1);
        assert Admitted(c, s, 0, 0) == [0] + rest;
        assert rest != [] ==> Admitted(c, s, 0, 0)[1] == rest[0] && rest[0] >= 2;
      } else {
        NoneAdmitted(c, s, 1, 0);
        AdmittedIncrease(c, s, 1, 0);
        var picks := Admitted(c, s, 0, 0);
        assert picks == Admitted(c, s, 1, 0);
        assert picks != [] ==> picks[0] >= 1;
      }
    }
  }

  /** What the loop has gone past stays, and commands enter behind those that entered before. */
  lemma {:induction false} PassedStays(c: Config, s: System, i: nat)
    requires Shape(c, s) && c.Sized() && i <= |s.control.transactions| && AdmitPhase(c, s, i).Success?
    ensures var r := AdmitPhase(c, s, i).value;
            s.control.transactions[..i] <= r.control.transactions && s.entered <= r.entered
    decreases |s.control.transactions| - i
  {
    hide Shape, Admit, AdmitPhase, Admitted, Fits;
    var t := s.control.transactions;
    if i == |t| {
      AdmitDone(c, s, t, i, 0);
    } else {
      AdmitStep(c, s, i, 0);
      if Fits(c, s, i) {
        var s1 := Admit(c, s, i).value;
        AdmitOne(c, s, t, i, 0);
        assert s1.control.transactions[..i] == t[..i];
        if i == |s1.control.transactions| {
          AdmitDone(c, s1, t, i + 1, 0);
        } else {
          PassedStays(c, s1, i + 1);
        }
      } else {
        PassedStays(c, s, i + 1);
      }
    }
  }

  /**
   * Transactions overtake each other: when one is admitted, the next one is passed over for this cycle, whether there
   * is room for it or not, and the one behind that enters first if it fits.
   */
  lemma NextIsOvertaken(c: Config, s: System, i: nat)
    requires Shape(c, s) && c.Sized() && i + 1 < |s.control.transactions| && AdmitPhase(c, s, i).Success?
             && Fits(c, s, i)
    ensures var t, r := s.control.transactions, AdmitPhase(c, s, i).value;
            && i < |r.control.transactions| && r.control.transactions[i] == t[i+1]
            && s.entered + [ActivateFor(c, t[i]), ColumnFor(c, t[i])] <= r.entered
            && (i + 2 < |t| && Fits(c, Admit(c, s, i).value, i + 1) ==>
                  s.entered + [ActivateFor(c, t[i]), ColumnFor(c, t[i]), ActivateFor(c, t[i+2]),
                      ColumnFor(c, t[i+2])] <= r.entered)
  {
    hide Shape, Admit, AdmitPhase, Admitted, Fits;
    var t := s.control.transactions;
    AdmitStep(c, s, i, 0);
    AdmitOne(c, s, t, i, 0);
    var s1 := Admit(c, s, i).value;
    PassedStays(c, s1, i + 1);
    assert s1.control.transactions[i] == s1.control.transactions[..i+1][i];
    if i + 2 < |t| && Fits(c, s1, i + 1) {
      AdmitStep(c, s1, i + 1, 1);
      AdmitOne(c, s1, t, i + 1, 1);
      var s2 := Admit(c, s1, i + 1).value;
      if i + 2 <= |s2.control.transactions| {
        PassedStays(c, s2, i + 2);
      } else {
        AdmitDone(c, s2, t, i + 2, 0);
      }
    }
  }

  // ---------------------------------------------------------------- in runs

  /** The state in which the next cycle after a run comes to its waiting transactions. */
  function BeforeAdmission(c: Config, events: seq<Event>): (s: System)
    requires c.Valid()
    ensures Shape(c, s)
  {
    RunReachesAdmission(c, events);
    PopPhase(c, Front(c, Exec(c, events).value).value).value
  }

  lemma RunReachesAdmission(c: Config, events: seq<Event>)
    requires c.Valid()
    ensures Exec(c, events).Success? && Front(c, Exec(c, events).value).Success?
    ensures var p := PopPhase(c, Front(c, Exec(c, events).value).value);
            p.Success? && Late(c, p.value) && AdmitPhase(c, p.value, 0).Success?
  {
    hide Exec, Inv, Mid, Late, Front, PopPhase;
    RunIsSafe(c, events);
    FrontKeeps(c, Exec(c, events).value) by {
      assert Shape(c, Exec(c, events).value);
    }
    PopKeeps(c, Front(c, Exec(c, events).value).value);
    AdmitPhaseKeeps(c, PopPhase(c, Front(c, Exec(c, events).value).value).value, 0);
  }

  /**
   * In every run, a cycle keeps the order of arrival if and only if the guard holds when it comes to the
   * transactions.
   */
  lemma RunAdmitsInOrderIff(c: Config, events: seq<Event>)
    requires c.Valid()
    ensures var s := BeforeAdmission(c, events);
            && AdmitPhase(c, s, 0).Success?
            && var picks := Admitted(c, s, 0, 0);
            && Below(picks, |s.control.transactions|)
            && AdmitPhase(c, s, 0).value.entered == s.entered + Commands(c, s.control.transactions, picks)
            && (FirstOnes(picks) <==> KeepsOrder(c, s))
  {
    hide Exec, Front, PopPhase, Admitted, KeepsOrder;
    RunReachesAdmission(c, events);
    var s := BeforeAdmission(c, events);
    AdmitsInOrderIff(c, s);
    AdmittedEnter(c, s, s.control.transactions, 0, 0);
  }

  // ---------------------------------------------------------------- an overtaking

  /** What the front of a cycle does to requests: if the controller has room, the first of those held back moves up. */
  predicate MovedUp(c: Config, s: System, f: System) {
    && f.control.transactions + f.pending == s.control.transactions + s.pending
    && |f.pending| == |s.pending| - (if s.pending != [] && |s.control.transactions| < c.transactionDepth then 1 else 0)
    && f.entered == s.entered && f.queue.queues == s.queue.queues
  }

  lemma ArrivingMovesUp(c: Config, s: System)
    requires Shape(c, s) && c.Sized() && Arriving(c, s).Success?
    ensures MovedUp(c, s, Arriving(c, s).value)
  {
    hide Shape, RankPhase, TickTable;
    var s1 := RankPhase(c, s, 0).value;
    PendingMovesUp(c, s1);
  }

  lemma PendingMovesUp(c: Config, s: System)
    requires Shape(c, s)
    ensures MovedUp(c, s, PendingPhase(c, s))
  {
    hide Shape;
    if s.pending != [] && WillAccept(c, s.control) {
      assert s.control.transactions + s.pending == s.control.transactions + [s.pending[0]] + s.pending[1..];
    }
  }

  lemma FrontMovesUp(c: Config, s: System)
    requires Shape(c, s) && c.Sized() && Front(c, s).Success?
    ensures MovedUp(c, s, Front(c, s).value)
  {
    ArrivingMovesUp(c, s);
    assert Shape(c, s) && Shape(c, Arriving(c, s).value) && WritePhase(c, DataPhase(c, Arriving(c, s).value)).Success?;
    RestMovesNothing(c, Arriving(c, s).value);
    hide Arriving, Shape, DataPhase, WritePhase, RefreshPhase;
  }

  lemma RestMovesNothing(c: Config, s: System)
    requires Shape(c, s) && WritePhase(c, DataPhase(c, s)).Success?
    ensures var f := RefreshPhase(c, WritePhase(c, DataPhase(c, s)).value);
            && f.control.transactions == s.control.transactions && f.pending == s.pending
            && f.entered == s.entered && f.queue.queues == s.queue.queues
  {
    hide Shape;
  }

  /** A pop that finds nothing in the queues leaves them as they are. */
  lemma PopOfNothing(c: Config, s: System)
    requires Shape(c, s) && c.Sized() && PopPhase(c, s).Success?
    requires forall r :: 0 <= r < c.numRanks ==> RankEmpty(c, s.queue, r)
    ensures var p := PopPhase(c, s).value;
            && p.queue.queues == s.queue.queues && p.entered == s.entered
            && p.control.transactions == s.control.transactions && p.pending == s.pending
  {
    hide DramQueue.Decide, IssueTable;
    var choice := DramQueue.DecisionOf(c, s.queue, s.control.banks, s.now).choice;
    assert choice.Take? && choice.rank < c.numRanks ==> RankEmpty(c, s.queue, choice.rank);
  }

  /** No queue holds more than `n` commands. */
  predicate Shorter(c: Config, s: System, n: nat)
    requires Shape(c, s)
  {
    forall r, l :: 0 <= r < c.numRanks && 0 <= l < c.Slots() ==> |s.queue.queues[r][l]| <= n
  }

  lemma ShortFits(c: Config, s: System, i: nat, n: nat)
    requires Shape(c, s) && c.Valid() && i < |s.control.transactions| && Shorter(c, s, n) && n + 2 <= c.commandDepth
    ensures Fits(c, s, i)
  {
    var l := Locate(c.mapping, s.control.transactions[i].address);
    assert |s.queue.queues[l.rank][c.Slot(l.bank)]| <= n;
  }

  lemma AdmitLengthens(c: Config, s: System, i: nat, n: nat)
    requires Shape(c, s) && c.Valid() && i < |s.control.transactions| && Shorter(c, s, n) && Admit(c, s, i).Success?
    ensures Shorter(c, Admit(c, s, i).value, n + 2)
  {
    AdmitEffect(c, s, i);
    hide Admit, ActivateFor, ColumnFor, Mates, KindOk;
    var act := ActivateFor(c, s.control.transactions[i]);
    assert |s.queue.queues[act.rank][c.Slot(act.bank)]| <= n;
  }

  /** What is left of three transactions that found the queues empty. */
  lemma SecondIsPassedOver(c: Config, s: System)
    requires Shape(c, s) && c.Valid() && 4 <= c.commandDepth && AdmitPhase(c, s, 0).Success?
    requires Shorter(c, s, 0) && |s.control.transactions| == 3
    ensures var t, r := s.control.transactions, AdmitPhase(c, s, 0).value;
            && r.control.transactions == [t[1]]
            && r.entered == s.entered + Commands(c, t, [0, 2])
  {
    hide Shape, ActivateFor, ColumnFor, Fits, Admit, Shorter, AdmitPhase, Admitted, Commands;
    var t := s.control.transactions;
    AdmitStep(c, s, 0, 0);
    ShortFits(c, s, 0, 0);
    var s1 := Admit(c, s, 0).value;
    AdmitOne(c, s, t, 0, 0);
    AdmitLengthens(c, s, 0, 0);
    ShortFits(c, s1, 1, 2);
    AdmitStep(c, s1, 1, 1);
    var s2 := Admit(c, s1, 1).value;
    AdmitOne(c, s1, t, 1, 1);
    AdmitDone(c, s2, t, 2, 2);
    assert s2.control.transactions == [t[1]];
    AdmittedEnter(c, s, t, 0, 0);
    assert Admitted(c, s, 0, 0) == [0, 2];
  }

  /** The rest of the cycle concerns neither the waiting transactions nor the history of the queue. */
  lemma AfterAdmission(c: Config, s: System)
    requires Shape(c, s) && c.Sized() && AdmitPhase(c, s, 0).Success? && Served(c, s).Success?
    ensures var a, f := AdmitPhase(c, s, 0).value, Finish(c, Served(c, s).value);
            f.control.transactions == a.control.transactions && f.entered == a.entered
  {
    hide Shape, AdmitPhase, PowerPhase;
  }

  predicate AllEmpty(c: Config, s: System)
    requires Shape(c, s)
  {
    forall r :: 0 <= r < c.numRanks ==> RankEmpty(c, s.queue, r)
  }

  lemma EmptyIsShort(c: Config, s: System)
    requires Shape(c, s) && AllEmpty(c, s)
    ensures Shorter(c, s, 0)
  {
    forall r, l | 0 <= r < c.numRanks && 0 <= l < c.Slots() ensures |s.queue.queues[r][l]| <= 0 {
      assert RankEmpty(c, s.queue, r);
    }
  }

  lemma SameQueuesEmpty(c: Config, s: System, s': System)
    requires Shape(c, s) && Shape(c, s') && AllEmpty(c, s) && s'.queue.queues == s.queue.queues
    ensures AllEmpty(c, s')
  {
    forall r | 0 <= r < c.numRanks ensures RankEmpty(c, s'.queue, r) {
      assert RankEmpty(c, s.queue, r);
    }
  }

  /** After the cycle the second transaction still waits, and the third has entered behind the first. */
  predicate ThirdFirst(c: Config, s: System, u: System)
    requires |s.control.transactions| == 3
  {
    var t := s.control.transactions;
    u.control.transactions == [t[1]] && u.entered == s.entered + Commands(c, t, [0, 2])
  }

  /** A cycle, through `f`, `p` and `v`, that comes to three waiting transactions and empty queues. */
  lemma CyclePassesSecondOver(c: Config, s: System, f: System, p: System, v: System)
    requires c.Valid() && c.commandDepth >= 4
    requires Shape(c, s) && Shape(c, f) && Shape(c, p) && Shape(c, v)
    requires Front(c, s) == Success(f) && PopPhase(c, f) == Success(p) && Served(c, p) == Success(v)
    requires s.pending == [] && |s.control.transactions| == 3 && AllEmpty(c, s)
    ensures ThirdFirst(c, s, Finish(c, v))
  {
    hide Shape, Front, PopPhase, Finish, AdmitPhase, PowerPhase, RankEmpty, AllEmpty, Commands, Shorter;
    FrontMovesUp(c, s);
    assert f.control.transactions + [] == f.control.transactions
           && s.control.transactions + [] == s.control.transactions;
    SameQueuesEmpty(c, s, f);
    PopFromEmpty(c, f);
    SameQueuesEmpty(c, f, p);
    EmptyIsShort(c, p);
    assert AdmitPhase(c, p, 0).Success?;
    SecondIsPassedOver(c, p);
    AfterAdmission(c, p);
  }

  lemma PopFromEmpty(c: Config, s: System)
    requires Shape(c, s) && c.Sized() && PopPhase(c, s).Success? && AllEmpty(c, s)
    ensures var p := PopPhase(c, s).value;
            && p.queue.queues == s.queue.queues && p.entered == s.entered
            && p.control.transactions == s.control.transactions && p.pending == s.pending
  {
    hide PopPhase, Shape, RankEmpty;
    PopOfNothing(c, s);
  }

  function ReadRequests(addresses: seq<nat>): seq<Event> {
    seq(|addresses|, i requires 0 <= i < |addresses| => Request(false, addresses[i]))
  }

  /** Requests that come before anything else wait in the controller, as long as it takes them. */
  lemma {:induction false} RequestsWait(c: Config, addresses: seq<nat>)
    requires c.Valid() && |addresses| <= c.transactionDepth
    ensures Exec(c, ReadRequests(addresses)).Success?
    ensures var s := Exec(c, ReadRequests(addresses)).value;
            && s.control.transactions
                == seq(|addresses|, i requires 0 <= i < |addresses| => Transaction(DataRead, addresses[i]))
            && s.pending == [] && s.entered == [] && s.queue == InitialQueue(c)
  {
    hide Shape, InitialQueue, InitialControl;
    if addresses == [] {
      assert ReadRequests(addresses) == [];
      InitialWaits(c);
    } else {
      var n := |addresses| - 1;
      RequestsWait(c, addresses[..n]);
      assert ReadRequests(addresses)[..n] == ReadRequests(addresses[..n]);
    }
  }

  lemma InitialWaits(c: Config)
    requires c.Sized()
    ensures InitialControl(c).transactions == []
  {
  }

  /**
   * Three reads, then a cycle: the third enters the command queue and the second still waits, whatever the
   * configuration, as long as the queues are not too short for three pairs of commands to matter.
   */
  lemma ThirdOvertakesSecond(c: Config, a: seq<nat>)
    requires c.Valid() && c.commandDepth >= 4 && c.transactionDepth >= 3 && |a| == 3
    ensures Exec(c, ReadRequests(a) + [Cycle]).Success?
    ensures var s := Exec(c, ReadRequests(a) + [Cycle]).value;
            var t := seq(3, i requires 0 <= i < 3 => Transaction(DataRead, a[i]));
            && s.control.transactions == [t[1]]
            && s.entered == [ActivateFor(c, t[0]), ColumnFor(c, t[0]), ActivateFor(c, t[2]), ColumnFor(c, t[2])]
  {
    RequestsWait(c, a);
    RunIsSafe(c, ReadRequests(a));
    var s := Exec(c, ReadRequests(a)).value;
    CycleAfter(c, ReadRequests(a));
    assert AllEmpty(c, s) by {
      InitialIsEmpty(c);
      assert s.queue == InitialQueue(c);
    }
    hide Exec, Inv, Shape, BeforeReturn, Front, PopPhase, Served, Finish, InitialQueue, ActivateFor, ColumnFor,
         AllEmpty;
    var f := Front(c, s).value;
    var p := PopPhase(c, f).value;
    var v := Served(c, p).value;
    CyclePassesSecondOver(c, s, f, p, v);
    CommandsOfTwo(c, s.control.transactions);
  }

  /** After three reads and a cycle the second one waits, and the queue has had the column commands of the others. */
  predicate Overtaken(c: Config, a: seq<nat>)
    requires c.Valid() && |a| == 3
  {
    var r := Exec(c, ReadRequests(a) + [Cycle]);
    && r.Success?
    && |r.value.control.transactions| == 1 && r.value.control.transactions[0].address == a[1]
    && |r.value.entered| == 4 && r.value.entered[1].address == a[0] && r.value.entered[3].address == a[2]
  }

  lemma SecondIsOvertaken(c: Config, a: seq<nat>)
    requires c.Valid() && c.commandDepth >= 4 && c.transactionDepth >= 3 && |a| == 3
    ensures Overtaken(c, a)
  {
    hide Exec;
    ThirdOvertakesSecond(c, a);
  }

  /** So it happens with a shipped configuration and three addresses in a row. */
  lemma ShippedOvertakes()
    ensures SG125.Valid() && Overtaken(SG125, [0, 64, 128])
  {
    hide Overtaken;
    ShippedIsValid();
    SecondIsOvertaken(SG125, [0, 64, 128]);
  }

  lemma InitialIsEmpty(c: Config)
    requires c.Sized()
    ensures forall r :: 0 <= r < c.numRanks ==> RankEmpty(c, InitialQueue(c), r)
  {
  }

  lemma CommandsOfTwo(c: Config, t: seq<Transaction>)
    requires |t| == 3
    ensures Commands(c, t, [0, 2])
            == [ActivateFor(c, t[0]), ColumnFor(c, t[0]), ActivateFor(c, t[2]), ColumnFor(c, t[2])]
  {
    hide ActivateFor, ColumnFor;
    CommandsStep(c, t, 2, []);
    CommandsStep(c, t, 0, [2]);
    assert [2] + [] == [2] && [0] + [2] == [0, 2];
  }

  /** The states a run goes through in one more cycle. */
  lemma CycleAfter(c: Config, events: seq<Event>)
    requires c.Valid()
    ensures Exec(c, events).Success? && Front(c, Exec(c, events).value).Success?
    ensures var p := PopPhase(c, Front(c, Exec(c, events).value).value);
            && p.Success? && Served(c, p.value).Success?
            && Exec(c, events + [Cycle]) == Success(Finish(c, Served(c, p.value).value))
  {
    hide Inv, Late, Shape, Front, PopPhase, Served, Finish;
    RunReachesAdmission(c, events);
    var run := events + [Cycle];
    assert run[..|run|-1] == events && run[|run|-1] == Cycle;
    ServedKeeps(c, BeforeAdmission(c, events));
  }
}
