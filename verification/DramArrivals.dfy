/** The order in which requests get to the controller. */
module DramArrivals {
  import opened Outcomes
  import opened Bits
  import opened AddressMap
  import opened DramTypes
  import opened DramControl
  import opened DramProtocol
  import opened DramRuns
  import opened DramAdmission
  import opened DramProgress

  /** The requests that wait to be admitted: those the controller has taken, then those that are held back. */
  function Line(s: System): seq<Transaction> {
    s.control.transactions + s.pending
  }

  /**
   * A new request goes to the end of the line if and only if none is held back or the controller has no room, or if it
   * cannot be told from those held back; otherwise it goes in front of all of them.
   */
  lemma JoinsAtTheEndIff(c: Config, s: System, isWrite: bool, address: nat)
    requires Shape(c, s)
    ensures var t, u := Transaction(if isWrite then DataWrite else DataRead, address), Arrive(c, s, isWrite, address);
            var full := |s.control.transactions| >= c.transactionDepth;
            && (u.control.transactions == if full then s.control.transactions else s.control.transactions + [t])
            && (u.pending == if full then s.pending + [t] else s.pending)
            && (Line(u) == Line(s) + [t] <==>
                full || forall i :: 0 <= i < |s.pending| ==> s.pending[i] == t)
  {
    hide Shape;
    var t, u := Transaction(if isWrite then DataWrite else DataRead, address), Arrive(c, s, isWrite, address);
    var p, k := s.pending, |s.control.transactions|;
    if |s.control.transactions| >= c.transactionDepth {
      assert Line(u) == Line(s) + [t];
    } else {
      assert Line(u) == s.control.transactions + ([t] + p) && Line(s) + [t] == s.control.transactions + (p + [t]);
      if [t] + p == p + [t] {
        AllAlike(p, t);
      }
      if forall i :: 0 <= i < |p| ==> p[i] == t {
        assert [t] + p == p + [t];
      }
      if Line(u) == Line(s) + [t] {
        assert Line(u)[k..] == [t] + p && (Line(s) + [t])[k..] == p + [t];
      }
    }
  }

  lemma {:induction false} AllAlike(p: seq<Transaction>, t: Transaction)
    requires [t] + p == p + [t]
    ensures forall i :: 0 <= i < |p| ==> p[i] == t
  {
    if p != [] {
      var n := |p| - 1;
      assert ([t] + p)[n+1] == p[n] && (p + [t])[n+1] == t;
      assert p == p[..n] + [t];
      assert [t] + p[..n] == ([t] + p)[..n+1] == (p + [t])[..n+1] == p;
      AllAlike(p[..n], t);
    }
  }

  /** In every run, the next cycle moves the first request held back up if the controller has room, and no other. */
  lemma RunMovesUp(c: Config, events: seq<Event>)
    requires c.Valid()
    ensures Exec(c, events).Success?
    ensures var s, f := Exec(c, events).value, BeforePop(c, events);
            && Line(f) == Line(s)
            && |f.pending| == |s.pending| -
                 (if s.pending != [] && |s.control.transactions| < c.transactionDepth then 1 else 0)
  {
    hide Exec, Front, Shape, PopPhase, Inv, Late;
    RunReachesAdmission(c, events);
    RunIsSafe(c, events);
    FrontMovesUp(c, Exec(c, events).value) by { InvHasShape(c, Exec(c, events).value); }
  }

  lemma InvHasShape(c: Config, s: System)
    requires Inv(c, s)
    ensures Shape(c, s)
  {
  }

  // ---------------------------------------------------------------- a request that overtakes one held back

  function Requested(addresses: seq<nat>): (t: seq<Transaction>)
    ensures |t| == |addresses|
  {
    seq(|addresses|, i requires 0 <= i < |addresses| => Transaction(DataRead, addresses[i]))
  }

  /** Requests that come before anything else: one more than the controller takes. */
  lemma OneIsHeldBack(c: Config, a: seq<nat>)
    requires c.Valid() && |a| == c.transactionDepth + 1
    ensures Exec(c, ReadRequests(a)).Success?
    ensures var s := Exec(c, ReadRequests(a)).value;
            && s.control.transactions == Requested(a)[..c.transactionDepth] && s.pending == [Requested(a)[|a|-1]]
            && s.queue == InitialQueue(c)
  {
    hide Shape, InitialQueue, Exec;
    var n := c.transactionDepth;
    RequestsWait(c, a[..n]);
    ThenRequest(c, ReadRequests(a[..n]), a[n]);
    assert ReadRequests(a) == ReadRequests(a[..n]) + [Request(false, a[n])];
    assert Requested(a)[..n] == Requested(a[..n]);
  }

  lemma {:induction false} AdmissionShrinks(c: Config, s: System, i: nat)
    requires Shape(c, s) && c.Sized() && AdmitPhase(c, s, i).Success?
    ensures |AdmitPhase(c, s, i).value.control.transactions| <= |s.control.transactions|
    decreases |s.control.transactions| - i
  {
    hide Fits, AdmitPhase, Admitted, Shape;
    if i < |s.control.transactions| {
      AdmitStep(c, s, i, 0);
      if Fits(c, s, i) {
        AdmissionShrinks(c, Admit(c, s, i).value, i + 1);
      } else {
        AdmissionShrinks(c, s, i + 1);
      }
    } else {
      AdmitDone(c, s, [], i, 0);
    }
  }

  /** The first request is admitted, so the controller has room afterwards. */
  lemma AdmissionMakesRoom(c: Config, s: System)
    requires Shape(c, s) && c.Valid() && c.commandDepth >= 2 && s.control.transactions != [] && Shorter(c, s, 0)
    requires AdmitPhase(c, s, 0).Success?
    ensures |AdmitPhase(c, s, 0).value.control.transactions| < |s.control.transactions|
  {
    hide Fits, AdmitPhase, Admitted, Shape, Shorter;
    ShortFits(c, s, 0, 0);
    AdmitStep(c, s, 0, 0);
    AdmissionShrinks(c, Admit(c, s, 0).value, 1);
  }

  lemma ServedHoldsBack(c: Config, s: System)
    requires Shape(c, s) && c.Sized() && AdmitPhase(c, s, 0).Success? && Served(c, s).Success?
    ensures Finish(c, Served(c, s).value).pending == s.pending
  {
    hide Shape, AdmitPhase, PowerPhase;
  }

  /** A cycle, through `f`, `p` and `v`, that finds the queues empty, the controller full and one request held back. */
  lemma CycleMakesRoom(c: Config, s: System, f: System, p: System, v: System)
    requires c.Valid() && c.commandDepth >= 2 && c.transactionDepth >= 1
    requires Shape(c, s) && Shape(c, f) && Shape(c, p) && Shape(c, v)
    requires Front(c, s) == Success(f) && PopPhase(c, f) == Success(p) && Served(c, p) == Success(v)
    requires |s.pending| == 1 && |s.control.transactions| == c.transactionDepth && AllEmpty(c, s)
    ensures Finish(c, v).pending == s.pending && |Finish(c, v).control.transactions| < c.transactionDepth
  {
    hide Shape, Front, PopPhase, Finish, AdmitPhase, PowerPhase, RankEmpty, AllEmpty, Shorter;
    FrontMovesUp(c, s);
    var k := |s.control.transactions|;
    assert Line(f)[k..] == f.pending && Line(s)[k..] == s.pending;
    SameQueuesEmpty(c, s, f);
    PopFromEmpty(c, f);
    SameQueuesEmpty(c, f, p);
    EmptyIsShort(c, p);
    assert AdmitPhase(c, p, 0).Success?;
    AdmissionMakesRoom(c, p);
    AfterAdmission(c, p);
    ServedHoldsBack(c, p);
  }

  /**
   * One request more than the controller takes, a cycle, and another request: the one held back is still held back, and
   * the later one is in front of it.
   */
  lemma LaterOvertakesHeldBack(c: Config, a: seq<nat>, b: nat)
    requires c.Valid() && c.commandDepth >= 2 && c.transactionDepth >= 1 && |a| == c.transactionDepth + 1
    ensures Exec(c, ReadRequests(a) + [Cycle] + [Request(false, b)]).Success?
    ensures var s := Exec(c, ReadRequests(a) + [Cycle] + [Request(false, b)]).value;
            && s.pending == [Transaction(DataRead, a[|a|-1])]
            && s.control.transactions != []
            && s.control.transactions[|s.control.transactions|-1] == Transaction(DataRead, b)
  {
    hide Exec, Shape;
    ThenRoom(c, a);
    ThenRequest(c, ReadRequests(a) + [Cycle], b);
  }

  lemma ThenRoom(c: Config, a: seq<nat>)
    requires c.Valid() && c.commandDepth >= 2 && c.transactionDepth >= 1 && |a| == c.transactionDepth + 1
    ensures Exec(c, ReadRequests(a) + [Cycle]).Success?
    ensures var s := Exec(c, ReadRequests(a) + [Cycle]).value;
            s.pending == [Transaction(DataRead, a[|a|-1])] && |s.control.transactions| < c.transactionDepth
  {
    hide Inv, Shape, BeforeReturn, Front, PopPhase, Served, Finish, InitialQueue, AllEmpty, Exec;
    OneIsHeldBack(c, a);
    CycleAfter(c, ReadRequests(a));
    RunIsSafe(c, ReadRequests(a));
    var s := Exec(c, ReadRequests(a)).value;
    InvHasShape(c, s);
    NothingQueued(c, s);
    var f := Front(c, s).value;
    var p := PopPhase(c, f).value;
    CycleMakesRoom(c, s, f, p, Served(c, p).value);
  }

  lemma NothingQueued(c: Config, s: System)
    requires Shape(c, s) && c.Sized() && s.queue == InitialQueue(c)
    ensures AllEmpty(c, s)
  {
    hide InitialQueue;
    InitialIsEmpty(c);
  }

  lemma ThenRequest(c: Config, events: seq<Event>, b: nat)
    requires c.Valid() && Exec(c, events).Success?
    ensures Exec(c, events + [Request(false, b)]) == Success(Arrive(c, Exec(c, events).value, false, b))
  {
    hide Arrive, Update;
    assert (events + [Request(false, b)])[..|events|] == events;
  }

  // ---------------------------------------------------------------- what a request turns into

  /**
   * A request becomes an ACTIVATE and a column command that differs in its kind only: a read or a write, with
   * auto-precharge if pages are closed. Both name the place of the request's line.
   */
  lemma RequestBecomes(c: Config, t: Transaction)
    requires t.kind != ReturnData
    ensures var act, col := ActivateFor(c, t), ColumnFor(c, t);
            && act.kind == Activate && act.address == t.address && col == act.(kind := col.kind)
            && (IsRead(col.kind) <==> t.kind == DataRead) && (IsWrite(col.kind) <==> t.kind == DataWrite)
            && (col.kind in {ReadP, WriteP} <==> c.policy == ClosePage)
            && var place := Location(act.rank, act.bank, act.row, act.column);
               var line := Shift(t.address, c.mapping.offsetBits);
               (line < Lines(c.mapping) ==> FitsMapping(c.mapping, place) && LineOf(c.mapping, place) == line)
  {
    hide Locate, LineOf, FitsMapping, Lines, Shift;
    if Shift(t.address, c.mapping.offsetBits) < Lines(c.mapping) {
      LineOfLocate(c.mapping, t.address);
    }
  }

  /** At the start every bank is closed and may be used at once, every rank is awake, and nothing waits anywhere. */
  lemma NothingAtFirst(c: Config, r: nat, b: nat)
    requires c.Valid() && r < c.numRanks && b < c.numBanks
    ensures Exec(c, []).Success?
    ensures var s := Exec(c, []).value;
            && s.now == 0 && s.entered == [] && s.issued == [] && Line(s) == []
            && s.control.banks[r][b] == s.ranks[r].banks[b]
            && s.control.banks[r][b].(lastCommand := Read) == BankState(Idle, 0, 0, 0, 0, 0, 0, Read, 0)
            && !s.control.powerDown[r] && !s.ranks[r].isPowerDown && !s.ranks[r].refreshWaiting
            && s.ranks[r].readReturn == [] && s.ranks[r].outgoing == None
            && s.control.command == None && s.control.data == None && s.control.writeData == []
            && s.control.pendingReads == [] && s.control.toReturn == [] && s.control.refreshRank == 0
            && s.queue.queues[r][c.Slot(b)] == [] && s.queue.faw[r] == [] && s.queue.rowAccess[r][b] == 0
            && s.queue.sendAct && !s.queue.refreshWaiting
            && s.queue.nextRank == s.queue.nextBank == s.queue.nextRankPre == s.queue.nextBankPre == 0
  {
  }
}
