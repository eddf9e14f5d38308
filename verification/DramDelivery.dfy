/** Every read leaves its rank, and every write its bus, a fixed number of cycles after its command. */
module DramDelivery {
  import opened Outcomes
  import opened DramTypes
  import opened DramControl
  import opened DramBus
  import opened DramTiming
  import opened DramProtocol
  import opened DramRuns
  import opened DramAdmission
  import opened DramLatency
  import opened DramSpacing
  import opened DramReads
  import DramQueue
  import DramRank

  // ---------------------------------------------------------------- what gets in line when

  /** The data of a command that passes through rank `r`, if it is a read of it. */
  function ReadData(out: Option<Packet>, r: nat): Option<Packet> {
    if ReadFor(out, r) then Some(out.value.(kind := Data)) else None
  }

  /** The data that got in line in a rank in each cycle: that of the command sent in the cycle before. */
  function ReadsIn(issued: seq<Option<Packet>>, r: nat): seq<Option<Packet>> {
    seq(|issued|, m requires 0 <= m < |issued| => if m == 0 then None else ReadData(issued[m-1], r))
  }

  function WriteData(out: Option<Packet>): Option<Packet> {
    if out.Some? && IsWrite(out.value.kind) then Some(out.value.(kind := Data)) else None
  }

  function WritesIn(issued: seq<Option<Packet>>): seq<Option<Packet>> {
    seq(|issued|, m requires 0 <= m < |issued| => WriteData(issued[m]))
  }

  function RankPipe(k: RankState): Pipe {
    Pipe(k.readReturn, k.readCountdown, k.outgoing, k.dataLeft)
  }

  function WritePipe(m: ControlState): Pipe {
    Pipe(m.writeData, m.writeCountdown, m.data, m.dataLeft)
  }

  /** The buses carry what the history says. */
  ghost predicate Delivers(c: Config, s: System)
    requires Shape(c, s) && c.Valid()
  {
    && s.now == |s.issued|
    && s.control.command == (if s.issued == [] then None else s.issued[|s.issued|-1])
    && (forall r :: 0 <= r < c.numRanks ==> Carries(RankPipe(s.ranks[r]), ReadsIn(s.issued, r), c.RL(), c.Burst()))
    && Carries(WritePipe(s.control), WritesIn(s.issued), c.WL(), c.Burst())
  }

  // ---------------------------------------------------------------- one step of each line

  lemma RankIsPipe(c: Config, k: RankState, command: Option<Packet>, r: nat, now: int)
    requires c.Valid() && RankShape(c, k) && (command.Some? ==> command.value.bank < c.numBanks)
    requires command.Some? && command.value.rank == r ==> DramRank.Check(k, command.value, now).Pass?
    ensures RankPipe(RankAfter(c, k, command, r, now))
            == PutIn(StepPipe(RankPipe(k), c.Burst()).0, ReadData(command, r), c.RL())
    ensures DramRank.Update(c, k).1 == StepPipe(RankPipe(k), c.Burst()).1
  {
  }

  lemma ReadsInAppend(issued: seq<Option<Packet>>, out: Option<Packet>, r: nat)
    ensures ReadsIn(issued + [out], r)
            == ReadsIn(issued, r) + [if issued == [] then None else ReadData(issued[|issued|-1], r)]
    ensures WritesIn(issued + [out]) == WritesIn(issued) + [WriteData(out)]
  {
  }

  lemma ReadsAreApart(c: Config, issued: seq<Option<Packet>>, r: nat)
    requires BurstsApart(c, issued) && c.Burst() >= 0
    ensures Apart(ReadsIn(issued, r), c.Burst()) && Apart(WritesIn(issued), c.Burst())
  {
    forall t, u | 0 <= t < u < |issued| && ReadsIn(issued, r)[t].Some? && ReadsIn(issued, r)[u].Some?
      ensures t + c.Burst() <= u
    {
      assert ReadAt(issued, t - 1, r) && ReadAt(issued, u - 1, r);
    }
    forall t, u | 0 <= t < u < |issued| && WritesIn(issued)[t].Some? && WritesIn(issued)[u].Some?
      ensures t + c.Burst() <= u
    {
      assert WriteAt(issued, t) && WriteAt(issued, u);
    }
  }

  lemma WriteIsPipe(c: Config, s: System)
    requires c.Valid() && Shape(c, s) && WritePhase(c, DataPhase(c, s)).Success?
    ensures WritePipe(WritePhase(c, DataPhase(c, s)).value.control) == StepPipe(WritePipe(s.control), c.Burst()).0
  {
    hide QueueShape, TableShape, RanksShape;
  }

  lemma RestMovesNoReads(c: Config, s: System)
    requires Shape(c, s) && WritePhase(c, DataPhase(c, s)).Success?
    ensures var w := WritePhase(c, DataPhase(c, s)).value;
            var f := RefreshPhase(c, w);
            && f.control.command == s.control.command && f.issued == s.issued && f.now == s.now
            && WritePipe(f.control) == WritePipe(w.control)
            && forall r :: 0 <= r < c.numRanks ==> RankPipe(f.ranks[r]) == RankPipe(s.ranks[r])
  {
    hide QueueShape, TableShape;
  }

  lemma ArrivingMovesNoWrites(c: Config, s: System)
    requires Shape(c, s) && c.Sized() && Arriving(c, s).Success?
    ensures WritePipe(Arriving(c, s).value.control) == WritePipe(s.control)
  {
    hide QueueShape, TableShape, RanksShape, RankPhase, DramRank.Receive;
  }

  lemma InvStartsTheCycle(c: Config, s: System)
    requires c.Valid() && Inv(c, s)
    ensures Shape(c, s) && InStep(c, s) && AllRanks(s.ranks, 0)
  {
    RanksStartTheCycle(c, s);
  }

  /** A cycle up to the pop. */
  lemma FrontMovesData(c: Config, s: System)
    requires c.Valid() && Inv(c, s)
    ensures Front(c, s).Success?
    ensures var f := Front(c, s).value;
            && f.control.command.None? && f.issued == s.issued && f.now == s.now
            && WritePipe(f.control) == StepPipe(WritePipe(s.control), c.Burst()).0
            && forall r :: 0 <= r < c.numRanks ==>
                 RankPipe(f.ranks[r]) == RankPipe(RankAfter(c, s.ranks[r], s.control.command, r, s.now))
  {
    hide Inv, Mid, InStep, Synced, AllRanks, RankAfter, TickTable, Requests, StepPipe, RankPipe, QueueShape,
         TableShape, Arriving, RefreshPhase, WritePhase, DataPhase;
    InvStartsTheCycle(c, s);
    FrontKeeps(c, s);
    ArrivingStep(c, s);
    ArrivingMovesNoWrites(c, s);
    var a := Arriving(c, s).value;
    WriteIsPipe(c, a);
    RestMovesNoReads(c, a);
  }

  lemma PopMovesData(c: Config, s: System)
    requires c.Valid() && Shape(c, s) && PopPhase(c, s).Success? && s.control.command.None?
    ensures var p, out := PopPhase(c, s).value, DramQueue.Pop(c, s.queue, s.control.banks, s.now).1;
            && p.issued == s.issued + [out] && p.control.command == out && p.ranks == s.ranks && p.now == s.now
            && WritePipe(p.control) == PutIn(WritePipe(s.control), WriteData(out), c.WL())
  {
    hide Shape, DramQueue.Pop;
  }

  lemma ServedMovesNoData(c: Config, s: System)
    requires c.Valid() && Late(c, s) && Served(c, s).Success?
    ensures var u := Finish(c, Served(c, s).value);
            && u.issued == s.issued && u.now == s.now + 1 && u.control.command == s.control.command
            && WritePipe(u.control) == WritePipe(s.control)
            && forall r :: 0 <= r < c.numRanks ==> RankPipe(u.ranks[r]) == RankPipe(s.ranks[r])
  {
    ServedNaps(c, s);
    hide Late, AdmitPhase, PowerPhase, Nap, QueueShape, TableShape;
  }

  // ---------------------------------------------------------------- runs

  /** A cycle, through `f`, `p` and `v`. */
  lemma CycleDelivers(c: Config, s: System, f: System, p: System, v: System)
    requires c.Valid() && Inv(c, s) && Shape(c, s) && Shape(c, f) && Shape(c, p) && Shape(c, v) && Late(c, p)
    requires Front(c, s) == Success(f) && PopPhase(c, f) == Success(p) && Served(c, p) == Success(v)
    requires Delivers(c, s) && BurstsApart(c, s.issued)
    ensures Delivers(c, Finish(c, v))
    ensures forall r :: 0 <= r < c.numRanks ==>
              DramRank.Update(c, s.ranks[r]).1 == Leaving(ReadsIn(s.issued, r), c.RL(), c.Burst())
  {
    FrontMovesData(c, s);
    PopMovesData(c, f);
    ServedMovesNoData(c, p);
    var u := Finish(c, v);
    forall r | 0 <= r < c.numRanks
      ensures Carries(RankPipe(u.ranks[r]), ReadsIn(u.issued, r), c.RL(), c.Burst())
      ensures DramRank.Update(c, s.ranks[r]).1 == Leaving(ReadsIn(s.issued, r), c.RL(), c.Burst())
    {
      RankDelivers(c, s, u, r);
    }
    WritesDeliver(c, s, u);
  }

  lemma RankDelivers(c: Config, s: System, u: System, r: nat)
    requires c.Valid() && Inv(c, s) && Shape(c, s) && Shape(c, u) && r < c.numRanks
    requires s.control.command.Some? && s.control.command.value.rank == r ==>
               DramRank.Check(s.ranks[r], s.control.command.value, s.now).Pass?
    requires Delivers(c, s) && BurstsApart(c, s.issued) && |u.issued| == |s.issued| + 1
    requires u.issued == s.issued + [u.issued[|s.issued|]]
    requires RankPipe(u.ranks[r]) == RankPipe(RankAfter(c, s.ranks[r], s.control.command, r, s.now))
    ensures Carries(RankPipe(u.ranks[r]), ReadsIn(u.issued, r), c.RL(), c.Burst())
    ensures DramRank.Update(c, s.ranks[r]).1 == Leaving(ReadsIn(s.issued, r), c.RL(), c.Burst())
  {
    hide Inv, RankAfter, StepPipe, RankPipe, Carries, ReadsIn, DramRank.Update, Leaving;
    RankIsPipe(c, s.ranks[r], s.control.command, r, s.now);
    ReadsAreApart(c, s.issued, r);
    ReadsInAppend(s.issued, u.issued[|s.issued|], r);
    var e := if s.issued == [] then None else ReadData(s.issued[|s.issued|-1], r);
    StepCarries(RankPipe(s.ranks[r]), ReadsIn(s.issued, r), e, c.RL(), c.Burst());
  }

  lemma WritesDeliver(c: Config, s: System, u: System)
    requires c.Valid() && Shape(c, s) && Shape(c, u)
    requires Delivers(c, s) && BurstsApart(c, s.issued) && |u.issued| == |s.issued| + 1
    requires u.issued == s.issued + [u.issued[|s.issued|]]
    requires WritePipe(u.control)
             == PutIn(StepPipe(WritePipe(s.control), c.Burst()).0, WriteData(u.issued[|s.issued|]), c.WL())
    ensures Carries(WritePipe(u.control), WritesIn(u.issued), c.WL(), c.Burst())
  {
    hide StepPipe, WritePipe, Carries, WritesIn;
    ReadsAreApart(c, s.issued, 0);
    ReadsInAppend(s.issued, u.issued[|s.issued|], 0);
    StepCarries(WritePipe(s.control), WritesIn(s.issued), WriteData(u.issued[|s.issued|]), c.WL(), c.Burst());
  }

  lemma InitialDelivers(c: Config)
    requires c.Valid()
    ensures Delivers(c, Initial(c))
  {
    forall r | 0 <= r < c.numRanks ensures ReadsIn([], r) == [] && WritesIn([]) == [] {}
  }

  lemma {:induction false} RunDelivers(c: Config, events: seq<Event>)
    requires c.Valid()
    ensures Exec(c, events).Success? && Shape(c, Exec(c, events).value) && Delivers(c, Exec(c, events).value)
  {
    hide Inv, Shape, DramControl.Update, Carries, BurstsApart, ReadsIn, WritesIn, Initial, Front, PopPhase, Served,
         Finish, Delivers;
    RunIsSafe(c, events);
    if events == [] {
      InitialDelivers(c);
    } else {
      var before, e := events[..|events|-1], events[|events|-1];
      assert before + [e] == events;
      RunDelivers(c, before);
      if e == Cycle {
        CycleInRunDelivers(c, before);
      } else {
        ArriveDelivers(c, Exec(c, before).value, e.isWrite, e.address);
      }
    }
  }

  lemma ArriveDelivers(c: Config, s: System, isWrite: bool, address: nat)
    requires c.Valid() && Shape(c, s) && Delivers(c, s)
    ensures Delivers(c, Arrive(c, s, isWrite, address))
  {
    hide Carries, QueueShape, TableShape;
  }

  lemma CycleInRunDelivers(c: Config, events: seq<Event>)
    requires c.Valid()
    requires Exec(c, events).Success? && Shape(c, Exec(c, events).value) && Delivers(c, Exec(c, events).value)
    ensures Exec(c, events + [Cycle]).Success? && Delivers(c, Exec(c, events + [Cycle]).value)
    ensures var s := Exec(c, events).value;
            forall r :: 0 <= r < c.numRanks ==>
              DramRank.Update(c, s.ranks[r]).1 == Leaving(ReadsIn(s.issued, r), c.RL(), c.Burst())
  {
    hide Exec, Inv, Late, Shape, Front, PopPhase, Served, Finish, Delivers, BurstsApart, DramRank.Update, ReadsIn;
    CycleAfter(c, events);
    RunIsSafe(c, events);
    RunReachesAdmission(c, events);
    RunSpreadsBursts(c, events);
    var s := Exec(c, events).value;
    var f := Front(c, s).value;
    var p := PopPhase(c, f).value;
    CycleDelivers(c, s, f, p, Served(c, p).value);
  }

  /** `out` is the data of the read that was sent to the rank RL + BL/2 + 1 cycles before `now`, if one was. */
  predicate LeavesOnTime(c: Config, issued: seq<Option<Packet>>, now: int, r: nat, out: Option<Packet>) {
    var t := now - c.RL() - c.Burst() - 1;
    if t >= 0 && ReadAt(issued, t, r) then out == Some(issued[t].value.(kind := Data)) else out == None
  }

  lemma LeavingIsOnTime(c: Config, issued: seq<Option<Packet>>, r: nat)
    requires c.Valid()
    ensures LeavesOnTime(c, issued, |issued|, r, Leaving(ReadsIn(issued, r), c.RL(), c.Burst()))
  {
  }

  /**
   * In every run, what leaves a rank in the next cycle is the data of the read that was sent to it RL + BL/2 + 1 cycles
   * ago, which is RL + BL/2 cycles after it arrived, and nothing if none was.
   */
  lemma RunReturnsReadsOnTime(c: Config, events: seq<Event>, r: nat)
    requires c.Valid() && r < c.numRanks
    ensures Exec(c, events).Success? && RankShape(c, Exec(c, events).value.ranks[r])
    ensures var s := Exec(c, events).value; LeavesOnTime(c, s.issued, s.now, r, DramRank.Update(c, s.ranks[r]).1)
  {
    hide Exec, Carries, DramRank.Update, LeavesOnTime, ReadsIn, Leaving, QueueShape, TableShape;
    RunDelivers(c, events);
    CycleInRunDelivers(c, events);
    LeavingIsOnTime(c, Exec(c, events).value.issued, r);
  }

  /**
   * In every run, the write-data bus carries the data of a write from WL to WL + BL/2 cycles after the write was sent,
   * and nothing at other times.
   */
  lemma RunWritesOnTime(c: Config, events: seq<Event>)
    requires c.Valid()
    ensures Exec(c, events).Success?
    ensures var s := Exec(c, events).value;
            && (forall t: nat :: WriteAt(s.issued, t) && s.now - c.WL() - c.Burst() <= t < s.now - c.WL() ==>
                  s.control.data == Some(s.issued[t].value.(kind := Data)))
            && (s.control.data.Some? ==>
                  exists t: nat :: WriteAt(s.issued, t) && s.now - c.WL() - c.Burst() <= t < s.now - c.WL())
  {
    RunDelivers(c, events);
    hide Exec, Shape, InLine;
    var s := Exec(c, events).value;
    var h := WritesIn(s.issued);
    forall t: nat | WriteAt(s.issued, t) && s.now - c.WL() - c.Burst() <= t < s.now - c.WL()
      ensures s.control.data == Some(s.issued[t].value.(kind := Data))
    {
      assert OnTheBus(h, t, c.WL(), c.Burst());
    }
    if s.control.data.Some? {
      var t: nat :| OnTheBus(h, t, c.WL(), c.Burst());
      assert WriteAt(s.issued, t);
    }
  }

  // ---------------------------------------------------------------- in order

  /** The data of the reads sent to a rank. */
  function SentReads(issued: seq<Option<Packet>>, r: nat): seq<Packet> {
    if issued == [] then []
    else SentReads(issued[..|issued|-1], r) + AsList(ReadData(issued[|issued|-1], r))
  }

  /** What has left a rank in a run. */
  function Delivered(c: Config, events: seq<Event>, r: nat): seq<Packet>
    requires c.Sized() && r < c.numRanks
  {
    if events == [] then [] else
    var before := events[..|events|-1];
    var s := Exec(c, before);
    Delivered(c, before, r)
    + if events[|events|-1] == Cycle && s.Success? then AsList(DramRank.Update(c, s.value.ranks[r]).1) else []
  }

  /** The reads a rank has been sent but that have not left it. */
  function InTransit(s: System, r: nat): seq<Packet>
    requires r < |s.ranks|
  {
    Bursts(RankPipe(s.ranks[r])) + AsList(ReadData(s.control.command, r))
  }

  /**
   * In every run, the reads sent to a rank are, in order, those that have left it, the one on its data bus, those that
   * wait for that bus, and the one on the command bus.
   */
  lemma {:induction false} RunDeliversInOrder(c: Config, events: seq<Event>, r: nat)
    requires c.Valid() && r < c.numRanks
    ensures Exec(c, events).Success? && Shape(c, Exec(c, events).value)
    ensures var s := Exec(c, events).value; SentReads(s.issued, r) == Delivered(c, events, r) + InTransit(s, r)
  {
    hide Inv, QueueShape, TableShape, ControlShape, DramControl.Update, DramRank.Update, InTransit, ReadData, Initial,
         Delivers, AsList, Arrive;
    RunDelivers(c, events);
    if events == [] {
      NothingInTransit(c, r);
    } else {
      var before, e := events[..|events|-1], events[|events|-1];
      assert before + [e] == events;
      RunDeliversInOrder(c, before, r);
      RunDelivers(c, before);
      var d := Delivered(c, before, r);
      if e == Cycle {
        CycleInOrder(c, before, r);
        var s, u := Exec(c, before).value, Exec(c, events).value;
        Regroup(d, InTransit(s, r), AsList(ReadData(u.issued[|s.issued|], r)),
                AsList(DramRank.Update(c, s.ranks[r]).1), InTransit(u, r));
      } else {
        ArriveTransits(c, Exec(c, before).value, e.isWrite, e.address, r);
      }
    }
  }

  lemma Regroup(d: seq<Packet>, t: seq<Packet>, x: seq<Packet>, out: seq<Packet>, left: seq<Packet>)
    requires t + x == out + left
    ensures d + t + x == d + out + left
  {
    assert d + t + x == d + (t + x) && d + out + left == d + (out + left);
  }

  lemma NothingInTransit(c: Config, r: nat)
    requires c.Valid() && r < c.numRanks
    ensures SentReads(Initial(c).issued, r) == [] == InTransit(Initial(c), r)
  {
  }

  lemma ArriveTransits(c: Config, s: System, isWrite: bool, address: nat, r: nat)
    requires Shape(c, s) && r < c.numRanks
    ensures var u := Arrive(c, s, isWrite, address); InTransit(u, r) == InTransit(s, r) && u.issued == s.issued
  {
    hide QueueShape, TableShape;
  }

  lemma CycleInOrder(c: Config, events: seq<Event>, r: nat)
    requires c.Valid() && r < c.numRanks
    ensures Exec(c, events).Success? && Exec(c, events + [Cycle]).Success?
    ensures var s, u := Exec(c, events).value, Exec(c, events + [Cycle]).value;
            && RankShape(c, s.ranks[r]) && r < |u.ranks|
            && |u.issued| == |s.issued| + 1 && u.issued[..|s.issued|] == s.issued
            && InTransit(s, r) + AsList(ReadData(u.issued[|s.issued|], r))
               == AsList(DramRank.Update(c, s.ranks[r]).1) + InTransit(u, r)
  {
    hide Exec, Inv, Late, Shape, Front, PopPhase, Served, Finish, Delivers, BurstsApart, DramRank.Update, InTransit,
         ReadData;
    CycleAfter(c, events);
    RunIsSafe(c, events);
    RunReachesAdmission(c, events);
    RunDelivers(c, events);
    RunSpreadsBursts(c, events);
    var s := Exec(c, events).value;
    var f := Front(c, s).value;
    var p := PopPhase(c, f).value;
    StatesInOrder(c, s, f, p, Served(c, p).value, r);
  }

  lemma StatesInOrder(c: Config, s: System, f: System, p: System, v: System, r: nat)
    requires c.Valid() && Inv(c, s) && Shape(c, s) && Shape(c, f) && Shape(c, p) && Shape(c, v) && Late(c, p)
    requires Front(c, s) == Success(f) && PopPhase(c, f) == Success(p) && Served(c, p) == Success(v)
    requires Delivers(c, s) && BurstsApart(c, s.issued) && r < c.numRanks
    ensures var u := Finish(c, v);
            && RankShape(c, s.ranks[r]) && r < |u.ranks|
            && |u.issued| == |s.issued| + 1 && u.issued[..|s.issued|] == s.issued
            && InTransit(s, r) + AsList(ReadData(u.issued[|s.issued|], r))
               == AsList(DramRank.Update(c, s.ranks[r]).1) + InTransit(u, r)
  {
    hide Inv, Late, Front, PopPhase, Served, Finish, Delivers, BurstsApart, DramRank.Update, ReadData, RankAfter,
         Bursts, RankPipe, WritePipe, StepPipe;
    InvStartsTheCycle(c, s);
    FrontMovesData(c, s);
    PopMovesData(c, f);
    ServedMovesNoData(c, p);
    PipeInOrder(c, s, r);
  }

  lemma PipeInOrder(c: Config, s: System, r: nat)
    requires c.Valid() && Inv(c, s) && Shape(c, s) && Delivers(c, s) && BurstsApart(c, s.issued) && r < c.numRanks
    requires s.control.command.Some? && s.control.command.value.rank == r ==>
               DramRank.Check(s.ranks[r], s.control.command.value, s.now).Pass?
    ensures Bursts(RankPipe(s.ranks[r])) + AsList(ReadData(s.control.command, r))
            == AsList(DramRank.Update(c, s.ranks[r]).1)
               + Bursts(RankPipe(RankAfter(c, s.ranks[r], s.control.command, r, s.now)))
  {
    hide Inv, RankAfter, StepPipe, RankPipe, Carries, ReadsIn, DramRank.Update, ReadData, Apart, Bursts;
    RankIsPipe(c, s.ranks[r], s.control.command, r, s.now);
    ReadsAreApart(c, s.issued, r);
    CarriesFreely(RankPipe(s.ranks[r]), ReadsIn(s.issued, r), c.RL(), c.Burst());
    StepIsFifo(RankPipe(s.ranks[r]), ReadData(s.control.command, r), c.RL(), c.Burst());
  }
}
