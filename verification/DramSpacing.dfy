/** How far apart the column commands of a run are that share a data bus. */
module DramSpacing {
  import opened Outcomes
  import opened DramBus
  import opened DramControl
  import opened DramProtocol
  import opened DramRuns
  import opened DramTiming
  import opened DramTypes
  import DramQueue

  predicate WriteAt(issued: seq<Option<Packet>>, t: nat) {
    t < |issued| && issued[t].Some? && IsWrite(issued[t].value.kind)
  }

  predicate ReadAt(issued: seq<Option<Packet>>, t: nat, r: nat) {
    t < |issued| && ReadFor(issued[t], r)
  }

  /**
   * No bank that could be written to next allows it within a burst of any write so far; the same for reads of a rank.
   */
  ghost predicate BanksWait(c: Config, banks: Table, issued: seq<Option<Packet>>)
    requires TableShape(c, banks)
  {
    && (forall t: nat, r, i ::
        0 <= r < c.numRanks && 0 <= i < c.numBanks && Governs(c, banks[r][i]) && WriteAt(issued, t) ==>
          banks[r][i].nextWrite >= t + c.Burst())
    && (forall t: nat, r: nat, i :: 0 <= r < c.numRanks && 0 <= i < c.numBanks && ReadAt(issued, t, r) ==>
          banks[r][i].nextRead >= t + c.Burst())
  }

  /** Two writes anywhere, and two reads of one rank, are at least a burst apart. */
  ghost predicate BurstsApart(c: Config, issued: seq<Option<Packet>>) {
    && (forall t: nat, u: nat :: t < u && WriteAt(issued, t) && WriteAt(issued, u) ==> t + c.Burst() <= u)
    && (forall t: nat, u: nat, r: nat :: t < u && ReadAt(issued, t, r) && ReadAt(issued, u, r) ==> t + c.Burst() <= u)
  }

  /** Entries that allow no command earlier, and open no row, still wait. */
  lemma WaitFrame(c: Config, banks: Table, banks': Table, issued: seq<Option<Packet>>)
    requires TableShape(c, banks) && TableShape(c, banks') && BanksWait(c, banks, issued)
    requires forall r, i :: 0 <= r < c.numRanks && 0 <= i < c.numBanks ==>
      && banks'[r][i].nextWrite == banks[r][i].nextWrite && banks'[r][i].nextRead == banks[r][i].nextRead
      && (banks'[r][i].status == RowActive ==> banks[r][i].status == RowActive)
    ensures BanksWait(c, banks', issued)
  {
  }

  /** What one more command does to one entry. */
  lemma IssueDelays(c: Config, banks: Table, p: Packet, r: nat, i: nat, now: int)
    requires c.Valid() && TableShape(c, banks) && MayIssue(c, banks, p, now) && r < c.numRanks && i < c.numBanks
    ensures var b, b' := banks[r][i], IssueBank(c, banks[r][i], p, r, i, now);
            && (Governs(c, b') ==>
                  && (IsWrite(p.kind) ==> b'.nextWrite >= now + c.Burst())
                  && ((Governs(c, b) && b'.nextWrite >= b.nextWrite) || b'.nextWrite >= now + c.Burst() - 1))
            && (IsRead(p.kind) && p.rank == r ==> b'.nextRead >= now + c.Burst())
            && (b'.nextRead >= b.nextRead || b'.nextRead >= now + c.Burst())
  {
  }

  lemma SendWaits(c: Config, banks: Table, issued: seq<Option<Packet>>, p: Packet)
    requires c.Valid() && TableShape(c, banks) && MayIssue(c, banks, p, |issued|)
    requires BanksWait(c, banks, issued) && BurstsApart(c, issued)
    ensures BanksWait(c, IssueTable(c, banks, p, |issued|), issued + [Some(p)]) && BurstsApart(c, issued + [Some(p)])
  {
    var now := |issued|;
    var issued' := issued + [Some(p)];
    var t' := IssueTable(c, banks, p, now);
    var own := banks[p.rank][p.bank];
    assert IsWrite(p.kind) ==> Governs(c, own) && own.nextWrite <= now;
    assert IsRead(p.kind) ==> own.nextRead <= now;
    hide IssueBank, MayIssue;
    forall t: nat ensures WriteAt(issued', t) <==> WriteAt(issued, t) || (t == now && IsWrite(p.kind)) {
      if t < now { assert issued'[t] == issued[t]; }
    }
    forall t: nat, r: nat
      ensures ReadAt(issued', t, r) <==> ReadAt(issued, t, r) || (t == now && IsRead(p.kind) && p.rank == r)
    {
      if t < now { assert issued'[t] == issued[t]; }
    }
    forall t: nat, r, i | 0 <= r < c.numRanks && 0 <= i < c.numBanks && Governs(c, t'[r][i]) && WriteAt(issued', t)
      ensures t'[r][i].nextWrite >= t + c.Burst()
    {
      IssueDelays(c, banks, p, r, i, now);
    }
    forall t: nat, r: nat, i | 0 <= r < c.numRanks && 0 <= i < c.numBanks && ReadAt(issued', t, r)
      ensures t'[r][i].nextRead >= t + c.Burst()
    {
      IssueDelays(c, banks, p, r, i, now);
    }
  }

  lemma NothingWaits(c: Config, banks: Table, issued: seq<Option<Packet>>)
    requires TableShape(c, banks) && BanksWait(c, banks, issued) && BurstsApart(c, issued)
    ensures BanksWait(c, banks, issued + [None]) && BurstsApart(c, issued + [None])
  {
    var issued' := issued + [None];
    forall t: nat ensures WriteAt(issued', t) <==> WriteAt(issued, t) {}
    forall t: nat, r: nat ensures ReadAt(issued', t, r) <==> ReadAt(issued, t, r) {}
  }

  ghost predicate Spread(c: Config, s: System)
    requires Shape(c, s)
  {
    BanksWait(c, s.control.banks, s.issued) && BurstsApart(c, s.issued)
  }

  lemma MidIsOnTime(c: Config, s: System)
    requires Mid(c, s)
    ensures Shape(c, s) && s.now == |s.issued|
  {
  }

  lemma PopSpreads(c: Config, s: System)
    requires c.Valid() && Mid(c, s) && Spread(c, s)
    ensures PopPhase(c, s).Success? && Spread(c, PopPhase(c, s).value)
  {
    hide DramQueue.Pop, Mid, BanksWait, BurstsApart, IssueTable, MayIssue, Late, QueueShape, TableShape, RanksShape;
    MidGives(c, s);
    MidIsOnTime(c, s);
    PopMayIssue(c, s.queue, s.control.banks, s.control.powerDown, s.now);
    PopKeeps(c, s);
    var (v, out) := DramQueue.Pop(c, s.queue, s.control.banks, s.now);
    if out.Some? {
      SendWaits(c, s.control.banks, s.issued, out.value);
    } else {
      NothingWaits(c, s.control.banks, s.issued);
    }
  }

  lemma FrontSpreads(c: Config, s: System)
    requires c.Valid() && Inv(c, s) && Spread(c, s)
    ensures Front(c, s).Success? && Spread(c, Front(c, s).value)
  {
    assert Shape(c, s);
    FrontTicks(c, s);
    TickWaits(c, s.control.banks, s.issued);
    hide Inv, Front, Shape, BurstsApart, BanksWait, TickTable;
  }

  lemma TickWaits(c: Config, banks: Table, issued: seq<Option<Packet>>)
    requires TableShape(c, banks) && BanksWait(c, banks, issued)
    ensures BanksWait(c, TickTable(c, banks), issued)
  {
    hide BanksWait;
    WaitFrame(c, banks, TickTable(c, banks), issued);
  }

  lemma NapWaits(c: Config, s: System, s': System)
    requires Shape(c, s) && Shape(c, s') && Napped(c, s, s') && BanksWait(c, s.control.banks, s.issued)
    ensures BanksWait(c, s'.control.banks, s.issued)
  {
    hide BanksWait;
    forall r, i | 0 <= r < c.numRanks && 0 <= i < c.numBanks
      ensures s'.control.banks[r][i].nextWrite == s.control.banks[r][i].nextWrite
      ensures s'.control.banks[r][i].nextRead == s.control.banks[r][i].nextRead
      ensures s'.control.banks[r][i].status == RowActive ==> s.control.banks[r][i].status == RowActive
    {
      assert Nap(s.control.banks[r][i], s'.control.banks[r][i]);
    }
    WaitFrame(c, s.control.banks, s'.control.banks, s.issued);
  }

  lemma FrontTicks(c: Config, s: System)
    requires c.Valid() && Inv(c, s)
    ensures Front(c, s).Success?
    ensures var f := Front(c, s).value;
            && f.control.banks == TickTable(c, s.control.banks) && f.issued == s.issued && f.now == s.now
            && f.control.powerDown == s.control.powerDown
  {
    assert Shape(c, s) && InStep(c, s) && AllData(s.ranks);
    assert AllReadsClear(c, s.control, s.ranks, c.RL() + 1, s.now - 1);
    hide Inv, Shape, Mid, InStep, InStepNow, AllReadsClear, AllData, RankAfter, TickTable, Requests;
    FrontKeeps(c, s);
    RanksStartTheCycle(c, s);
    ArrivingStep(c, s);
    RestKeepsBanks(c, Arriving(c, s).value);
    hide Arriving, DataPhase, WritePhase, RefreshPhase;
  }

  lemma RestKeepsBanks(c: Config, s: System)
    requires Shape(c, s) && WritePhase(c, DataPhase(c, s)).Success?
    ensures var f := RefreshPhase(c, WritePhase(c, DataPhase(c, s)).value);
            && f.control.banks == s.control.banks && f.control.powerDown == s.control.powerDown
            && f.issued == s.issued && f.now == s.now
  {
    hide Shape;
  }

  /** After the pop a cycle admits transactions, and then does no more to ranks than put them to sleep or wake them. */
  lemma ServedNaps(c: Config, s: System)
    requires c.Valid() && Late(c, s)
    ensures AdmitPhase(c, s, 0).Success? && Served(c, s).Success?
    ensures Napped(c, AdmitPhase(c, s, 0).value, Served(c, s).value)
  {
    ServedKeeps(c, s);
    AdmitPhaseKeeps(c, s, 0);
    var a := AdmitPhase(c, s, 0).value;
    assert Shape(c, a) && InStep(c, StepPhase(c, a)) && Busy(c, a.control);
    hide Late, InStep, Shape, AdmitPhase, PowerPhase, Napped;
    PowerPhaseNaps(c, a, 0);
  }

  lemma ServedSpreads(c: Config, s: System)
    requires c.Valid() && Late(c, s) && Spread(c, s)
    ensures Served(c, s).Success? && Spread(c, Finish(c, Served(c, s).value))
  {
    ServedNaps(c, s);
    hide Late, AdmitPhase, PowerPhase, BanksWait, BurstsApart, QueueShape, RanksShape;
    NapWaits(c, AdmitPhase(c, s, 0).value, Served(c, s).value);
  }

  lemma CycleSpreads(c: Config, s: System)
    requires c.Valid() && Inv(c, s) && Spread(c, s)
    ensures DramControl.Update(c, s).Success? && Spread(c, DramControl.Update(c, s).value)
  {
    FrontSpreads(c, s);
    FrontKeeps(c, s);
    var f := Front(c, s).value;
    PopSpreads(c, f);
    PopKeeps(c, f);
    ServedSpreads(c, PopPhase(c, f).value);
    hide Inv, Mid, Late, Shape, Front, PopPhase, Served, Finish, Spread;
  }

  /**
   * In every run, two writes, wherever they go, are sent at least a burst apart, and so are two reads of the same rank:
   * their bursts cannot meet on the bus they share.
   */
  lemma RunSpreadsBursts(c: Config, events: seq<Event>)
    requires c.Valid()
    ensures Exec(c, events).Success? && BurstsApart(c, Exec(c, events).value.issued)
  {
    RunKeepsSpread(c, events);
  }

  lemma {:induction false} RunKeepsSpread(c: Config, events: seq<Event>)
    requires c.Valid()
    ensures Exec(c, events).Success? && Spread(c, Exec(c, events).value)
  {
    hide Inv, Shape, DramControl.Update, BanksWait, BurstsApart, Initial;
    RunIsSafe(c, events);
    if events == [] {
      InitialSpread(c);
    } else {
      var before := events[..|events|-1];
      RunKeepsSpread(c, before);
      RunIsSafe(c, before);
      if events[|events|-1] == Cycle {
        CycleSpreads(c, Exec(c, before).value);
      }
    }
  }

  lemma InitialSpread(c: Config)
    requires c.Valid()
    ensures Spread(c, Initial(c))
  {
  }
}
