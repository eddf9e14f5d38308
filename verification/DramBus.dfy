/** Data buses: bursts that leave a delay line keep far enough apart never to collide. */
module DramBus {
  import opened Outcomes
  import opened DramTypes
  import opened DramControl
  import opened DramTiming
  import DramRank

  // ---------------------------------------------------------------- one delay line in front of one bus

  /** Counters of the waiting bursts, whether the bus is busy, and for how long. */
  datatype Line = Line(waiting: seq<nat>, busy: bool, left: nat)

  /** Waiting bursts come out at least `gap` cycles apart, the first not before the bus is free. */
  predicate Spaced(l: Line, gap: int) {
    && (l.busy ==> 1 <= l.left <= gap)
    && (|l.waiting| > 0 ==> l.waiting[0] >= 1 && (l.busy ==> l.waiting[0] >= l.left))
    && forall i, j :: 0 <= i < j < |l.waiting| ==> l.waiting[i] + gap <= l.waiting[j]
  }

  /** No burst waits longer than `latency`. */
  predicate Within(l: Line, latency: int) {
    forall i :: 0 <= i < |l.waiting| ==> l.waiting[i] <= latency
  }

  /**
   * A burst put in line at any cycle from `next` on (seen from `now`) would come out at least `gap` after all others.
   */
  predicate Clear(l: Line, gap: int, latency: int, next: int, now: int) {
    && (l.busy ==> next + latency >= now + l.left)
    && forall i :: 0 <= i < |l.waiting| ==> next + latency >= now + l.waiting[i] + gap
  }

  /** One cycle: the bus, then the counters, then the burst whose time has come. */
  function StepLine(l: Line, gap: nat): (l': Line) {
    var left := Dec(l.left);
    var l1 := if l.busy then Line(l.waiting, left != 0, left) else l;
    var w := DecAll(l.waiting);
    if |w| > 0 && w[0] == 0 then Line(w[1..], true, gap) else l1.(waiting := w)
  }

  /** The burst that comes out finds the bus free. */
  predicate NoOverrun(l: Line) {
    |l.waiting| > 0 && Dec(l.waiting[0]) == 0 && l.busy ==> Dec(l.left) == 0
  }

  lemma StepKeepsSpacing(l: Line, gap: nat, latency: int)
    requires gap >= 1 && Spaced(l, gap) && Within(l, latency)
    ensures NoOverrun(l)
    ensures Spaced(StepLine(l, gap), gap) && Within(StepLine(l, gap), latency - 1)
  {
    var w := DecAll(l.waiting);
    assert forall i :: 0 <= i < |w| ==> w[i] == l.waiting[i] - 1;
  }

  lemma StepKeepsClear(l: Line, gap: nat, latency: int, next: int, now: int)
    requires gap >= 1 && Spaced(l, gap) && Clear(l, gap, latency, next, now)
    ensures Clear(StepLine(l, gap), gap, latency, next, now + 1)
  {
    var w := DecAll(l.waiting);
    assert forall i :: 0 <= i < |w| ==> w[i] == l.waiting[i] - 1;
  }

  lemma AppendKeepsSpacing(l: Line, gap: nat, latency: nat, next: int, now: int)
    requires gap >= 1 && latency >= 1 && Spaced(l, gap) && Within(l, latency) && Clear(l, gap, latency, next, now)
             && next <= now
    ensures Spaced(l.(waiting := l.waiting + [latency]), gap) && Within(l.(waiting := l.waiting + [latency]), latency)
  {
  }

  lemma AppendKeepsClear(l: Line, gap: nat, latency: nat, next: int, now: int)
    requires Within(l, latency) && next >= now + gap && (l.busy ==> l.left <= gap)
    ensures Clear(l.(waiting := l.waiting + [latency]), gap, latency, next, now)
  {
  }

  // ---------------------------------------------------------------- write data: one bus for all ranks

  function WriteLine(m: ControlState): Line {
    Line(m.writeCountdown, m.data.Some?, m.dataLeft)
  }

  /** The banks whose entry says when the next write may go: all of a single rank, the open ones of several. */
  predicate Governs(c: Config, b: BankState) {
    c.numRanks == 1 || b.status == RowActive
  }

  /** `latency` is the longest a burst may still wait, `now` the last cycle the line has moved in. */
  predicate WritesClear(c: Config, m: ControlState, latency: int, now: int)
    requires TableShape(c, m.banks)
  {
    && Spaced(WriteLine(m), c.Burst()) && Within(WriteLine(m), latency)
    && forall r, i :: 0 <= r < c.numRanks && 0 <= i < c.numBanks && Governs(c, m.banks[r][i]) ==>
         Clear(WriteLine(m), c.Burst(), c.WL(), m.banks[r][i].nextWrite, now)
  }

  lemma IssueKeepsClearWrite(c: Config, m: ControlState, p: Packet, r: nat, i: nat, now: int)
    requires c.Valid() && ControlShape(c, m) && MayIssue(c, m.banks, p, now)
    requires r < c.numRanks && i < c.numBanks
    requires WritesClear(c, m, c.WL() - 1, now)
    ensures var b := IssueBank(c, m.banks[r][i], p, r, i, now);
            Governs(c, b) ==>
              Clear(if IsWrite(p.kind) then WriteLine(m).(waiting := m.writeCountdown + [c.WL()]) else WriteLine(m),
                    c.Burst(), c.WL(), b.nextWrite, now)
  {
    var b := m.banks[r][i];
    var b' := IssueBank(c, b, p, r, i, now);
    if Governs(c, b') {
      if IsWrite(p.kind) {
        assert b'.nextWrite >= now + c.Burst();
        AppendKeepsClear(WriteLine(m), c.Burst(), c.WL(), b'.nextWrite, now);
      } else if Governs(c, b) {
        assert Clear(WriteLine(m), c.Burst(), c.WL(), b.nextWrite, now);
        assert b'.nextWrite >= b.nextWrite || b'.nextWrite >= now + c.Burst();
      } else {
        assert p.kind == Activate && b'.nextWrite >= now + (c.tRCD - c.al);
      }
    }
  }

  lemma SendKeepsWritesClear(c: Config, s: System, v: QueueState, out: Option<Packet>)
    requires Shape(c, s) && QueueShape(c, v) && c.Valid() && s.control.command.None?
    requires out.Some? ==> MayIssue(c, s.control.banks, out.value, s.now)
    requires WritesClear(c, s.control, c.WL() - 1, s.now)
    ensures Send(c, s, v, out).Success? && WritesClear(c, Send(c, s, v, out).value.control, c.WL(), s.now)
  {
    hide IssueBank;
    if out.Some? {
      var m := s.control;
      var p := out.value;
      var m' := Send(c, s, v, out).value.control;
      assert WriteLine(m') == if IsWrite(p.kind) then WriteLine(m).(waiting := m.writeCountdown + [c.WL()])
             else WriteLine(m);
      if IsWrite(p.kind) {
        assert Governs(c, m.banks[p.rank][p.bank]);
        AppendKeepsSpacing(WriteLine(m), c.Burst(), c.WL(), m.banks[p.rank][p.bank].nextWrite, s.now);
      }
      forall r, i | 0 <= r < c.numRanks && 0 <= i < c.numBanks && Governs(c, m'.banks[r][i])
        ensures Clear(WriteLine(m'), c.Burst(), c.WL(), m'.banks[r][i].nextWrite, s.now)
      {
        IssueKeepsClearWrite(c, m, p, r, i, s.now);
      }
    }
  }

  /** The write-data bus is free whenever a burst is due, so the collision exit is not taken. */
  lemma WritePhaseKeepsClear(c: Config, s: System)
    requires Shape(c, s) && c.Valid() && WritesClear(c, s.control, c.WL(), s.now - 1)
    ensures WritePhase(c, DataPhase(c, s)).Success?
    ensures WritesClear(c, WritePhase(c, DataPhase(c, s)).value.control, c.WL() - 1, s.now)
  {
    var l := WriteLine(s.control);
    StepKeepsSpacing(l, c.Burst(), c.WL());
    var m' := WritePhase(c, DataPhase(c, s)).value.control;
    assert m'.banks == s.control.banks;
    assert WriteLine(m').waiting == StepLine(l, c.Burst()).waiting;
    assert WriteLine(m').busy == StepLine(l, c.Burst()).busy;
    assert WriteLine(m').busy ==> WriteLine(m').left == StepLine(l, c.Burst()).left;
    forall r, i | 0 <= r < c.numRanks && 0 <= i < c.numBanks && Governs(c, m'.banks[r][i])
      ensures Clear(WriteLine(m'), c.Burst(), c.WL(), m'.banks[r][i].nextWrite, s.now)
    {
      StepKeepsClear(l, c.Burst(), c.WL(), m'.banks[r][i].nextWrite, s.now - 1);
    }
  }

  /** Ticking the table and powering ranks opens no row and moves no write time. */
  lemma WritesClearFrame(c: Config, m: ControlState, m': ControlState, latency: int, now: int)
    requires TableShape(c, m.banks) && TableShape(c, m'.banks)
    requires WritesClear(c, m, latency, now) && WriteLine(m') == WriteLine(m)
    requires forall r, i :: 0 <= r < c.numRanks && 0 <= i < c.numBanks ==>
      && m'.banks[r][i].nextWrite == m.banks[r][i].nextWrite
      && (m'.banks[r][i].status == RowActive ==> m.banks[r][i].status == RowActive)
    ensures WritesClear(c, m', latency, now)
  {
  }

  // ---------------------------------------------------------------- read data: one bus per rank

  predicate ReadFor(command: Option<Packet>, r: nat) {
    command.Some? && command.value.rank == r && IsRead(command.value.kind)
  }

  /** Two lines that agree, except about the counter of a free bus. */
  predicate SameLine(l: Line, m: Line) {
    l.waiting == m.waiting && l.busy == m.busy && (l.busy ==> l.left == m.left)
  }

  /** Reads of a rank still to come out, with the one on the command bus, seen from cycle `now - 1`. */
  function ReadLine(c: Config, k: RankState, command: Option<Packet>, r: nat): Line {
    Line(if ReadFor(command, r) then k.readCountdown + [c.RL() + 1] else k.readCountdown, k.outgoing.Some?, k.dataLeft)
  }

  predicate ReadsClear(c: Config, row: seq<BankState>, l: Line, latency: int, now: int) {
    && Spaced(l, c.Burst()) && Within(l, latency)
    && forall i :: 0 <= i < |row| ==> Clear(l, c.Burst(), c.RL() + 1, row[i].nextRead, now)
  }

  predicate AllReadsClear(c: Config, m: ControlState, ranks: seq<RankState>, latency: int, now: int)
    requires ControlShape(c, m) && RanksShape(c, ranks)
  {
    forall r :: 0 <= r < c.numRanks ==> ReadsClear(c, m.banks[r], ReadLine(c, ranks[r], m.command, r), latency, now)
  }

  lemma IssueKeepsClearRead(c: Config, banks: Table, l: Line, p: Packet, r: nat, i: nat, now: int)
    requires c.Valid() && TableShape(c, banks) && MayIssue(c, banks, p, now)
    requires r < c.numRanks && i < c.numBanks
    requires ReadsClear(c, banks[r], l, c.RL(), now)
    ensures Clear(if IsRead(p.kind) && p.rank == r then l.(waiting := l.waiting + [c.RL() + 1]) else l,
                  c.Burst(), c.RL() + 1, IssueBank(c, banks[r][i], p, r, i, now).nextRead, now)
  {
    var b := banks[r][i];
    var b' := IssueBank(c, b, p, r, i, now);
    assert Clear(l, c.Burst(), c.RL() + 1, b.nextRead, now);
    if IsRead(p.kind) && p.rank == r {
      AppendKeepsClear(l, c.Burst(), c.RL() + 1, b'.nextRead, now);
    } else {
      assert b'.nextRead >= b.nextRead || b'.nextRead >= now + c.Burst();
    }
  }

  /** A read the table allows is spaced from the reads already on their way. */
  lemma IssueKeepsSpacedRead(c: Config, banks: Table, l: Line, p: Packet, r: nat, now: int)
    requires c.Valid() && TableShape(c, banks) && MayIssue(c, banks, p, now) && r < c.numRanks
    requires ReadsClear(c, banks[r], l, c.RL(), now)
    ensures var l' := if IsRead(p.kind) && p.rank == r then l.(waiting := l.waiting + [c.RL() + 1]) else l;
            Spaced(l', c.Burst()) && Within(l', c.RL() + 1)
  {
    if IsRead(p.kind) && p.rank == r {
      AppendKeepsSpacing(l, c.Burst(), c.RL() + 1, banks[r][p.bank].nextRead, now);
    }
  }

  lemma IssueKeepsReadsClear(c: Config, banks: Table, k: RankState, p: Packet, r: nat, now: int)
    requires c.Valid() && TableShape(c, banks) && MayIssue(c, banks, p, now) && r < c.numRanks
    requires ReadsClear(c, banks[r], ReadLine(c, k, None, r), c.RL(), now)
    ensures ReadsClear(c, IssueTable(c, banks, p, now)[r], ReadLine(c, k, Some(p), r), c.RL() + 1, now)
  {
    hide IssueBank;
    hide MayIssue;
    hide Clear;
    hide Spaced;
    hide Within;
    var l := ReadLine(c, k, None, r);
    var l' := ReadLine(c, k, Some(p), r);
    assert l' == if IsRead(p.kind) && p.rank == r then l.(waiting := l.waiting + [c.RL() + 1]) else l;
    IssueKeepsSpacedRead(c, banks, l, p, r, now);
    forall i | 0 <= i < c.numBanks
      ensures Clear(l', c.Burst(), c.RL() + 1, IssueTable(c, banks, p, now)[r][i].nextRead, now)
    {
      IssueKeepsClearRead(c, banks, l, p, r, i, now);
    }
  }

  lemma SendKeepsReadsClear(c: Config, s: System, v: QueueState, out: Option<Packet>)
    requires Shape(c, s) && QueueShape(c, v) && c.Valid() && s.control.command.None?
    requires out.Some? ==> MayIssue(c, s.control.banks, out.value, s.now)
    requires AllReadsClear(c, s.control, s.ranks, c.RL(), s.now)
    ensures Send(c, s, v, out).Success?
    ensures AllReadsClear(c, Send(c, s, v, out).value.control, s.ranks, c.RL() + 1, s.now)
  {
    hide IssueBank;
    hide Clear;
    var m' := Send(c, s, v, out).value.control;
    forall r | 0 <= r < c.numRanks
      ensures ReadsClear(c, m'.banks[r], ReadLine(c, s.ranks[r], m'.command, r), c.RL() + 1, s.now)
    {
      assert ReadsClear(c, s.control.banks[r], ReadLine(c, s.ranks[r], None, r), c.RL(), s.now);
      if out.Some? {
        IssueKeepsReadsClear(c, s.control.banks, s.ranks[r], out.value, r, s.now);
      }
    }
  }

  /** A burst that joins the line one cycle early only moves along with the rest. */
  lemma StepAppended(l: Line, gap: nat, n: nat)
    requires n >= 1
    ensures StepLine(l.(waiting := l.waiting + [n + 1]), gap)
            == var l' := StepLine(l, gap); l'.(waiting := l'.waiting + [n])
  {
    var w := DecAll(l.waiting + [n + 1]);
    assert w == DecAll(l.waiting) + [n];
    if |l.waiting| > 0 {
      assert w[1..] == DecAll(l.waiting)[1..] + [n];
    }
  }

  lemma UpdateStepsLine(c: Config, k: RankState)
    requires c.Valid() && RankShape(c, k)
    ensures var u := DramRank.Update(c, k).0;
            SameLine(StepLine(Line(k.readCountdown, k.outgoing.Some?, k.dataLeft), c.Burst()),
                     Line(u.readCountdown, u.outgoing.Some?, u.dataLeft))
  {
  }

  /** What a rank's cycle does to its line of reads; the read on the command bus moves along with the rest. */
  lemma RankUpdateStepsLine(c: Config, k: RankState, command: Option<Packet>, r: nat)
    requires c.Valid() && RankShape(c, k)
    requires Spaced(ReadLine(c, k, command, r), c.Burst())
    ensures var u := DramRank.Update(c, k).0;
            SameLine(StepLine(ReadLine(c, k, command, r), c.Burst()),
                     Line(if ReadFor(command, r) then u.readCountdown + [c.RL()] else u.readCountdown, u.outgoing.Some?,
                         u.dataLeft))
    ensures |k.readCountdown| > 0 && Dec(k.readCountdown[0]) == 0 && k.outgoing.Some? ==> Dec(k.dataLeft) == 0
  {
    hide StepLine, DramRank.Update;
    UpdateStepsLine(c, k);
    StepAppended(Line(k.readCountdown, k.outgoing.Some?, k.dataLeft), c.Burst(), c.RL());
    assert |k.readCountdown| > 0 ==> ReadLine(c, k, command, r).waiting[0] == k.readCountdown[0];
  }
}
