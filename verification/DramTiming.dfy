/** The controller's bank table and each rank's own table stay in step across the command bus. */
module DramTiming {
  import opened Outcomes
  import opened DramTypes
  import opened DramControl
  import DramRank
  import DramQueue

  /** A row is open and no auto-precharge is under way. */
  predicate Live(m: BankState) {
    m.status == RowActive && m.countdown == 0
  }

  /** Rank entry `k` accepts, one cycle later, whatever controller entry `m` allows now. */
  predicate Follows(m: BankState, k: BankState) {
    && k.nextActivate <= m.nextActivate + 1
    && k.status in {Idle, RowActive, PowerDown}
    && (k.status == RowActive <==> Live(m))
    && (k.status == PowerDown <==> m.status == PowerDown)
    && (m.status == PowerDown ==> k.nextPowerUp == m.nextPowerUp)
    && (Live(m) ==>
          && k.openRow == m.openRow
          && k.nextRead <= m.nextRead + 1
          && k.nextWrite <= m.nextWrite + 1
          && k.nextPrecharge <= m.nextPrecharge + 1)
  }

  /** A running countdown of a controller entry belongs to its status; `d` is the last cycle it has been ticked in. */
  predicate Sane(c: Config, m: BankState, d: int) {
    && (m.status == Precharging ==> m.countdown > 0)
    && (m.countdown > 0 ==>
          || (&& m.status == RowActive && c.policy == ClosePage && m.lastCommand in {ReadP, WriteP}
              && m.nextRead >= d + m.countdown && m.nextWrite >= d + m.countdown)
          || (m.status == Precharging && m.lastCommand == Precharge)
          || (m.status == Refreshing && m.lastCommand == Refresh && m.nextActivate >= d + m.countdown))
  }

  lemma TickKeeps(c: Config, m: BankState, k: BankState, d: int)
    requires c.Valid() && Follows(m, k) && Sane(c, m, d)
    ensures Follows(TickBank(c, m), k) && Sane(c, TickBank(c, m), d + 1)
  {
  }

  /** The conditions under which the controller sends `p`, in terms of its table alone. */
  predicate MayIssue(c: Config, banks: Table, p: Packet, now: int)
    requires TableShape(c, banks)
  {
    && p.rank < c.numRanks && p.bank < c.numBanks
    && (p.kind in {Read, Write, Precharge} ==> c.policy == OpenPage)
    && (p.kind in {ReadP, WriteP} ==> c.policy == ClosePage)
    && var b := banks[p.rank][p.bank];
       match p.kind
       case Activate => b.status in {Idle, Refreshing} && now >= b.nextActivate
       case Read | ReadP => b.status == RowActive && now >= b.nextRead && p.row == b.openRow
       case Write | WriteP => b.status == RowActive && now >= b.nextWrite && p.row == b.openRow
       case Precharge => b.status == RowActive && now >= b.nextPrecharge
       case Refresh => forall i :: 0 <= i < c.numBanks ==> banks[p.rank][i].status !in {RowActive, PowerDown}
       case Data => false
  }

  /** The rank's check passes when the command arrives. */
  lemma IssueIsAccepted(c: Config, banks: Table, k: RankState, p: Packet, now: int)
    requires c.Valid() && TableShape(c, banks) && RankShape(c, k) && MayIssue(c, banks, p, now)
    requires forall i :: 0 <= i < c.numBanks ==> Follows(banks[p.rank][i], k.banks[i]) && Sane(c, banks[p.rank][i], now)
    ensures DramRank.Check(k, p, now + 1).Pass?
  {
    assert Follows(banks[p.rank][p.bank], k.banks[p.bank]);
  }

  /** What the controller finds issuable, among the kinds that are queued, the rank accepts when it arrives. */
  lemma IssuableIsAccepted(c: Config, v: QueueState, banks: Table, k: RankState, p: Packet, now: int)
    requires c.Valid() && QueueShape(c, v) && TableShape(c, banks) && RankShape(c, k)
    requires p.rank < c.numRanks && p.bank < c.numBanks && KindOk(c, p)
    requires forall i :: 0 <= i < c.numBanks ==> Follows(banks[p.rank][i], k.banks[i]) && Sane(c, banks[p.rank][i], now)
    requires DramQueue.Issuable(c, v, banks, now, p)
    ensures DramRank.Check(k, p, now + 1).Pass?
  {
    IssueIsAccepted(c, banks, k, p, now);
  }

  /** Entering the command in both tables, one cycle apart, keeps them in step. */
  lemma IssueKeeps(c: Config, banks: Table, kb: BankState, p: Packet, r: nat, i: nat, now: int)
    requires c.Valid() && TableShape(c, banks) && MayIssue(c, banks, p, now)
    requires r < c.numRanks && i < c.numBanks
    requires Follows(banks[r][i], kb) && Sane(c, banks[r][i], now)
    ensures Follows(IssueBank(c, banks[r][i], p, r, i, now),
            if r == p.rank then DramRank.BankAfter(c, kb, p, i, now + 1) else kb)
    ensures Sane(c, IssueBank(c, banks[r][i], p, r, i, now), now)
  {
  }

  // ---------------------------------------------------------------- the whole-system relation

  predicate PowerAgrees(c: Config, banks: Table, powerDown: seq<bool>, r: nat)
    requires TableShape(c, banks) && |powerDown| == c.numRanks && r < c.numRanks
  {
    forall i :: 0 <= i < c.numBanks ==>
      && (banks[r][i].status == PowerDown <==> powerDown[r])
      && (powerDown[r] ==> banks[r][i].nextPowerUp == banks[r][0].nextPowerUp)
  }

  /** Both tables agree while no command is on the bus. */
  predicate Synced(c: Config, banks: Table, powerDown: seq<bool>, ranks: seq<RankState>, d: int)
    requires TableShape(c, banks) && |powerDown| == c.numRanks
    requires RanksShape(c, ranks)
  {
    && (forall r, i :: 0 <= r < c.numRanks && 0 <= i < c.numBanks ==> Follows(banks[r][i], ranks[r].banks[i]))
    && (forall r, i :: 0 <= r < c.numRanks && 0 <= i < c.numBanks ==> Sane(c, banks[r][i], d))
    && (forall r :: 0 <= r < c.numRanks ==> PowerAgrees(c, banks, powerDown, r))
    && (forall r :: 0 <= r < c.numRanks ==> ranks[r].isPowerDown == powerDown[r])
  }

  /** Ranks as they will be once the command on the bus has arrived. */
  function Arrived(c: Config, command: Option<Packet>, ranks: seq<RankState>, now: int): (a: seq<RankState>)
    requires RanksShape(c, ranks)
    ensures RanksShape(c, a)
  {
    seq(c.numRanks, r requires 0 <= r < c.numRanks =>
      if command.Some? && command.value.rank == r
      then ranks[r].(banks := DramRank.BanksAfter(c, ranks[r].banks, command.value, now))
      else ranks[r])
  }

  /** The relation between cycles: the command on the bus is about to be accepted, and then the tables agree. */
  predicate InStep(c: Config, s: System)
    requires Shape(c, s)
  {
    var m := s.control;
    && Synced(c, m.banks, m.powerDown, Arrived(c, m.command, s.ranks, s.now), s.now - 1)
    && (m.command.Some? ==>
          && m.commandLeft == 1
          && !m.powerDown[m.command.value.rank]
          && DramRank.Check(s.ranks[m.command.value.rank], m.command.value, s.now).Pass?)
  }

  /** In the middle of a cycle: the bus is free and the table has been ticked. */
  predicate InStepNow(c: Config, s: System)
    requires Shape(c, s)
  {
    var m := s.control;
    m.command.None? && Synced(c, m.banks, m.powerDown, s.ranks, s.now)
  }

  lemma PowerStillAgrees(c: Config, banks: Table, banks': Table, powerDown: seq<bool>)
    requires TableShape(c, banks) && TableShape(c, banks') && |powerDown| == c.numRanks && c.Sized()
    requires forall r :: 0 <= r < c.numRanks ==> PowerAgrees(c, banks, powerDown, r)
    requires forall r, i :: 0 <= r < c.numRanks && 0 <= i < c.numBanks ==>
      && (banks'[r][i].status == PowerDown <==> banks[r][i].status == PowerDown)
      && banks'[r][i].nextPowerUp == banks[r][i].nextPowerUp
    ensures forall r :: 0 <= r < c.numRanks ==> PowerAgrees(c, banks', powerDown, r)
  {
    forall r | 0 <= r < c.numRanks ensures PowerAgrees(c, banks', powerDown, r) {
      assert PowerAgrees(c, banks, powerDown, r);
      assert banks'[r][0].nextPowerUp == banks[r][0].nextPowerUp;
    }
  }

  lemma TickKeepsSync(c: Config, banks: Table, powerDown: seq<bool>, ranks: seq<RankState>, d: int)
    requires c.Valid() && TableShape(c, banks) && |powerDown| == c.numRanks && RanksShape(c, ranks)
    requires Synced(c, banks, powerDown, ranks, d)
    ensures Synced(c, TickTable(c, banks), powerDown, ranks, d + 1)
  {
    var t: Table := TickTable(c, banks);
    forall r, i | 0 <= r < c.numRanks && 0 <= i < c.numBanks
      ensures Follows(t[r][i], ranks[r].banks[i]) && Sane(c, t[r][i], d + 1)
      ensures t[r][i].status == PowerDown <==> banks[r][i].status == PowerDown
    {
      TickKeeps(c, banks[r][i], ranks[r].banks[i], d);
    }
    PowerStillAgrees(c, banks, t, powerDown);
  }

  /** Two lists of ranks that agree on their bank tables and power state are in step with the same tables. */
  lemma SyncedFrame(c: Config, banks: Table, powerDown: seq<bool>, ranks: seq<RankState>, ranks': seq<RankState>,
                    d: int)
    requires TableShape(c, banks) && |powerDown| == c.numRanks && RanksShape(c, ranks) && RanksShape(c, ranks')
    requires Synced(c, banks, powerDown, ranks, d)
    requires forall r :: 0 <= r < c.numRanks ==>
               ranks'[r].banks == ranks[r].banks && ranks'[r].isPowerDown == ranks[r].isPowerDown
    ensures Synced(c, banks, powerDown, ranks', d)
  {
  }

  lemma TickAndDeliver(c: Config, s: System)
    requires Shape(c, s) && c.Valid() && InStep(c, s)
    ensures CommandPhase(c, TickPhase(c, s)).Success?
    ensures InStepNow(c, CommandPhase(c, TickPhase(c, s)).value)
  {
    var m := s.control;
    var a := Arrived(c, m.command, s.ranks, s.now);
    TickKeepsSync(c, m.banks, m.powerDown, a, s.now - 1);
    var s2 := CommandPhase(c, TickPhase(c, s)).value;
    SyncedFrame(c, s2.control.banks, m.powerDown, a, s2.ranks, s.now) by {
      hide Synced;
      forall r | 0 <= r < c.numRanks
        ensures s2.ranks[r].banks == a[r].banks && s2.ranks[r].isPowerDown == a[r].isPowerDown {}
    }
  }

  /** A legal choice of the command queue is one the bank table allows. */
  lemma LegalMayIssue(c: Config, v: QueueState, banks: Table, powerDown: seq<bool>, now: int, choice: DramQueue.Choice)
    requires c.Valid() && QueueShape(c, v) && TableShape(c, banks) && |powerDown| == c.numRanks
    requires forall r :: 0 <= r < c.numRanks ==> PowerAgrees(c, banks, powerDown, r)
    requires KindsOk(c, v)
    requires DramQueue.Legal(c, v, banks, now, choice) && choice != DramQueue.Nothing
    ensures MayIssue(c, banks, DramQueue.Chosen(c, v, banks, now, choice).value, now)
    ensures !powerDown[DramQueue.Chosen(c, v, banks, now, choice).value.rank]
  {
    var p := DramQueue.Chosen(c, v, banks, now, choice).value;
    assert PowerAgrees(c, banks, powerDown, p.rank);
    if choice.Take? {
      assert KindOk(c, p);
      assert DramQueue.Issuable(c, v, banks, now, p);
    }
  }

  /** Queues hold ACTIVATEs and the column commands of the page policy. */
  predicate KindOk(c: Config, p: Packet) {
    p.kind in (if c.policy == OpenPage then {Activate, Read, Write} else {Activate, ReadP, WriteP})
  }

  predicate KindsOk(c: Config, v: QueueState)
    requires QueueShape(c, v)
  {
    forall r, l, i :: 0 <= r < c.numRanks && 0 <= l < c.Slots() && 0 <= i < |v.queues[r][l]| ==>
      KindOk(c, v.queues[r][l][i])
  }

  lemma IssueKeepsPower(c: Config, banks: Table, powerDown: seq<bool>, p: Packet, now: int)
    requires c.Valid() && TableShape(c, banks) && |powerDown| == c.numRanks
    requires forall r :: 0 <= r < c.numRanks ==> PowerAgrees(c, banks, powerDown, r)
    requires MayIssue(c, banks, p, now) && !powerDown[p.rank]
    ensures forall r :: 0 <= r < c.numRanks ==> PowerAgrees(c, IssueTable(c, banks, p, now), powerDown, r)
  {
    var t: Table := IssueTable(c, banks, p, now);
    forall r, i | 0 <= r < c.numRanks && 0 <= i < c.numBanks
      ensures t[r][i].status == PowerDown <==> banks[r][i].status == PowerDown
      ensures t[r][i].nextPowerUp == banks[r][i].nextPowerUp
    {
      assert PowerAgrees(c, banks, powerDown, r);
    }
    PowerStillAgrees(c, banks, t, powerDown);
  }

  /** Popping a command the table allows puts the two tables back in step, seen from the next cycle. */
  lemma IssueKeepsStep(c: Config, banks: Table, powerDown: seq<bool>, ranks: seq<RankState>, p: Packet, now: int)
    requires c.Valid() && TableShape(c, banks) && |powerDown| == c.numRanks && RanksShape(c, ranks)
    requires Synced(c, banks, powerDown, ranks, now)
    requires MayIssue(c, banks, p, now) && !powerDown[p.rank]
    ensures Synced(c, IssueTable(c, banks, p, now), powerDown, Arrived(c, Some(p), ranks, now + 1), now)
    ensures DramRank.Check(ranks[p.rank], p, now + 1).Pass?
  {
    IssueIsAccepted(c, banks, ranks[p.rank], p, now);
    var a := Arrived(c, Some(p), ranks, now + 1);
    var t: Table := IssueTable(c, banks, p, now);
    forall r, i | 0 <= r < c.numRanks && 0 <= i < c.numBanks
      ensures Follows(t[r][i], a[r].banks[i]) && Sane(c, t[r][i], now)
    {
      IssueKeeps(c, banks, ranks[r].banks[i], p, r, i, now);
    }
    IssueKeepsPower(c, banks, powerDown, p, now);
  }

  lemma SendKeepsStep(c: Config, s: System, v: QueueState, out: Option<Packet>)
    requires Shape(c, s) && QueueShape(c, v) && c.Valid() && InStepNow(c, s)
    requires out.Some? ==> MayIssue(c, s.control.banks, out.value, s.now) && !s.control.powerDown[out.value.rank]
    ensures Send(c, s, v, out).Success?
    ensures InStep(c, StepPhase(c, Send(c, s, v, out).value))
  {
    hide Synced;
    var m := s.control;
    var s' := StepPhase(c, Send(c, s, v, out).value);
    assert s'.ranks == s.ranks && s'.control.powerDown == m.powerDown && s'.now - 1 == s.now;
    if out.None? {
      assert Arrived(c, None, s.ranks, s.now + 1) == s.ranks;
      assert s'.control == m;
    } else {
      IssueKeepsStep(c, m.banks, m.powerDown, s.ranks, out.value, s.now);
      assert s'.control.banks == IssueTable(c, m.banks, out.value, s.now);
      assert s'.control.command == out && s'.control.commandLeft == 1;
      assert !m.powerDown[out.value.rank];
    }
  }

  lemma PopMayIssue(c: Config, v: QueueState, banks: Table, powerDown: seq<bool>, now: int)
    requires c.Valid() && QueueShape(c, v) && TableShape(c, banks) && |powerDown| == c.numRanks
    requires forall r :: 0 <= r < c.numRanks ==> PowerAgrees(c, banks, powerDown, r)
    requires KindsOk(c, v)
    ensures var out := DramQueue.Pop(c, v, banks, now).1;
            out.Some? ==> MayIssue(c, banks, out.value, now) && !powerDown[out.value.rank]
  {
    var choice := DramQueue.DecisionOf(c, v, banks, now).choice;
    if choice != DramQueue.Nothing {
      LegalMayIssue(c, DramQueue.Aged(c, v), banks, powerDown, now, choice);
    }
  }

  lemma PopKeepsStep(c: Config, s: System)
    requires Shape(c, s) && c.Valid() && InStepNow(c, s) && KindsOk(c, s.queue)
    ensures PopPhase(c, s).Success?
    ensures InStep(c, StepPhase(c, PopPhase(c, s).value))
  {
    PopMayIssue(c, s.queue, s.control.banks, s.control.powerDown, s.now);
    var (v, out) := DramQueue.Pop(c, s.queue, s.control.banks, s.now);
    SendKeepsStep(c, s, v, out);
  }

  // ---------------------------------------------------------------- the other phases

  /** Ranks that only moved read data along look the same to the relation. */
  lemma InStepFrame(c: Config, s: System, s': System)
    requires Shape(c, s) && Shape(c, s') && InStep(c, s)
    requires s'.now == s.now
    requires s'.control.banks == s.control.banks && s'.control.powerDown == s.control.powerDown
    requires s'.control.command == s.control.command && s'.control.commandLeft == s.control.commandLeft
    requires forall r :: 0 <= r < c.numRanks ==>
      s'.ranks[r].banks == s.ranks[r].banks && s'.ranks[r].isPowerDown == s.ranks[r].isPowerDown
    ensures InStep(c, s')
  {
    var m := s.control;
    SyncedFrame(c, m.banks, m.powerDown, Arrived(c, m.command, s.ranks, s.now), Arrived(c, m.command, s'.ranks, s.now),
        s.now - 1);
  }

  lemma InStepNowFrame(c: Config, s: System, s': System)
    requires Shape(c, s) && Shape(c, s') && InStepNow(c, s)
    requires s'.now == s.now
    requires s'.control.banks == s.control.banks && s'.control.powerDown == s.control.powerDown
    requires s'.control.command == s.control.command
    requires forall r :: 0 <= r < c.numRanks ==>
      s'.ranks[r].banks == s.ranks[r].banks && s'.ranks[r].isPowerDown == s.ranks[r].isPowerDown
    ensures InStepNow(c, s')
  {
    SyncedFrame(c, s.control.banks, s.control.powerDown, s.ranks, s'.ranks, s.now);
  }

  /** A rank that holds a command in flight has a bank that is not idle, so it is not powered down under it. */
  predicate Busy(c: Config, m: ControlState)
    requires ControlShape(c, m)
  {
    m.command.Some? ==> m.banks[m.command.value.rank][m.command.value.bank].status != Idle
  }

  lemma SendIsBusy(c: Config, s: System, v: QueueState, out: Option<Packet>)
    requires Shape(c, s) && QueueShape(c, v) && c.Valid() && s.control.command.None?
    requires out.Some? ==> MayIssue(c, s.control.banks, out.value, s.now)
    ensures Send(c, s, v, out).Success? && Busy(c, Send(c, s, v, out).value.control)
  {
    if out.Some? {
      var p := out.value;
      assert IssueTable(c, s.control.banks, p, s.now)[p.rank][p.bank]
             == IssueBank(c, s.control.banks[p.rank][p.bank], p, p.rank, p.bank, s.now);
    }
  }

  lemma IdleRankMayPowerDown(c: Config, m: ControlState, ranks: seq<RankState>, r: nat, now: int)
    requires c.Valid() && ControlShape(c, m) && RanksShape(c, ranks) && r < c.numRanks
    requires Synced(c, m.banks, m.powerDown, Arrived(c, m.command, ranks, now + 1), now) && Busy(c, m)
    requires AllIdle(m.banks[r])
    ensures m.command.Some? ==> m.command.value.rank != r
    ensures DramRank.PowerDown(c, ranks[r], now).Success?
  {
    var a := Arrived(c, m.command, ranks, now + 1);
    forall i | 0 <= i < c.numBanks ensures ranks[r].banks[i].status == Idle {
      assert Follows(m.banks[r][i], a[r].banks[i]) && Sane(c, m.banks[r][i], now);
    }
  }

  lemma DownRankMayPowerUp(c: Config, m: ControlState, ranks: seq<RankState>, r: nat, now: int)
    requires c.Valid() && ControlShape(c, m) && RanksShape(c, ranks) && r < c.numRanks
    requires Synced(c, m.banks, m.powerDown, Arrived(c, m.command, ranks, now + 1), now)
    requires m.command.Some? ==> !m.powerDown[m.command.value.rank]
    requires m.powerDown[r] && now >= m.banks[r][0].nextPowerUp
    ensures m.command.Some? ==> m.command.value.rank != r
    ensures DramRank.PowerUp(c, ranks[r], now).Success?
  {
    var a := Arrived(c, m.command, ranks, now + 1);
    assert PowerAgrees(c, m.banks, m.powerDown, r);
    forall i | 0 <= i < c.numBanks ensures ranks[r].banks[i].nextPowerUp <= now {
      assert Follows(m.banks[r][i], a[r].banks[i]);
    }
  }

  lemma PoweredKeepsSync(c: Config, m: ControlState, ranks: seq<RankState>, r: nat, k: RankState, down: bool, now: int)
    requires c.Valid() && ControlShape(c, m) && RanksShape(c, ranks) && r < c.numRanks
    requires Synced(c, m.banks, m.powerDown, Arrived(c, m.command, ranks, now + 1), now)
    requires m.command.Some? ==> m.command.value.rank != r
    requires down ==> AllIdle(m.banks[r])
    requires !down ==> m.powerDown[r]
    requires Success(k) == if down then DramRank.PowerDown(c, ranks[r], now) else DramRank.PowerUp(c, ranks[r], now)
    ensures var row := if down then DramRank.DownBanks(c, m.banks[r], now) else DramRank.UpBanks(c, m.banks[r], now);
            Synced(c, m.banks[r := row], m.powerDown[r := down], Arrived(c, m.command, ranks[r := k], now + 1), now)
  {
    var row := if down then DramRank.DownBanks(c, m.banks[r], now) else DramRank.UpBanks(c, m.banks[r], now);
    var a := Arrived(c, m.command, ranks, now + 1);
    var a' := Arrived(c, m.command, ranks[r := k], now + 1);
    PoweredAgrees(c, m.banks, m.powerDown, m.banks[r := row], m.powerDown[r := down], r, down, now);
    assert PowerAgrees(c, m.banks, m.powerDown, r);
    forall q, i | 0 <= q < c.numRanks && 0 <= i < c.numBanks
      ensures Follows(m.banks[r := row][q][i], a'[q].banks[i]) && Sane(c, m.banks[r := row][q][i], now)
    {
      assert Follows(m.banks[q][i], a[q].banks[i]) && Sane(c, m.banks[q][i], now);
    }
  }

  lemma PoweredAgrees(c: Config, banks: Table, powerDown: seq<bool>, banks': Table, powerDown': seq<bool>,
                      r: nat, down: bool, now: int)
    requires c.Sized() && TableShape(c, banks) && |powerDown| == c.numRanks && r < c.numRanks
    requires powerDown' == powerDown[r := down]
    requires banks'
             == banks[r := if down then DramRank.DownBanks(c, banks[r], now) else DramRank.UpBanks(c, banks[r], now)]
    requires forall q :: 0 <= q < c.numRanks ==> PowerAgrees(c, banks, powerDown, q)
    ensures TableShape(c, banks') && forall q :: 0 <= q < c.numRanks ==> PowerAgrees(c, banks', powerDown', q)
  {
    forall q | 0 <= q < c.numRanks ensures PowerAgrees(c, banks', powerDown', q) {
      assert PowerAgrees(c, banks, powerDown, q);
    }
  }

  /** Powering one rank down or up is accepted by the rank, and the tables stay in step. */
  lemma PowerRankKeepsStep(c: Config, s: System, r: nat)
    requires Shape(c, s) && c.Valid() && r < c.numRanks
    requires InStep(c, StepPhase(c, s)) && Busy(c, s.control)
    ensures PowerRank(c, s, r).Success?
    ensures InStep(c, StepPhase(c, PowerRank(c, s, r).value)) && Busy(c, PowerRank(c, s, r).value.control)
  {
    hide Synced;
    var m := s.control;
    if RankEmpty(c, s.queue, r) && !s.ranks[r].refreshWaiting {
      if AllIdle(m.banks[r]) {
        IdleRankMayPowerDown(c, m, s.ranks, r, s.now);
        PoweredKeepsSync(c, m, s.ranks, r, DramRank.PowerDown(c, s.ranks[r], s.now).value, true, s.now);
      }
    } else if s.now >= m.banks[r][0].nextPowerUp && m.powerDown[r] {
      DownRankMayPowerUp(c, m, s.ranks, r, s.now);
      PoweredKeepsSync(c, m, s.ranks, r, DramRank.PowerUp(c, s.ranks[r], s.now).value, false, s.now);
    }
  }
}
