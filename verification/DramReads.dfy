/** Every read is on its way exactly once, from the command queue to the processor. */
module DramReads {
  import opened Bits
  import opened Outcomes
  import opened DramTypes
  import opened DramControl
  import opened DramQueue
  import DramRank
  import DramOrder
  import DramHistory

  /** How many read commands for address `a` are in a queue. */
  function Reads(q: seq<Packet>, a: nat): nat {
    if q == [] then 0
    else Reads(q[..|q|-1], a) + One(IsRead(q[|q|-1].kind) && q[|q|-1].address == a)
  }

  /** How many packets of a return queue carry address `a`. */
  function Carried(q: seq<Packet>, a: nat): nat {
    if q == [] then 0 else Carried(q[..|q|-1], a) + One(q[|q|-1].address == a)
  }

  /** How many transactions of a list are for address `a`. */
  function Wanted(t: seq<Transaction>, a: nat): nat {
    if t == [] then 0 else Wanted(t[..|t|-1], a) + One(t[|t|-1].address == a)
  }

  function RowReads(row: seq<seq<Packet>>, a: nat): nat {
    if row == [] then 0 else RowReads(row[..|row|-1], a) + Reads(row[|row|-1], a)
  }

  function QueuedReads(queues: seq<seq<seq<Packet>>>, a: nat): nat {
    if queues == [] then 0 else QueuedReads(queues[..|queues|-1], a) + RowReads(queues[|queues|-1], a)
  }

  function OnBus(p: Option<Packet>, a: nat): nat {
    One(p.Some? && p.value.address == a)
  }

  function CommandRead(p: Option<Packet>, a: nat): nat {
    One(p.Some? && IsRead(p.value.kind) && p.value.address == a)
  }

  function InRank(k: RankState, a: nat): nat {
    Carried(k.readReturn, a) + OnBus(k.outgoing, a)
  }

  function InRanks(ranks: seq<RankState>, a: nat): nat {
    if ranks == [] then 0 else InRanks(ranks[..|ranks|-1], a) + InRank(ranks[|ranks|-1], a)
  }

  /**
   * For address `a`: as many reads wait for their data as are queued, on the command bus, in a rank, or about to be
   * returned.
   */
  predicate BalancedFor(s: System, a: nat) {
    Wanted(s.control.pendingReads, a)
    == QueuedReads(s.queue.queues, a) + CommandRead(s.control.command, a) + InRanks(s.ranks, a)
        + Wanted(s.control.toReturn, a)
  }

  /** The multiset of addresses waited for is the multiset of addresses on their way. */
  ghost predicate Balanced(s: System) {
    forall a: nat :: BalancedFor(s, a)
  }

  // ---------------------------------------------------------------- sums

  lemma ReadsAppend(q: seq<Packet>, p: Packet, a: nat)
    ensures Reads(q + [p], a) == Reads(q, a) + One(IsRead(p.kind) && p.address == a)
  {
    assert (q + [p])[..|q|] == q;
  }

  lemma CarriedAppend(q: seq<Packet>, p: Packet, a: nat)
    ensures Carried(q + [p], a) == Carried(q, a) + One(p.address == a)
  {
    assert (q + [p])[..|q|] == q;
  }

  lemma WantedAppend(t: seq<Transaction>, x: Transaction, a: nat)
    ensures Wanted(t + [x], a) == Wanted(t, a) + One(x.address == a)
  {
    assert (t + [x])[..|t|] == t;
  }

  lemma {:induction false} ReadsConcat(q: seq<Packet>, r: seq<Packet>, a: nat)
    ensures Reads(q + r, a) == Reads(q, a) + Reads(r, a)
  {
    if r == [] {
      assert q + r == q;
    } else {
      ReadsConcat(q, r[..|r|-1], a);
      assert (q + r)[..|q + r|-1] == q + r[..|r|-1];
    }
  }

  lemma {:induction false} CarriedFirst(q: seq<Packet>, a: nat)
    requires q != []
    ensures Carried(q, a) == One(q[0].address == a) + Carried(q[1..], a)
  {
    if |q| > 1 {
      CarriedFirst(q[..|q|-1], a);
      assert q[..|q|-1][1..] == q[1..][..|q|-2];
    }
  }

  lemma {:induction false} WantedWithout(t: seq<Transaction>, k: nat, a: nat)
    requires k < |t|
    ensures Wanted(t, a) == Wanted(t[..k] + t[k+1..], a) + One(t[k].address == a)
  {
    if k == |t| - 1 {
      assert t[..k] + t[k+1..] == t[..|t|-1];
    } else {
      WantedWithout(t[..|t|-1], k, a);
      assert (t[..k] + t[k+1..])[..|t|-2] == t[..|t|-1][..k] + t[..|t|-1][k+1..];
    }
  }

  lemma {:induction false} WantedNowhere(t: seq<Transaction>, a: nat)
    requires forall k :: 0 <= k < |t| ==> t[k].address != a
    ensures Wanted(t, a) == 0
  {
    if t != [] {
      WantedNowhere(t[..|t|-1], a);
    }
  }

  lemma {:induction false} RowReadsUpdate(row: seq<seq<Packet>>, i: nat, q: seq<Packet>, a: nat)
    requires i < |row|
    ensures RowReads(row[i := q], a) + Reads(row[i], a) == RowReads(row, a) + Reads(q, a)
  {
    hide Reads;
    var last := |row| - 1;
    if i == last {
      assert row[i := q][..last] == row[..last];
    } else {
      RowReadsUpdate(row[..last], i, q, a);
      assert row[i := q][..last] == row[..last][i := q];
    }
  }

  lemma {:induction false} QueuedReadsUpdate(queues: seq<seq<seq<Packet>>>, r: nat, row: seq<seq<Packet>>, a: nat)
    requires r < |queues|
    ensures QueuedReads(queues[r := row], a) + RowReads(queues[r], a) == QueuedReads(queues, a) + RowReads(row, a)
  {
    hide RowReads;
    var last := |queues| - 1;
    if r == last {
      assert queues[r := row][..last] == queues[..last];
    } else {
      QueuedReadsUpdate(queues[..last], r, row, a);
      assert queues[r := row][..last] == queues[..last][r := row];
    }
  }

  lemma PutReads(queues: seq<seq<seq<Packet>>>, r: nat, slot: nat, q: seq<Packet>, a: nat)
    requires r < |queues| && slot < |queues[r]|
    ensures QueuedReads(Put(queues, r, slot, q), a) + Reads(queues[r][slot], a) == QueuedReads(queues, a) + Reads(q, a)
  {
    hide Reads, RowReads, QueuedReads;
    RowReadsUpdate(queues[r], slot, q, a);
    QueuedReadsUpdate(queues, r, queues[r][slot := q], a);
  }

  lemma {:induction false} InRanksUpdate(ranks: seq<RankState>, r: nat, k: RankState, a: nat)
    requires r < |ranks|
    ensures InRanks(ranks[r := k], a) + InRank(ranks[r], a) == InRanks(ranks, a) + InRank(k, a)
  {
    hide InRank;
    var last := |ranks| - 1;
    if r == last {
      assert ranks[r := k][..last] == ranks[..last];
    } else {
      InRanksUpdate(ranks[..last], r, k, a);
      assert ranks[r := k][..last] == ranks[..last][r := k];
    }
  }

  lemma {:induction false} InRanksSame(ranks: seq<RankState>, ranks': seq<RankState>, a: nat)
    requires |ranks| == |ranks'|
    requires forall r :: 0 <= r < |ranks| ==>
               ranks'[r].readReturn == ranks[r].readReturn && ranks'[r].outgoing == ranks[r].outgoing
    ensures InRanks(ranks', a) == InRanks(ranks, a)
  {
    if ranks != [] {
      InRanksSame(ranks[..|ranks|-1], ranks'[..|ranks|-1], a);
    }
  }

  // ---------------------------------------------------------------- the phases

  /** Everything a rank sends back is data. */
  predicate DataOnly(k: RankState) {
    && (forall i :: 0 <= i < |k.readReturn| ==> k.readReturn[i].kind == Data)
    && (k.outgoing.Some? ==> k.outgoing.value.kind == Data)
  }

  /** The next read comes out only when the one before has left the bus. */
  predicate OverwritesNothing(k: RankState) {
    |k.readCountdown| > 0 && Dec(k.readCountdown[0]) == 0 && k.outgoing.Some? ==> Dec(k.dataLeft) == 0
  }

  /** A rank's cycle loses no read, provided its data bus is free when the next one is due. */
  lemma UpdateBalances(c: Config, k: RankState, a: nat)
    requires RankShape(c, k) && OverwritesNothing(k)
    ensures var (k', out) := DramRank.Update(c, k); InRank(k, a) == InRank(k', a) + OnBus(out, a)
  {
    if |k.readCountdown| > 0 && Dec(k.readCountdown[0]) == 0 {
      CarriedFirst(k.readReturn, a);
    }
  }

  predicate AllRanks(ranks: seq<RankState>, from: nat) {
    forall r :: from <= r < |ranks| ==> DataOnly(ranks[r]) && OverwritesNothing(ranks[r])
  }

  /** Nothing but data reaches the controller. */
  lemma {:induction false} RankPhaseSucceeds(c: Config, s: System, r: nat)
    requires Shape(c, s) && r <= c.numRanks && AllRanks(s.ranks, r)
    ensures RankPhase(c, s, r).Success?
    decreases c.numRanks - r
  {
    hide ControlShape, QueueShape, RankShape;
    if r < c.numRanks {
      assert DataOnly(s.ranks[r]);
      assert RankOne(c, s, r).Success?;
      RankPhaseSucceeds(c, RankOne(c, s, r).value, r + 1);
    }
  }

  lemma RankOneBalances(c: Config, s: System, r: nat, a: nat)
    requires Shape(c, s) && r < c.numRanks && OverwritesNothing(s.ranks[r])
    requires RankOne(c, s, r).Success? && BalancedFor(s, a)
    ensures BalancedFor(RankOne(c, s, r).value, a)
  {
    var (k', out) := DramRank.Update(c, s.ranks[r]);
    UpdateBalances(c, s.ranks[r], a);
    InRanksUpdate(s.ranks, r, k', a);
    hide Shape, InRank, InRanks, Wanted, QueuedReads, DramRank.Update;
    if out.Some? {
      WantedAppend(s.control.toReturn, Transaction(ReturnData, out.value.address), a);
    }
  }

  /** All ranks: no read is lost on its way to the controller. */
  lemma {:induction false} RankPhaseBalances(c: Config, s: System, r: nat, a: nat)
    requires Shape(c, s) && r <= c.numRanks && AllRanks(s.ranks, r)
    requires RankPhase(c, s, r).Success? && BalancedFor(s, a)
    ensures BalancedFor(RankPhase(c, s, r).value, a)
    decreases c.numRanks - r
  {
    hide ControlShape, QueueShape, RankShape, BalancedFor;
    if r < c.numRanks {
      assert OverwritesNothing(s.ranks[r]);
      RankOneBalances(c, s, r, a);
      RankPhaseBalances(c, RankOne(c, s, r).value, r + 1, a);
    }
  }

  lemma CommandPhaseBalances(c: Config, s: System, a: nat)
    requires Shape(c, s) && CommandPhase(c, s).Success? && BalancedFor(s, a)
    ensures BalancedFor(CommandPhase(c, s).value, a)
  {
    hide QueuedReads, Wanted, InRanks, Carried;
    var m := s.control;
    if m.command.Some? && Dec(m.commandLeft) == 0 {
      var p := m.command.value;
      var k := s.ranks[p.rank];
      InRanksUpdate(s.ranks, p.rank, DramRank.Receive(c, k, p, s.now).value, a);
      CarriedAppend(k.readReturn, p.(kind := Data), a);
    }
  }

  lemma ReadsWithout(q: seq<Packet>, i: nat, withAct: bool, a: nat)
    requires i < |q| && (withAct ==> i > 0 && q[i-1].kind == Activate)
    ensures Reads(q, a) == Reads(Without(q, i, withAct), a) + CommandRead(Some(q[i]), a)
  {
    hide Reads;
    var lo := if withAct then i - 1 else i;
    ReadsConcat(q[..lo], q[i+1..], a);
    ReadsConcat(q[..i+1], q[i+1..], a);
    assert q == q[..i+1] + q[i+1..];
    assert q[..i+1] == q[..i] + [q[i]];
    ReadsAppend(q[..i], q[i], a);
    if withAct {
      assert q[..i] == q[..lo] + [q[lo]];
      ReadsAppend(q[..lo], q[lo], a);
    }
  }

  /** Only the read that is sent leaves the queue; what is thrown away with it is an ACTIVATE. */
  lemma ChoiceBalances(c: Config, v: QueueState, banks: Table, now: int, choice: Choice, a: nat)
    requires c.Valid() && QueueShape(c, v) && TableShape(c, banks)
    requires DramOrder.QueuesOk(c, banks, v) && Legal(c, v, banks, now, choice)
    ensures QueuedReads(v.queues, a)
         == QueuedReads(Removed(c, v, banks, now, choice).queues, a) + CommandRead(Chosen(c, v, banks, now, choice), a)
  {
    hide Reads, RowReads, QueuedReads;
    if choice.Take? {
      var Take(r, slot, i, withAct) := choice;
      var q := v.queues[r][slot];
      assert Placed(c, q, r, slot) && DramOrder.QueueOk(banks[r], v.rowAccess[r], q);
      if q[i].kind == Activate {
        DramOrder.PickedActivateIsFirst(c, v, banks, now, r, slot, i, withAct);
      } else {
        DramOrder.PickedColumnIsOrphan(c, v, banks, now, r, slot, i, withAct);
      }
      ReadsWithout(q, i, withAct, a);
      PutReads(v.queues, r, slot, Without(q, i, withAct), a);
    }
  }

  lemma PopPhaseBalances(c: Config, s: System, a: nat)
    requires Shape(c, s) && c.Valid() && PopPhase(c, s).Success?
    requires DramOrder.QueuesOk(c, s.control.banks, s.queue)
    requires s.control.command.None? && BalancedFor(s, a)
    ensures BalancedFor(PopPhase(c, s).value, a)
  {
    var v1 := Aged(c, s.queue);
    DramOrder.QueuesOkFrame(c, s.control.banks, s.queue, v1);
    hide Decide, DramOrder.QueuesOk, Legal, Removed, Chosen, QueuedReads, InRanks, Wanted;
    var choice := DecisionOf(c, s.queue, s.control.banks, s.now).choice;
    ChoiceBalances(c, v1, s.control.banks, s.now, choice, a);
  }

  lemma AdmitBalances(c: Config, s: System, i: nat, a: nat)
    requires Shape(c, s) && c.Sized() && i < |s.control.transactions| && Admit(c, s, i).Success?
    requires BalancedFor(s, a)
    ensures BalancedFor(Admit(c, s, i).value, a)
  {
    hide Shape;
    DramHistory.AdmitEffect(c, s, i);
    hide Admit, ActivateFor, ColumnFor, Reads, QueuedReads, Wanted, InRanks;
    var t := s.control.transactions[i];
    var act := ActivateFor(c, t);
    var col := ColumnFor(c, t);
    var q := s.queue.queues[act.rank][c.Slot(act.bank)];
    PutReads(s.queue.queues, act.rank, c.Slot(act.bank), q + [act] + [col], a);
    ReadsAppend(q, act, a);
    ReadsAppend(q + [act], col, a);
    WantedAppend(s.control.pendingReads, t, a);
  }

  /** A returned read finds its waiting entry, and exactly that one is taken off the list. */
  lemma ReturnFindsPending(s: System)
    requires s.control.toReturn != [] && BalancedFor(s, s.control.toReturn[0].address)
    ensures FirstPending(s.control.pendingReads, s.control.toReturn[0].address, 0) < |s.control.pendingReads|
  {
    var m := s.control;
    var a := m.toReturn[0].address;
    WantedWithout(m.toReturn, 0, a);
    if FirstPending(m.pendingReads, a, 0) == |m.pendingReads| {
      WantedNowhere(m.pendingReads, a);
    }
  }

  /** Dropping a pair of entries for the same address, one from each list. */
  lemma ReturnCounts(pending: seq<Transaction>, toReturn: seq<Transaction>, k: nat, a: nat)
    requires toReturn != [] && k < |pending| && pending[k].address == toReturn[0].address
    ensures Wanted(pending, a) + Wanted(toReturn[1..], a)
            == Wanted(pending[..k] + pending[k+1..], a) + Wanted(toReturn, a)
  {
    hide Wanted;
    WantedWithout(toReturn, 0, a);
    assert toReturn[..0] + toReturn[1..] == toReturn[1..];
    WantedWithout(pending, k, a);
  }

  lemma ReturnPhaseBalances(c: Config, s: System, a: nat)
    requires Shape(c, s) && Balanced(s)
    ensures BalancedFor(ReturnPhase(c, s), a)
  {
    hide Shape, Wanted, QueuedReads, InRanks;
    assert BalancedFor(s, a);
    var m := s.control;
    if m.toReturn != [] {
      assert BalancedFor(s, m.toReturn[0].address);
      ReturnFindsPending(s);
      ReturnCounts(m.pendingReads, m.toReturn, FirstPending(m.pendingReads, m.toReturn[0].address, 0), a);
    }
  }
}
