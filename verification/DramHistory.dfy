/** Column commands of one row leave the command queue in the order they entered it. */
module DramHistory {
  import opened Outcomes
  import opened DramTypes
  import opened DramControl
  import opened DramQueue
  import opened DramTiming
  import opened DramOrder

  /** One row of one bank of one rank. */
  datatype Key = Key(rank: nat, bank: nat, row: nat)

  predicate ForKey(p: Packet, k: Key) {
    IsColumn(p.kind) && p.rank == k.rank && p.bank == k.bank && p.row == k.row
  }

  /** The column commands for a row, in order. */
  function Picks(q: seq<Packet>, k: Key): seq<Packet> {
    if q == [] then []
    else Picks(q[..|q|-1], k) + (if ForKey(q[|q|-1], k) then [q[|q|-1]] else [])
  }

  /** The commands sent so far, in order. */
  function Sent(issued: seq<Option<Packet>>): seq<Packet> {
    if issued == [] then []
    else Sent(issued[..|issued|-1]) + (if issued[|issued|-1].Some? then [issued[|issued|-1].value] else [])
  }

  lemma PicksAppend(q: seq<Packet>, p: Packet, k: Key)
    ensures Picks(q + [p], k) == Picks(q, k) + (if ForKey(p, k) then [p] else [])
  {
    assert (q + [p])[..|q|] == q;
  }

  lemma {:induction false} PicksConcat(a: seq<Packet>, b: seq<Packet>, k: Key)
    ensures Picks(a + b, k) == Picks(a, k) + Picks(b, k)
  {
    if b == [] {
      assert a + b == a;
    } else {
      PicksConcat(a, b[..|b|-1], k);
      assert (a + b)[..|a + b|-1] == a + b[..|b|-1];
    }
  }

  lemma {:induction false} PicksNone(q: seq<Packet>, k: Key)
    requires forall i :: 0 <= i < |q| ==> !ForKey(q[i], k)
    ensures Picks(q, k) == []
  {
    if q != [] {
      PicksNone(q[..|q|-1], k);
    }
  }

  /**
   * Removing a command that is the oldest for its row takes the head off that row's list and leaves the others alone.
   */
  lemma PicksWithout(q: seq<Packet>, i: nat, withAct: bool, k: Key)
    requires i < |q| && (withAct ==> i > 0 && q[i-1].kind == Activate)
    requires ForKey(q[i], k) ==> forall j :: 0 <= j < i ==> !ForKey(q[j], k)
    ensures Picks(q, k) == (if ForKey(q[i], k) then [q[i]] else []) + Picks(Without(q, i, withAct), k)
  {
    hide Picks;
    var lo := if withAct then i - 1 else i;
    var rest := q[i+1..];
    PicksConcat(q[..lo], rest, k);
    PicksConcat(q[..i+1], rest, k);
    assert q == q[..i+1] + rest;
    PicksAppend(q[..i], q[i], k);
    assert q[..i+1] == q[..i] + [q[i]];
    if withAct {
      PicksAppend(q[..lo], q[lo], k);
      assert q[..i] == q[..lo] + [q[lo]];
    }
    if ForKey(q[i], k) {
      PicksNone(q[..lo], k);
    }
  }

  /** A column command that is picked is the oldest in its queue for its row. */
  lemma PickedColumnIsOldest(c: Config, v: QueueState, banks: Table, now: int, r: nat, slot: nat, i: nat, withAct: bool,
                             j: nat)
    requires c.Valid() && QueueShape(c, v) && TableShape(c, banks)
    requires LegalTake(c, v, banks, now, r, slot, i, withAct)
    requires InRange(v.queues[r][slot], c.numBanks) && QueueOk(banks[r], v.rowAccess[r], v.queues[r][slot])
    requires j < i
    requires var k := v.queues[r][slot][i]; ForKey(k, Key(k.rank, k.bank, k.row))
    ensures var k := v.queues[r][slot][i]; !ForKey(v.queues[r][slot][j], Key(k.rank, k.bank, k.row))
  {
    var q := v.queues[r][slot];
    PickedColumnIsOrphan(c, v, banks, now, r, slot, i, withAct);
    if Orphan(q, i) {
      assert OrphanOk(banks[r], v.rowAccess[r], q, i);
    } else {
      assert LegalScan(c, v, banks, now, r, slot, i, withAct);
    }
  }

  /** The queue a row's column commands wait in. */
  function Waiting(c: Config, v: QueueState, k: Key): seq<Packet>
    requires QueueShape(c, v) && k.rank < c.numRanks && k.bank < c.numBanks
  {
    Picks(v.queues[k.rank][c.Slot(k.bank)], k)
  }

  /** One pop: if it sends a column command for the row, that is the oldest one waiting; otherwise nothing moves. */
  lemma PopIsFifo(c: Config, v: QueueState, banks: Table, now: int, k: Key)
    requires c.Valid() && QueueShape(c, v) && TableShape(c, banks)
    requires QueuesOk(c, banks, v) && k.rank < c.numRanks && k.bank < c.numBanks
    ensures var (v', out) := Pop(c, v, banks, now);
            Waiting(c, v, k) == (if out.Some? && ForKey(out.value, k) then [out.value] else []) + Waiting(c, v', k)
  {
    var v1 := Aged(c, v);
    QueuesOkFrame(c, banks, v, v1);
    var choice := DecisionOf(c, v, banks, now).choice;
    ChoiceIsFifo(c, v1, banks, now, choice, k);
  }

  lemma ChoiceIsFifo(c: Config, v: QueueState, banks: Table, now: int, choice: Choice, k: Key)
    requires c.Valid() && QueueShape(c, v) && TableShape(c, banks)
    requires QueuesOk(c, banks, v) && k.rank < c.numRanks && k.bank < c.numBanks
    requires Legal(c, v, banks, now, choice)
    ensures var out := Chosen(c, v, banks, now, choice);
            Waiting(c, v, k)
                == (if out.Some? && ForKey(out.value, k) then [out.value] else [])
                + Waiting(c, Removed(c, v, banks, now, choice), k)
  {
    if choice.Take? {
      TakeIsFifo(c, v, banks, now, choice.rank, choice.slot, choice.index, choice.withAct, k);
    }
  }

  lemma TakeIsFifo(c: Config, v: QueueState, banks: Table, now: int, r: nat, slot: nat, i: nat, withAct: bool, k: Key)
    requires c.Valid() && QueueShape(c, v) && TableShape(c, banks)
    requires QueuesOk(c, banks, v) && k.rank < c.numRanks && k.bank < c.numBanks
    requires LegalTake(c, v, banks, now, r, slot, i, withAct)
    ensures var p := v.queues[r][slot][i];
            Waiting(c, v, k)
                == (if ForKey(p, k) then [p] else [])
                + Waiting(c, Removed(c, v, banks, now, Take(r, slot, i, withAct)), k)
  {
    hide Picks, LegalScan, LegalDrain, Issuable, AccessOk;
    var q := v.queues[r][slot];
    assert Placed(c, q, r, slot) && QueueOk(banks[r], v.rowAccess[r], q);
    if r == k.rank && slot == c.Slot(k.bank) {
      forall j | ForKey(q[i], k) && 0 <= j < i ensures !ForKey(q[j], k) {
        PickedColumnIsOldest(c, v, banks, now, r, slot, i, withAct, j);
      }
      if q[i].kind == Activate {
        PickedActivateIsFirst(c, v, banks, now, r, slot, i, withAct);
      } else {
        PickedColumnIsOrphan(c, v, banks, now, r, slot, i, withAct);
      }
      PicksWithout(q, i, withAct, k);
    }
  }

  // ---------------------------------------------------------------- over a whole run

  /** What has entered for a row is what has left for it, followed by what still waits. */
  ghost predicate InOrder(c: Config, s: System)
    requires Shape(c, s)
  {
    forall k: Key :: k.rank < c.numRanks && k.bank < c.numBanks ==> InOrderFor(c, s, k)
  }

  predicate InOrderFor(c: Config, s: System, k: Key)
    requires Shape(c, s) && k.rank < c.numRanks && k.bank < c.numBanks
  {
    Picks(s.entered, k) == Picks(Sent(s.issued), k) + Waiting(c, s.queue, k)
  }

  lemma SentAppend(issued: seq<Option<Packet>>, out: Option<Packet>)
    ensures Sent(issued + [out]) == Sent(issued) + (if out.Some? then [out.value] else [])
  {
    assert (issued + [out])[..|issued|] == issued;
  }

  lemma SendKeepsOrderFor(c: Config, s: System, s': System, k: Key, out: Option<Packet>)
    requires Shape(c, s) && Shape(c, s') && k.rank < c.numRanks && k.bank < c.numBanks
    requires InOrderFor(c, s, k)
    requires s'.entered == s.entered && s'.issued == s.issued + [out]
    requires Waiting(c, s.queue, k)
             == (if out.Some? && ForKey(out.value, k) then [out.value] else []) + Waiting(c, s'.queue, k)
    ensures InOrderFor(c, s', k)
  {
    SentAppend(s.issued, out);
    if out.Some? {
      PicksAppend(Sent(s.issued), out.value, k);
    } else {
      assert Sent(s.issued) + [] == Sent(s.issued);
    }
  }

  lemma PopKeepsOrder(c: Config, s: System)
    requires Shape(c, s) && c.Valid() && PopPhase(c, s).Success?
    requires QueuesOk(c, s.control.banks, s.queue) && InOrder(c, s)
    ensures InOrder(c, PopPhase(c, s).value)
  {
    hide Decide, QueuesOk;
    var s' := PopPhase(c, s).value;
    var out := Pop(c, s.queue, s.control.banks, s.now).1;
    forall k: Key | k.rank < c.numRanks && k.bank < c.numBanks ensures InOrderFor(c, s', k) {
      PopIsFifo(c, s.queue, s.control.banks, s.now, k);
      SendKeepsOrderFor(c, s, s', k, out);
    }
  }

  /** A transaction puts its ACTIVATE and its column command at the end of one queue. */
  lemma AdmitEffect(c: Config, s: System, i: nat)
    requires Shape(c, s) && c.Sized() && i < |s.control.transactions| && Admit(c, s, i).Success?
    ensures var s' := Admit(c, s, i).value;
            var t := s.control.transactions[i];
            var act := ActivateFor(c, t);
            var col := ColumnFor(c, t);
            var slot := c.Slot(act.bank);
            && t.kind != ReturnData && Mates(act, col) && KindOk(c, col)
            && act.rank < c.numRanks && act.bank < c.numBanks
            && s'.entered == s.entered + [act] + [col]
            && s'.queue
                == s.queue.(queues :=
                Put(s.queue.queues, act.rank, slot, s.queue.queues[act.rank][slot] + [act] + [col]))
            && |s.queue.queues[act.rank][slot]| + 2 <= c.commandDepth
  {
    var act := ActivateFor(c, s.control.transactions[i]);
    var col := ColumnFor(c, s.control.transactions[i]);
    assert s.entered + [act, col] == s.entered + [act] + [col];
    var q := s.queue.queues[act.rank][c.Slot(act.bank)];
    PutTwice(s.queue.queues, act.rank, c.Slot(act.bank), q + [act], q + [act] + [col]);
  }

  lemma PutTwice<T>(s: seq<seq<T>>, i: nat, j: nat, x: T, y: T)
    requires i < |s| && j < |s[i]|
    ensures Put(Put(s, i, j, x), i, j, y) == Put(s, i, j, y)
  {
    assert s[i][j := x][j := y] == s[i][j := y];
  }

  lemma AdmitKeepsOrder(c: Config, s: System, i: nat)
    requires Shape(c, s) && c.Sized() && i < |s.control.transactions| && Admit(c, s, i).Success?
    requires InOrder(c, s)
    ensures InOrder(c, Admit(c, s, i).value)
  {
    AdmitEffect(c, s, i);
    hide Picks, Admit, ActivateFor, ColumnFor, InOrderFor;
    var s' := Admit(c, s, i).value;
    var t := s.control.transactions[i];
    forall k: Key | k.rank < c.numRanks && k.bank < c.numBanks ensures InOrderFor(c, s', k) {
      assert InOrderFor(c, s, k);
      PairKeepsOrderFor(c, s, s', ActivateFor(c, t), ColumnFor(c, t), k);
    }
  }

  lemma PairKeepsOrderFor(c: Config, s: System, s': System, act: Packet, col: Packet, k: Key)
    requires Shape(c, s) && Shape(c, s') && k.rank < c.numRanks && k.bank < c.numBanks
    requires InOrderFor(c, s, k) && s'.issued == s.issued && s'.entered == s.entered + [act] + [col]
    requires Mates(act, col) && act.rank < c.numRanks && act.bank < c.numBanks
    requires s'.queue.queues
             == Put(s.queue.queues, act.rank, c.Slot(act.bank),
             s.queue.queues[act.rank][c.Slot(act.bank)] + [act] + [col])
    ensures InOrderFor(c, s', k)
  {
    hide Picks;
    PicksPair(s.entered, act, col, k);
    PicksPair(s.queue.queues[k.rank][c.Slot(k.bank)], act, col, k);
  }

  lemma PicksPair(q: seq<Packet>, act: Packet, col: Packet, k: Key)
    requires act.kind == Activate
    ensures Picks(q + [act] + [col], k) == Picks(q, k) + (if ForKey(col, k) then [col] else [])
  {
    PicksAppend(q + [act], col, k);
    PicksAppend(q, act, k);
  }
}
