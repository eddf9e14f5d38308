/** What an event queue is for: waiters scheduled for cycles, woken when the clock gets there. */
module EventSchedule {

  /** Cycles are 64-bit words. */
  type Cycle = nat

  const CYCLES: nat := 0x1_0000_0000_0000_0000
  type Waiter = nat

  datatype Fault = NotInTheFuture | NotDetached

  /** The clock, and who waits for which cycle, in the order of arrival. */
  datatype Schedule = Schedule(clock: Cycle, waiting: map<Cycle, seq<Waiter>>)

  const EMPTY := Schedule(0, map[])

  function After(c: Cycle, delta: nat): Cycle {
    (c + delta) % CYCLES
  }

  /** The waiters on a list of any cycle. */
  ghost predicate IsWaiting(s: Schedule, w: Waiter) {
    exists c :: c in s.waiting && w in s.waiting[c]
  }

  /** `w` waits for cycle `c`, once, and for no other. */
  ghost predicate WaitsFor(s: Schedule, w: Waiter, c: Cycle) {
    && c in s.waiting && Once(s.waiting[c], w)
    && forall d :: d in s.waiting && w in s.waiting[d] ==> d == c
  }

  ghost predicate Once(ws: seq<Waiter>, w: Waiter) {
    w in ws && forall i, j :: 0 <= i < |ws| && 0 <= j < |ws| && ws[i] == w && ws[j] == w ==> i == j
  }

  /** Everything scheduled is in the future, no list is empty, and nobody waits twice. */
  ghost predicate Valid(s: Schedule) {
    && s.clock < CYCLES
    && (forall c :: c in s.waiting ==> s.clock < c < CYCLES && s.waiting[c] != [])
    && (forall c, w :: c in s.waiting && w in s.waiting[c] ==> WaitsFor(s, w, c))
  }

  // ---------------------------------------------------------------- the operations on values

  datatype Op = Insert(w: Waiter, c: Cycle) | Tick | Clear

  ghost predicate Accepts(s: Schedule, w: Waiter, c: Cycle) {
    s.clock < c < CYCLES && !IsWaiting(s, w)
  }

  function Put(s: Schedule, w: Waiter, c: Cycle): Schedule {
    s.(waiting := s.waiting[c := (if c in s.waiting then s.waiting[c] else []) + [w]])
  }

  /** Who is woken by the next tick. */
  function Due(s: Schedule): seq<Waiter> {
    var now := After(s.clock, 1);
    if now in s.waiting then s.waiting[now] else []
  }

  function Ticked(s: Schedule): Schedule {
    var now := After(s.clock, 1);
    Schedule(now, s.waiting - {now})
  }

  ghost function Apply(s: Schedule, op: Op): Schedule {
    match op
    case Insert(w, c) => if Accepts(s, w, c) then Put(s, w, c) else s
    case Tick => Ticked(s)
    case Clear => s.(waiting := map[])
  }

  ghost function Run(s: Schedule, ops: seq<Op>): Schedule {
    if ops == [] then s else Apply(Run(s, ops[..|ops|-1]), ops[|ops|-1])
  }

  function Ticks(ops: seq<Op>): nat {
    if ops == [] then 0 else Ticks(ops[..|ops|-1]) + if ops[|ops|-1] == Tick then 1 else 0
  }

  /** Operation `k` wakes `w`. */
  ghost predicate Wakes(s: Schedule, ops: seq<Op>, k: nat, w: Waiter)
    requires k < |ops|
  {
    ops[k] == Tick && w in Due(Run(s, ops[..k]))
  }

  // ---------------------------------------------------------------- what every run keeps

  lemma PutKeeps(s: Schedule, w: Waiter, c: Cycle)
    requires Valid(s) && Accepts(s, w, c)
    ensures Valid(Put(s, w, c)) && WaitsFor(Put(s, w, c), w, c)
  {
    var t := Put(s, w, c);
    assert WaitsFor(t, w, c) by {
      if c in s.waiting { assert w !in s.waiting[c]; }
    }
    forall d, v | d in t.waiting && v in t.waiting[d] ensures WaitsFor(t, v, d) {
      if v != w {
        assert d in s.waiting && v in s.waiting[d];
        assert WaitsFor(s, v, d);
        forall e | e in t.waiting && v in t.waiting[e] ensures e == d {
          assert e in s.waiting && v in s.waiting[e];
        }
      }
    }
  }

  lemma PutAdds(s: Schedule, w: Waiter, c: Cycle)
    ensures forall v :: IsWaiting(Put(s, w, c), v) <==> IsWaiting(s, v) || v == w
  {
    var t := Put(s, w, c);
    forall v ensures IsWaiting(t, v) <==> IsWaiting(s, v) || v == w {
      if d :| d in s.waiting && v in s.waiting[d] { assert d in t.waiting && v in t.waiting[d]; }
      assert c in t.waiting && w in t.waiting[c];
    }
  }

  lemma NobodyWaits(s: Schedule)
    requires s.waiting == map[]
    ensures forall w :: !IsWaiting(s, w)
  {
  }

  lemma OnceInBoth(a: seq<Waiter>, b: seq<Waiter>)
    requires (forall w :: w in a ==> Once(a, w) && w !in b) && (forall w :: w in b ==> Once(b, w))
    ensures forall w :: w in a + b ==> Once(a + b, w)
  {
  }

  /** With one cycle's list gone, exactly those on it no longer wait. */
  lemma RemoveKeeps(s: Schedule, c: Cycle)
    requires Valid(s) && c in s.waiting
    ensures var t := s.(waiting := s.waiting - {c});
            Valid(t) && forall w :: IsWaiting(t, w) <==> IsWaiting(s, w) && w !in s.waiting[c]
    ensures forall w :: w in s.waiting[c] ==> IsWaiting(s, w) && Once(s.waiting[c], w)
  {
    var t := s.(waiting := s.waiting - {c});
    forall d, w | d in t.waiting && w in t.waiting[d] ensures WaitsFor(t, w, d) {
      assert WaitsFor(s, w, d);
    }
    forall w ensures IsWaiting(t, w) <==> IsWaiting(s, w) && w !in s.waiting[c] {
      if w in s.waiting[c] { assert WaitsFor(s, w, c); }
      if d :| d in s.waiting && w in s.waiting[d] && d != c { assert d in t.waiting && w in t.waiting[d]; }
    }
    forall w | w in s.waiting[c] ensures Once(s.waiting[c], w) {
      assert WaitsFor(s, w, c);
    }
  }

  /** The clock may move past a cycle nobody waits for. */
  lemma AdvanceKeeps(s: Schedule)
    requires Valid(s) && After(s.clock, 1) !in s.waiting
    ensures var t := s.(clock := After(s.clock, 1)); Valid(t) && forall w :: IsWaiting(t, w) <==> IsWaiting(s, w)
  {
    var t := s.(clock := After(s.clock, 1));
    forall c, w | c in t.waiting && w in t.waiting[c] ensures WaitsFor(t, w, c) {
      assert WaitsFor(s, w, c);
    }
  }

  lemma ApplyKeeps(s: Schedule, op: Op)
    requires Valid(s)
    ensures Valid(Apply(s, op))
  {
    match op
    case Insert(w, c) =>
      if Accepts(s, w, c) { PutKeeps(s, w, c); }
    case Tick =>
      var t := Ticked(s);
      forall c, w | c in t.waiting && w in t.waiting[c] ensures WaitsFor(t, w, c) {
        assert WaitsFor(s, w, c);
      }
    case Clear =>
  }

  lemma {:induction false} RunKeeps(s: Schedule, ops: seq<Op>)
    requires Valid(s)
    ensures Valid(Run(s, ops))
  {
    if ops != [] {
      RunKeeps(s, ops[..|ops|-1]);
      ApplyKeeps(Run(s, ops[..|ops|-1]), ops[|ops|-1]);
    }
  }

  /** In every run, clearings among it, the clock counts the ticks, in 64 bits. */
  lemma {:induction false} ClockCountsTicks(s: Schedule, ops: seq<Op>)
    requires s.clock < CYCLES
    ensures Run(s, ops).clock == (s.clock + Ticks(ops)) % CYCLES
  {
    if ops != [] {
      ClockCountsTicks(s, ops[..|ops|-1]);
      var n := s.clock + Ticks(ops[..|ops|-1]);
      assert (n % CYCLES + 1) % CYCLES == (n + 1) % CYCLES;
    }
  }

  /** One operation that is no clearing leaves a waiter where it is, unless it is the tick to its cycle. */
  lemma StaysUntilDue(s: Schedule, op: Op, w: Waiter, c: Cycle)
    requires Valid(s) && WaitsFor(s, w, c) && op != Clear
    ensures op == Tick && After(s.clock, 1) == c ==> Once(Due(s), w) && !IsWaiting(Apply(s, op), w)
    ensures !(op == Tick && After(s.clock, 1) == c) ==>
              WaitsFor(Apply(s, op), w, c) && (op == Tick ==> w !in Due(s) && Apply(s, op).clock == s.clock + 1)
  {
    match op
    case Insert(v, d) =>
      if Accepts(s, v, d) {
        assert v != w;
        var t := Put(s, v, d);
        if d == c {
          assert t.waiting[c] == s.waiting[c] + [v];
        }
        forall e | e in t.waiting && w in t.waiting[e] ensures e == c {
          assert e in s.waiting && w in s.waiting[e];
        }
      }
    case Tick =>
  }

  /**
   * A waiter waiting for cycle `c` is woken by exactly the tick that brings the clock to `c`, once, and by none before,
   * whatever else is inserted meanwhile, as long as nothing clears the queue.
   */
  lemma {:induction false} WokenExactlyWhenDue(s: Schedule, ops: seq<Op>, w: Waiter, c: Cycle)
    requires Valid(s) && WaitsFor(s, w, c) && Clear !in ops && s.clock + Ticks(ops) <= c
    requires s.clock + Ticks(ops) == c ==> ops[|ops|-1] == Tick
    ensures Run(s, ops).clock == s.clock + Ticks(ops)
    ensures forall k | 0 <= k < |ops| :: Wakes(s, ops, k, w) <==> k == |ops| - 1 && s.clock + Ticks(ops) == c
    ensures s.clock + Ticks(ops) == c ==> Once(Due(Run(s, ops[..|ops|-1])), w) && !IsWaiting(Run(s, ops), w)
    ensures s.clock + Ticks(ops) < c ==> WaitsFor(Run(s, ops), w, c)
  {
    if ops != [] {
      var before, op := ops[..|ops|-1], ops[|ops|-1];
      WokenExactlyWhenDue(s, before, w, c);
      RunKeeps(s, before);
      StaysUntilDue(Run(s, before), op, w, c);
      forall k | 0 <= k < |ops| - 1 ensures Wakes(s, ops, k, w) == Wakes(s, before, k, w) {
        assert ops[..k] == before[..k];
      }
    }
  }

  /**
   * A waiter inserted with a delay is woken by exactly the `delay`-th tick after that, whatever else is inserted before
   * or after, as long as nothing clears the queue and the clock does not run out.
   */
  lemma WokenAfterDelay(s: Schedule, w: Waiter, delay: nat, ops: seq<Op>)
    requires Valid(s) && !IsWaiting(s, w) && delay > 0 && s.clock + delay < CYCLES
    requires Clear !in ops && Ticks(ops) <= delay && (Ticks(ops) == delay ==> ops[|ops|-1] == Tick)
    ensures var t := Apply(s, Insert(w, After(s.clock, delay)));
            && WaitsFor(t, w, s.clock + delay)
            && (forall k | 0 <= k < |ops| :: Wakes(t, ops, k, w) <==> k == |ops| - 1 && Ticks(ops) == delay)
            && (Ticks(ops) < delay ==> WaitsFor(Run(t, ops), w, s.clock + delay))
  {
    hide Valid, WaitsFor, Wakes, Run, IsWaiting, Ticks;
    var c := s.clock + delay;
    assert After(s.clock, delay) == c;
    PutKeeps(s, w, c);
    WokenExactlyWhenDue(Put(s, w, c), ops, w, c);
  }

  /**
   * Conversely, whoever waits for a cycle was inserted for it: some accepted insertion in the run put it there, and
   * since then there was no clearing and it was not woken.
   */
  lemma {:induction false} OnlyInsertedAreWaiting(ops: seq<Op>, w: Waiter, c: Cycle) returns (k: nat)
    requires var s := Run(EMPTY, ops); c in s.waiting && w in s.waiting[c]
    ensures k < |ops| && ops[k] == Insert(w, c) && Accepts(Run(EMPTY, ops[..k]), w, c)
    ensures forall j | k < j < |ops| :: ops[j] != Clear && !Wakes(EMPTY, ops, j, w)
  {
    assert ops != [];
    var before, op := ops[..|ops|-1], ops[|ops|-1];
    var s := Run(EMPTY, before);
    assert Valid(EMPTY);
    RunKeeps(EMPTY, before);
    if op == Insert(w, c) && Accepts(s, w, c) {
      k := |ops| - 1;
    } else {
      assert c in s.waiting && w in s.waiting[c];
      k := OnlyInsertedAreWaiting(before, w, c);
      assert ops[..k] == before[..k];
      assert WaitsFor(s, w, c);
      forall j | k < j < |ops| ensures ops[j] != Clear && !Wakes(EMPTY, ops, j, w) {
        if j < |ops| - 1 {
          assert ops[..j] == before[..j] && ops[j] == before[j] && !Wakes(EMPTY, before, j, w);
        }
      }
    }
  }

  /** Whoever a tick wakes was inserted for the very cycle it brings the clock to, with no clearing or wake-up since. */
  lemma WokenWereInserted(ops: seq<Op>, k: nat, w: Waiter) returns (i: nat)
    requires k < |ops| && Wakes(EMPTY, ops, k, w)
    ensures i < k && ops[i] == Insert(w, Run(EMPTY, ops[..k+1]).clock)
            && Accepts(Run(EMPTY, ops[..i]), w, Run(EMPTY, ops[..k+1]).clock)
    ensures forall j | i < j < k :: ops[j] != Clear && !Wakes(EMPTY, ops, j, w)
  {
    var before := ops[..k];
    assert ops[..k+1][..k] == before;
    i := OnlyInsertedAreWaiting(before, w, Run(EMPTY, ops[..k+1]).clock);
    assert ops[..i] == before[..i];
    forall j | i < j < k ensures ops[j] != Clear && !Wakes(EMPTY, ops, j, w) {
      assert ops[..j] == before[..j] && ops[j] == before[j] && !Wakes(EMPTY, before, j, w);
    }
  }

  // ---------------------------------------------------------------- in order of arrival

  /** Until its cycle comes, a list only grows, and at its end, as long as nothing clears the queue. */
  lemma {:induction false} ListGrows(s: Schedule, ops: seq<Op>, c: Cycle)
    requires Valid(s) && c in s.waiting && Clear !in ops && s.clock + Ticks(ops) < c
    ensures var t := Run(s, ops); t.clock == s.clock + Ticks(ops) && c in t.waiting && s.waiting[c] <= t.waiting[c]
  {
    if ops != [] {
      var before, op := ops[..|ops|-1], ops[|ops|-1];
      ListGrows(s, before, c);
      RunKeeps(s, before);
      assert op != Clear;
    }
  }

  /** Who waits for a cycle already when somebody else is inserted for it is woken first. */
  lemma WokenInOrder(s: Schedule, v: Waiter, w: Waiter, c: Cycle, ops: seq<Op>) returns (i: nat, j: nat)
    requires Valid(s) && c in s.waiting && v in s.waiting[c] && Accepts(s, w, c)
    requires Clear !in ops && s.clock + Ticks(ops) + 1 == c
    ensures var t := Run(Apply(s, Insert(w, c)), ops);
            && i < j < |Due(t)| && Due(t)[i] == v && Due(t)[j] == w
            && (forall k | 0 <= k < |Due(t)| :: (Due(t)[k] == v ==> k == i) && (Due(t)[k] == w ==> k == j))
  {
    var u := Put(s, w, c);
    PutKeeps(s, w, c);
    ListGrows(u, ops, c);
    RunKeeps(u, ops);
    i :| 0 <= i < |s.waiting[c]| && s.waiting[c][i] == v;
    j := |s.waiting[c]|;
    var t := Run(u, ops);
    assert t.waiting[c][j] == u.waiting[c][j] && t.waiting[c][i] == u.waiting[c][i];
    assert Due(t) == t.waiting[c] && WaitsFor(t, v, c) && WaitsFor(t, w, c);
  }
}
