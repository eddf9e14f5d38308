/** The event queue itself: a sorted, doubly linked list of events, each with the waiters of one cycle. */
module EventQueue {
  import opened Outcomes
  import opened EventSchedule

  class Event {
    var prevEvent: Event?
    var nextEvent: Event?
    var cycle: Cycle
    var waiters: seq<Waiter>

    constructor (cycle: Cycle, w: Waiter)
      ensures this.cycle == cycle && waiters == [w]
    {
      this.cycle, waiters := cycle, [w];
      prevEvent, nextEvent := null, null;
    }
  }

  // ---------------------------------------------------------------- sorted lists of entries as maps

  datatype Entry = Entry(cycle: Cycle, waiters: seq<Waiter>)

  /** Strictly increasing, and entirely after the current cycle. */
  ghost predicate Sorted(now: Cycle, es: seq<Entry>) {
    && (forall i :: 0 <= i < |es| ==> es[i].cycle > now)
    && (forall i, j :: 0 <= i < j < |es| ==> es[i].cycle < es[j].cycle)
  }

  /** The map from cycles to waiters that a list of entries stands for. */
  ghost function AsMap(es: seq<Entry>): map<Cycle, seq<Waiter>> {
    if es == [] then map[] else AsMap(es[..|es|-1])[es[|es|-1].cycle := es[|es|-1].waiters]
  }

  ghost predicate Has(es: seq<Entry>, c: Cycle) {
    exists i :: 0 <= i < |es| && es[i].cycle == c
  }

  lemma AsMapAppend(es: seq<Entry>, e: Entry)
    ensures AsMap(es + [e]) == AsMap(es)[e.cycle := e.waiters]
  {
    assert (es + [e])[..|es|] == es;
  }

  lemma HasPrefix(es: seq<Entry>, e: Entry, c: Cycle)
    requires !Has(es + [e], c)
    ensures !Has(es, c) && e.cycle != c
  {
    assert forall i :: 0 <= i < |es| ==> es[i] == (es + [e])[i];
    assert (es + [e])[|es|].cycle != c;
  }

  /** An entry for a cycle that no later entry has decides what the map says about it, and about nothing else. */
  lemma {:induction false} EntryDecides(a: seq<Entry>, e: Entry, b: seq<Entry>)
    requires !Has(b, e.cycle)
    ensures AsMap(a + [e] + b) == AsMap(a + b)[e.cycle := e.waiters]
  {
    hide AsMap, Has;
    if b == [] {
      AsMapAppend(a, e);
      assert a + [e] + b == a + [e] && a + b == a;
    } else {
      var init, last := b[..|b|-1], b[|b|-1];
      assert b == init + [last];
      HasPrefix(init, last, e.cycle);
      EntryDecides(a, e, init);
      AsMapAppend(a + [e] + init, last);
      AsMapAppend(a + init, last);
      assert a + [e] + b == a + [e] + init + [last] && a + b == a + init + [last];
    }
  }

  lemma {:induction false} Absent(es: seq<Entry>, c: Cycle)
    requires !Has(es, c)
    ensures c !in AsMap(es)
  {
    if es != [] {
      var init := es[..|es|-1];
      assert es == init + [es[|es|-1]];
      HasPrefix(init, es[|es|-1], c);
      Absent(init, c);
    }
  }

  lemma StaysSorted(now: Cycle, es: seq<Entry>, n: nat, e: Entry)
    requires Sorted(now, es) && n <= |es| && e.cycle > now && (n > 0 ==> es[n-1].cycle < e.cycle)
             && (n < |es| ==> e.cycle < es[n].cycle)
    ensures Sorted(now, Inserted(es, n, e)) && !Has(es, e.cycle) && !Has(es[n..], e.cycle)
  {
    assert forall i :: 0 <= i < n ==> es[i].cycle < e.cycle;
    assert forall i :: n <= i < |es| ==> e.cycle < es[i].cycle;
  }

  /** A new entry at its place in the order. */
  lemma InsertEntry(now: Cycle, es: seq<Entry>, n: nat, c: Cycle, w: Waiter)
    requires Sorted(now, es) && n <= |es| && c > now && (n > 0 ==> es[n-1].cycle < c) && (n < |es| ==> c < es[n].cycle)
    ensures var t := Inserted(es, n, Entry(c, [w]));
            Sorted(now, t) && Schedule(now, AsMap(t)) == Put(Schedule(now, AsMap(es)), w, c)
  {
    hide AsMap, Sorted, Has;
    StaysSorted(now, es, n, Entry(c, [w]));
    EntryDecides(es[..n], Entry(c, [w]), es[n..]);
    assert es[..n] + es[n..] == es;
    Absent(es, c);
    assert [] + [w] == [w];
  }

  /** One more waiter on an entry. */
  lemma AppendToEntry(now: Cycle, es: seq<Entry>, k: nat, w: Waiter)
    requires Sorted(now, es) && k < |es|
    ensures var t := es[k := Entry(es[k].cycle, es[k].waiters + [w])];
            Sorted(now, t) && Schedule(now, AsMap(t)) == Put(Schedule(now, AsMap(es)), w, es[k].cycle)
  {
    hide AsMap;
    var c := es[k].cycle;
    var e := Entry(c, es[k].waiters + [w]);
    assert es == es[..k] + [es[k]] + es[k+1..] && es[k := e] == es[..k] + [e] + es[k+1..];
    EntryDecides(es[..k], es[k], es[k+1..]);
    EntryDecides(es[..k], e, es[k+1..]);
  }

  /** The list without its first entry. */
  lemma RemoveFirst(now: Cycle, es: seq<Entry>)
    requires Sorted(now, es) && es != []
    ensures Sorted(es[0].cycle, es[1..])
    ensures AsMap(es) == AsMap(es[1..])[es[0].cycle := es[0].waiters] && AsMap(es[1..]) == AsMap(es) - {es[0].cycle}
  {
    hide AsMap;
    assert es == [] + [es[0]] + es[1..] && es[1..] == [] + es[1..];
    EntryDecides([], es[0], es[1..]);
    Absent(es[1..], es[0].cycle);
  }

  /** Before the first entry there is nothing. */
  lemma NothingBefore(now: Cycle, es: seq<Entry>, c: Cycle)
    requires Sorted(now, es) && (es != [] ==> c < es[0].cycle)
    ensures c !in AsMap(es)
  {
    Absent(es, c);
  }

  /** `x` put in front of position `n`. */
  ghost function Inserted<T>(s: seq<T>, n: nat, x: T): (t: seq<T>)
    requires n <= |s|
    ensures |t| == |s| + 1
    ensures forall i :: 0 <= i < |t| ==> t[i] == if i < n then s[i] else if i == n then x else s[i-1]
  {
    s[..n] + [x] + s[n..]
  }

  class EventsQueue {
    var head: Event?
    var tail: Event?
    var currentCycle: Cycle
    /** The waiters that are on a list; each of them tells this from its own links. */
    var attached: set<Waiter>
    ghost var events: seq<Event>
    ghost var entries: seq<Entry>

    /** The two chains of pointers visit `events`, forwards and backwards. */
    ghost predicate Linked()
      reads this`head, this`tail, this`events, events
    {
      && head == (if events == [] then null else events[0])
      && tail == (if events == [] then null else events[|events|-1])
      && (events != [] ==> events[0].prevEvent == null && events[|events|-1].nextEvent == null)
      && (forall i, j :: 0 <= i && i + 1 == j < |events| ==>
            events[i].nextEvent == events[j] && events[j].prevEvent == events[i])
    }

    /** No event is on the list twice. */
    ghost predicate Distinct()
      reads this`events
    {
      forall i, j :: 0 <= i < j < |events| ==> events[i] != events[j]
    }

    /** The events hold the entries. */
    ghost predicate Stored()
      reads this, events
    {
      |entries| == |events| && forall i :: 0 <= i < |events| ==> entries[i] == Entry(events[i].cycle, events[i].waiters)
    }

    ghost predicate Valid()
      reads this, events
    {
      && Linked() && Stored() && Sorted(currentCycle, entries)
      && EventSchedule.Valid(View()) && (forall w :: w in attached <==> IsWaiting(View(), w))
    }

    ghost function View(): Schedule
      reads this
    {
      Schedule(currentCycle, AsMap(entries))
    }

    constructor ()
      ensures Valid() && View() == EMPTY
    {
      head, tail, currentCycle, attached, events, entries := null, null, 0, {}, [], [];
    }

    /** Put `w` on the list of the cycle `delta` cycles from now, in 64 bits. */
    method Insert(w: Waiter, delta: nat) returns (o: Outcome<Fault>)
      requires Valid()
      modifies this, events
      ensures Valid() && forall e :: e in events ==> e in old(events) || fresh(e)
      ensures currentCycle == old(currentCycle)
      ensures var c := (old(currentCycle) + delta) % 0x1_0000_0000_0000_0000;
              && (o.Pass? <==> c > old(currentCycle) && !old(IsWaiting(View(), w)))
              && (o.Pass? ==> WaitsFor(View(), w, c))
      ensures old(currentCycle) + delta < 0x1_0000_0000_0000_0000 ==>
                && (o.Pass? <==> delta > 0 && !old(IsWaiting(View(), w)))
                && (o.Pass? ==> WaitsFor(View(), w, old(currentCycle) + delta))
      ensures o.Pass? <==> Accepts(old(View()), w, After(old(currentCycle), delta))
      ensures View() == Apply(old(View()), Op.Insert(w, After(old(currentCycle), delta)))
    {
      hide AsMap, EventSchedule.Valid, WaitsFor;
      if After(currentCycle, delta) > currentCycle && w !in attached {
        PutKeeps(View(), w, After(currentCycle, delta));
      }
      o := InsertAbsolute(w, After(currentCycle, delta));
    }

    /** Put `w` on the list of cycle `c`, searching from the far end. */
    method InsertAbsolute(w: Waiter, c: Cycle) returns (o: Outcome<Fault>)
      requires Valid() && c < CYCLES
      modifies this, events
      ensures Valid() && forall e :: e in events ==> e in old(events) || fresh(e)
      ensures o == if c <= old(currentCycle) then Fail(NotInTheFuture)
              else if IsWaiting(old(View()), w) then Fail(NotDetached) else Pass
      ensures View() == Apply(old(View()), Op.Insert(w, c))
    {
      hide AsMap, EventSchedule.Valid, IsWaiting;
      if c <= currentCycle {
        return Fail(NotInTheFuture);
      }
      if w in attached {
        return Fail(NotDetached);
      }
      o := Pass;
      PutKeeps(View(), w, c);
      PutAdds(View(), w, c);
      InsertInOrder(w, c);
    }

    method InsertInOrder(w: Waiter, c: Cycle)
      requires Linked() && Stored() && Sorted(currentCycle, entries) && c > currentCycle
      modifies this`head, this`tail, this`attached, this`events, this`entries, events
      ensures Linked() && Stored() && Sorted(currentCycle, entries)
      ensures View() == Put(old(View()), w, c) && attached == old(attached) + {w}
      ensures forall e :: e in events ==> e in old(events) || fresh(e)
    {
      hide AsMap, Put;
      attached := attached + {w};
      var trav := tail;
      ghost var n: nat := |events|;
      while trav != null && trav.cycle >= c
        invariant n <= |events| && trav == if n == 0 then null else events[n-1]
        invariant n < |events| ==> events[n].cycle > c
        decreases n
      {
        if trav.cycle == c {
          AppendToEntry(currentCycle, entries, n - 1, w);
          AppendWaiter(trav, w, n - 1);
          return;
        }
        trav := trav.prevEvent;
        n := n - 1;
      }
      InsertEntry(currentCycle, entries, n, c, w);
      AddEvent(trav, w, c, n);
    }

    /** One more waiter on an event that is there already. */
    method AppendWaiter(e: Event, w: Waiter, ghost k: nat)
      requires Linked() && Stored() && Distinct() && k < |events| && events[k] == e
      modifies this`entries, e`waiters
      ensures Linked() && Stored() && entries == old(entries[k := Entry(entries[k].cycle, entries[k].waiters + [w])])
    {
      e.waiters := e.waiters + [w];
      entries := entries[k := Entry(entries[k].cycle, entries[k].waiters + [w])];
    }

    /** A new event for `w`. */
    method AddEvent(trav: Event?, w: Waiter, c: Cycle, ghost n: nat)
      requires Linked() && Stored() && Distinct() && n <= |events| && trav == if n == 0 then null else events[n-1]
      modifies this`head, this`tail, this`events, this`entries, events`prevEvent, events`nextEvent
      ensures Linked() && Stored() && entries == Inserted(old(entries), n, Entry(c, [w]))
      ensures forall e :: e in events ==> e in old(events) || fresh(e)
    {
      hide Linked;
      var newEvent := new Event(c, w);
      LinkAfter(trav, newEvent, n);
      entries := Inserted(entries, n, Entry(c, [w]));
    }

    /** Link a new event behind `trav`, or at the head if there is no `trav`. */
    method LinkAfter(trav: Event?, newEvent: Event, ghost n: nat)
      requires Linked() && Distinct() && n <= |events| && trav == if n == 0 then null else events[n-1]
      requires newEvent !in events
      modifies this`head, this`tail, this`events, events`prevEvent, events`nextEvent, newEvent`prevEvent,
               newEvent`nextEvent
      ensures Linked() && events == Inserted(old(events), n, newEvent)
    {
      ghost var before := events;
      assert 0 < n < |before| ==> before[n-1].nextEvent == before[n];
      newEvent.prevEvent := trav;
      if trav != null {
        newEvent.nextEvent := trav.nextEvent;
        trav.nextEvent := newEvent;
      } else {
        newEvent.nextEvent := head;
        head := newEvent;
      }
      assert newEvent.nextEvent == if n < |before| then before[n] else null;
      if newEvent.nextEvent == null {
        tail := newEvent;
      } else {
        newEvent.nextEvent.prevEvent := newEvent;
      }
      events := Inserted(before, n, newEvent);
      forall i, j | 0 <= i && i + 1 == j < |events|
        ensures events[i].nextEvent == events[j] && events[j].prevEvent == events[i]
      {
        if j < n {
          assert events[i] == before[i] != before[n-1] && events[j] == before[j];
        } else if i > n {
          assert events[i] == before[i-1] && events[j] == before[j-1] != before[n];
        }
      }
    }

    /** Take the first event off the list. */
    method UnlinkHead() returns (e: Event)
      requires Linked() && Stored() && Distinct() && head != null
      modifies this`head, this`tail, this`events, this`entries, events`prevEvent
      ensures Linked() && Stored() && events == old(events)[1..]
      ensures entries == old(entries)[1..] && e.waiters == old(entries)[0].waiters
    {
      ghost var before := events;
      e := head;
      head := head.nextEvent;
      assert head == if |before| == 1 then null else before[1];
      if head != null {
        head.prevEvent := null;
      } else {
        tail := null;
      }
      events := before[1..];
      entries := entries[1..];
    }

    /** Take the first event off the list and detach its waiters. */
    method DetachFirst() returns (waiters: seq<Waiter>)
      requires Valid() && head != null
      modifies this, events
      ensures Valid() && events == old(events)[1..]
      ensures currentCycle == old(currentCycle) && old(entries) != [] && waiters == old(entries)[0].waiters
              && entries == old(entries)[1..]
    {
      hide AsMap, EventSchedule.Valid, IsWaiting;
      RemoveFirst(currentCycle, entries);
      RemoveKeeps(View(), entries[0].cycle);
      var temp := UnlinkHead();
      waiters := temp.waiters;
      attached := attached - set w | w in temp.waiters;
    }

    /** Advance the clock, and wake everyone waiting for the cycle it gets to. */
    method DoCycle() returns (woken: seq<Waiter>)
      requires Valid()
      modifies this, events
      ensures Valid() && forall e :: e in events ==> e in old(events)
      ensures woken == Due(old(View())) && View() == Ticked(old(View()))
    {
      hide AsMap, IsWaiting;
      ghost var s := View();
      ghost var now := After(currentCycle, 1);
      woken := [];
      if head != null {
        RemoveFirst(currentCycle, entries);
      }
      if head != null && head.cycle == After(currentCycle, 1) {
        woken := DetachFirst();
      } else {
        NothingBefore(s.clock, entries, now);
        assert s.waiting - {now} == s.waiting;
      }
      Advance();
    }

    /** The clock moves past a cycle that has no event any more. */
    method Advance()
      requires Valid() && (entries == [] || entries[0].cycle > currentCycle + 1)
      modifies this`currentCycle
      ensures Valid() && View() == old(View()).(clock := After(old(currentCycle), 1))
    {
      hide AsMap, IsWaiting;
      if entries == [] {
        AsMapEmpty();
      } else {
        RemoveFirst(currentCycle, entries);
        NothingBefore(currentCycle, entries, currentCycle + 1);
      }
      AdvanceKeeps(View());
      currentCycle := After(currentCycle, 1);
    }

    /** Take every waiter off its list without waking it. */
    method Clear() returns (released: seq<Waiter>)
      requires Valid()
      modifies this, events
      ensures Valid() && events == [] && View() == Apply(old(View()), Op.Clear) && currentCycle == old(currentCycle)
      ensures forall w :: w in released <==> IsWaiting(old(View()), w)
      ensures forall w :: w in released ==> Once(released, w)
    {
      hide AsMap, EventSchedule.Valid, IsWaiting, Once;
      ghost var s, before := View(), events;
      released := [];
      while head != null
        invariant Valid() && currentCycle == s.clock && |events| <= |before| && events == before[|before|-|events|..]
        invariant forall w :: w in released || IsWaiting(View(), w) <==> IsWaiting(s, w)
        invariant forall w :: w in released ==> Once(released, w) && !IsWaiting(View(), w)
        decreases |entries|
      {
        RemoveFirst(currentCycle, entries);
        RemoveKeeps(View(), entries[0].cycle);
        var waiters := DetachFirst();
        OnceInBoth(released, waiters);
        released := released + waiters;
      }
      AsMapEmpty();
      NobodyWaits(View());
    }
  }

  lemma AsMapEmpty()
    ensures AsMap([]) == map[]
  {
  }
}
