/** When data passes the buses: each burst a fixed time after its command, and so in the order of the commands. */
module DramLatency {
  import opened Outcomes
  import opened DramTypes

  // ---------------------------------------------------------------- a delay line and its bus

  /** Bursts that wait, how long each still does, the burst on the bus, and how long that still takes. */
  datatype Pipe = Pipe(waiting: seq<Packet>, countdown: seq<nat>, bus: Option<Packet>, left: nat)

  /** One cycle: the bus, then the counters, then the burst whose time has come. */
  function StepPipe(p: Pipe, gap: nat): (r: (Pipe, Option<Packet>))
    requires |p.waiting| == |p.countdown|
    ensures |r.0.waiting| == |r.0.countdown|
  {
    var left := Dec(p.left);
    var done := if left == 0 then p.bus else None;
    var bus := if p.bus.None? || left == 0 then None else p.bus;
    var w := DecAll(p.countdown);
    if |w| > 0 && w[0] == 0 then (Pipe(p.waiting[1..], w[1..], Some(p.waiting[0]), gap), done)
    else (Pipe(p.waiting, w, bus, if p.bus.Some? then left else p.left), done)
  }

  /** A burst gets in line. */
  function PutIn(p: Pipe, e: Option<Packet>, latency: nat): Pipe {
    if e.None? then p else p.(waiting := p.waiting + [e.value], countdown := p.countdown + [latency])
  }

  /** The cycles from `lo` on in which a burst got in line. */
  function Times(h: seq<Option<Packet>>, lo: int): (ts: seq<nat>)
    ensures forall i :: 0 <= i < |ts| ==> lo <= ts[i] < |h| && h[ts[i]].Some?
  {
    if h == [] then [] else
    var t := |h| - 1;
    var before := Times(h[..t], lo);
    if lo <= t && h[t].Some? then before + [t] else before
  }

  /** The waiting bursts are those that got in line in the cycles `ts`. */
  predicate InLine(p: Pipe, h: seq<Option<Packet>>, ts: seq<nat>, last: int) {
    && |p.waiting| == |p.countdown| == |ts|
    && forall i :: 0 <= i < |ts| ==> ts[i] < |h| && h[ts[i]] == Some(p.waiting[i]) && p.countdown[i] == ts[i] + last
  }

  /** With `h[t]` put in line in cycle `t`, for `latency` cycles, and `gap` cycles on the bus. */
  ghost predicate Carries(p: Pipe, h: seq<Option<Packet>>, latency: nat, gap: nat) {
    InLine(p, h, Times(h, |h| - latency), latency + 1 - |h|) && BusCarries(p, h, latency, gap)
  }

  ghost predicate BusCarries(p: Pipe, h: seq<Option<Packet>>, latency: nat, gap: nat) {
    && (forall t: nat :: OnTheBus(h, t, latency, gap) ==> p.bus == h[t] && p.left == latency + gap + 1 + t - |h|)
    && (p.bus.Some? ==> exists t: nat :: OnTheBus(h, t, latency, gap))
  }

  predicate OnTheBus(h: seq<Option<Packet>>, t: nat, latency: nat, gap: nat) {
    |h| - latency - gap <= t < |h| - latency && h[t].Some?
  }

  predicate Apart(h: seq<Option<Packet>>, gap: nat) {
    forall t, u :: 0 <= t < u < |h| && h[t].Some? && h[u].Some? ==> t + gap <= u
  }

  /** What leaves the bus in the next cycle. */
  function Leaving(h: seq<Option<Packet>>, latency: nat, gap: nat): Option<Packet>
    requires latency + gap >= 1
  {
    if |h| < latency + gap then None else h[|h| - latency - gap]
  }

  lemma {:induction false} TimesRaise(h: seq<Option<Packet>>, lo: int)
    ensures Times(h, lo) == (if 0 <= lo < |h| && h[lo].Some? then [lo as nat] else []) + Times(h, lo + 1)
  {
    if h != [] {
      TimesRaise(h[..|h|-1], lo);
    }
  }

  lemma TimesAppend(h: seq<Option<Packet>>, e: Option<Packet>, lo: int)
    requires lo <= |h|
    ensures Times(h + [e], lo) == Times(h, lo) + if e.Some? then [|h|] else []
  {
    assert (h + [e])[..|h|] == h;
  }

  /** The first burst has waited long enough. */
  lemma FirstLeaves(p: Pipe, h: seq<Option<Packet>>, lo: nat, later: seq<nat>, last: int, gap: nat)
    requires InLine(p, h, [lo] + later, last) && last == 1 - lo && forall i :: 0 <= i < |later| ==> later[i] > lo
    ensures InLine(StepPipe(p, gap).0, h, later, last - 1)
  {
    var ts := [lo] + later;
    var q := StepPipe(p, gap).0;
    assert p.countdown[0] == ts[0] + last;
    forall i | 0 <= i < |later| ensures later[i] < |h| && q.countdown[i] == later[i] + last - 1 {
      assert ts[i+1] == later[i] && p.countdown[i+1] == ts[i+1] + last;
    }
    forall i | 0 <= i < |later| ensures h[later[i]] == Some(q.waiting[i]) {
      assert ts[i+1] == later[i] && q.waiting[i] == p.waiting[i+1];
    }
  }

  /** No burst has. */
  lemma NoneLeaves(p: Pipe, h: seq<Option<Packet>>, ts: seq<nat>, last: int, gap: nat)
    requires InLine(p, h, ts, last) && forall i :: 0 <= i < |ts| ==> ts[i] + last > 1
    ensures InLine(StepPipe(p, gap).0, h, ts, last - 1)
  {
    var q := StepPipe(p, gap).0;
    assert |p.countdown| > 0 ==> p.countdown[0] == ts[0] + last;
    assert q.waiting == p.waiting && q.countdown == DecAll(p.countdown);
  }

  lemma LineSteps(p: Pipe, h: seq<Option<Packet>>, latency: nat, gap: nat)
    requires latency >= 1 && InLine(p, h, Times(h, |h| - latency), latency + 1 - |h|)
    ensures InLine(StepPipe(p, gap).0, h, Times(h, |h| - latency + 1), latency - |h|)
  {
    var lo := |h| - latency;
    var later := Times(h, lo + 1);
    TimesRaise(h, lo);
    hide InLine, StepPipe, Times;
    if 0 <= lo < |h| && h[lo].Some? {
      FirstLeaves(p, h, lo, later, latency + 1 - |h|, gap);
    } else {
      assert Times(h, lo) == later;
      NoneLeaves(p, h, later, latency + 1 - |h|, gap);
    }
  }

  lemma PutInLine(q: Pipe, h: seq<Option<Packet>>, e: Option<Packet>, latency: nat)
    requires latency >= 1 && InLine(q, h, Times(h, |h| - latency + 1), latency - |h|)
    ensures InLine(PutIn(q, e, latency), h + [e], Times(h + [e], |h| + 1 - latency), latency - |h|)
  {
    TimesAppend(h, e, |h| - latency + 1);
  }

  /** One cycle keeps the line in step with its history, and hands out what got in line latency + gap cycles ago. */
  lemma StepCarries(p: Pipe, h: seq<Option<Packet>>, e: Option<Packet>, latency: nat, gap: nat)
    requires latency >= 1 && gap >= 1 && Carries(p, h, latency, gap) && Apart(h, gap)
    ensures var (q, done) := StepPipe(p, gap);
            Carries(PutIn(q, e, latency), h + [e], latency, gap) && done == Leaving(h, latency, gap)
  {
    assert |p.waiting| == |p.countdown|;
    hide StepPipe, InLine, Times, BusCarries, PutIn, Apart, Leaving;
    BusSteps(p, h, e, latency, gap);
    LineSteps(p, h, latency, gap);
    PutInLine(StepPipe(p, gap).0, h, e, latency);
  }

  /** The first burst is due exactly if it got in line `latency` cycles ago. */
  lemma FirstIsDue(p: Pipe, h: seq<Option<Packet>>, latency: nat)
    requires latency >= 1 && InLine(p, h, Times(h, |h| - latency), latency + 1 - |h|)
    ensures var lo, w := |h| - latency, DecAll(p.countdown);
            if 0 <= lo && h[lo].Some? then |w| > 0 && w[0] == 0 && Some(p.waiting[0]) == h[lo]
            else |w| > 0 ==> w[0] != 0
  {
    TimesRaise(h, |h| - latency);
    var later := Times(h, |h| - latency + 1);
    hide Times;
    if |p.countdown| > 0 && !(0 <= |h| - latency && h[|h|-latency].Some?) {
      assert Times(h, |h| - latency) == later;
    }
  }

  lemma BusSteps(p: Pipe, h: seq<Option<Packet>>, e: Option<Packet>, latency: nat, gap: nat)
    requires latency >= 1 && gap >= 1 && Carries(p, h, latency, gap) && Apart(h, gap)
    ensures var (q, done) := StepPipe(p, gap);
            done == Leaving(h, latency, gap) && BusCarries(PutIn(q, e, latency), h + [e], latency, gap)
  {
    var lo := |h| - latency;
    FirstIsDue(p, h, latency);
    hide Times, InLine;
    var (q, done) := StepPipe(p, gap);
    var h' := h + [e];
    forall t: nat | OnTheBus(h', t, latency, gap) ensures q.bus == h'[t] && q.left == latency + gap + t - |h| {
      if t < lo {
        assert OnTheBus(h, t, latency, gap);
      }
    }
    if p.bus.Some? {
      var t: nat :| OnTheBus(h, t, latency, gap);
      assert t == lo - gap || OnTheBus(h', t, latency, gap);
    }
    if 0 <= lo - gap && h[lo-gap].Some? {
      assert OnTheBus(h, lo - gap, latency, gap);
    }
    if 0 <= lo && h[lo].Some? {
      assert OnTheBus(h', lo, latency, gap);
    }
  }

  // ---------------------------------------------------------------- in order

  function AsList(e: Option<Packet>): seq<Packet> {
    if e.None? then [] else [e.value]
  }

  /** The bursts in a line, from the one on the bus to the last one that waits. */
  function Bursts(p: Pipe): seq<Packet> {
    AsList(p.bus) + p.waiting
  }

  /** The bus is free when the next burst is due. */
  predicate BusIsFree(p: Pipe) {
    |p.countdown| > 0 && Dec(p.countdown[0]) == 0 && p.bus.Some? ==> Dec(p.left) == 0
  }

  lemma CarriesFreely(p: Pipe, h: seq<Option<Packet>>, latency: nat, gap: nat)
    requires latency >= 1 && gap >= 1 && Carries(p, h, latency, gap) && Apart(h, gap)
    ensures |p.waiting| == |p.countdown| && BusIsFree(p)
  {
    var lo := |h| - latency;
    var ts := Times(h, lo);
    hide Times;
    if |p.countdown| > 0 && Dec(p.countdown[0]) == 0 && p.bus.Some? {
      assert ts[0] == lo;
      var t: nat :| OnTheBus(h, t, latency, gap);
    }
  }

  /** No burst overtakes another one, none is lost, and none is made up. */
  lemma StepIsFifo(p: Pipe, e: Option<Packet>, latency: nat, gap: nat)
    requires |p.waiting| == |p.countdown| && BusIsFree(p)
    ensures var (q, done) := StepPipe(p, gap);
            Bursts(p) + AsList(e) == AsList(done) + Bursts(PutIn(q, e, latency))
  {
    var (q, done) := StepPipe(p, gap);
    if |p.countdown| > 0 && Dec(p.countdown[0]) == 0 {
      assert p.waiting == [p.waiting[0]] + p.waiting[1..];
      assert q.waiting == p.waiting[1..];
    } else {
      assert q.waiting == p.waiting;
    }
  }
}
