/** The controller's bank table as a function of what was sent before: what a bank waits for, and exactly how long. */
module DramTimes {
  import opened Outcomes
  import opened DramTypes
  import opened DramControl
  import opened DramTiming

  datatype Wait = ToActivate | ToRead | ToWrite | ToPrecharge

  function Earliest(b: BankState, w: Wait): int {
    match w
    case ToActivate => b.nextActivate
    case ToRead => b.nextRead
    case ToWrite => b.nextWrite
    case ToPrecharge => b.nextPrecharge
  }

  /**
   * How many cycles after `p` bank `b` of rank `r` has to wait. A command to another rank counts only for a bank that
   * was open when it was sent, because the two share the data bus.
   */
  function Gap(c: Config, p: Packet, r: nat, b: nat, open: bool, w: Wait): Option<int> {
    var rank := p.rank == r;
    var bank := rank && p.bank == b;
    match w
    case ToActivate =>
      (match p.kind
       case Activate => if bank then Some(c.tRC) else if rank then Some(c.tRRD) else None
       case ReadP => if bank then Some(c.al + c.tRTP + c.tRP) else None
       case WriteP => if bank then Some(c.cl + c.al - 1 + c.bl / 2 + c.tWR + c.tRP) else None
       case Precharge => if bank then Some(c.tRP) else None
       case Refresh => if rank then Some(c.tRFC) else None
       case _ => None)
    case ToRead =>
      if p.kind == Activate then (if bank then Some(c.tRCD - c.al) else None)
      else if IsRead(p.kind) then
        if rank then Some(Max(c.tCCD, c.bl / 2)) else if open then Some(c.bl / 2 + c.tRTRS) else None
      else if IsWrite(p.kind) then
        if rank then Some(c.cl + c.al - 1 + c.bl / 2 + c.tWTR)
        else if open then Some(c.bl / 2 + c.tRTRS - 1) else None
      else None
    case ToWrite =>
      if p.kind == Activate then (if bank then Some(c.tRCD - c.al) else None)
      else if IsRead(p.kind) then (if rank || open then Some(c.bl / 2 + c.tRTRS + 1) else None)
      else if IsWrite(p.kind) then
        if rank then Some(Max(c.tCCD, c.bl / 2)) else if open then Some(c.bl / 2 + c.tRTRS) else None
      else None
    case ToPrecharge =>
      if !bank then None else
      match p.kind
      case Activate => Some(c.tRAS)
      case Read => Some(c.al + c.bl / 2 + Max(c.tRTP, 2) - 2)
      case Write => Some(c.cl + c.al - 1 + c.bl / 2 + c.tWR)
      case _ => None
  }

  predicate IsAuto(k: Kind) { k.ReadP? || k.WriteP? }

  predicate Closes(p: Packet, r: nat, b: nat) {
    p.rank == r && p.bank == b && IsAuto(p.kind)
  }

  /** When an auto-precharge sets in. */
  function AutoAfter(c: Config, k: Kind): int {
    if k == ReadP then c.al + c.bl / 2 + Max(c.tRTP, 2) - 2 else c.cl + c.al - 1 + c.bl / 2 + c.tWR
  }

  /** A bank's status, and how long it still lasts, `age` cycles after the last command that concerns the bank. */
  function Phase(c: Config, k: Kind, age: int): (Status, int) {
    match k
    case ReadP | WriteP =>
      var n := AutoAfter(c, k);
      if age < n then (RowActive, n - age) else if age < n + c.tRP then (Precharging, n + c.tRP - age) else (Idle, 0)
    case Precharge => if age < c.tRP then (Precharging, c.tRP - age) else (Idle, 0)
    case Refresh =>
      if age < c.tRFC then (Refreshing, c.tRFC - age) else if c.tRFC == 0 then (Refreshing, 0) else (Idle, 0)
    case _ => (RowActive, 0)
  }

  predicate Concerns(out: Option<Packet>, r: nat, b: nat) {
    && out.Some? && out.value.kind != Data
    && out.value.rank == r && (out.value.bank == b || out.value.kind == Refresh)
  }

  function Last(issued: seq<Option<Packet>>, r: nat, b: nat): (t: Option<nat>)
    ensures t.Some? ==> t.value < |issued| && Concerns(issued[t.value], r, b)
    ensures t.Some? ==> forall u :: t.value < u < |issued| ==> !Concerns(issued[u], r, b)
    ensures t.None? ==> forall u :: 0 <= u < |issued| ==> !Concerns(issued[u], r, b)
  {
    if issued == [] then None
    else if Concerns(issued[|issued|-1], r, b) then Some(|issued| - 1)
    else
      var t := Last(issued[..|issued|-1], r, b);
      assert forall u :: 0 <= u < |issued| - 1 ==> issued[u] == issued[..|issued|-1][u];
      t
  }

  /** The status of a bank in cycle `d`, if its rank is awake. */
  function StatusIn(c: Config, issued: seq<Option<Packet>>, r: nat, b: nat, d: int): Status {
    var t := Last(issued, r, b);
    if t.None? then Idle else Phase(c, issued[t.value].value.kind, d - t.value).0
  }

  /** The entry has the status, the row and the countdown that the last command gives it. */
  predicate PhaseOk(c: Config, m: BankState, issued: seq<Option<Packet>>, r: nat, b: nat, d: int) {
    var t := Last(issued, r, b);
    if t.None? then m.countdown == 0 && m.status in {Idle, PowerDown} else
    var p := issued[t.value].value;
    var (status, left) := Phase(c, p.kind, d - t.value);
    && m.countdown == left && (m.status == status || (m.status == PowerDown && status == Idle))
    && (left > 0 ==> m.lastCommand == if status == Precharging then Precharge else p.kind)
    && (status == RowActive ==> m.openRow == p.row)
  }

  lemma TickKeepsPhase(c: Config, m: BankState, issued: seq<Option<Packet>>, r: nat, b: nat, d: int)
    requires c.Valid() && PhaseOk(c, m, issued, r, b, d) && d >= |issued| - 1
    ensures PhaseOk(c, TickBank(c, m), issued, r, b, d + 1)
  {
    hide Last;
    var t := Last(issued, r, b);
    if t.Some? {
      PhaseGoesOn(c, issued[t.value].value.kind, d - t.value);
      hide Phase;
    }
  }

  lemma PhaseGoesOn(c: Config, k: Kind, age: int)
    requires c.Valid() && age >= 0
    ensures var ((status, left), (status', left')) := (Phase(c, k, age), Phase(c, k, age + 1));
            && left >= 0
            && (left != 1 ==> status' == status && left' == Max(left - 1, 0))
            && (left == 1 ==> status in {RowActive, Precharging, Refreshing})
            && (left == 1 && status == RowActive ==> IsAuto(k) && status' == Precharging && left' == c.tRP)
            && (left == 1 && status != RowActive ==> status' == Idle && left' == 0)
            && (left > 0 && status == Refreshing ==> k == Refresh)
            && (left > 0 && status == RowActive ==> IsAuto(k))
            && (left > 0 ==> status != Idle)
  {
  }

  /** The rank is awake and its times for a refresh have come. */
  predicate MayIssueNow(c: Config, banks: Table, p: Packet, now: int)
    requires TableShape(c, banks)
  {
    && MayIssue(c, banks, p, now)
    && (forall i :: 0 <= i < c.numBanks ==> banks[p.rank][i].status != PowerDown)
    && (p.kind == Refresh ==> forall i :: 0 <= i < c.numBanks ==> banks[p.rank][i].nextActivate <= now)
  }

  lemma LastAppend(issued: seq<Option<Packet>>, out: Option<Packet>, r: nat, b: nat)
    ensures Last(issued + [out], r, b) == if Concerns(out, r, b) then Some(|issued|) else Last(issued, r, b)
  {
    assert (issued + [out])[..|issued|] == issued;
  }

  lemma IssueKeepsPhase(c: Config, banks: Table, p: Packet, issued: seq<Option<Packet>>, r: nat, b: nat)
    requires c.Valid() && TableShape(c, banks) && r < c.numRanks && b < c.numBanks
    requires MayIssueNow(c, banks, p, |issued|) && Sane(c, banks[r][b], |issued|)
    requires PhaseOk(c, banks[r][b], issued, r, b, |issued|)
    ensures PhaseOk(c, IssueBank(c, banks[r][b], p, r, b, |issued|), issued + [Some(p)], r, b, |issued|)
  {
    LastAppend(issued, Some(p), r, b);
    hide Last;
  }

  /** Each command puts off exactly what it is at a distance from. */
  lemma IssuePutsOff(c: Config, banks: Table, p: Packet, r: nat, b: nat, now: int, w: Wait)
    requires c.Valid() && TableShape(c, banks) && r < c.numRanks && b < c.numBanks && MayIssueNow(c, banks, p, now)
    ensures var m, m' := banks[r][b], IssueBank(c, banks[r][b], p, r, b, now);
            var gap := Gap(c, p, r, b, m.status == RowActive, w);
            if Closes(p, r, b) && w in {ToRead, ToWrite} then Earliest(m', w) == m'.nextActivate
            else Earliest(m', w) == if gap.None? then Earliest(m, w) else Max(Earliest(m, w), now + gap.value)
  {
  }

  // ---------------------------------------------------------------- what is still to be waited for

  /** No auto-precharge closes the bank from cycle `t` on. */
  predicate NotClosedSince(issued: seq<Option<Packet>>, r: nat, b: nat, t: nat) {
    forall u :: t <= u < |issued| && issued[u].Some? ==> !Closes(issued[u].value, r, b)
  }

  /**
   * What was sent in cycle `t` keeps the bank waiting: waking the rank makes it forget what it waits for before an
   * ACTIVATE, and an auto-precharge what it waits for before a column command.
   */
  predicate HeldBy(c: Config, issued: seq<Option<Packet>>, wake: Option<int>, r: nat, b: nat, w: Wait, t: nat) {
    && t < |issued| && issued[t].Some?
    && (w == ToActivate && wake.Some? ==> t > wake.value)
    && (w in {ToRead, ToWrite} ==> NotClosedSince(issued, r, b, t))
    && GapAt(c, issued, r, b, w, t).Some?
  }

  function GapAt(c: Config, issued: seq<Option<Packet>>, r: nat, b: nat, w: Wait, t: nat): Option<int>
    requires t < |issued| && issued[t].Some?
  {
    Gap(c, issued[t].value, r, b, StatusIn(c, issued[..t], r, b, t) == RowActive, w)
  }

  /** Every command that holds the bank has been waited for. */
  ghost predicate Waited(c: Config, issued: seq<Option<Packet>>, wake: Option<int>, r: nat, b: nat, w: Wait, e: int) {
    && (forall t: nat :: HeldBy(c, issued, wake, r, b, w, t) ==> e >= t + GapAt(c, issued, r, b, w, t).value)
    && (w == ToActivate && wake.Some? ==> e >= wake.value + c.tXP)
  }

  /** Nothing is waited for that is not there. */
  ghost predicate NoLonger(c: Config, issued: seq<Option<Packet>>, wake: Option<int>, r: nat, b: nat, w: Wait, e: int) {
    || e <= 0
    || (exists t: nat :: HeldBy(c, issued, wake, r, b, w, t) && e == t + GapAt(c, issued, r, b, w, t).value)
    || (w == ToActivate && wake.Some? && e == wake.value + c.tXP)
  }

  ghost predicate TimeOk(c: Config, m: BankState, issued: seq<Option<Packet>>, wake: Option<int>, r: nat, b: nat,
                         w: Wait)
  {
    && Waited(c, issued, wake, r, b, w, Earliest(m, w))
    && ( || NoLonger(c, issued, wake, r, b, w, Earliest(m, w))
         || (w in {ToRead, ToWrite} && c.policy == ClosePage
             && (c.lowPower || (!IsOpenRow(issued, r, b) && Earliest(m, w) <= m.nextActivate))))
  }

  predicate IsOpenRow(issued: seq<Option<Packet>>, r: nat, b: nat) {
    var t := Last(issued, r, b);
    t.Some? && issued[t.value].value.kind in {Activate, Read, Write}
  }

  lemma StatusAppend(c: Config, issued: seq<Option<Packet>>, out: Option<Packet>, r: nat, b: nat, w: Wait, t: nat)
    requires t < |issued| && issued[t].Some?
    ensures (issued + [out])[t] == issued[t] && GapAt(c, issued + [out], r, b, w, t) == GapAt(c, issued, r, b, w, t)
  {
    assert (issued + [out])[..t] == issued[..t];
  }

  /** One more cycle: what held the bank before still does, unless the command makes it forget. */
  lemma HeldAppend(c: Config, issued: seq<Option<Packet>>, out: Option<Packet>, wake: Option<int>, r: nat, b: nat,
                   w: Wait, t: nat)
    requires wake.Some? ==> wake.value < |issued|
    ensures var forgets := w in {ToRead, ToWrite} && out.Some? && Closes(out.value, r, b);
            HeldBy(c, issued + [out], wake, r, b, w, t) <==>
              !forgets && (HeldBy(c, issued, wake, r, b, w, t)
                || (t == |issued| && out.Some?
                    && Gap(c, out.value, r, b, StatusIn(c, issued, r, b, t) == RowActive, w).Some?))
  {
    var all := issued + [out];
    assert forall u :: 0 <= u < |issued| ==> all[u] == issued[u];
    assert all[|issued|] == out;
    if t < |issued| {
      assert NotClosedSince(all, r, b, t) <==>
          NotClosedSince(issued, r, b, t) && !(out.Some? && Closes(out.value, r, b));
      if issued[t].Some? { StatusAppend(c, issued, out, r, b, w, t); }
    } else if t == |issued| {
      assert all[..t] == issued;
    }
    hide Gap, StatusIn, Closes;
  }

  function GapOf(c: Config, issued: seq<Option<Packet>>, out: Option<Packet>, r: nat, b: nat, w: Wait): Option<int> {
    if out.None? then None else Gap(c, out.value, r, b, StatusIn(c, issued, r, b, |issued|) == RowActive, w)
  }

  function Later(e: int, now: int, gap: Option<int>): int {
    if gap.None? then e else Max(e, now + gap.value)
  }

  /** Waiting for one more command, where the bank's time has become `e'`. */
  lemma WaitedAppend(c: Config, issued: seq<Option<Packet>>, out: Option<Packet>, wake: Option<int>, r: nat, b: nat,
                     w: Wait, e: int, e': int)
    requires wake.Some? ==> wake.value < |issued|
    requires Waited(c, issued, wake, r, b, w, e)
    requires out.Some? ==> !(w in {ToRead, ToWrite} && Closes(out.value, r, b))
    requires e' == Later(e, |issued|, GapOf(c, issued, out, r, b, w))
    ensures Waited(c, issued + [out], wake, r, b, w, e')
    ensures NoLonger(c, issued, wake, r, b, w, e) ==> NoLonger(c, issued + [out], wake, r, b, w, e')
    ensures GapOf(c, issued, out, r, b, w).Some? && e' == |issued| + GapOf(c, issued, out, r, b, w).value ==>
              NoLonger(c, issued + [out], wake, r, b, w, e')
  {
    var all := issued + [out];
    assert all[..|issued|] == issued;
    forall t: nat
      ensures HeldBy(c, all, wake, r, b, w, t) <==>
                || HeldBy(c, issued, wake, r, b, w, t)
                || (t == |issued| && out.Some?
                    && Gap(c, out.value, r, b, StatusIn(c, issued, r, b, t) == RowActive, w).Some?)
      ensures t < |issued| && issued[t].Some? ==> GapAt(c, all, r, b, w, t) == GapAt(c, issued, r, b, w, t)
    {
      HeldAppend(c, issued, out, wake, r, b, w, t);
      if t < |issued| && issued[t].Some? { StatusAppend(c, issued, out, r, b, w, t); }
    }
    hide Gap, StatusIn, Closes, HeldBy;
    assert out.Some? ==> Some(GapAt(c, all, r, b, w, |issued|)) == Some(GapOf(c, issued, out, r, b, w));
    hide GapAt;
  }

  lemma OpenAppend(issued: seq<Option<Packet>>, p: Packet, r: nat, b: nat)
    ensures IsOpenRow(issued + [Some(p)], r, b) ==>
              (p.rank == r && p.bank == b && p.kind in {Activate, Read, Write}) || IsOpenRow(issued, r, b)
  {
    LastAppend(issued, Some(p), r, b);
    assert (issued + [Some(p)])[|issued|] == Some(p);
    assert forall u :: 0 <= u < |issued| ==> (issued + [Some(p)])[u] == issued[u];
    hide Last;
  }

  lemma PhaseIsStatus(c: Config, m: BankState, issued: seq<Option<Packet>>, r: nat, b: nat, d: int)
    requires PhaseOk(c, m, issued, r, b, d)
    ensures m.status == RowActive <==> StatusIn(c, issued, r, b, d) == RowActive
    ensures m.status != PowerDown ==> m.status == StatusIn(c, issued, r, b, d)
    ensures m.status == PowerDown ==> StatusIn(c, issued, r, b, d) == Idle
  {
  }

  lemma AutoForgets(c: Config, m: BankState, issued: seq<Option<Packet>>, wake: Option<int>, p: Packet, r: nat, b: nat,
                    w: Wait)
    requires Closes(p, r, b) && w in {ToRead, ToWrite} && c.policy == ClosePage
    requires Earliest(m, w) == m.nextActivate
    ensures TimeOk(c, m, issued + [Some(p)], wake, r, b, w)
  {
    var all := issued + [Some(p)];
    assert all[|issued|] == Some(p);
    LastAppend(issued, Some(p), r, b);
    forall t: nat ensures !HeldBy(c, all, wake, r, b, w, t) {
      if t <= |issued| { assert !NotClosedSince(all, r, b, t); }
    }
  }

  /** What a command does to a bank's times, in terms of the history. */
  lemma IssueComesLater(c: Config, banks: Table, p: Packet, issued: seq<Option<Packet>>, r: nat, b: nat, w: Wait)
    requires c.Valid() && TableShape(c, banks) && r < c.numRanks && b < c.numBanks
    requires MayIssueNow(c, banks, p, |issued|) && PhaseOk(c, banks[r][b], issued, r, b, |issued|)
    ensures var m, m' := banks[r][b], IssueBank(c, banks[r][b], p, r, b, |issued|);
            var gap := GapOf(c, issued, Some(p), r, b, w);
            && m'.nextActivate >= m.nextActivate
            && (Closes(p, r, b) ==> c.policy == ClosePage)
            && (if Closes(p, r, b) && w in {ToRead, ToWrite} then Earliest(m', w) == m'.nextActivate
                else Earliest(m', w) == Later(Earliest(m, w), |issued|, gap))
            && (p.rank == r && p.bank == b && p.kind == Activate ==> m.nextActivate <= |issued|)
            && (p.rank == r && p.bank == b && p.kind == Activate && w in {ToRead, ToWrite} ==>
                  gap.Some? && gap.value >= 0)
            && (p.kind in {Read, Write} ==> c.policy == OpenPage)
  {
    PhaseIsStatus(c, banks[r][b], issued, r, b, |issued|);
    IssuePutsOff(c, banks, p, r, b, |issued|, w);
    IssuePutsOff(c, banks, p, r, b, |issued|, ToActivate);
    hide PhaseOk, StatusIn, IssueBank;
  }

  /** Entering a command keeps the times in agreement with the history. */
  lemma IssueKeepsTime(c: Config, banks: Table, p: Packet, issued: seq<Option<Packet>>, wake: Option<int>, r: nat,
                       b: nat, w: Wait)
    requires c.Valid() && TableShape(c, banks) && r < c.numRanks && b < c.numBanks
    requires MayIssueNow(c, banks, p, |issued|) && (wake.Some? ==> wake.value < |issued|)
    requires PhaseOk(c, banks[r][b], issued, r, b, |issued|) && TimeOk(c, banks[r][b], issued, wake, r, b, w)
    ensures TimeOk(c, IssueBank(c, banks[r][b], p, r, b, |issued|), issued + [Some(p)], wake, r, b, w)
  {
    hide Gap, Waited, NoLonger, Last, Phase, PhaseOk, MayIssueNow, IssueBank, IsOpenRow, Config.Valid;
    IssueComesLater(c, banks, p, issued, r, b, w);
    var m, m' := banks[r][b], IssueBank(c, banks[r][b], p, r, b, |issued|);
    if Closes(p, r, b) && w in {ToRead, ToWrite} {
      AutoForgets(c, m', issued, wake, p, r, b, w);
    } else {
      WaitedAppend(c, issued, Some(p), wake, r, b, w, Earliest(m, w), Earliest(m', w));
      OpenAppend(issued, p, r, b);
    }
  }
}
