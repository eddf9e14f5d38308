/** What a rank on its own accepts, as a function of everything it accepted before. */
module DramAcceptance {
  import opened Outcomes
  import opened DramTypes
  import opened DramRank
  import opened DramTimes

  /** What a rank is told, and in which cycle. */
  datatype Event = Hear(p: Packet, at: nat) | Sleep(at: nat) | Wake(at: nat)

  /** A rank that has accepted everything it was told, or the exit it came to. */
  function Told(c: Config, h: seq<Event>): (k: Result<RankState, Exit>)
    requires forall e :: e in h && e.Hear? ==> e.p.bank < c.numBanks
    ensures k.Success? ==> RankShape(c, k.value)
  {
    if h == [] then
      Success(RankState(seq(c.numBanks, _ => FRESH_BANK), false, false, [], [], None, 0))
    else
      var k :- Told(c, h[..|h|-1]);
      match h[|h|-1]
      case Hear(p, at) => Receive(c, k, p, at)
      case Sleep(at) => DramRank.PowerDown(c, k, at)
      case Wake(at) => DramRank.PowerUp(c, k, at)
  }

  // ---------------------------------------------------------------- what the history says

  /** How long after an event bank `b` has to wait; of writes with auto-precharge only their own bank takes notice. */
  function Pause(c: Config, e: Event, b: nat, w: Wait): Option<int> {
    match e
    case Sleep(_) => None
    case Wake(_) => if w == ToActivate then Some(c.tXP) else None
    case Hear(p, _) =>
      var own := p.bank == b;
      match p.kind
      case Activate =>
        if own then Some(match w case ToActivate => c.tRC case ToPrecharge => c.tRAS case _ => c.tRCD - c.al)
        else if w == ToActivate then Some(c.tRRD)
        else None
      case Read | ReadP =>
        (match w
         case ToRead => Some(Max(c.tCCD, c.bl / 2))
         case ToWrite => Some(c.bl / 2 + c.tRTRS + 1)
         case ToPrecharge => if own && p.kind == Read then Some(c.al + c.bl / 2 + Max(c.tRTP, 2) - 2) else None
         case ToActivate => if own && p.kind == ReadP then Some(c.al + c.tRTP + c.tRP) else None)
      case Write | WriteP =>
        if p.kind == WriteP && !own then None else
        (match w
         case ToRead => Some(c.cl + c.al - 1 + c.bl / 2 + c.tWTR)
         case ToWrite => Some(Max(c.tCCD, c.bl / 2))
         case ToPrecharge => if own && p.kind == Write then Some(c.cl + c.al - 1 + c.bl / 2 + c.tWR) else None
         case ToActivate => if p.kind == WriteP then Some(c.cl + c.al - 1 + c.bl / 2 + c.tWR) else None)
      case Precharge => if own && w == ToActivate then Some(c.tRP) else None
      case Refresh => if w == ToActivate then Some(c.tRFC) else None
      case Data => None
  }

  /** An ACTIVATE makes its bank forget what it waited for, and a REFRESH or a waking every bank, before an ACTIVATE. */
  predicate Forgets(e: Event, b: nat, w: Wait) {
    match e
    case Hear(p, _) => (p.kind == Activate && p.bank == b) || (p.kind == Refresh && w == ToActivate)
    case Wake(_) => w == ToActivate
    case Sleep(_) => false
  }

  predicate Remembered(h: seq<Event>, b: nat, w: Wait, i: nat) {
    forall j :: i < j < |h| ==> !Forgets(h[j], b, w)
  }

  /** Whatever the bank remembers has been waited for. */
  ghost predicate HasWaited(c: Config, h: seq<Event>, b: nat, w: Wait, now: int) {
    forall i: nat :: i < |h| && Remembered(h, b, w, i) && Pause(c, h[i], b, w).Some? ==>
                       now >= h[i].at + Pause(c, h[i], b, w).value
  }

  /** The row that is open in a bank, if one is: the one last opened and not closed since. */
  function OpenIn(h: seq<Event>, b: nat): Option<nat> {
    if h == [] then None else
    var before := OpenIn(h[..|h|-1], b);
    match h[|h|-1]
    case Hear(p, _) =>
      if p.bank != b then before
      else if p.kind == Activate then Some(p.row)
      else if p.kind in {ReadP, WriteP, Precharge} then None
      else before
    case _ => before
  }

  /** When the rank went to sleep, if it sleeps. */
  function Asleep(h: seq<Event>): Option<nat> {
    if h == [] then None else
    match h[|h|-1]
    case Sleep(at) => Some(at)
    case Wake(_) => None
    case Hear(_, _) => Asleep(h[..|h|-1])
  }

  ghost predicate AllClosed(c: Config, h: seq<Event>) {
    forall b: nat :: b < c.numBanks ==> OpenIn(h, b) == None
  }

  /** What is accepted after a history. */
  ghost predicate Accepts(c: Config, h: seq<Event>, e: Event)
    requires e.Hear? ==> e.p.bank < c.numBanks
  {
    match e
    case Sleep(_) => AllClosed(c, h) && Asleep(h) == None
    case Wake(at) => Asleep(h).Some? && at >= Asleep(h).value + c.tCKE
    case Hear(p, at) =>
      match p.kind
      case Read | ReadP => OpenIn(h, p.bank) == Some(p.row) && HasWaited(c, h, p.bank, ToRead, at)
      case Write | WriteP => OpenIn(h, p.bank) == Some(p.row) && HasWaited(c, h, p.bank, ToWrite, at)
      case Precharge => OpenIn(h, p.bank).Some? && HasWaited(c, h, p.bank, ToPrecharge, at)
      case Activate =>
        OpenIn(h, p.bank) == None && Asleep(h) == None && HasWaited(c, h, p.bank, ToActivate, at)
      case Refresh => AllClosed(c, h) && Asleep(h) == None
      case Data => true
  }

  // ---------------------------------------------------------------- the rank's table is what the history says

  /** One bank's entry agrees with the history. */
  ghost predicate Agrees(c: Config, m: BankState, h: seq<Event>, b: nat) {
    && m.status == (if Asleep(h).Some? then Status.PowerDown else if OpenIn(h, b).Some? then RowActive else Idle)
    && (OpenIn(h, b).Some? ==> m.openRow == OpenIn(h, b).value)
    && (Asleep(h).Some? ==> m.nextPowerUp == Asleep(h).value + c.tCKE)
    && forall w, now: nat :: now >= Earliest(m, w) <==> HasWaited(c, h, b, w, now)
  }

  ghost predicate RankAgrees(c: Config, k: RankState, h: seq<Event>) {
    && RankShape(c, k) && k.isPowerDown == Asleep(h).Some?
    && (Asleep(h).Some? ==> AllClosed(c, h))
    && forall b: nat :: b < c.numBanks ==> Agrees(c, k.banks[b], h, b)
  }

  lemma WaitedOne(c: Config, h: seq<Event>, e: Event, b: nat, w: Wait, now: int)
    ensures HasWaited(c, h + [e], b, w, now) <==>
              && (Forgets(e, b, w) || HasWaited(c, h, b, w, now))
              && (Pause(c, e, b, w).Some? ==> now >= e.at + Pause(c, e, b, w).value)
  {
    var all := h + [e];
    assert forall i :: 0 <= i < |h| ==> all[i] == h[i];
    assert all[|h|] == e;
    forall i: nat | i < |h| ensures Remembered(all, b, w, i) <==> !Forgets(e, b, w) && Remembered(h, b, w, i) {}
    assert Remembered(all, b, w, |h|);
    hide Forgets, Pause, Remembered;
  }

  lemma HistoryOne(h: seq<Event>, e: Event, b: nat)
    ensures (h + [e])[..|h + [e]|-1] == h && (h + [e])[|h + [e]|-1] == e
  {
  }

  /** What entering a command does to one bank's times. */
  lemma BankWaits(c: Config, m: BankState, p: Packet, b: nat, at: nat, w: Wait, now: nat)
    requires c.Valid()
    ensures var e := Hear(p, at);
            now >= Earliest(BankAfter(c, m, p, b, at), w) <==>
              && (Forgets(e, b, w) || now >= Earliest(m, w))
              && (Pause(c, e, b, w).Some? ==> now >= at + Pause(c, e, b, w).value)
  {
  }

  lemma HearAgrees(c: Config, k: RankState, h: seq<Event>, p: Packet, at: nat, b: nat)
    requires c.Valid() && RankAgrees(c, k, h) && p.bank < c.numBanks && b < c.numBanks && Check(k, p, at).Pass?
    ensures Agrees(c, BankAfter(c, k.banks[b], p, b, at), h + [Hear(p, at)], b)
  {
    var e, m := Hear(p, at), k.banks[b];
    HistoryOne(h, e, b);
    assert Agrees(c, m, h, b) && Agrees(c, k.banks[p.bank], h, p.bank);
    forall w, now: nat
      ensures now >= Earliest(BankAfter(c, m, p, b, at), w) <==> HasWaited(c, h + [e], b, w, now)
    {
      WaitedOne(c, h, e, b, w, now);
      BankWaits(c, m, p, b, at, w, now);
    }
    hide HasWaited, Earliest, Forgets, Pause;
  }

  lemma SleepAgrees(c: Config, m: BankState, h: seq<Event>, at: nat, b: nat)
    requires Agrees(c, m, h, b) && OpenIn(h, b) == None && Asleep(h) == None
    ensures Agrees(c, m.(status := Status.PowerDown, nextPowerUp := at + c.tCKE), h + [Sleep(at)], b)
  {
    HistoryOne(h, Sleep(at), b);
    forall w, now: nat ensures HasWaited(c, h + [Sleep(at)], b, w, now) <==> HasWaited(c, h, b, w, now) {
      WaitedOne(c, h, Sleep(at), b, w, now);
    }
    hide HasWaited;
  }

  lemma WakeAgrees(c: Config, m: BankState, h: seq<Event>, at: nat, b: nat)
    requires Agrees(c, m, h, b) && OpenIn(h, b) == None
    ensures Agrees(c, m.(status := Idle, nextActivate := at + c.tXP), h + [Wake(at)], b)
  {
    HistoryOne(h, Wake(at), b);
    var m' := m.(status := Idle, nextActivate := at + c.tXP);
    forall w, now: nat ensures now >= Earliest(m', w) <==> HasWaited(c, h + [Wake(at)], b, w, now) {
      WaitedOne(c, h, Wake(at), b, w, now);
    }
    hide HasWaited;
  }

  lemma AllIdleIff(c: Config, k: RankState, h: seq<Event>)
    requires c.Valid() && RankAgrees(c, k, h)
    ensures (exists i :: 0 <= i < |k.banks| && k.banks[i].status != Idle) <==>
            !(AllClosed(c, h) && Asleep(h) == None)
    ensures (forall i :: 0 <= i < |k.banks| ==> k.banks[i].status == Idle) <==>
            AllClosed(c, h) && Asleep(h) == None
  {
    hide HasWaited, Earliest, OpenIn, Asleep;
    assert Agrees(c, k.banks[0], h, 0);
    forall b: nat | b < c.numBanks
      ensures k.banks[b].status == Idle <==> Asleep(h) == None && OpenIn(h, b) == None
    {
      assert Agrees(c, k.banks[b], h, b);
    }
  }

  lemma AcceptsHear(c: Config, k: RankState, h: seq<Event>, p: Packet, at: nat)
    requires c.Valid() && RankAgrees(c, k, h) && p.bank < c.numBanks
    ensures Check(k, p, at).Pass? <==> Accepts(c, h, Hear(p, at))
  {
    hide HasWaited, OpenIn, Asleep, Agrees;
    var m := k.banks[p.bank];
    AllIdleIff(c, k, h);
    TimesOf(c, m, h, p.bank, at);
    StatusOf(c, m, h, p.bank);
  }

  lemma TimesOf(c: Config, m: BankState, h: seq<Event>, b: nat, now: nat)
    requires Agrees(c, m, h, b)
    ensures now >= m.nextActivate <==> HasWaited(c, h, b, ToActivate, now)
    ensures now >= m.nextRead <==> HasWaited(c, h, b, ToRead, now)
    ensures now >= m.nextWrite <==> HasWaited(c, h, b, ToWrite, now)
    ensures now >= m.nextPrecharge <==> HasWaited(c, h, b, ToPrecharge, now)
  {
    hide HasWaited;
    assert forall w :: now >= Earliest(m, w) <==> HasWaited(c, h, b, w, now);
    assert Earliest(m, ToActivate) == m.nextActivate && Earliest(m, ToRead) == m.nextRead;
    assert Earliest(m, ToWrite) == m.nextWrite && Earliest(m, ToPrecharge) == m.nextPrecharge;
  }

  lemma StatusOf(c: Config, m: BankState, h: seq<Event>, b: nat)
    requires Agrees(c, m, h, b)
    ensures m.status == (if Asleep(h).Some? then Status.PowerDown else if OpenIn(h, b).Some? then RowActive else Idle)
    ensures OpenIn(h, b).Some? ==> m.openRow == OpenIn(h, b).value
  {
  }

  /** What a rank does with an event. */
  function Tell(c: Config, k: RankState, e: Event): (r: Result<RankState, Exit>)
    requires RankShape(c, k) && (e.Hear? ==> e.p.bank < c.numBanks)
  {
    match e
    case Hear(p, at) => Receive(c, k, p, at)
    case Sleep(at) => DramRank.PowerDown(c, k, at)
    case Wake(at) => DramRank.PowerUp(c, k, at)
  }

  lemma AcceptsPower(c: Config, k: RankState, h: seq<Event>, at: nat)
    requires c.Valid() && RankAgrees(c, k, h)
    ensures DramRank.PowerDown(c, k, at).Success? <==> Accepts(c, h, Sleep(at))
    ensures DramRank.PowerUp(c, k, at).Success? <==> Accepts(c, h, Wake(at))
  {
    hide HasWaited, Earliest, OpenIn, Asleep, AllClosed;
    AllIdleIff(c, k, h);
    hide Agrees;
    forall b: nat | b < c.numBanks && Asleep(h).Some? ensures k.banks[b].nextPowerUp == Asleep(h).value + c.tCKE {
      PowerUpOf(c, k.banks[b], h, b);
    }
    assert Asleep(h).Some? ==> k.banks[0].nextPowerUp == Asleep(h).value + c.tCKE;
  }

  lemma PowerUpOf(c: Config, m: BankState, h: seq<Event>, b: nat)
    requires Agrees(c, m, h, b) && Asleep(h).Some?
    ensures m.nextPowerUp == Asleep(h).value + c.tCKE
  {
  }

  lemma OpenOne(h: seq<Event>, e: Event, b: nat)
    ensures !e.Hear? ==> OpenIn(h + [e], b) == OpenIn(h, b)
    ensures Asleep(h + [e]) == match e case Sleep(at) => Some(at) case Wake(_) => None case Hear(_, _) => Asleep(h)
    ensures e.Hear? && !(e.p.kind == Activate) && OpenIn(h, b) == None ==> OpenIn(h + [e], b) == None
  {
    HistoryOne(h, e, b);
  }

  lemma TellAgrees(c: Config, k: RankState, h: seq<Event>, e: Event)
    requires c.Valid() && RankAgrees(c, k, h) && (e.Hear? ==> e.p.bank < c.numBanks) && Tell(c, k, e).Success?
    ensures Accepts(c, h, e) && RankAgrees(c, Tell(c, k, e).value, h + [e])
  {
    hide HasWaited, Agrees, OpenIn, Asleep, BankAfter, Check;
    AcceptsPower(c, k, h, e.at);
    if e.Hear? { AcceptsHear(c, k, h, e.p, e.at); }
    var k' := Tell(c, k, e).value;
    forall b: nat | b < c.numBanks
      ensures Agrees(c, k'.banks[b], h + [e], b)
      ensures Asleep(h + [e]).Some? ==> OpenIn(h + [e], b) == None
    {
      OpenOne(h, e, b);
      assert Agrees(c, k.banks[b], h, b);
      match e
      case Hear(p, at) => HearAgrees(c, k, h, p, at, b);
      case Sleep(at) => SleepAgrees(c, k.banks[b], h, at, b);
      case Wake(at) => WakeAgrees(c, k.banks[b], h, at, b);
    }
    OpenOne(h, e, 0);
  }

  lemma FreshAgrees(c: Config)
    requires c.Valid()
    ensures RankAgrees(c, Told(c, []).value, [])
  {
  }

  lemma {:induction false} ToldAgrees(c: Config, h: seq<Event>)
    requires c.Valid() && (forall e :: e in h && e.Hear? ==> e.p.bank < c.numBanks) && Told(c, h).Success?
    ensures RankAgrees(c, Told(c, h).value, h)
  {
    hide RankAgrees, Accepts, RankShape;
    if h == [] {
      FreshAgrees(c);
    } else {
      var before, e := h[..|h|-1], h[|h|-1];
      ToldAgrees(c, before);
      TellAgrees(c, Told(c, before).value, before, e);
      assert before + [e] == h;
    }
  }

  /**
   * A rank that has accepted all it was told accepts the next thing if and only if the history allows it: the row that
   * is open, whether the rank sleeps, and how long ago everything was that its bank remembers.
   */
  lemma AcceptsIff(c: Config, h: seq<Event>, e: Event)
    requires c.Valid() && (forall o :: o in h + [e] && o.Hear? ==> o.p.bank < c.numBanks) && Told(c, h).Success?
    ensures Told(c, h + [e]).Success? <==> Accepts(c, h, e)
  {
    hide RankAgrees, Accepts, RankShape;
    assert e in h + [e];
    assert (h + [e])[..|h + [e]|-1] == h;
    ToldAgrees(c, h);
    var k := Told(c, h).value;
    AcceptsPower(c, k, h, e.at);
    if e.Hear? { AcceptsHear(c, k, h, e.p, e.at); }
  }
}
