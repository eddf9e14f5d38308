/** The command queue: which command a cycle pops, in each of the four queue and page modes. */
module DramQueue {
  import opened Outcomes
  import opened DramTypes

  /** Four-activate window counters after one cycle: all count down, and the head leaves at zero. */
  function Age(window: seq<nat>): seq<nat> {
    var w := DecAll(window);
    if |w| > 0 && w[0] == 0 then w[1..] else w
  }

  function AgeAll(faw: seq<seq<nat>>): (a: seq<seq<nat>>)
    ensures |a| == |faw| && forall r :: 0 <= r < |faw| ==> a[r] == Age(faw[r])
  {
    seq(|faw|, r requires 0 <= r < |faw| => Age(faw[r]))
  }

  /**
   * The controller's own test whether a queued command may go now. On a packet that is no command the program exits;
   * here such a packet is handed out, and the run ends in `UnknownPacket` when the controller enters it.
   */
  predicate Issuable(c: Config, v: QueueState, banks: Table, now: int, p: Packet)
    requires QueueShape(c, v) && TableShape(c, banks) && p.rank < c.numRanks && p.bank < c.numBanks
  {
    var b := banks[p.rank][p.bank];
    match p.kind
    case Activate =>
      (b.status == Idle || b.status == Refreshing) && now >= b.nextActivate && |v.faw[p.rank]| < 4
    case Write | WriteP =>
      b.status == RowActive && now >= b.nextWrite && p.row == b.openRow
          && v.rowAccess[p.rank][p.bank] < c.totalRowAccesses
    case Read | ReadP =>
      b.status == RowActive && now >= b.nextRead && p.row == b.openRow
          && v.rowAccess[p.rank][p.bank] < c.totalRowAccesses
    case Precharge =>
      b.status == RowActive && now >= b.nextPrecharge
    case Refresh => false
    case Data => true
  }

  /** `q[i]` has to wait for an earlier command of the same queue. */
  predicate Blocked(c: Config, q: seq<Packet>, i: nat)
    requires i < |q|
  {
    if c.policy == ClosePage then
      if c.queuing == PerRank then
        i > 0 && q[i].kind != Data && q[i-1].kind == Activate && q[i-1].address == q[i].address
      else
        i > 0
    else
      q[i].kind != Data &&
      (exists j :: 0 <= j < i && q[j].kind != Activate && q[j].row == q[i].row &&
                   (c.queuing == PerRank ==> q[j].bank == q[i].bank))
  }

  predicate Selectable(c: Config, v: QueueState, banks: Table, now: int, q: seq<Packet>, i: nat, rank: nat, slot: nat)
    requires QueueShape(c, v) && TableShape(c, banks) && rank < c.numRanks && Placed(c, q, rank, slot)
    requires i < |q|
  {
    Issuable(c, v, banks, now, q[i]) && !Blocked(c, q, i)
  }

  /** The least selectable position from `i` on, or the length of the queue. */
  function FirstSelectable(c: Config, v: QueueState, banks: Table, now: int, q: seq<Packet>, i: nat, rank: nat,
                           slot: nat): (k: nat)
    requires QueueShape(c, v) && TableShape(c, banks) && rank < c.numRanks && Placed(c, q, rank, slot)
    requires i <= |q|
    ensures i <= k <= |q|
    ensures k < |q| ==> Selectable(c, v, banks, now, q, k, rank, slot)
    ensures forall j :: i <= j < k ==> !Selectable(c, v, banks, now, q, j, rank, slot)
    decreases |q| - i
  {
    if i == |q| || Selectable(c, v, banks, now, q, i, rank, slot) then i
    else FirstSelectable(c, v, banks, now, q, i + 1, rank, slot)
  }

  /** A queued command is for the given row of the given bank; a per-bank queue does not look at the bank. */
  predicate IsHit(c: Config, p: Packet, bank: nat, row: nat) {
    p.row == row && (c.queuing == PerRank ==> p.bank == bank)
  }

  ghost predicate NoHitBefore(c: Config, q: seq<Packet>, k: nat, bank: nat, row: nat) {
    k <= |q| && forall j :: 0 <= j < k ==> !IsHit(c, q[j], bank, row)
  }

  function FirstHit(c: Config, q: seq<Packet>, bank: nat, row: nat, i: nat): (k: nat)
    requires i <= |q|
    ensures i <= k <= |q|
    ensures k < |q| ==> IsHit(c, q[k], bank, row)
    ensures forall j :: i <= j < k ==> !IsHit(c, q[j], bank, row)
    decreases |q| - i
  {
    if i == |q| || IsHit(c, q[i], bank, row) then i else FirstHit(c, q, bank, row, i + 1)
  }

  /** The first bank of a rank that holds a refresh up. */
  function FirstBusy(banks: seq<BankState>, now: int, i: nat): (k: nat)
    requires i <= |banks|
    ensures i <= k <= |banks|
    ensures k < |banks| ==> banks[k].status == RowActive || banks[k].nextActivate > now
    ensures forall j :: i <= j < k ==> banks[j].status != RowActive && banks[j].nextActivate <= now
    decreases |banks| - i
  {
    if i == |banks| || banks[i].status == RowActive || banks[i].nextActivate > now then i
    else FirstBusy(banks, now, i + 1)
  }

  /** What a pop decides to send. `withAct` says that the ACTIVATE in front of the command is thrown away with it. */
  datatype Choice =
    | Nothing
    | Take(rank: nat, slot: nat, index: nat, withAct: bool)
    | Close(rank: nat, bank: nat)
    | RefreshAll(rank: nat)

  /** The branch taken while a refresh is waiting. */
  function ChooseForRefresh(c: Config, v: QueueState, banks: Table, now: int): Choice
    requires QueueShape(c, v) && TableShape(c, banks) && c.Sized()
  {
    if !v.refreshWaiting then Nothing else
    var r := v.refreshRank;
    var i := FirstBusy(banks[r], now, 0);
    if i == c.numBanks then
      if banks[r][0].status == PowerDown then Nothing else RefreshAll(r)
    else if banks[r][i].status != RowActive then Nothing
    else
      var q := v.queues[r][c.Slot(i)];
      var j := FirstHit(c, q, i, banks[r][i].openRow, 0);
      if j < |q| && q[j].kind != Activate then
        if Issuable(c, v, banks, now, q[j]) then Take(r, c.Slot(i), j, false) else Nothing
      else if c.policy == OpenPage && now >= banks[r][i].nextPrecharge then Close(r, i)
      else Nothing
  }

  /** The next (rank, bank) of the two-dimensional round robin. */
  function Advance(c: Config, rank: nat, bank: nat): (p: (nat, nat))
    requires rank < c.numRanks && bank < c.numBanks
    ensures p.0 < c.numRanks && p.1 < c.numBanks
  {
    if c.scheduling == RankThenBank then
      if rank + 1 == c.numRanks then (0, if bank + 1 == c.numBanks then 0 else bank + 1) else (rank + 1, bank)
    else
      if bank + 1 == c.numBanks then (if rank + 1 == c.numRanks then 0 else rank + 1, 0) else (rank, bank + 1)
  }

  /** The queue the scan looks at next: per-rank queues go round the ranks only. */
  function AdvanceScan(c: Config, rank: nat, bank: nat): (p: (nat, nat))
    requires rank < c.numRanks && bank < c.numBanks
    ensures p.0 < c.numRanks && p.1 < c.numBanks
  {
    if c.queuing == PerRank then (if rank + 1 == c.numRanks then 0 else rank + 1, bank) else Advance(c, rank, bank)
  }

  /** Lexicographic number of steps of `Advance` (or `AdvanceScan`) left before it comes to `stop`. */
  function Rounds(c: Config, ranksOnly: bool, rank: nat, bank: nat, stop: (nat, nat)): int {
    if ranksOnly then (if rank < stop.0 then 0 else 1)
    else if c.scheduling == RankThenBank then
      if bank < stop.1 || (bank == stop.1 && rank < stop.0) then stop.1 - bank else stop.1 - bank + c.numBanks
    else
      if rank < stop.0 || (rank == stop.0 && bank < stop.1) then stop.0 - rank else stop.0 - rank + c.numRanks
  }

  function Steps(c: Config, ranksOnly: bool, rank: nat, bank: nat): int {
    if ranksOnly || c.scheduling == RankThenBank then c.numRanks - rank else c.numBanks - bank
  }

  /** Each step brings the scan nearer to where it stops, so a scan ends after one turn at most. */
  lemma AdvanceComesCloser(c: Config, ranksOnly: bool, rank: nat, bank: nat, stop: (nat, nat))
    requires rank < c.numRanks && bank < c.numBanks && stop.0 < c.numRanks && stop.1 < c.numBanks
    requires ranksOnly ==> c.queuing == PerRank && bank == stop.1
    ensures var next := if ranksOnly then AdvanceScan(c, rank, bank) else Advance(c, rank, bank);
            next != stop ==>
              && 0 <= Rounds(c, ranksOnly, next.0, next.1, stop) && 0 <= Steps(c, ranksOnly, next.0, next.1)
              && ( || Rounds(c, ranksOnly, next.0, next.1, stop) < Rounds(c, ranksOnly, rank, bank, stop)
                   || (&& Rounds(c, ranksOnly, next.0, next.1, stop) == Rounds(c, ranksOnly, rank, bank, stop)
                       && Steps(c, ranksOnly, next.0, next.1) < Steps(c, ranksOnly, rank, bank)))
  {
  }

  predicate Eligible(v: QueueState, rank: nat) {
    !(rank == v.refreshRank && v.refreshWaiting)
  }

  /** Look for a command to send, queue by queue, from (rank, bank) until the scan is back where it started. */
  function ScanQueues(c: Config, v: QueueState, banks: Table, now: int, rank: nat, bank: nat): (r: (Choice, nat, nat))
    requires QueueShape(c, v) && TableShape(c, banks)
    requires rank < c.numRanks && bank < c.numBanks
    requires c.queuing == PerRank ==> bank == v.nextBank
    ensures r.1 < c.numRanks && r.2 < c.numBanks
    ensures r.0.Take? || r.0.Nothing?
    decreases Rounds(c, c.queuing == PerRank, rank, bank, (v.nextRank, v.nextBank)),
              Steps(c, c.queuing == PerRank, rank, bank)
  {
    var q := v.queues[rank][c.Slot(bank)];
    var i := if Eligible(v, rank) then FirstSelectable(c, v, banks, now, q, 0, rank, c.Slot(bank)) else |q|;
    if i < |q| then
      (Take(rank, c.Slot(bank), i, c.policy == OpenPage && i > 0 && q[i-1].kind == Activate), rank, bank)
    else
      var (rank', bank') := AdvanceScan(c, rank, bank);
      if (rank', bank') == (v.nextRank, v.nextBank) then (Nothing, rank', bank')
      else ScanQueues(c, v, banks, now, rank', bank')
  }

  /** A row that no queued command wants, or that has been used often enough, may be closed. */
  predicate Closable(c: Config, v: QueueState, banks: Table, now: int, rank: nat, bank: nat)
    requires QueueShape(c, v) && TableShape(c, banks)
    requires rank < c.numRanks && bank < c.numBanks
  {
    var b := banks[rank][bank];
    var q := v.queues[rank][c.Slot(bank)];
    && b.status == RowActive
    && (FirstHit(c, q, bank, b.openRow, 0) == |q| || v.rowAccess[rank][bank] == c.totalRowAccesses)
    && now >= b.nextPrecharge
  }

  function ScanPrecharge(c: Config, v: QueueState, banks: Table, now: int, rank: nat, bank: nat,
                         stop: (nat, nat)): (r: (Choice, nat, nat))
    requires QueueShape(c, v) && TableShape(c, banks)
    requires rank < c.numRanks && bank < c.numBanks && stop.0 < c.numRanks && stop.1 < c.numBanks
    ensures r.1 < c.numRanks && r.2 < c.numBanks
    decreases Rounds(c, false, rank, bank, stop), Steps(c, false, rank, bank)
  {
    if Closable(c, v, banks, now, rank, bank) then (Close(rank, bank), rank, bank)
    else
      var (rank', bank') := Advance(c, rank, bank);
      if (rank', bank') == stop then (Nothing, rank', bank')
      else ScanPrecharge(c, v, banks, now, rank', bank', stop)
  }

  /** Where the precharge scan stops: the per-bank mode keeps its start in two Booleans. */
  function ScanStop(c: Config, v: QueueState): (nat, nat) {
    if c.queuing == PerRank then (v.nextRankPre, v.nextBankPre)
    else (if v.nextRankPre == 0 then 0 else 1, if v.nextBankPre == 0 then 0 else 1)
  }

  /** The whole decision, and the four round-robin positions it leaves behind. */
  datatype Decision = Decision(choice: Choice, nextRank: nat, nextBank: nat, nextRankPre: nat, nextBankPre: nat)

  /** The decision when no refresh traffic is sent. */
  function DecideOrdinary(c: Config, v: QueueState, banks: Table, now: int): (d: Decision)
    requires QueueShape(c, v) && TableShape(c, banks)
    ensures d.nextRank < c.numRanks && d.nextRankPre < c.numRanks
    ensures d.nextBank < c.numBanks && d.nextBankPre < c.numBanks
  {
    var (second, rank, bank) := ScanQueues(c, v, banks, now, v.nextRank, v.nextBank);
    if second != Nothing || c.policy == ClosePage then Decision(second, rank, bank, v.nextRankPre, v.nextBankPre) else
    var (third, rankPre, bankPre) := ScanPrecharge(c, v, banks, now, v.nextRankPre, v.nextBankPre, ScanStop(c, v));
    Decision(third, rank, bank, rankPre, bankPre)
  }

  function Decide(c: Config, v: QueueState, banks: Table, now: int): (d: Decision)
    requires QueueShape(c, v) && TableShape(c, banks) && c.Sized()
    ensures d.nextRank < c.numRanks && d.nextRankPre < c.numRanks
    ensures d.nextBank < c.numBanks && d.nextBankPre < c.numBanks
  {
    var first := ChooseForRefresh(c, v, banks, now);
    if first != Nothing then Decision(first, v.nextRank, v.nextBank, v.nextRankPre, v.nextBankPre)
    else DecideOrdinary(c, v, banks, now)
  }

  function Put<T>(s: seq<seq<T>>, i: nat, j: nat, x: T): (r: seq<seq<T>>)
    requires i < |s| && j < |s[i]|
    ensures |r| == |s| && |r[i]| == |s[i]| && r[i][j] == x
    ensures forall a :: 0 <= a < |s| ==> |r[a]| == |s[a]|
    ensures forall a, b :: 0 <= a < |s| && 0 <= b < |s[a]| && (a != i || b != j) ==> r[a][b] == s[a][b]
  {
    s[i := s[i][j := x]]
  }

  function Without(q: seq<Packet>, i: nat, withAct: bool): seq<Packet>
    requires i < |q| && (withAct ==> i > 0)
  {
    (if withAct then q[..i-1] else q[..i]) + q[i+1..]
  }

  /** Refresh branch: the oldest command of a row that is open in the waiting rank. */
  ghost predicate LegalDrain(c: Config, v: QueueState, banks: Table, now: int, r: nat, slot: nat, i: nat, withAct: bool)
    requires QueueShape(c, v) && TableShape(c, banks)
    requires r < c.numRanks && slot < c.Slots() && i < |v.queues[r][slot]|
  {
    var q := v.queues[r][slot];
    && !withAct && v.refreshWaiting && r == v.refreshRank
    && q[i].kind != Activate
    && banks[r][q[i].bank].status == RowActive && q[i].row == banks[r][q[i].bank].openRow
    && NoHitBefore(c, q, i, q[i].bank, q[i].row)
  }

  /** Ordinary scan: the oldest command of its queue that may go. */
  ghost predicate LegalScan(c: Config, v: QueueState, banks: Table, now: int, r: nat, slot: nat, i: nat, withAct: bool)
    requires QueueShape(c, v) && TableShape(c, banks)
    requires r < c.numRanks && slot < c.Slots() && i < |v.queues[r][slot]|
  {
    var q := v.queues[r][slot];
    && withAct == (c.policy == OpenPage && i > 0 && q[i-1].kind == Activate)
    && Eligible(v, r)
    && !Blocked(c, q, i)
    && forall j :: 0 <= j < i ==> !Selectable(c, v, banks, now, q, j, r, slot)
  }

  ghost predicate LegalTake(c: Config, v: QueueState, banks: Table, now: int, r: nat, slot: nat, i: nat, withAct: bool)
    requires QueueShape(c, v) && TableShape(c, banks)
  {
    && r < c.numRanks && slot < c.Slots() && i < |v.queues[r][slot]|
    && Issuable(c, v, banks, now, v.queues[r][slot][i])
    && (LegalDrain(c, v, banks, now, r, slot, i, withAct) || LegalScan(c, v, banks, now, r, slot, i, withAct))
  }

  /** A row is closed only when it has been used up, or when no column command of its own is at the front for it. */
  ghost predicate LegalClose(c: Config, v: QueueState, banks: Table, now: int, r: nat, b: nat)
    requires QueueShape(c, v) && TableShape(c, banks)
  {
    && r < c.numRanks && b < c.numBanks && c.policy == OpenPage
    && banks[r][b].status == RowActive && now >= banks[r][b].nextPrecharge
    && var q := v.queues[r][c.Slot(b)];
    && ( || v.rowAccess[r][b] == c.totalRowAccesses
         || (exists k: nat :: NoHitBefore(c, q, k, b, banks[r][b].openRow)
                         && (k < |q| ==> IsHit(c, q[k], b, banks[r][b].openRow) && q[k].kind == Activate)))
  }

  ghost predicate LegalRefresh(c: Config, v: QueueState, banks: Table, now: int, r: nat)
    requires QueueShape(c, v) && TableShape(c, banks) && c.Sized()
  {
    && r < c.numRanks && v.refreshWaiting && r == v.refreshRank
    && banks[r][0].status != PowerDown
    && forall b :: 0 <= b < c.numBanks ==> banks[r][b].status != RowActive && banks[r][b].nextActivate <= now
  }

  /** What every decision guarantees about the command it sends. */
  ghost predicate Legal(c: Config, v: QueueState, banks: Table, now: int, choice: Choice)
    requires QueueShape(c, v) && TableShape(c, banks) && c.Sized()
  {
    match choice
    case Nothing => true
    case Take(r, slot, i, withAct) => LegalTake(c, v, banks, now, r, slot, i, withAct)
    case Close(r, b) => LegalClose(c, v, banks, now, r, b)
    case RefreshAll(r) => LegalRefresh(c, v, banks, now, r)
  }

  lemma RefreshChoiceIsLegal(c: Config, v: QueueState, banks: Table, now: int)
    requires QueueShape(c, v) && TableShape(c, banks) && c.Sized()
    ensures Legal(c, v, banks, now, ChooseForRefresh(c, v, banks, now))
  {
    var choice := ChooseForRefresh(c, v, banks, now);
    if choice.Take? || choice.Close? {
      var r := v.refreshRank;
      var i := FirstBusy(banks[r], now, 0);
      var q := v.queues[r][c.Slot(i)];
      var j := FirstHit(c, q, i, banks[r][i].openRow, 0);
      assert Placed(c, q, r, c.Slot(i));
      assert NoHitBefore(c, q, j, i, banks[r][i].openRow);
      if choice.Take? {
        assert q[j].bank == i;
      }
    }
  }

  lemma FirstTakeIsLegal(c: Config, v: QueueState, banks: Table, now: int, rank: nat, slot: nat)
    requires QueueShape(c, v) && TableShape(c, banks) && Eligible(v, rank)
    requires rank < c.numRanks && slot < c.Slots()
    ensures var q := v.queues[rank][slot];
            var i := FirstSelectable(c, v, banks, now, q, 0, rank, slot);
            i < |q| ==> LegalTake(c, v, banks, now, rank, slot, i,
                c.policy == OpenPage && i > 0 && q[i-1].kind == Activate)
  {
    var q := v.queues[rank][slot];
    var i := FirstSelectable(c, v, banks, now, q, 0, rank, slot);
    if i < |q| {
      assert Selectable(c, v, banks, now, q, i, rank, slot);
      assert LegalScan(c, v, banks, now, rank, slot, i, c.policy == OpenPage && i > 0 && q[i-1].kind == Activate);
    }
  }

  lemma {:induction false} ScanChoiceIsLegal(c: Config, v: QueueState, banks: Table, now: int, rank: nat, bank: nat)
    requires QueueShape(c, v) && TableShape(c, banks) && c.Sized()
    requires rank < c.numRanks && bank < c.numBanks
    requires c.queuing == PerRank ==> bank == v.nextBank
    ensures Legal(c, v, banks, now, ScanQueues(c, v, banks, now, rank, bank).0)
    decreases Rounds(c, c.queuing == PerRank, rank, bank, (v.nextRank, v.nextBank)),
              Steps(c, c.queuing == PerRank, rank, bank)
  {
    var slot := c.Slot(bank);
    if Eligible(v, rank) {
      FirstTakeIsLegal(c, v, banks, now, rank, slot);
    }
    var next := AdvanceScan(c, rank, bank);
    AdvanceComesCloser(c, c.queuing == PerRank, rank, bank, (v.nextRank, v.nextBank));
    if next != (v.nextRank, v.nextBank)
        && ScanQueues(c, v, banks, now, rank, bank) == ScanQueues(c, v, banks, now, next.0, next.1) {
      ScanChoiceIsLegal(c, v, banks, now, next.0, next.1);
    }
  }

  lemma {:induction false} PrechargeChoiceIsLegal(c: Config, v: QueueState, banks: Table, now: int, rank: nat,
                                                  bank: nat, stop: (nat, nat))
    requires QueueShape(c, v) && TableShape(c, banks) && c.Sized() && c.policy == OpenPage
    requires rank < c.numRanks && bank < c.numBanks && stop.0 < c.numRanks && stop.1 < c.numBanks
    ensures Legal(c, v, banks, now, ScanPrecharge(c, v, banks, now, rank, bank, stop).0)
    decreases Rounds(c, false, rank, bank, stop), Steps(c, false, rank, bank)
  {
    if Closable(c, v, banks, now, rank, bank) {
      var q := v.queues[rank][c.Slot(bank)];
      if FirstHit(c, q, bank, banks[rank][bank].openRow, 0) == |q| {
        assert NoHitBefore(c, q, |q|, bank, banks[rank][bank].openRow);
      }
    } else {
      var (rank', bank') := Advance(c, rank, bank);
      if (rank', bank') != stop {
        PrechargeChoiceIsLegal(c, v, banks, now, rank', bank', stop);
      }
    }
  }

  lemma DecisionIsLegal(c: Config, v: QueueState, banks: Table, now: int)
    requires QueueShape(c, v) && TableShape(c, banks) && c.Sized()
    ensures Legal(c, v, banks, now, Decide(c, v, banks, now).choice)
  {
    RefreshChoiceIsLegal(c, v, banks, now);
    ScanChoiceIsLegal(c, v, banks, now, v.nextRank, v.nextBank);
    if c.policy == OpenPage {
      PrechargeChoiceIsLegal(c, v, banks, now, v.nextRankPre, v.nextBankPre, ScanStop(c, v));
    }
  }

  /** The command a choice sends. */
  function Chosen(c: Config, v: QueueState, banks: Table, now: int, choice: Choice): (p: Option<Packet>)
    requires QueueShape(c, v) && TableShape(c, banks) && c.Sized() && Legal(c, v, banks, now, choice)
    ensures p.Some? ==> p.value.rank < c.numRanks && p.value.bank < c.numBanks
  {
    match choice
    case Nothing => None
    case Take(r, slot, i, _) => Some(v.queues[r][slot][i])
    case Close(r, b) => Some(Packet(Precharge, 0, 0, 0, r, b))
    case RefreshAll(r) => Some(Packet(Refresh, 0, 0, 0, r, 0))
  }

  /** The queue state once the chosen command has been removed and accounted for. */
  function Removed(c: Config, v: QueueState, banks: Table, now: int, choice: Choice): (v': QueueState)
    requires QueueShape(c, v) && TableShape(c, banks) && c.Sized() && Legal(c, v, banks, now, choice)
    ensures QueueShape(c, v')
  {
    match choice
    case Nothing => v
    case Take(r, slot, i, withAct) =>
      var p := v.queues[r][slot][i];
      var v1 := v.(queues := Put(v.queues, r, slot, Without(v.queues[r][slot], i, withAct)));
      var v2 := if withAct then v1.(rowAccess := Put(v.rowAccess, p.rank, p.bank, v.rowAccess[p.rank][p.bank] + 1))
          else v1;
      if p.kind == Activate then v2.(faw := v.faw[p.rank := v.faw[p.rank] + [c.tFAW]]) else v2
    case Close(r, b) => v.(rowAccess := Put(v.rowAccess, r, b, 0))
    case RefreshAll(r) => v.(refreshRank := NO_RANK, refreshWaiting := false)
  }

  /** After a command is sent the round robin moves on, except between an ACTIVATE and its posted column command. */
  function MoveOn(c: Config, v: QueueState): (v': QueueState)
    requires QueueShape(c, v)
    ensures QueueShape(c, v')
  {
    if c.al > 0 && v.sendAct then v.(sendAct := false)
    else
      var (rank, bank) := Advance(c, v.nextRank, v.nextBank);
      v.(sendAct := true, nextRank := rank, nextBank := bank)
  }

  function Aged(c: Config, v: QueueState): (v': QueueState)
    requires QueueShape(c, v)
    ensures QueueShape(c, v')
  {
    v.(faw := AgeAll(v.faw))
  }

  /** The decision of one pop. */
  function DecisionOf(c: Config, v: QueueState, banks: Table, now: int): (d: Decision)
    requires QueueShape(c, v) && TableShape(c, banks) && c.Sized()
    ensures d.nextRank < c.numRanks && d.nextRankPre < c.numRanks
    ensures d.nextBank < c.numBanks && d.nextBankPre < c.numBanks
    ensures Legal(c, Aged(c, v), banks, now, d.choice)
  {
    DecisionIsLegal(c, Aged(c, v), banks, now);
    Decide(c, Aged(c, v), banks, now)
  }

  /** The round robins moved to where a decision leaves them. */
  function At(v: QueueState, d: Decision): QueueState {
    v.(nextRank := d.nextRank, nextBank := d.nextBank, nextRankPre := d.nextRankPre, nextBankPre := d.nextBankPre)
  }

  /** One call of pop: the state it leaves and the command it hands out. */
  function Pop(c: Config, v: QueueState, banks: Table, now: int): (r: (QueueState, Option<Packet>))
    requires QueueShape(c, v) && TableShape(c, banks) && c.Sized()
    ensures QueueShape(c, r.0)
    ensures r.1.Some? ==> r.1.value.rank < c.numRanks && r.1.value.bank < c.numBanks
  {
    var v1 := Aged(c, v);
    var d := DecisionOf(c, v, banks, now);
    var v2 := At(Removed(c, v1, banks, now, d.choice), d);
    (if d.choice == Nothing then v2 else MoveOn(c, v2), Chosen(c, v1, banks, now, d.choice))
  }
}
