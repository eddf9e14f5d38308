/** What a rank does with a packet, with a cycle, and with a power request, as functions of its state. */
module DramRank {
  import opened Outcomes
  import opened DramTypes

  /** A column command needs an open row, the right row, and its earliest time to have come. */
  predicate ColumnAllowed(b: BankState, p: Packet, earliest: int, now: int) {
    b.status == RowActive && now >= earliest && p.row == b.openRow
  }

  /** The rank's own legality check, independent of the controller's table. */
  function Check(k: RankState, p: Packet, now: int): Outcome<Exit>
    requires p.bank < |k.banks|
  {
    var b := k.banks[p.bank];
    match p.kind
    case Read => if ColumnAllowed(b, p, b.nextRead, now) then Pass else Fail(IllegalRead)
    case ReadP => if ColumnAllowed(b, p, b.nextRead, now) then Pass else Fail(IllegalReadP)
    case Write => if ColumnAllowed(b, p, b.nextWrite, now) then Pass else Fail(IllegalWrite)
    case WriteP => if ColumnAllowed(b, p, b.nextWrite, now) then Pass else Fail(IllegalWriteP)
    case Activate =>
      if b.status == Idle && now >= b.nextActivate then Pass else Fail(IllegalActivate)
    case Precharge =>
      if b.status == RowActive && now >= b.nextPrecharge then Pass else Fail(IllegalPrecharge)
    case Refresh =>
      if forall i :: 0 <= i < |k.banks| ==> k.banks[i].status == Idle then Pass else Fail(IllegalRefresh)
    case Data => Pass
  }

  /** State of bank `i` of a rank after the rank accepts `p`. */
  function BankAfter(c: Config, b: BankState, p: Packet, i: nat, now: int): BankState {
    var own := i == p.bank;
    match p.kind
    case Read =>
      b.(nextPrecharge := if own then Max(b.nextPrecharge, now + c.ReadToPre()) else b.nextPrecharge,
         nextRead := Max(b.nextRead, now + c.ColumnGap()),
         nextWrite := Max(b.nextWrite, now + c.ReadToWrite()))
    case ReadP =>
      b.(status := if own then Idle else b.status,
         nextActivate := if own then Max(b.nextActivate, now + c.ReadAutopre()) else b.nextActivate,
         nextRead := Max(b.nextRead, now + c.ColumnGap()),
         nextWrite := Max(b.nextWrite, now + c.ReadToWrite()))
    case Write =>
      b.(nextPrecharge := if own then Max(b.nextPrecharge, now + c.WriteToPre()) else b.nextPrecharge,
         nextRead := Max(b.nextRead, now + c.WriteToReadSame()),
         nextWrite := Max(b.nextWrite, now + c.ColumnGap()))
    case WriteP =>
      // the loop over all banks updates the packet's bank each time round
      if own then
        b.(status := Idle,
           nextActivate := Max(b.nextActivate, now + c.WriteToPre()),
           nextRead := Max(b.nextRead, now + c.WriteToReadSame()),
           nextWrite := Max(b.nextWrite, now + c.ColumnGap()))
      else b
    case Activate =>
      if own then
        b.(status := RowActive, openRow := p.row,
           nextActivate := now + c.tRC,
           nextRead := now + (c.tRCD - c.al), nextWrite := now + (c.tRCD - c.al),
           nextPrecharge := now + c.tRAS)
      else
        b.(nextActivate := Max(b.nextActivate, now + c.tRRD))
    case Precharge =>
      if own then b.(status := Idle, nextActivate := Max(b.nextActivate, now + c.tRP)) else b
    case Refresh => b.(nextActivate := now + c.tRFC)
    case Data => b
  }

  function BanksAfter(c: Config, banks: seq<BankState>, p: Packet, now: int): (r: seq<BankState>)
    ensures |r| == |banks|
    ensures forall i :: 0 <= i < |r| ==> r[i] == BankAfter(c, banks[i], p, i, now)
  {
    seq(|banks|, i requires 0 <= i < |banks| => BankAfter(c, banks[i], p, i, now))
  }

  /** A command or a write burst arriving over a bus. */
  function Receive(c: Config, k: RankState, p: Packet, now: int): (r: Result<RankState, Exit>)
    requires RankShape(c, k) && p.bank < c.numBanks
    ensures r.Success? ==> RankShape(c, r.value)
  {
    match Check(k, p, now)
    case Fail(e) => Failure(e)
    case Pass =>
      var k' := k.(banks := BanksAfter(c, k.banks, p, now));
      if IsRead(p.kind) then
        Success(k'.(readReturn := k.readReturn + [p.(kind := Data)], readCountdown := k.readCountdown + [c.RL()]))
      else if p.kind == Refresh then
        Success(k'.(refreshWaiting := false))
      else
        Success(k')
  }

  /** One cycle of a rank: the packet that leaves its data bus, if any, and its next state. */
  function Update(c: Config, k: RankState): (r: (RankState, Option<Packet>))
    requires RankShape(c, k)
    ensures RankShape(c, r.0)
    ensures r.0.banks == k.banks && r.0.isPowerDown == k.isPowerDown && r.0.refreshWaiting == k.refreshWaiting
  {
    var left := Dec(k.dataLeft);
    var done := if k.outgoing.Some? && left == 0 then k.outgoing else None;
    var k1 := if k.outgoing.Some? then
                k.(dataLeft := left, outgoing := if left == 0 then None else k.outgoing)
              else k;
    var waiting := DecAll(k.readCountdown);
    if |waiting| > 0 && waiting[0] == 0 then
      (k1.(outgoing := Some(k.readReturn[0]), dataLeft := c.Burst(),
           readReturn := k.readReturn[1..], readCountdown := waiting[1..]), done)
    else
      (k1.(readCountdown := waiting), done)
  }

  function DownBanks(c: Config, banks: seq<BankState>, now: int): (b: seq<BankState>)
    ensures |b| == |banks|
    ensures forall i :: 0 <= i < |b| ==> b[i] == banks[i].(status := Status.PowerDown, nextPowerUp := now + c.tCKE)
  {
    seq(|banks|, i requires 0 <= i < |banks| => banks[i].(status := Status.PowerDown, nextPowerUp := now + c.tCKE))
  }

  function UpBanks(c: Config, banks: seq<BankState>, now: int): (b: seq<BankState>)
    ensures |b| == |banks|
    ensures forall i :: 0 <= i < |b| ==> b[i] == banks[i].(status := Idle, nextActivate := now + c.tXP)
  {
    seq(|banks|, i requires 0 <= i < |banks| => banks[i].(status := Idle, nextActivate := now + c.tXP))
  }

  function PowerDown(c: Config, k: RankState, now: int): (r: Result<RankState, Exit>)
    requires RankShape(c, k)
    ensures r.Success? ==> RankShape(c, r.value)
  {
    if exists i :: 0 <= i < |k.banks| && k.banks[i].status != Idle then Failure(PowerDownWhileBusy)
    else
      Success(k.(isPowerDown := true,
                 banks := DownBanks(c, k.banks, now)))
  }

  function PowerUp(c: Config, k: RankState, now: int): (r: Result<RankState, Exit>)
    requires RankShape(c, k)
    ensures r.Success? ==> RankShape(c, r.value)
  {
    if !k.isPowerDown then Failure(PowerUpWhileUp)
    else if exists i :: 0 <= i < |k.banks| && k.banks[i].nextPowerUp > now then Failure(PowerUpTooEarly)
    else
      Success(k.(isPowerDown := false,
                 banks := UpBanks(c, k.banks, now)))
  }
}
