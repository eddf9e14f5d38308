/** Configuration, packets and state of the DRAM memory system. */
module DramTypes {
  import opened Outcomes
  import opened Bits
  import opened AddressMap

  datatype RowPolicy = OpenPage | ClosePage
  datatype Queuing = PerRank | PerRankPerBank
  datatype Scheduling = RankThenBank | BankThenRank

  function Max(a: int, b: int): int {
    if a >= b then a else b
  }

  /** Decrement of a 32-bit unsigned counter, which wraps below zero. */
  function Dec(x: nat): nat {
    if x == 0 then 0xFFFF_FFFF else x - 1
  }

  function DecAll(s: seq<nat>): (d: seq<nat>)
    ensures |d| == |s| && forall i :: 0 <= i < |s| ==> d[i] == Dec(s[i])
  {
    seq(|s|, i requires 0 <= i < |s| => Dec(s[i]))
  }

  /** The value -1 stored in an unsigned rank number. */
  const NO_RANK: nat := 0xFFFF_FFFF

  datatype Config = Config(
    numRanks: nat, numBanks: nat,
    cl: nat, al: nat, bl: nat,
    tRAS: nat, tRCD: nat, tRRD: nat, tRC: nat, tRP: nat, tCCD: nat, tRTP: nat,
    tWTR: nat, tWR: nat, tRTRS: nat, tRFC: nat, tFAW: nat, tCKE: nat, tXP: nat, tCMD: nat,
    refreshStep: nat,    // (REFRESH_PERIOD/tCK)/NUM_RANKS, truncated
    refreshPeriod: nat,  // REFRESH_PERIOD/tCK, truncated
    commandDepth: nat, transactionDepth: nat, totalRowAccesses: nat,
    lowPower: bool, policy: RowPolicy, queuing: Queuing, scheduling: Scheduling,
    mapping: Mapping)
  {
    function RL(): int { cl + al }
    function WL(): int { RL() - 1 }
    function Burst(): int { bl / 2 }
    function ReadToPre(): int { al + Burst() + Max(tRTP, 2) - 2 }
    function WriteToPre(): int { WL() + Burst() + tWR }
    function ReadToWrite(): int { RL() + Burst() + tRTRS - WL() }
    function ReadAutopre(): int { al + tRTP + tRP }
    function WriteAutopre(): int { WL() + Burst() + tWR + tRP }
    function WriteToReadSame(): int { WL() + Burst() + tWTR }
    function WriteToReadOther(): int { WL() + Burst() + tRTRS - RL() }
    function ColumnGap(): int { Max(tCCD, Burst()) }

    /** Queues a rank has, and the one that holds commands for a bank. */
    function Slots(): nat { if queuing == PerRank then 1 else numBanks }
    function Slot(bank: nat): nat { if queuing == PerRank then 0 else bank }

    /** The parts of `Valid` that only bound array sizes. */
    predicate Sized() {
      && 1 <= numRanks < NO_RANK && 1 <= numBanks
      && numRanks == Pow2(mapping.rankBits) && numBanks == Pow2(mapping.bankBits)
    }

    /** Side conditions on the timing parameters under which the protocol is sound. */
    predicate Valid() {
      && Sized()
      && tCMD == 1
      && al <= tRCD && bl >= 2 && cl + al >= 2
      && tRP >= 1 && tFAW >= 1 && totalRowAccesses >= 1
      && ReadAutopre() >= ReadToPre()
      && (numRanks > 1 ==> Burst() <= 1 + tRCD - al)
      && refreshStep >= 1 && (numRanks - 1) * refreshStep < refreshPeriod
      && commandDepth < 0x1_0000_0000
    }
  }

  datatype Kind = Read | ReadP | Write | WriteP | Activate | Precharge | Refresh | Data

  predicate IsRead(k: Kind) { k.Read? || k.ReadP? }
  predicate IsWrite(k: Kind) { k.Write? || k.WriteP? }
  predicate IsColumn(k: Kind) { IsRead(k) || IsWrite(k) }

  datatype Packet = Packet(kind: Kind, address: nat, column: nat, row: nat, rank: nat, bank: nat)

  datatype TransactionKind = DataRead | DataWrite | ReturnData
  datatype Transaction = Transaction(kind: TransactionKind, address: nat)

  datatype Status = Idle | RowActive | Precharging | Refreshing | PowerDown

  datatype BankState = BankState(
    status: Status, openRow: nat,
    nextRead: int, nextWrite: int, nextActivate: int, nextPrecharge: int, nextPowerUp: int,
    lastCommand: Kind, countdown: nat)

  const FRESH_BANK := BankState(Idle, 0, 0, 0, 0, 0, 0, Read, 0)

  type Table = seq<seq<BankState>>

  datatype RankState = RankState(
    banks: seq<BankState>, isPowerDown: bool, refreshWaiting: bool,
    readReturn: seq<Packet>, readCountdown: seq<nat>,
    outgoing: Option<Packet>, dataLeft: nat)

  datatype QueueState = QueueState(
    queues: seq<seq<seq<Packet>>>,
    nextRank: nat, nextBank: nat, nextRankPre: nat, nextBankPre: nat,
    refreshRank: nat, refreshWaiting: bool,
    faw: seq<seq<nat>>, rowAccess: seq<seq<nat>>, sendAct: bool)

  datatype ControlState = ControlState(
    banks: Table, powerDown: seq<bool>,
    command: Option<Packet>, commandLeft: nat,
    data: Option<Packet>, dataLeft: nat,
    writeData: seq<Packet>, writeCountdown: seq<nat>,
    refreshCountdown: seq<nat>, refreshRank: nat,
    transactions: seq<Transaction>, pendingReads: seq<Transaction>, toReturn: seq<Transaction>)

  /** `entered` and `issued` are history: every command queued, and what each cycle popped. */
  datatype System = System(
    now: int, control: ControlState, queue: QueueState, ranks: seq<RankState>,
    pending: seq<Transaction>,
    entered: seq<Packet>, issued: seq<Option<Packet>>)

  /** The places where the simulator prints an error and exits. */
  datatype Exit =
    | IllegalRead | IllegalReadP | IllegalWrite | IllegalWriteP
    | IllegalActivate | IllegalPrecharge | IllegalRefresh
    | PowerDownWhileBusy | PowerUpWhileUp | PowerUpTooEarly
    | CommandBusCollision | DataBusCollision | QueueOverflow
    | NotData | UnknownPacket | UnknownTransaction

  /** Every packet in a queue names the rank and the bank whose queue it is in. */
  predicate Placed(c: Config, q: seq<Packet>, rank: nat, slot: nat) {
    forall i :: 0 <= i < |q| ==>
      q[i].rank == rank && q[i].bank < c.numBanks && c.Slot(q[i].bank) == slot
  }

  predicate TableShape(c: Config, banks: Table) {
    |banks| == c.numRanks && forall r :: 0 <= r < c.numRanks ==> |banks[r]| == c.numBanks
  }

  predicate QueuePlaced(c: Config, queues: seq<seq<seq<Packet>>>) {
    && |queues| == c.numRanks
    && (forall r :: 0 <= r < c.numRanks ==> |queues[r]| == c.Slots())
    && (forall r, s :: 0 <= r < c.numRanks && 0 <= s < c.Slots() ==> Placed(c, queues[r][s], r, s))
  }

  predicate QueueShape(c: Config, q: QueueState) {
    && QueuePlaced(c, q.queues)
    && q.nextRank < c.numRanks && q.nextRankPre < c.numRanks
    && q.nextBank < c.numBanks && q.nextBankPre < c.numBanks
    && (q.refreshWaiting ==> q.refreshRank < c.numRanks)
    && |q.faw| == c.numRanks && |q.rowAccess| == c.numRanks
    && (forall r :: 0 <= r < c.numRanks ==> |q.rowAccess[r]| == c.numBanks)
  }

  predicate RankShape(c: Config, k: RankState) {
    |k.banks| == c.numBanks && |k.readReturn| == |k.readCountdown|
  }

  predicate RanksShape(c: Config, ranks: seq<RankState>) {
    |ranks| == c.numRanks && forall r {:trigger ranks[r]} :: 0 <= r < c.numRanks ==> RankShape(c, ranks[r])
  }

  predicate ControlShape(c: Config, m: ControlState) {
    && TableShape(c, m.banks)
    && |m.powerDown| == c.numRanks && |m.refreshCountdown| == c.numRanks
    && m.refreshRank < c.numRanks
    && |m.writeData| == |m.writeCountdown|
    && (m.command.Some? ==> m.command.value.rank < c.numRanks && m.command.value.bank < c.numBanks)
  }

  predicate Shape(c: Config, s: System) {
    && ControlShape(c, s.control) && QueueShape(c, s.queue)
    && RanksShape(c, s.ranks)
  }
}
