/** The memory controller and the memory system: one cycle, phase by phase, as functions of the whole state. */
module DramControl {
  import opened Outcomes
  import opened AddressMap
  import opened DramTypes
  import DramRank
  import DramQueue

  // ---------------------------------------------------------------- the controller's bank table

  /** Implicit state changes: auto-precharge, end of precharge, end of refresh. */
  function TickBank(c: Config, b: BankState): BankState {
    if b.countdown == 0 then b
    else if b.countdown > 1 then b.(countdown := b.countdown - 1)
    else
      match b.lastCommand
      case WriteP | ReadP => b.(status := Precharging, lastCommand := Precharge, countdown := c.tRP)
      case Refresh | Precharge => b.(status := Idle, countdown := 0)
      case _ => b.(countdown := 0)
  }

  function TickTable(c: Config, banks: Table): (t: Table)
    requires TableShape(c, banks)
    ensures TableShape(c, t)
    ensures forall r, i :: 0 <= r < c.numRanks && 0 <= i < c.numBanks ==> t[r][i] == TickBank(c, banks[r][i])
  {
    seq(c.numRanks, r requires 0 <= r < c.numRanks =>
      seq(c.numBanks, i requires 0 <= i < c.numBanks => TickBank(c, banks[r][i])))
  }

  /** Earliest next column commands after a read: same rank, or an open bank of another rank. */
  function AfterRead(c: Config, b: BankState, same: bool, now: int): BankState {
    if same then
      b.(nextRead := Max(now + c.ColumnGap(), b.nextRead), nextWrite := Max(now + c.ReadToWrite(), b.nextWrite))
    else if b.status == RowActive then
      b.(nextRead := Max(now + c.Burst() + c.tRTRS, b.nextRead), nextWrite := Max(now + c.ReadToWrite(), b.nextWrite))
    else b
  }

  function AfterWrite(c: Config, b: BankState, same: bool, now: int): BankState {
    if same then
      b.(nextWrite := Max(now + c.ColumnGap(), b.nextWrite), nextRead := Max(now + c.WriteToReadSame(), b.nextRead))
    else if b.status == RowActive then
      b.(nextWrite := Max(now + c.Burst() + c.tRTRS, b.nextWrite),
          nextRead := Max(now + c.WriteToReadOther(), b.nextRead))
    else b
  }

  /** The controller's entry for bank `i` of rank `r` once it has popped `p`. */
  function IssueBank(c: Config, b: BankState, p: Packet, r: nat, i: nat, now: int): BankState {
    var same := r == p.rank;
    var own := same && i == p.bank;
    match p.kind
    case Read =>
      var b1 := AfterRead(c, b, same, now);
      if own then b1.(nextPrecharge := Max(now + c.ReadToPre(), b.nextPrecharge), lastCommand := Read) else b1
    case ReadP =>
      if own then
        var next := Max(now + c.ReadAutopre(), b.nextActivate);
        b.(nextActivate := next, lastCommand := ReadP, countdown := Max(c.ReadToPre(), 0), nextRead := next,
            nextWrite := next)
      else AfterRead(c, b, same, now)
    case Write =>
      var b1 := AfterWrite(c, b, same, now);
      if own then b1.(nextPrecharge := Max(now + c.WriteToPre(), b.nextPrecharge), lastCommand := Write) else b1
    case WriteP =>
      if own then
        var next := Max(now + c.WriteAutopre(), b.nextActivate);
        b.(nextActivate := next, lastCommand := WriteP, countdown := Max(c.WriteToPre(), 0),
           nextRead := next, nextWrite := next)
      else AfterWrite(c, b, same, now)
    case Activate =>
      if own then
        b.(status := RowActive, lastCommand := Activate, openRow := p.row,
           nextActivate := Max(now + c.tRC, b.nextActivate), nextPrecharge := Max(now + c.tRAS, b.nextPrecharge),
           nextRead := Max(now + (c.tRCD - c.al), b.nextRead), nextWrite := Max(now + (c.tRCD - c.al), b.nextWrite))
      else if same then b.(nextActivate := Max(now + c.tRRD, b.nextActivate))
      else b
    case Precharge =>
      if own then
        b.(status := Precharging, lastCommand := Precharge, countdown := c.tRP,
           nextActivate := Max(now + c.tRP, b.nextActivate))
      else b
    case Refresh =>
      if same then
        b.(nextActivate := now + c.tRFC, status := Refreshing, lastCommand := Refresh, countdown := c.tRFC)
      else b
    case Data => b
  }

  function IssueTable(c: Config, banks: Table, p: Packet, now: int): (t: Table)
    requires TableShape(c, banks)
    ensures TableShape(c, t)
    ensures forall r, i :: 0 <= r < c.numRanks && 0 <= i < c.numBanks ==>
              t[r][i] == IssueBank(c, banks[r][i], p, r, i, now)
  {
    seq(c.numRanks, r requires 0 <= r < c.numRanks =>
      seq(c.numBanks, i requires 0 <= i < c.numBanks => IssueBank(c, banks[r][i], p, r, i, now)))
  }

  // ---------------------------------------------------------------- the phases of a controller cycle

  function TickPhase(c: Config, s: System): (s': System)
    requires Shape(c, s)
    ensures Shape(c, s')
  {
    s.(control := s.control.(banks := TickTable(c, s.control.banks)))
  }

  /** The command on the bus gets one cycle closer to its rank, or arrives. */
  function CommandPhase(c: Config, s: System): (r: Result<System, Exit>)
    requires Shape(c, s)
    ensures r.Success? ==> Shape(c, r.value)
  {
    var m := s.control;
    if m.command.None? then Success(s) else
    var left := Dec(m.commandLeft);
    if left > 0 then Success(s.(control := m.(commandLeft := left))) else
    var p := m.command.value;
    var k :- DramRank.Receive(c, s.ranks[p.rank], p, s.now);
    Success(s.(ranks := s.ranks[p.rank := k], control := m.(commandLeft := left, command := None)))
  }

  /** The write burst on the data bus. Its arrival only changes the contents of the storage. */
  function DataPhase(c: Config, s: System): (s': System)
    requires Shape(c, s)
    ensures Shape(c, s')
  {
    var m := s.control;
    if m.data.None? then s else
    var left := Dec(m.dataLeft);
    s.(control := m.(dataLeft := left, data := if left == 0 then None else m.data))
  }

  /** Write data whose latency has passed goes onto the data bus. */
  function WritePhase(c: Config, s: System): (r: Result<System, Exit>)
    requires Shape(c, s)
    ensures r.Success? ==> Shape(c, r.value)
  {
    var m := s.control;
    var w := DecAll(m.writeCountdown);
    if |w| == 0 || w[0] > 0 then Success(s.(control := m.(writeCountdown := w)))
    else if m.data.Some? then Failure(DataBusCollision)
    else
      Success(s.(control := m.(data := Some(m.writeData[0]), dataLeft := Max(c.Burst(), 0),
                              writeData := m.writeData[1..], writeCountdown := w[1..])))
  }

  /** The rank whose refresh counter has run out this cycle, if it is its turn. */
  function RefreshDue(c: Config, m: ControlState): Option<nat>
    requires ControlShape(c, m)
  {
    if m.refreshCountdown[m.refreshRank] == 0 then Some(m.refreshRank) else None
  }

  function RefreshPhase(c: Config, s: System): (s': System)
    requires Shape(c, s)
    ensures Shape(c, s')
  {
    var m := s.control;
    var r := m.refreshRank;
    if RefreshDue(c, m).Some? then
      s.(queue := s.queue.(refreshWaiting := true, refreshRank := r),
         ranks := s.ranks[r := s.ranks[r].(refreshWaiting := true)],
         control := m.(refreshCountdown := m.refreshCountdown[r := c.refreshPeriod],
                       refreshRank := if r + 1 == c.numRanks then 0 else r + 1))
    else if m.powerDown[r] && m.refreshCountdown[r] <= c.tXP then
      s.(ranks := s.ranks[r := s.ranks[r].(refreshWaiting := true)])
    else s
  }

  /** Enter a popped command in the bank table, remember its write data and put it on the command bus. */
  function Send(c: Config, s: System, v: QueueState, out: Option<Packet>): (r: Result<System, Exit>)
    requires Shape(c, s) && QueueShape(c, v)
    requires out.Some? ==> out.value.rank < c.numRanks && out.value.bank < c.numBanks
    ensures r.Success? ==> Shape(c, r.value)
  {
    var s1 := s.(queue := v, issued := s.issued + [out]);
    if out.None? then Success(s1) else
    var p := out.value;
    var m := s.control;
    if p.kind == Data then Failure(UnknownPacket)
    else if m.command.Some? then Failure(CommandBusCollision) else
    Success(s1.(control := m.(
      banks := IssueTable(c, m.banks, p, s.now),
      writeData := if IsWrite(p.kind) then m.writeData + [p.(kind := Data)] else m.writeData,
      writeCountdown := if IsWrite(p.kind) then m.writeCountdown + [Max(c.WL(), 0)] else m.writeCountdown,
      command := Some(p), commandLeft := c.tCMD)))
  }

  function PopPhase(c: Config, s: System): (r: Result<System, Exit>)
    requires Shape(c, s) && c.Sized()
    ensures r.Success? ==> Shape(c, r.value)
  {
    var (v, out) := DramQueue.Pop(c, s.queue, s.control.banks, s.now);
    Send(c, s, v, out)
  }

  /** Room for `n` more commands; the subtraction is unsigned. */
  predicate HasRoomFor(c: Config, v: QueueState, n: nat, rank: nat, bank: nat)
    requires QueueShape(c, v) && rank < c.numRanks && bank < c.numBanks
  {
    (c.commandDepth - |v.queues[rank][c.Slot(bank)]|) % 0x1_0000_0000_0000_0000 >= n
  }

  function Enqueue(c: Config, v: QueueState, p: Packet): (r: Result<QueueState, Exit>)
    requires QueueShape(c, v) && p.rank < c.numRanks && p.bank < c.numBanks
    ensures r.Success? ==> QueueShape(c, r.value)
  {
    var slot := c.Slot(p.bank);
    var q := v.queues[p.rank][slot] + [p];
    if |q| > c.commandDepth then Failure(QueueOverflow)
    else Success(v.(queues := DramQueue.Put(v.queues, p.rank, slot, q)))
  }

  /** The ACTIVATE and the column command a transaction breaks up into. */
  function ActivateFor(c: Config, t: Transaction): Packet {
    var l := Locate(c.mapping, t.address);
    Packet(Activate, t.address, l.col, l.row, l.rank, l.bank)
  }

  function ColumnFor(c: Config, t: Transaction): Packet {
    var kind := if t.kind == DataRead then (if c.policy == OpenPage then Read else ReadP)
                else (if c.policy == OpenPage then Write else WriteP);
    ActivateFor(c, t).(kind := kind)
  }

  /** One transaction enters the command queue. */
  function Admit(c: Config, s: System, i: nat): (r: Result<System, Exit>)
    requires Shape(c, s) && c.Sized() && i < |s.control.transactions|
    ensures r.Success? ==> Shape(c, r.value)
    ensures r.Success? ==> |r.value.control.transactions| == |s.control.transactions| - 1
  {
    var m := s.control;
    var t := m.transactions[i];
    var m1 := m.(pendingReads := if t.kind == DataRead then m.pendingReads + [t] else m.pendingReads,
                 transactions := m.transactions[..i] + m.transactions[i+1..]);
    var v1 :- Enqueue(c, s.queue, ActivateFor(c, t));
    if t.kind == ReturnData then Failure(UnknownTransaction) else
    var v2 :- Enqueue(c, v1, ColumnFor(c, t));
    Success(s.(control := m1, queue := v2, entered := s.entered + [ActivateFor(c, t), ColumnFor(c, t)]))
  }

  /** The loop over waiting transactions; an admitted one is erased and the index still moves on. */
  function AdmitPhase(c: Config, s: System, i: nat): (r: Result<System, Exit>)
    requires Shape(c, s) && c.Sized()
    ensures r.Success? ==> Shape(c, r.value)
    ensures r.Success? ==>
      && r.value.now == s.now && r.value.ranks == s.ranks && r.value.pending == s.pending && r.value.issued == s.issued
      && r.value.control
          == s.control.(transactions := r.value.control.transactions, pendingReads := r.value.control.pendingReads)
      && r.value.queue == s.queue.(queues := r.value.queue.queues)
    decreases |s.control.transactions| - i
  {
    if i >= |s.control.transactions| then Success(s) else
    var l := Locate(c.mapping, s.control.transactions[i].address);
    if HasRoomFor(c, s.queue, 2, l.rank, l.bank) then
      var s1 :- Admit(c, s, i);
      AdmitPhase(c, s1, i + 1)
    else AdmitPhase(c, s, i + 1)
  }

  predicate RankEmpty(c: Config, v: QueueState, rank: nat)
    requires QueueShape(c, v) && rank < c.numRanks
  {
    forall slot :: 0 <= slot < c.Slots() ==> v.queues[rank][slot] == []
  }

  predicate AllIdle(banks: seq<BankState>) {
    forall i :: 0 <= i < |banks| ==> banks[i].status == Idle
  }

  /** Power down an idle rank, or power up one that has work. */
  function PowerRank(c: Config, s: System, r: nat): (s': Result<System, Exit>)
    requires Shape(c, s) && c.Sized() && r < c.numRanks
    ensures s'.Success? ==> Shape(c, s'.value)
  {
    var m := s.control;
    if RankEmpty(c, s.queue, r) && !s.ranks[r].refreshWaiting then
      if AllIdle(m.banks[r]) then
        var k :- DramRank.PowerDown(c, s.ranks[r], s.now);
        Success(s.(ranks := s.ranks[r := k],
                   control :=
                       m.(powerDown := m.powerDown[r := true],
                       banks := m.banks[r := DramRank.DownBanks(c, m.banks[r], s.now)])))
      else Success(s)
    else if s.now >= m.banks[r][0].nextPowerUp && m.powerDown[r] then
      var k :- DramRank.PowerUp(c, s.ranks[r], s.now);
      Success(s.(ranks := s.ranks[r := k],
                 control :=
                     m.(powerDown := m.powerDown[r := false],
                     banks := m.banks[r := DramRank.UpBanks(c, m.banks[r], s.now)])))
    else Success(s)
  }

  function PowerPhase(c: Config, s: System, r: nat): (s': Result<System, Exit>)
    requires Shape(c, s) && c.Sized() && r <= c.numRanks
    ensures s'.Success? ==> Shape(c, s'.value)
    ensures s'.Success? ==>
      && s'.value == s.(control := s'.value.control, ranks := s'.value.ranks)
      && s'.value.control == s.control.(banks := s'.value.control.banks, powerDown := s'.value.control.powerDown)
    decreases c.numRanks - r
  {
    if r == c.numRanks || !c.lowPower then Success(s) else
    var s1 :- PowerRank(c, s, r);
    PowerPhase(c, s1, r + 1)
  }

  /** Position of the first waiting read for an address, or the length of the list. */
  function FirstPending(pending: seq<Transaction>, address: nat, i: nat): (k: nat)
    requires i <= |pending|
    ensures i <= k <= |pending|
    ensures k < |pending| ==> pending[k].address == address
    ensures forall j :: i <= j < k ==> pending[j].address != address
    decreases |pending| - i
  {
    if i == |pending| || pending[i].address == address then i else FirstPending(pending, address, i + 1)
  }

  /** Hand the oldest piece of read data to the processor. */
  function ReturnPhase(c: Config, s: System): (s': System)
    requires Shape(c, s)
    ensures Shape(c, s')
  {
    var m := s.control;
    if m.toReturn == [] then s else
    var k := FirstPending(m.pendingReads, m.toReturn[0].address, 0);
    s.(control := m.(
      pendingReads := if k < |m.pendingReads| then m.pendingReads[..k] + m.pendingReads[k+1..] else m.pendingReads,
      toReturn := m.toReturn[1..]))
  }

  function CountPhase(c: Config, s: System): (s': System)
    requires Shape(c, s)
    ensures Shape(c, s')
  {
    s.(control := s.control.(refreshCountdown := DecAll(s.control.refreshCountdown)))
  }

  // ---------------------------------------------------------------- the memory system

  /** The controller takes a packet off a rank's data bus. */
  function ReceiveData(m: ControlState, p: Packet): Result<ControlState, Exit> {
    if p.kind != Data then Failure(NotData)
    else Success(m.(toReturn := m.toReturn + [Transaction(ReturnData, p.address)]))
  }

  /** One rank's cycle; what leaves its data bus goes to the controller. */
  function RankOne(c: Config, s: System, r: nat): (s': Result<System, Exit>)
    requires Shape(c, s) && r < c.numRanks
    ensures s'.Success? ==> Shape(c, s'.value)
  {
    var (k, out) := DramRank.Update(c, s.ranks[r]);
    var s1 := s.(ranks := s.ranks[r := k]);
    if out.None? then Success(s1) else
    var m :- ReceiveData(s.control, out.value);
    Success(s1.(control := m))
  }

  function RankPhase(c: Config, s: System, r: nat): (s': Result<System, Exit>)
    requires Shape(c, s) && r <= c.numRanks
    ensures s'.Success? ==> Shape(c, s'.value)
    ensures s'.Success? ==>
      && s'.value == s.(control := s'.value.control, ranks := s'.value.ranks)
      && s'.value.control == s.control.(toReturn := s'.value.control.toReturn)
      && (forall i :: 0 <= i < r ==> s'.value.ranks[i] == s.ranks[i])
      && (forall i :: r <= i < c.numRanks ==> s'.value.ranks[i] == DramRank.Update(c, s.ranks[i]).0)
    decreases c.numRanks - r
  {
    if r == c.numRanks then Success(s) else
    var s1 :- RankOne(c, s, r);
    RankPhase(c, s1, r + 1)
  }

  predicate WillAccept(c: Config, m: ControlState) {
    |m.transactions| < c.transactionDepth
  }

  /** At most one transaction that found the controller full is handed over per cycle. */
  function PendingPhase(c: Config, s: System): (s': System)
    requires Shape(c, s)
    ensures Shape(c, s')
  {
    if s.pending != [] && WillAccept(c, s.control) then
      s.(control := s.control.(transactions := s.control.transactions + [s.pending[0]]), pending := s.pending[1..])
    else s
  }

  function StepPhase(c: Config, s: System): (s': System)
    requires Shape(c, s)
    ensures Shape(c, s')
  {
    s.(now := s.now + 1)
  }

  /** The state after the ranks have moved and the command has arrived. */
  function Arriving(c: Config, s: System): (r: Result<System, Exit>)
    requires Shape(c, s) && c.Sized()
    ensures r.Success? ==> Shape(c, r.value)
  {
    var s1 :- RankPhase(c, s, 0);
    CommandPhase(c, TickPhase(c, PendingPhase(c, s1)))
  }

  /** A cycle up to the pop: the ranks, then the controller's bank table, buses and refresh counters. */
  function Front(c: Config, s: System): (r: Result<System, Exit>)
    requires Shape(c, s) && c.Sized()
    ensures r.Success? ==> Shape(c, r.value)
  {
    var s1 :- Arriving(c, s);
    var s2 :- WritePhase(c, DataPhase(c, s1));
    Success(RefreshPhase(c, s2))
  }

  /** A cycle from the pop on, until data is returned: new transactions and power. */
  function Served(c: Config, s: System): (r: Result<System, Exit>)
    requires Shape(c, s) && c.Sized()
    ensures r.Success? ==> Shape(c, r.value)
  {
    var s1 :- AdmitPhase(c, s, 0);
    PowerPhase(c, s1, 0)
  }

  /** The rest of a cycle: returned data, counters and clocks. */
  function Finish(c: Config, s: System): (s': System)
    requires Shape(c, s)
    ensures Shape(c, s')
  {
    StepPhase(c, CountPhase(c, ReturnPhase(c, s)))
  }

  /** A cycle up to the point where read data is handed to the processor. */
  function BeforeReturn(c: Config, s: System): (r: Result<System, Exit>)
    requires Shape(c, s) && c.Sized()
    ensures r.Success? ==> Shape(c, r.value)
  {
    var s1 :- Front(c, s);
    var s2 :- PopPhase(c, s1);
    Served(c, s2)
  }

  /** One cycle of the memory system. */
  function Update(c: Config, s: System): (r: Result<System, Exit>)
    requires Shape(c, s) && c.Sized()
    ensures r.Success? ==> Shape(c, r.value)
  {
    var s1 :- BeforeReturn(c, s);
    Success(Finish(c, s1))
  }

  /** The processor asks for a read or a write. */
  function Arrive(c: Config, s: System, isWrite: bool, address: nat): (s': System)
    requires Shape(c, s)
    ensures Shape(c, s')
  {
    var t := Transaction(if isWrite then DataWrite else DataRead, address);
    if WillAccept(c, s.control) then s.(control := s.control.(transactions := s.control.transactions + [t]))
    else s.(pending := s.pending + [t])
  }

  function InitialQueue(c: Config): (v: QueueState)
    requires c.Sized()
    ensures QueueShape(c, v)
    ensures forall r :: 0 <= r < c.numRanks ==> RankEmpty(c, v, r)
  {
    QueueState(seq(c.numRanks, _ => seq(c.Slots(), _ => [])), 0, 0, 0, 0, 0, false,
               seq(c.numRanks, _ => []), seq(c.numRanks, _ => seq(c.numBanks, _ => 0)), true)
  }

  /** First refresh of rank `i`. */
  function Stagger(c: Config, i: nat): nat {
    c.refreshStep * (i + 1)
  }

  function InitialControl(c: Config): (m: ControlState)
    requires c.Sized()
    ensures ControlShape(c, m)
  {
    ControlState(seq(c.numRanks, _ => seq(c.numBanks, _ => FRESH_BANK)), seq(c.numRanks, _ => false),
                 None, 0, None, 0, [], [],
                 seq(c.numRanks, i requires 0 <= i < c.numRanks => Stagger(c, i)), 0, [], [], [])
  }

  function Initial(c: Config): (s: System)
    requires c.Sized()
    ensures Shape(c, s)
  {
    var rank := RankState(seq(c.numBanks, _ => FRESH_BANK), false, false, [], [], None, 0);
    System(0, InitialControl(c), InitialQueue(c), seq(c.numRanks, _ => rank), [], [], [])
  }

  /** What happens to a memory system over time. */
  datatype Event = Request(isWrite: bool, address: nat) | Cycle

  /** The state after a run, or the exit it came to. */
  function Exec(c: Config, events: seq<Event>): (r: Result<System, Exit>)
    requires c.Sized()
    ensures r.Success? ==> Shape(c, r.value)
  {
    if events == [] then Success(Initial(c)) else
    var s :- Exec(c, events[..|events|-1]);
    match events[|events|-1]
    case Request(isWrite, address) => Success(Arrive(c, s, isWrite, address))
    case Cycle => Update(c, s)
  }
}
