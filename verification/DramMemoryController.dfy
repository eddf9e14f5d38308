/**
 * The memory controller object: its cycle updates tables, buses and queues in place and refines the phases of
 * `DramControl`.
 */
module DramMemoryController {
  import opened Outcomes
  import opened AddressMap
  import opened DramTypes
  import opened DramControl
  import opened DramRankDevice
  import opened DramCommandQueue
  import DramRank
  import DramQueue

  /** What the controller itself does in a cycle before the pop. */
  function WorkFront(c: Config, s: System): (r: Result<System, Exit>)
    requires Shape(c, s) && c.Sized()
    ensures r.Success? ==> Shape(c, r.value)
  {
    var s1 :- CommandPhase(c, TickPhase(c, s));
    var s2 :- WritePhase(c, DataPhase(c, s1));
    Success(RefreshPhase(c, s2))
  }

  /** What the controller itself does in a cycle. */
  function Work(c: Config, s: System): (r: Result<System, Exit>)
    requires Shape(c, s) && c.Sized()
    ensures r.Success? ==> Shape(c, r.value)
  {
    var s1 :- WorkFront(c, s);
    var s2 :- PopPhase(c, s1);
    var s3 :- Served(c, s2);
    Success(CountPhase(c, ReturnPhase(c, s3)))
  }

  /** How far a column command to one rank pushes back those of its own rank and of open banks of the others. */
  function Delayed(b: BankState, same: bool, sameRead: int, sameWrite: int, otherRead: int,
                   otherWrite: int): BankState {
    if same then b.(nextRead := Max(sameRead, b.nextRead), nextWrite := Max(sameWrite, b.nextWrite))
    else if b.status == RowActive
        then b.(nextRead := Max(otherRead, b.nextRead), nextWrite := Max(otherWrite, b.nextWrite))
    else b
  }

  /** What admitting a transaction does to the queues. */
  function EnqueueBoth(c: Config, v: QueueState, t: Transaction): (r: Result<QueueState, Exit>)
    requires QueueShape(c, v) && c.Sized()
    ensures r.Success? ==> QueueShape(c, r.value)
  {
    var v1 :- Enqueue(c, v, ActivateFor(c, t));
    if t.kind == ReturnData then Failure(UnknownTransaction) else Enqueue(c, v1, ColumnFor(c, t))
  }

  lemma SameTable(c: Config, t: Table, u: Table)
    requires TableShape(c, t) && TableShape(c, u)
    requires forall r, i :: 0 <= r < c.numRanks && 0 <= i < c.numBanks ==> t[r][i] == u[r][i]
    ensures t == u
  {
    forall r | 0 <= r < c.numRanks ensures t[r] == u[r] {}
  }

  ghost function Views(ranks: seq<Rank>): (v: seq<RankState>)
    reads ranks
    ensures |v| == |ranks|
  {
    if ranks == [] then [] else Views(ranks[..|ranks|-1]) + [ranks[|ranks|-1].View()]
  }

  lemma {:induction false} ViewsAt(ranks: seq<Rank>)
    ensures forall i :: 0 <= i < |ranks| ==> Views(ranks)[i] == ranks[i].View()
  {
    if ranks != [] {
      ViewsAt(ranks[..|ranks|-1]);
    }
  }

  /** One rank object for each rank of the configuration, and no two the same. */
  ghost predicate Suited(c: Config, ranks: seq<Rank>) {
    && |ranks| == c.numRanks
    && (forall i, j :: 0 <= i < j < |ranks| ==> ranks[i] != ranks[j])
    && (forall i :: 0 <= i < |ranks| ==> ranks[i].c == c)
  }

  ghost predicate ClocksShow(ranks: seq<Rank>, now: int)
    reads ranks
  {
    forall i :: 0 <= i < |ranks| ==> ranks[i].currentClockCycle == now
  }

  class MemoryController {
    const c: Config
    const commandQueue: CommandQueue
    const ranks: seq<Rank>
    var bankStates: Table
    var powerDown: seq<bool>
    var outgoingCmdPacket: Option<Packet>
    var cmdCyclesLeft: nat
    var outgoingDataPacket: Option<Packet>
    var dataCyclesLeft: nat
    var writeDataToSend: seq<Packet>
    var writeDataCountdown: seq<nat>
    var refreshCountdown: seq<nat>
    var refreshRank: nat
    var transactionQueue: seq<Transaction>
    var pendingReadTransactions: seq<Transaction>
    var returnTransaction: seq<Transaction>
    var currentClockCycle: int
    /** Every command queued so far, and what each cycle popped. */
    ghost var entered: seq<Packet>
    ghost var issued: seq<Option<Packet>>

    ghost function Control(): ControlState
      reads this
    {
      ControlState(bankStates, powerDown, outgoingCmdPacket, cmdCyclesLeft, outgoingDataPacket, dataCyclesLeft,
                   writeDataToSend, writeDataCountdown, refreshCountdown, refreshRank,
                   transactionQueue, pendingReadTransactions, returnTransaction)
    }

    /** The system this controller is part of, given the transactions that wait outside it. */
    ghost function View(waiting: seq<Transaction>): System
      reads this, commandQueue, ranks
    {
      System(currentClockCycle, Control(), commandQueue.View(), Views(ranks), waiting, entered, issued)
    }

    ghost predicate Valid()
      reads this, commandQueue, ranks
    {
      && c.Sized() && commandQueue.c == c && Suited(c, ranks)
      && ControlShape(c, Control()) && QueueShape(c, commandQueue.View()) && RanksShape(c, Views(ranks))
    }

    /** All clocks show the same cycle. */
    ghost predicate ClocksAgree()
      reads this, commandQueue, ranks
    {
      commandQueue.currentClockCycle == currentClockCycle && ClocksShow(ranks, currentClockCycle)
    }

    constructor (c: Config, ranks: seq<Rank>)
      requires c.Sized() && Suited(c, ranks) && RanksShape(c, Views(ranks)) && ClocksShow(ranks, 0)
      ensures Valid() && ClocksAgree() && this.c == c && this.ranks == ranks && fresh(commandQueue)
      ensures View([]) == System(0, InitialControl(c), InitialQueue(c), Views(ranks), [], [], [])
    {
      this.c, this.ranks := c, ranks;
      commandQueue := new CommandQueue(c);
      bankStates := seq(c.numRanks, _ => seq(c.numBanks, _ => FRESH_BANK));
      powerDown := seq(c.numRanks, _ => false);
      outgoingCmdPacket, cmdCyclesLeft := None, 0;
      outgoingDataPacket, dataCyclesLeft := None, 0;
      writeDataToSend, writeDataCountdown := [], [];
      refreshCountdown, refreshRank := [], 0;
      transactionQueue, pendingReadTransactions, returnTransaction := [], [], [];
      currentClockCycle := 0;
      entered, issued := [], [];
      new;
      StaggerRefreshes();
      assert View([]) == System(0, InitialControl(c), InitialQueue(c), Views(ranks), [], [], []);
      hide Views, Stagger;
    }

    /** Staggers when each rank is due for a refresh. */
    method StaggerRefreshes()
      requires c.Sized() && refreshCountdown == []
      modifies this`refreshCountdown
      ensures refreshCountdown == InitialControl(c).refreshCountdown
    {
      for i := 0 to c.numRanks
        invariant |refreshCountdown| == i
        invariant forall j :: 0 <= j < i ==> refreshCountdown[j] == Stagger(c, j)
      {
        refreshCountdown := refreshCountdown + [c.refreshStep * (i + 1)];
      }
    }

    /** Implicit state changes of all banks. */
    method TickBanks()
      requires c.Sized() && TableShape(c, bankStates)
      modifies this`bankStates
      ensures bankStates == TickTable(c, old(bankStates))
    {
      for i := 0 to c.numRanks
        invariant TableShape(c, bankStates)
        invariant forall r, b :: 0 <= r < i && 0 <= b < c.numBanks ==>
                    bankStates[r][b] == TickBank(c, old(bankStates)[r][b])
        invariant forall r :: i <= r < c.numRanks ==> bankStates[r] == old(bankStates)[r]
      {
        for j := 0 to c.numBanks
          invariant TableShape(c, bankStates)
          invariant forall r, b :: 0 <= r < c.numRanks && 0 <= b < c.numBanks && (r < i || (r == i && b < j)) ==>
            bankStates[r][b] == TickBank(c, old(bankStates)[r][b])
          invariant forall r, b :: 0 <= r < c.numRanks && 0 <= b < c.numBanks && (r > i || (r == i && b >= j)) ==>
            bankStates[r][b] == old(bankStates)[r][b]
        {
          var b := bankStates[i][j];
          if b.countdown > 0 {
            b := b.(countdown := b.countdown - 1);
            if b.countdown == 0 {
              match b.lastCommand
              case WriteP | ReadP => b := b.(status := Precharging, lastCommand := Precharge, countdown := c.tRP);
              case Refresh | Precharge => b := b.(status := Idle);
              case _ =>
            }
          }
          bankStates := DramQueue.Put(bankStates, i, j, b);
        }
        assert forall r :: i < r < c.numRanks ==> bankStates[r] == old(bankStates)[r];
      }
      SameTable(c, bankStates, TickTable(c, old(bankStates)));
    }

    /** Push back column commands after one to `rank`. */
    method DelayColumns(rank: nat, sameRead: int, sameWrite: int, otherRead: int, otherWrite: int)
      requires c.Sized() && TableShape(c, bankStates)
      modifies this`bankStates
      ensures TableShape(c, bankStates)
      ensures forall r, b :: 0 <= r < c.numRanks && 0 <= b < c.numBanks ==>
        bankStates[r][b] == Delayed(old(bankStates)[r][b], r == rank, sameRead, sameWrite, otherRead, otherWrite)
    {
      for i := 0 to c.numRanks
        invariant TableShape(c, bankStates)
        invariant forall r, b :: 0 <= r < i && 0 <= b < c.numBanks ==>
          bankStates[r][b] == Delayed(old(bankStates)[r][b], r == rank, sameRead, sameWrite, otherRead, otherWrite)
        invariant forall r, b :: i <= r < c.numRanks && 0 <= b < c.numBanks ==>
                    bankStates[r][b] == old(bankStates)[r][b]
      {
        for j := 0 to c.numBanks
          invariant TableShape(c, bankStates)
          invariant forall r, b :: 0 <= r < c.numRanks && 0 <= b < c.numBanks && (r < i || (r == i && b < j)) ==>
            bankStates[r][b] == Delayed(old(bankStates)[r][b], r == rank, sameRead, sameWrite, otherRead, otherWrite)
          invariant forall r, b :: 0 <= r < c.numRanks && 0 <= b < c.numBanks && (r > i || (r == i && b >= j)) ==>
            bankStates[r][b] == old(bankStates)[r][b]
        {
          var b := bankStates[i][j];
          if i != rank {
            if b.status == RowActive {
              b := b.(nextRead := Max(otherRead, b.nextRead), nextWrite := Max(otherWrite, b.nextWrite));
            }
          } else {
            b := b.(nextRead := Max(sameRead, b.nextRead), nextWrite := Max(sameWrite, b.nextWrite));
          }
          bankStates := DramQueue.Put(bankStates, i, j, b);
        }
      }
    }

    /** Push back the ACTIVATEs of the other banks of a rank. */
    method DelayOtherActivates(rank: nat, bank: nat)
      requires c.Sized() && TableShape(c, bankStates) && rank < c.numRanks
      modifies this`bankStates
      ensures TableShape(c, bankStates)
      ensures forall r, b :: 0 <= r < c.numRanks && 0 <= b < c.numBanks ==>
        bankStates[r][b] == if r == rank && b != bank
                            then old(bankStates)[r][b].(nextActivate :=
                                Max(currentClockCycle + c.tRRD, old(bankStates)[r][b].nextActivate))
                            else old(bankStates)[r][b]
    {
      for j := 0 to c.numBanks
        invariant TableShape(c, bankStates)
        invariant forall r, b :: 0 <= r < c.numRanks && 0 <= b < c.numBanks ==>
          bankStates[r][b] == if r == rank && b != bank && b < j
                              then old(bankStates)[r][b].(nextActivate :=
                                  Max(currentClockCycle + c.tRRD, old(bankStates)[r][b].nextActivate))
                              else old(bankStates)[r][b]
      {
        if j != bank {
          var b := bankStates[rank][j];
          bankStates :=
              DramQueue.Put(bankStates, rank, j, b.(nextActivate := Max(currentClockCycle + c.tRRD, b.nextActivate)));
        }
      }
    }

    method RefreshBanks(rank: nat)
      requires c.Sized() && TableShape(c, bankStates) && rank < c.numRanks
      modifies this`bankStates
      ensures TableShape(c, bankStates)
      ensures forall r, b :: 0 <= r < c.numRanks && 0 <= b < c.numBanks ==>
        bankStates[r][b] == if r == rank
                            then old(bankStates)[r][b].(nextActivate := currentClockCycle + c.tRFC,
                                status := Refreshing,
                                                        lastCommand := Refresh, countdown := c.tRFC)
                            else old(bankStates)[r][b]
    {
      for j := 0 to c.numBanks
        invariant TableShape(c, bankStates)
        invariant forall r, b :: 0 <= r < c.numRanks && 0 <= b < c.numBanks ==>
          bankStates[r][b] == if r == rank && b < j
                              then old(bankStates)[r][b].(nextActivate := currentClockCycle + c.tRFC,
                                  status := Refreshing,
                                                          lastCommand := Refresh, countdown := c.tRFC)
                              else old(bankStates)[r][b]
      {
        bankStates := DramQueue.Put(bankStates, rank, j,
          bankStates[rank][j].(nextActivate := currentClockCycle + c.tRFC, status := Refreshing, lastCommand := Refresh,
              countdown := c.tRFC));
      }
    }

    /** Enter a read in the bank table. */
    method EnterRead(p: Packet)
      requires c.Sized() && TableShape(c, bankStates) && p.rank < c.numRanks && p.bank < c.numBanks && IsRead(p.kind)
      modifies this`bankStates
      ensures TableShape(c, bankStates)
      ensures forall r, i :: 0 <= r < c.numRanks && 0 <= i < c.numBanks ==>
        bankStates[r][i] == IssueBank(c, old(bankStates)[r][i], p, r, i, currentClockCycle)
    {
      var now, b := currentClockCycle, bankStates[p.rank][p.bank];
      bankStates := DramQueue.Put(bankStates, p.rank, p.bank,
        if p.kind == Read then b.(nextPrecharge := Max(now + c.ReadToPre(), b.nextPrecharge), lastCommand := Read)
        else b.(nextActivate := Max(now + c.ReadAutopre(), b.nextActivate), lastCommand := ReadP,
            countdown := Max(c.ReadToPre(), 0)));
      DelayColumns(p.rank, now + c.ColumnGap(), now + c.ReadToWrite(), now + c.Burst() + c.tRTRS,
          now + c.ReadToWrite());
      if p.kind == ReadP {
        BlockColumns(p.rank, p.bank);
      }
    }

    /** Enter a write in the bank table. */
    method EnterWrite(p: Packet)
      requires c.Sized() && TableShape(c, bankStates) && p.rank < c.numRanks && p.bank < c.numBanks && IsWrite(p.kind)
      modifies this`bankStates
      ensures TableShape(c, bankStates)
      ensures forall r, i :: 0 <= r < c.numRanks && 0 <= i < c.numBanks ==>
        bankStates[r][i] == IssueBank(c, old(bankStates)[r][i], p, r, i, currentClockCycle)
    {
      var now, b := currentClockCycle, bankStates[p.rank][p.bank];
      bankStates := DramQueue.Put(bankStates, p.rank, p.bank,
        if p.kind == Write then b.(nextPrecharge := Max(now + c.WriteToPre(), b.nextPrecharge), lastCommand := Write)
        else b.(nextActivate := Max(now + c.WriteAutopre(), b.nextActivate), lastCommand := WriteP,
            countdown := Max(c.WriteToPre(), 0)));
      DelayColumns(p.rank, now + c.WriteToReadSame(), now + c.ColumnGap(), now + c.WriteToReadOther(),
          now + c.Burst() + c.tRTRS);
      if p.kind == WriteP {
        BlockColumns(p.rank, p.bank);
      }
    }

    /** Keep column commands off a bank until its auto-precharge is over. */
    method BlockColumns(rank: nat, bank: nat)
      requires c.Sized() && TableShape(c, bankStates) && rank < c.numRanks && bank < c.numBanks
      modifies this`bankStates
      ensures TableShape(c, bankStates)
      ensures forall r, i :: 0 <= r < c.numRanks && 0 <= i < c.numBanks ==>
        var b := old(bankStates)[r][i];
        bankStates[r][i] == if r == rank && i == bank then b.(nextRead := b.nextActivate, nextWrite := b.nextActivate)
            else b
    {
      var own := bankStates[rank][bank];
      bankStates :=
          DramQueue.Put(bankStates, rank, bank, own.(nextRead := own.nextActivate, nextWrite := own.nextActivate));
    }

    /** Enter a popped command in the bank table. */
    method EnterCommand(p: Packet)
      requires c.Sized() && TableShape(c, bankStates) && p.rank < c.numRanks && p.bank < c.numBanks
      modifies this`bankStates
      ensures bankStates == IssueTable(c, old(bankStates), p, currentClockCycle)
    {
      var now, rank, bank := currentClockCycle, p.rank, p.bank;
      var b := bankStates[rank][bank];
      match p.kind {
      case Read | ReadP =>
        EnterRead(p);
      case Write | WriteP =>
        EnterWrite(p);
      case Activate =>
        bankStates := DramQueue.Put(bankStates, rank, bank,
          b.(status := RowActive, lastCommand := Activate, openRow := p.row,
             nextActivate := Max(now + c.tRC, b.nextActivate), nextPrecharge := Max(now + c.tRAS, b.nextPrecharge),
             nextRead := Max(now + (c.tRCD - c.al), b.nextRead), nextWrite := Max(now + (c.tRCD - c.al), b.nextWrite)));
        DelayOtherActivates(rank, bank);
      case Precharge =>
        bankStates := DramQueue.Put(bankStates, rank, bank,
          b.(status := Precharging, lastCommand := Precharge, countdown := c.tRP,
              nextActivate := Max(now + c.tRP, b.nextActivate)));
      case Refresh =>
        RefreshBanks(rank);
      case Data =>
      }
      assert forall r, i :: 0 <= r < c.numRanks && 0 <= i < c.numBanks ==>
        bankStates[r][i] == IssueBank(c, old(bankStates)[r][i], p, r, i, now);
      SameTable(c, bankStates, IssueTable(c, old(bankStates), p, now));
    }

    // -------------------------------------------------------------- the phases of a cycle

    /** Hand a packet to its rank. */
    method HandOver(p: Packet) returns (o: Outcome<Exit>)
      requires Suited(c, ranks) && RanksShape(c, Views(ranks)) && ClocksShow(ranks, currentClockCycle)
      requires p.rank < c.numRanks && p.bank < c.numBanks
      modifies ranks
      ensures ClocksShow(ranks, currentClockCycle)
      ensures var r := DramRank.Receive(c, old(Views(ranks))[p.rank], p, currentClockCycle);
              && (o.Pass? ==> r.Success? && Views(ranks) == old(Views(ranks))[p.rank := r.value])
              && (o.Fail? ==> r == Failure(o.error))
    {
      hide DramRank.Receive;
      ViewsAt(ranks);
      :- ranks[p.rank].ReceiveFromBus(p);
      ViewsAt(ranks);
      assert Views(ranks) == old(Views(ranks))[p.rank := ranks[p.rank].View()];
      o := Pass;
    }

    /** Tell a rank that a refresh is due. */
    method TellRank(r: nat)
      requires Suited(c, ranks) && RanksShape(c, Views(ranks)) && ClocksShow(ranks, currentClockCycle) && r < c.numRanks
      modifies ranks
      ensures ClocksShow(ranks, currentClockCycle)
      ensures Views(ranks) == old(Views(ranks))[r := old(Views(ranks))[r].(refreshWaiting := true)]
    {
      ViewsAt(ranks);
      ranks[r].AwaitRefresh();
      ViewsAt(ranks);
      assert Views(ranks) == old(Views(ranks))[r := ranks[r].View()];
    }

    /** The command on the bus gets one cycle closer to its rank, or arrives. */
    method DeliverCommand(ghost w: seq<Transaction>) returns (o: Outcome<Exit>)
      requires Valid() && ClocksAgree()
      modifies this`outgoingCmdPacket, this`cmdCyclesLeft, ranks
      ensures ClocksAgree()
      ensures CommandPhase(c, old(View(w))) == Done(o, View(w))
      ensures o.Pass? ==> Valid()
    {
      assert outgoingCmdPacket.Some?
             ==> outgoingCmdPacket.value.rank < c.numRanks && outgoingCmdPacket.value.bank < c.numBanks;
      hide Views, QueueShape, RanksShape, ControlShape, RankShape, Suited, ClocksShow, DramRank.Receive;
      if outgoingCmdPacket.Some? {
        cmdCyclesLeft := Dec(cmdCyclesLeft);
        if cmdCyclesLeft == 0 {
          :- HandOver(outgoingCmdPacket.value);
          outgoingCmdPacket := None;
        }
      }
      o := Pass;
    }

    /** The write burst on the data bus. Its arrival only changes the contents of the storage. */
    method MoveWriteData(ghost w: seq<Transaction>)
      requires Valid() && ClocksAgree()
      modifies this`outgoingDataPacket, this`dataCyclesLeft
      ensures Valid() && ClocksAgree() && View(w) == DataPhase(c, old(View(w)))
    {
      hide QueueShape, RanksShape, TableShape;
      if outgoingDataPacket.Some? {
        dataCyclesLeft := Dec(dataCyclesLeft);
        if dataCyclesLeft == 0 {
          outgoingDataPacket := None;
        }
      }
    }

    /** Every waiting write is one cycle closer to its data. */
    method CountWriteData()
      modifies this`writeDataCountdown
      ensures writeDataCountdown == DecAll(old(writeDataCountdown))
      ensures Control() == old(Control()).(writeCountdown := writeDataCountdown)
    {
      for i := 0 to |writeDataCountdown|
        modifies this`writeDataCountdown
        invariant |writeDataCountdown| == |old(writeDataCountdown)|
        invariant forall j :: 0 <= j < i ==> writeDataCountdown[j] == Dec(old(writeDataCountdown)[j])
        invariant forall j :: i <= j < |writeDataCountdown| ==> writeDataCountdown[j] == old(writeDataCountdown)[j]
      {
        writeDataCountdown := writeDataCountdown[i := Dec(writeDataCountdown[i])];
      }
    }

    /** The oldest write takes the data bus. */
    method StartBurst()
      requires |writeDataCountdown| == |writeDataToSend| > 0
      modifies this`outgoingDataPacket, this`dataCyclesLeft, this`writeDataToSend, this`writeDataCountdown
      ensures var m := old(Control());
              Control() == m.(data := Some(m.writeData[0]), dataLeft := Max(c.Burst(), 0),
                              writeData := m.writeData[1..], writeCountdown := m.writeCountdown[1..])
    {
      outgoingDataPacket := Some(writeDataToSend[0]);
      dataCyclesLeft := Max(c.Burst(), 0);
      writeDataCountdown := writeDataCountdown[1..];
      writeDataToSend := writeDataToSend[1..];
    }

    /** Write data whose latency has passed goes onto the data bus. */
    method IssueWriteData(ghost w: seq<Transaction>) returns (o: Outcome<Exit>)
      requires Valid() && ClocksAgree()
      modifies this`outgoingDataPacket, this`dataCyclesLeft, this`writeDataToSend, this`writeDataCountdown
      ensures ClocksAgree()
      ensures WritePhase(c, old(View(w))) == Done(o, View(w))
      ensures o.Pass? ==> Valid()
    {
      hide Views, QueueShape, RanksShape, TableShape, RankShape, Suited, ClocksShow;
      CountWriteData();
      if |writeDataCountdown| > 0 && writeDataCountdown[0] == 0 {
        if outgoingDataPacket.Some? {
          return Fail(DataBusCollision);
        }
        StartBurst();
      }
      o := Pass;
    }

    /** The next rank has its turn; this one is next due a whole period from now. */
    method NextRefresh()
      requires refreshRank < |refreshCountdown|
      modifies this`refreshCountdown, this`refreshRank
      ensures var m := old(Control());
              Control() == m.(refreshCountdown := m.refreshCountdown[m.refreshRank := c.refreshPeriod],
                              refreshRank := if m.refreshRank + 1 == c.numRanks then 0 else m.refreshRank + 1)
    {
      refreshCountdown := refreshCountdown[refreshRank := c.refreshPeriod];
      refreshRank := refreshRank + 1;
      if refreshRank == c.numRanks {
        refreshRank := 0;
      }
    }

    /** Have the queue and the rank wait for a refresh of the rank whose turn it is. */
    method AskForRefresh(ghost w: seq<Transaction>)
      requires Valid() && ClocksAgree() && RefreshDue(c, Control()).Some?
      modifies this`refreshCountdown, this`refreshRank, commandQueue, ranks
      ensures View(w) == RefreshPhase(c, old(View(w)))
      ensures Valid() && ClocksAgree()
    {
      assert refreshRank < c.numRanks == |refreshCountdown|;
      hide Views, QueueShape, RanksShape, ControlShape, RankShape, Suited, ClocksShow;
      TellRank(refreshRank);
      commandQueue.NeedRefresh(refreshRank);
      NextRefresh();
    }

    /** Ask for a refresh whose time has come, or wake a rank in time for one. */
    method CheckRefresh(ghost w: seq<Transaction>)
      requires Valid() && ClocksAgree()
      modifies this`refreshCountdown, this`refreshRank, commandQueue, ranks
      ensures View(w) == RefreshPhase(c, old(View(w)))
      ensures Valid() && ClocksAgree()
    {
      assert refreshRank < c.numRanks == |refreshCountdown| == |powerDown|;
      hide Views, QueueShape, RanksShape, ControlShape, RankShape, Suited, ClocksShow;
      if refreshCountdown[refreshRank] == 0 {
        AskForRefresh(w);
      } else if powerDown[refreshRank] && refreshCountdown[refreshRank] <= c.tXP {
        TellRank(refreshRank);
      }
    }

    /** Enter a popped command in the tables, remember its write data and put it on the command bus. */
    method SendCommand(p: Packet) returns (o: Outcome<Exit>)
      requires c.Sized() && ControlShape(c, Control()) && p.rank < c.numRanks && p.bank < c.numBanks
      modifies this`bankStates, this`writeDataToSend, this`writeDataCountdown, this`outgoingCmdPacket,
               this`cmdCyclesLeft
      ensures var m := old(Control());
              && (p.kind == Data ==> o == Fail(UnknownPacket))
              && (p.kind != Data && m.command.Some? ==> o == Fail(CommandBusCollision))
              && (p.kind != Data && m.command.None? ==>
                    && o == Pass
                    && Control() == m.(banks := IssueTable(c, m.banks, p, currentClockCycle),
                                       writeData :=
                                           if IsWrite(p.kind) then m.writeData + [p.(kind := Data)] else m.writeData,
                                       writeCountdown :=
                                           if IsWrite(p.kind) then m.writeCountdown + [Max(c.WL(), 0)]
                                           else m.writeCountdown,
                                       command := Some(p), commandLeft := c.tCMD))
    {
      hide IssueTable, TableShape;
      if p.kind == Data {
        return Fail(UnknownPacket);
      }
      if IsWrite(p.kind) {
        writeDataToSend := writeDataToSend + [p.(kind := Data)];
        writeDataCountdown := writeDataCountdown + [Max(c.WL(), 0)];
      }
      EnterCommand(p);
      if outgoingCmdPacket.Some? {
        return Fail(CommandBusCollision);
      }
      outgoingCmdPacket := Some(p);
      cmdCyclesLeft := c.tCMD;
      o := Pass;
    }

    /** Take the next command from the queue, and note what this cycle pops. */
    method PopCommand() returns (out: Option<Packet>)
      requires Valid() && ClocksAgree()
      modifies this`issued, commandQueue
      ensures commandQueue.currentClockCycle == currentClockCycle && commandQueue.Valid()
      ensures (commandQueue.View(), out) == DramQueue.Pop(c, old(commandQueue.View()), bankStates, currentClockCycle)
      ensures issued == old(issued) + [out]
    {
      hide DramQueue.Pop, Views, QueueShape, RanksShape, Suited, ClocksShow;
      out := commandQueue.Pop(bankStates);
      issued := issued + [out];
    }

    /** Pop the next command, if any, and send it. */
    method PopAndSend(ghost w: seq<Transaction>) returns (o: Outcome<Exit>)
      requires Valid() && ClocksAgree()
      modifies this`bankStates, this`writeDataToSend, this`writeDataCountdown, this`outgoingCmdPacket,
               this`cmdCyclesLeft, this`issued,
               commandQueue
      ensures ClocksAgree()
      ensures PopPhase(c, old(View(w))) == Done(o, View(w))
      ensures o.Pass? ==> Valid()
    {
      hide DramQueue.Pop, Views, TableShape, QueueShape, RanksShape, ControlShape, Suited, ClocksShow, IssueTable,
           IssueBank;
      var out := PopCommand();
      o := Pass;
      if out.Some? {
        o := SendCommand(out.value);
      }
    }

    /** Take a transaction off the list; a read is remembered until its data comes back. */
    method TakeTransaction(i: nat) returns (t: Transaction)
      requires i < |transactionQueue|
      modifies this`transactionQueue, this`pendingReadTransactions
      ensures var m := old(Control());
              && t == m.transactions[i]
              && Control() == m.(pendingReads := if t.kind == DataRead then m.pendingReads + [t] else m.pendingReads,
                                 transactions := m.transactions[..i] + m.transactions[i+1..])
    {
      t := transactionQueue[i];
      if t.kind == DataRead {
        pendingReadTransactions := pendingReadTransactions + [t];
      }
      transactionQueue := transactionQueue[..i] + transactionQueue[i+1..];
    }

    /** Queue the ACTIVATE and the column command of a transaction. */
    method EnqueuePair(t: Transaction) returns (o: Outcome<Exit>)
      requires c.Sized() && commandQueue.c == c && commandQueue.Valid()
      modifies commandQueue
      ensures commandQueue.currentClockCycle == old(commandQueue.currentClockCycle)
      ensures EnqueueBoth(c, old(commandQueue.View()), t) == Done(o, commandQueue.View())
      ensures o.Pass? ==> commandQueue.Valid()
    {
      hide QueueShape;
      var rank, bank, row, col := AddressMapping(c.mapping, t.address);
      var act := Packet(Activate, t.address, col, row, rank, bank);
      o := commandQueue.Enqueue(act);
      if o.Pass? {
        if t.kind == ReturnData {
          o := Fail(UnknownTransaction);
        } else {
          o := commandQueue.Enqueue(act.(kind :=
              if t.kind == DataRead then (if c.policy == OpenPage then Read else ReadP)
                                                 else (if c.policy == OpenPage then Write else WriteP)));
        }
      }
    }

    /** One transaction leaves the list and enters the command queue as an ACTIVATE and a column command. */
    method AdmitOne(i: nat, ghost w: seq<Transaction>) returns (o: Outcome<Exit>)
      requires Valid() && ClocksAgree() && i < |transactionQueue|
      modifies this`transactionQueue, this`pendingReadTransactions, this`entered, commandQueue
      ensures ClocksAgree()
      ensures Admit(c, old(View(w)), i) == Done(o, View(w))
      ensures o.Pass? ==> Valid()
    {
      hide Views, TableShape, QueueShape, RanksShape, Suited, ClocksShow, ActivateFor, ColumnFor;
      var t := TakeTransaction(i);
      o := EnqueuePair(t);
      entered := entered + [ActivateFor(c, t), ColumnFor(c, t)];
    }

    /** Go through the waiting transactions; an admitted one is erased and the index still moves on. */
    method AdmitTransactions(ghost w: seq<Transaction>) returns (o: Outcome<Exit>)
      requires Valid() && ClocksAgree()
      modifies this`transactionQueue, this`pendingReadTransactions, this`entered, commandQueue
      ensures ClocksAgree()
      ensures AdmitPhase(c, old(View(w)), 0) == Done(o, View(w))
      ensures o.Pass? ==> Valid()
    {
      hide Views, TableShape, QueueShape, RanksShape, ControlShape, Suited, ClocksShow, Admit, HasRoomFor, Locate;
      var i := 0;
      while i < |transactionQueue|
        invariant Valid() && ClocksAgree()
        invariant AdmitPhase(c, old(View(w)), 0) == AdmitPhase(c, View(w), i)
      {
        var rank, bank, row, col := AddressMapping(c.mapping, transactionQueue[i].address);
        var room := commandQueue.HasRoomFor(2, rank, bank);
        if room {
          o := AdmitOne(i, w);
          if o.Fail? {
            return;
          }
        }
        i := i + 1;
      }
      o := Pass;
    }

    /** All banks of a rank are idle in the controller's table. */
    method AllBanksIdle(r: nat) returns (yes: bool)
      requires c.Sized() && TableShape(c, bankStates) && r < c.numRanks
      ensures yes == AllIdle(bankStates[r])
    {
      yes := true;
      for j := 0 to c.numBanks
        invariant yes == forall i :: 0 <= i < j ==> bankStates[r][i].status == Idle
      {
        if bankStates[r][j].status != Idle {
          yes := false;
        }
      }
    }

    /** Note in the table that a rank powers down. */
    method NoteDown(r: nat)
      requires c.Sized() && TableShape(c, bankStates) && r < c.numRanks == |powerDown|
      modifies this`powerDown, this`bankStates
      ensures var m := old(Control());
              Control() == m.(powerDown := m.powerDown[r := true],
                  banks := m.banks[r := DramRank.DownBanks(c, m.banks[r], currentClockCycle)])
    {
      powerDown := powerDown[r := true];
      var row := bankStates[r];
      for j := 0 to c.numBanks
        invariant |row| == c.numBanks
        invariant forall i :: 0 <= i < j ==>
                    row[i] == bankStates[r][i].(status := Status.PowerDown, nextPowerUp := currentClockCycle + c.tCKE)
        invariant forall i :: j <= i < c.numBanks ==> row[i] == bankStates[r][i]
      {
        row := row[j := row[j].(status := Status.PowerDown, nextPowerUp := currentClockCycle + c.tCKE)];
      }
      assert row == DramRank.DownBanks(c, bankStates[r], currentClockCycle);
      bankStates := bankStates[r := row];
    }

    /** Note in the table that a rank powers up. */
    method NoteUp(r: nat)
      requires c.Sized() && TableShape(c, bankStates) && r < c.numRanks == |powerDown|
      modifies this`powerDown, this`bankStates
      ensures var m := old(Control());
              Control() == m.(powerDown := m.powerDown[r := false],
                  banks := m.banks[r := DramRank.UpBanks(c, m.banks[r], currentClockCycle)])
    {
      powerDown := powerDown[r := false];
      var row := bankStates[r];
      for j := 0 to c.numBanks
        invariant |row| == c.numBanks
        invariant forall i :: 0 <= i < j ==>
                    row[i] == bankStates[r][i].(status := Idle, nextActivate := currentClockCycle + c.tXP)
        invariant forall i :: j <= i < c.numBanks ==> row[i] == bankStates[r][i]
      {
        row := row[j := row[j].(status := Idle, nextActivate := currentClockCycle + c.tXP)];
      }
      assert row == DramRank.UpBanks(c, bankStates[r], currentClockCycle);
      bankStates := bankStates[r := row];
    }

    method PowerRankDown(r: nat) returns (o: Outcome<Exit>)
      requires Suited(c, ranks) && RanksShape(c, Views(ranks)) && ClocksShow(ranks, currentClockCycle) && r < c.numRanks
      modifies ranks
      ensures ClocksShow(ranks, currentClockCycle)
      ensures var k := DramRank.PowerDown(c, old(Views(ranks))[r], currentClockCycle);
              && (o.Pass? ==> k.Success? && Views(ranks) == old(Views(ranks))[r := k.value])
              && (o.Fail? ==> k == Failure(o.error))
    {
      hide DramRank.PowerDown;
      ViewsAt(ranks);
      o := ranks[r].PowerDown();
      ViewsAt(ranks);
      assert Views(ranks) == old(Views(ranks))[r := ranks[r].View()];
    }

    method PowerRankUp(r: nat) returns (o: Outcome<Exit>)
      requires Suited(c, ranks) && RanksShape(c, Views(ranks)) && ClocksShow(ranks, currentClockCycle) && r < c.numRanks
      modifies ranks
      ensures ClocksShow(ranks, currentClockCycle)
      ensures var k := DramRank.PowerUp(c, old(Views(ranks))[r], currentClockCycle);
              && (o.Pass? ==> k.Success? && Views(ranks) == old(Views(ranks))[r := k.value])
              && (o.Fail? ==> k == Failure(o.error))
    {
      hide DramRank.PowerUp;
      ViewsAt(ranks);
      o := ranks[r].PowerUp();
      ViewsAt(ranks);
      assert Views(ranks) == old(Views(ranks))[r := ranks[r].View()];
    }

    /** Power down a rank that has nothing to do, if all its banks are idle. */
    method RestRank(r: nat, ghost w: seq<Transaction>) returns (o: Outcome<Exit>)
      requires Valid() && ClocksAgree() && r < c.numRanks
      requires RankEmpty(c, commandQueue.View(), r) && !Views(ranks)[r].refreshWaiting
      modifies this`powerDown, this`bankStates, ranks
      ensures ClocksAgree()
      ensures PowerRank(c, old(View(w)), r) == Done(o, View(w))
      ensures o.Pass? ==> Valid()
    {
      assert TableShape(c, bankStates) && |powerDown| == c.numRanks;
      hide Views, TableShape, QueueShape, RanksShape, ControlShape, Suited, ClocksShow, RankEmpty, DramRank.PowerDown,
           AllIdle;
      var allIdle := AllBanksIdle(r);
      o := Pass;
      if allIdle {
        o := PowerRankDown(r);
        NoteDown(r);
      }
    }

    /** Power up a rank that has something to do, once it may wake. */
    method WakeRank(r: nat, ghost w: seq<Transaction>) returns (o: Outcome<Exit>)
      requires Valid() && ClocksAgree() && r < c.numRanks
      requires !RankEmpty(c, commandQueue.View(), r) || Views(ranks)[r].refreshWaiting
      modifies this`powerDown, this`bankStates, ranks
      ensures ClocksAgree()
      ensures PowerRank(c, old(View(w)), r) == Done(o, View(w))
      ensures o.Pass? ==> Valid()
    {
      assert TableShape(c, bankStates) && |powerDown| == c.numRanks && |bankStates[r]| == c.numBanks;
      hide Views, TableShape, QueueShape, RanksShape, ControlShape, Suited, ClocksShow, RankEmpty, DramRank.PowerUp,
           AllIdle;
      o := Pass;
      if currentClockCycle >= bankStates[r][0].nextPowerUp && powerDown[r] {
        o := PowerRankUp(r);
        NoteUp(r);
      }
    }

    /** Power down an idle rank, or power up one that has work. */
    method PowerOne(r: nat, ghost w: seq<Transaction>) returns (o: Outcome<Exit>)
      requires Valid() && ClocksAgree() && r < c.numRanks
      modifies this`powerDown, this`bankStates, ranks
      ensures ClocksAgree()
      ensures PowerRank(c, old(View(w)), r) == Done(o, View(w))
      ensures o.Pass? ==> Valid()
    {
      ViewsAt(ranks);
      assert r < |ranks|;
      hide Views, TableShape, QueueShape, RanksShape, ControlShape, Suited, ClocksShow, RankEmpty, PowerRank;
      var empty := commandQueue.IsEmpty(r);
      if empty && !ranks[r].refreshWaiting {
        o := RestRank(r, w);
      } else {
        o := WakeRank(r, w);
      }
    }

    method PowerRanks(ghost w: seq<Transaction>) returns (o: Outcome<Exit>)
      requires Valid() && ClocksAgree()
      modifies this`powerDown, this`bankStates, ranks
      ensures ClocksAgree()
      ensures PowerPhase(c, old(View(w)), 0) == Done(o, View(w))
      ensures o.Pass? ==> Valid()
    {
      hide Views, TableShape, QueueShape, RanksShape, ControlShape, Suited, ClocksShow, PowerRank;
      var r := 0;
      while r < c.numRanks
        invariant r <= c.numRanks && Valid() && ClocksAgree()
        invariant PowerPhase(c, old(View(w)), 0) == PowerPhase(c, View(w), r)
      {
        if c.lowPower {
          o := PowerOne(r, w);
          if o.Fail? {
            return;
          }
        }
        r := r + 1;
      }
      o := Pass;
    }

    /** Hand the oldest piece of read data to the processor, as the answer to the first read waiting for its address. */
    method ReturnReadData(ghost w: seq<Transaction>) returns (answered: Option<Transaction>)
      requires Valid() && ClocksAgree()
      modifies this`pendingReadTransactions, this`returnTransaction
      ensures Valid() && ClocksAgree() && View(w) == ReturnPhase(c, old(View(w)))
      ensures var m := old(Control());
              answered == if m.toReturn == [] then None
                          else var k := FirstPending(m.pendingReads, m.toReturn[0].address, 0);
                               if k < |m.pendingReads| then Some(m.pendingReads[k]) else None
    {
      hide Views, TableShape, QueueShape, RanksShape, Suited, ClocksShow;
      answered := None;
      if |returnTransaction| > 0 {
        var address := returnTransaction[0].address;
        var i := 0;
        while i < |pendingReadTransactions| && pendingReadTransactions[i].address != address
          invariant i <= |pendingReadTransactions|
          invariant FirstPending(pendingReadTransactions, address, 0)
                    == FirstPending(pendingReadTransactions, address, i)
        {
          i := i + 1;
        }
        if i < |pendingReadTransactions| {
          answered := Some(pendingReadTransactions[i]);
          pendingReadTransactions := pendingReadTransactions[..i] + pendingReadTransactions[i+1..];
        }
        returnTransaction := returnTransaction[1..];
      }
    }

    method CountDown(ghost w: seq<Transaction>)
      requires Valid() && ClocksAgree()
      modifies this`refreshCountdown
      ensures Valid() && ClocksAgree() && View(w) == CountPhase(c, old(View(w)))
    {
      hide Views, TableShape, QueueShape, RanksShape, Suited, ClocksShow;
      for i := 0 to c.numRanks
        invariant |refreshCountdown| == c.numRanks
        invariant forall j :: 0 <= j < i ==> refreshCountdown[j] == Dec(old(refreshCountdown)[j])
        invariant forall j :: i <= j < c.numRanks ==> refreshCountdown[j] == old(refreshCountdown)[j]
      {
        refreshCountdown := refreshCountdown[i := Dec(refreshCountdown[i])];
      }
      assert refreshCountdown == DecAll(old(refreshCountdown));
    }

    /** The bank table one cycle on. */
    method Tick(ghost w: seq<Transaction>)
      requires Valid() && ClocksAgree()
      modifies this`bankStates
      ensures Valid() && ClocksAgree() && View(w) == TickPhase(c, old(View(w)))
    {
      hide Views, QueueShape, RanksShape, Suited, ClocksShow, TickTable, TickBank;
      TickBanks();
    }

    /** The part of a cycle before the pop. */
    method UpdateFront(ghost w: seq<Transaction>) returns (o: Outcome<Exit>)
      requires Valid() && ClocksAgree()
      modifies this, commandQueue, ranks
      ensures currentClockCycle == old(currentClockCycle) && ClocksAgree()
      ensures WorkFront(c, old(View(w))) == Done(o, View(w))
      ensures o.Pass? ==> Valid()
    {
      hide Views, QueueShape, RanksShape, ControlShape, Suited, ClocksShow, TickPhase, CommandPhase, DataPhase,
           WritePhase, RefreshPhase;
      Tick(w);
      o := DeliverCommand(w);
      if o.Pass? {
        MoveWriteData(w);
        o := IssueWriteData(w);
        if o.Pass? {
          CheckRefresh(w);
        }
      }
    }

    /** New transactions and power. */
    method Serve(ghost w: seq<Transaction>) returns (o: Outcome<Exit>)
      requires Valid() && ClocksAgree()
      modifies this, commandQueue, ranks
      ensures currentClockCycle == old(currentClockCycle) && ClocksAgree()
      ensures Served(c, old(View(w))) == Done(o, View(w))
      ensures o.Pass? ==> Valid()
    {
      hide Views, QueueShape, RanksShape, ControlShape, Suited, ClocksShow, AdmitPhase, PowerPhase;
      o := AdmitTransactions(w);
      if o.Pass? {
        o := PowerRanks(w);
      }
    }

    /** Returned data and refresh counters. */
    method ReturnAndCount(ghost w: seq<Transaction>)
      requires Valid() && ClocksAgree()
      modifies this
      ensures currentClockCycle == old(currentClockCycle)
      ensures Valid() && ClocksAgree() && View(w) == CountPhase(c, ReturnPhase(c, old(View(w))))
    {
      hide Views, QueueShape, RanksShape, ControlShape, Suited, ClocksShow, ReturnPhase, CountPhase;
      var _ := ReturnReadData(w);
      CountDown(w);
    }

    /** The controller's whole cycle. The queue's clock steps here, the other clocks outside. */
    method Update(ghost w: seq<Transaction>) returns (o: Outcome<Exit>)
      requires Valid() && ClocksAgree()
      modifies this, commandQueue, ranks
      ensures currentClockCycle == old(currentClockCycle) && ClocksShow(ranks, currentClockCycle)
      ensures Work(c, old(View(w))) == Done(o, View(w))
      ensures o.Pass? ==> Valid() && commandQueue.currentClockCycle == currentClockCycle + 1
    {
      hide Views, QueueShape, RanksShape, ControlShape, Suited, ClocksShow, WorkFront, PopPhase, Served, ReturnPhase,
           CountPhase;
      o := UpdateFront(w);
      if o.Pass? {
        o := PopAndSend(w);
        if o.Pass? {
          o := Serve(w);
          if o.Pass? {
            ReturnAndCount(w);
            commandQueue.Step();
          }
        }
      }
    }

    /** A packet of read data taken off a rank's data bus. */
    method ReceiveFromBus(p: Packet) returns (o: Outcome<Exit>)
      modifies this`returnTransaction
      ensures ReceiveData(old(Control()), p) == Done(o, Control())
    {
      if p.kind != Data {
        return Fail(NotData);
      }
      returnTransaction := returnTransaction + [Transaction(ReturnData, p.address)];
      o := Pass;
    }

    predicate WillAcceptTransaction()
      reads this
    {
      |transactionQueue| < c.transactionDepth
    }

    /** A request, if there is room for it. */
    method AddTransaction(t: Transaction) returns (taken: bool)
      modifies this`transactionQueue
      ensures taken == old(WillAccept(c, Control()))
      ensures Control() == if taken then old(Control()).(transactions := old(Control()).transactions + [t])
              else old(Control())
    {
      taken := WillAcceptTransaction();
      if taken {
        transactionQueue := transactionQueue + [t];
      }
    }

    method Step()
      modifies this`currentClockCycle
      ensures currentClockCycle == old(currentClockCycle) + 1
    {
      currentClockCycle := currentClockCycle + 1;
    }
  }
}
