/** A rank: its own bank table, checked against every command, and the reads on their way back. */
module DramRankDevice {
  import opened Outcomes
  import opened DramTypes
  import DramRank

  class Rank {
    const c: Config
    var bankStates: seq<BankState>
    var isPowerDown: bool
    var refreshWaiting: bool
    var readReturnPacket: seq<Packet>
    var readReturnCountdown: seq<nat>
    var outgoingDataPacket: Option<Packet>
    var dataCyclesLeft: nat
    var currentClockCycle: int

    ghost predicate Valid()
      reads this
    {
      RankShape(c, View())
    }

    /** The value this object holds. */
    ghost function View(): RankState
      reads this
    {
      RankState(bankStates, isPowerDown, refreshWaiting, readReturnPacket, readReturnCountdown, outgoingDataPacket,
          dataCyclesLeft)
    }

    constructor (c: Config)
      requires c.Sized()
      ensures Valid() && this.c == c && currentClockCycle == 0
      ensures View() == RankState(seq(c.numBanks, _ => FRESH_BANK), false, false, [], [], None, 0)
    {
      this.c := c;
      bankStates := seq(c.numBanks, _ => FRESH_BANK);
      isPowerDown, refreshWaiting := false, false;
      readReturnPacket, readReturnCountdown := [], [];
      outgoingDataPacket, dataCyclesLeft := None, 0;
      currentClockCycle := 0;
    }

    /** Push back both next column command times of all banks. */
    method DelayColumns(nextRead: int, nextWrite: int)
      modifies this`bankStates
      ensures |bankStates| == |old(bankStates)|
      ensures forall i :: 0 <= i < |bankStates| ==>
        bankStates[i] == old(bankStates)[i].(nextRead := Max(old(bankStates)[i].nextRead, nextRead),
                                             nextWrite := Max(old(bankStates)[i].nextWrite, nextWrite))
    {
      for i := 0 to |bankStates|
        invariant |bankStates| == |old(bankStates)|
        invariant forall j :: i <= j < |bankStates| ==> bankStates[j] == old(bankStates)[j]
        invariant forall j :: 0 <= j < i ==>
          bankStates[j] == old(bankStates)[j].(nextRead := Max(old(bankStates)[j].nextRead, nextRead),
                                               nextWrite := Max(old(bankStates)[j].nextWrite, nextWrite))
      {
        var b := bankStates[i];
        bankStates :=
            bankStates[i := b.(nextRead := Max(b.nextRead, nextRead), nextWrite := Max(b.nextWrite, nextWrite))];
      }
    }

    /** A write with auto-precharge goes round all banks, but it is the packet's bank that it updates each time. */
    method DelayOwnColumns(bank: nat)
      requires bank < |bankStates|
      modifies this`bankStates
      ensures var b := old(bankStates)[bank];
              bankStates == old(bankStates)[bank := b.(nextWrite := Max(b.nextWrite, currentClockCycle + c.ColumnGap()),
                                                       nextRead :=
                                                           Max(b.nextRead, currentClockCycle + c.WriteToReadSame()))]
    {
      ghost var b := bankStates[bank];
      ghost var later := b.(nextWrite := Max(b.nextWrite, currentClockCycle + c.ColumnGap()),
                            nextRead := Max(b.nextRead, currentClockCycle + c.WriteToReadSame()));
      for i := 0 to |bankStates|
        modifies this`bankStates
        invariant |bankStates| == |old(bankStates)|
        invariant bankStates == if i == 0 then old(bankStates) else old(bankStates)[bank := later]
      {
        var own := bankStates[bank];
        bankStates := bankStates[bank := own.(nextWrite := Max(own.nextWrite, currentClockCycle + c.ColumnGap()),
                                              nextRead := Max(own.nextRead, currentClockCycle + c.WriteToReadSame()))];
      }
    }

    method DelayOtherActivates(bank: nat)
      requires bank < |bankStates|
      modifies this`bankStates
      ensures |bankStates| == |old(bankStates)|
      ensures forall i :: 0 <= i < |bankStates| ==>
        bankStates[i] == if i == bank then old(bankStates)[i]
                         else old(bankStates)[i].(nextActivate :=
                             Max(old(bankStates)[i].nextActivate, currentClockCycle + c.tRRD))
    {
      for i := 0 to |bankStates|
        modifies this`bankStates
        invariant |bankStates| == |old(bankStates)|
        invariant forall j :: i <= j < |bankStates| ==> bankStates[j] == old(bankStates)[j]
        invariant forall j :: 0 <= j < i ==>
          bankStates[j] == if j == bank then old(bankStates)[j]
                           else old(bankStates)[j].(nextActivate :=
                               Max(old(bankStates)[j].nextActivate, currentClockCycle + c.tRRD))
      {
        if i != bank {
          bankStates :=
              bankStates[i :=
              bankStates[i].(nextActivate := Max(bankStates[i].nextActivate, currentClockCycle + c.tRRD))];
        }
      }
    }

    /** A refresh checks each bank on its way through them. */
    method RefreshBanks() returns (o: Outcome<Exit>)
      modifies this`bankStates
      ensures o.Pass? <==> forall i :: 0 <= i < |old(bankStates)| ==> old(bankStates)[i].status == Idle
      ensures o.Fail? ==> o.error == IllegalRefresh
      ensures |bankStates| == |old(bankStates)|
      ensures o.Pass? ==> forall i :: 0 <= i < |bankStates| ==>
        bankStates[i] == old(bankStates)[i].(nextActivate := currentClockCycle + c.tRFC)
    {
      for i := 0 to |bankStates|
        modifies this`bankStates
        invariant |bankStates| == |old(bankStates)|
        invariant forall j :: i <= j < |bankStates| ==> bankStates[j] == old(bankStates)[j]
        invariant forall j :: 0 <= j < i ==>
          old(bankStates)[j].status == Idle
              && bankStates[j] == old(bankStates)[j].(nextActivate := currentClockCycle + c.tRFC)
      {
        if bankStates[i].status != Idle {
          return Fail(IllegalRefresh);
        }
        bankStates := bankStates[i := bankStates[i].(nextActivate := currentClockCycle + c.tRFC)];
      }
      o := Pass;
    }

    /** Start the read latency of a read that has been accepted. */
    method QueueRead(p: Packet)
      modifies this`readReturnPacket, this`readReturnCountdown
      ensures readReturnPacket == old(readReturnPacket) + [p.(kind := Data)]
      ensures readReturnCountdown == old(readReturnCountdown) + [c.RL()]
    {
      readReturnPacket := readReturnPacket + [p.(kind := Data)];
      readReturnCountdown := readReturnCountdown + [c.RL()];
    }

    /** A command or write data arriving over a bus. */
    method ReceiveFromBus(p: Packet) returns (o: Outcome<Exit>)
      requires Valid() && p.bank < c.numBanks
      modifies this
      ensures currentClockCycle == old(currentClockCycle)
      ensures o.Pass? ==> Valid()
      ensures DramRank.Receive(c, old(View()), p, currentClockCycle) == Done(o, View())
    {
      var now := currentClockCycle;
      var b := bankStates[p.bank];
      match p.kind {
      case Read =>
        if b.status != RowActive || now < b.nextRead || p.row != b.openRow {
          return Fail(IllegalRead);
        }
        bankStates := bankStates[p.bank := b.(nextPrecharge := Max(b.nextPrecharge, now + c.ReadToPre()))];
        DelayColumns(now + c.ColumnGap(), now + c.ReadToWrite());
        QueueRead(p);
      case ReadP =>
        if b.status != RowActive || now < b.nextRead || p.row != b.openRow {
          return Fail(IllegalReadP);
        }
        bankStates :=
            bankStates[p.bank := b.(status := Idle, nextActivate := Max(b.nextActivate, now + c.ReadAutopre()))];
        DelayColumns(now + c.ColumnGap(), now + c.ReadToWrite());
        QueueRead(p);
      case Write =>
        if b.status != RowActive || now < b.nextWrite || p.row != b.openRow {
          return Fail(IllegalWrite);
        }
        bankStates := bankStates[p.bank := b.(nextPrecharge := Max(b.nextPrecharge, now + c.WriteToPre()))];
        DelayColumns(now + c.WriteToReadSame(), now + c.ColumnGap());
      case WriteP =>
        if b.status != RowActive || now < b.nextWrite || p.row != b.openRow {
          return Fail(IllegalWriteP);
        }
        bankStates :=
            bankStates[p.bank := b.(status := Idle, nextActivate := Max(b.nextActivate, now + c.WriteToPre()))];
        DelayOwnColumns(p.bank);
      case Activate =>
        if b.status != Idle || now < b.nextActivate {
          return Fail(IllegalActivate);
        }
        bankStates := bankStates[p.bank := b.(status := RowActive, nextActivate := now + c.tRC, openRow := p.row,
                                              nextWrite := now + (c.tRCD - c.al), nextRead := now + (c.tRCD - c.al),
                                              nextPrecharge := now + c.tRAS)];
        DelayOtherActivates(p.bank);
      case Precharge =>
        if b.status != RowActive || now < b.nextPrecharge {
          return Fail(IllegalPrecharge);
        }
        bankStates := bankStates[p.bank := b.(status := Idle, nextActivate := Max(b.nextActivate, now + c.tRP))];
      case Refresh =>
        refreshWaiting := false;
        :- RefreshBanks();
      case Data =>
      }
      o := Pass;
      assert bankStates == DramRank.BanksAfter(c, old(bankStates), p, now);
    }

    /** One cycle. The packet that comes off the data bus is handed to the controller. */
    method Update() returns (done: Option<Packet>)
      requires Valid()
      modifies this
      ensures Valid() && currentClockCycle == old(currentClockCycle)
      ensures (View(), done) == DramRank.Update(c, old(View()))
    {
      done := None;
      if outgoingDataPacket.Some? {
        dataCyclesLeft := Dec(dataCyclesLeft);
        if dataCyclesLeft == 0 {
          done, outgoingDataPacket := outgoingDataPacket, None;
        }
      }
      for i := 0 to |readReturnCountdown|
        modifies this`readReturnCountdown
        invariant |readReturnCountdown| == |old(readReturnCountdown)|
        invariant forall j :: 0 <= j < i ==> readReturnCountdown[j] == Dec(old(readReturnCountdown)[j])
        invariant forall j :: i <= j < |readReturnCountdown| ==> readReturnCountdown[j] == old(readReturnCountdown)[j]
      {
        readReturnCountdown := readReturnCountdown[i := Dec(readReturnCountdown[i])];
      }
      assert readReturnCountdown == DecAll(old(readReturnCountdown));
      if |readReturnCountdown| > 0 && readReturnCountdown[0] == 0 {
        outgoingDataPacket := Some(readReturnPacket[0]);
        dataCyclesLeft := c.Burst();
        readReturnPacket := readReturnPacket[1..];
        readReturnCountdown := readReturnCountdown[1..];
      }
    }

    method PowerDown() returns (o: Outcome<Exit>)
      requires Valid()
      modifies this
      ensures currentClockCycle == old(currentClockCycle)
      ensures o.Pass? ==> Valid()
      ensures DramRank.PowerDown(c, old(View()), currentClockCycle) == Done(o, View())
    {
      for i := 0 to c.numBanks
        modifies this`bankStates
        invariant |bankStates| == c.numBanks
        invariant forall j :: i <= j < c.numBanks ==> bankStates[j] == old(bankStates)[j]
        invariant forall j :: 0 <= j < i ==>
          && old(bankStates)[j].status == Idle
          && bankStates[j] == old(bankStates)[j].(nextPowerUp := currentClockCycle + c.tCKE, status := Status.PowerDown)
      {
        if bankStates[i].status != Idle {
          return Fail(PowerDownWhileBusy);
        }
        bankStates :=
            bankStates[i := bankStates[i].(nextPowerUp := currentClockCycle + c.tCKE, status := Status.PowerDown)];
      }
      assert bankStates == DramRank.DownBanks(c, old(bankStates), currentClockCycle);
      isPowerDown := true;
      o := Pass;
    }

    method PowerUp() returns (o: Outcome<Exit>)
      requires Valid()
      modifies this
      ensures currentClockCycle == old(currentClockCycle)
      ensures o.Pass? ==> Valid()
      ensures DramRank.PowerUp(c, old(View()), currentClockCycle) == Done(o, View())
    {
      if !isPowerDown {
        return Fail(PowerUpWhileUp);
      }
      isPowerDown := false;
      for i := 0 to c.numBanks
        modifies this`bankStates
        invariant |bankStates| == c.numBanks
        invariant forall j :: i <= j < c.numBanks ==> bankStates[j] == old(bankStates)[j]
        invariant forall j :: 0 <= j < i ==>
          && old(bankStates)[j].nextPowerUp <= currentClockCycle
          && bankStates[j] == old(bankStates)[j].(nextActivate := currentClockCycle + c.tXP, status := Idle)
      {
        if bankStates[i].nextPowerUp > currentClockCycle {
          return Fail(PowerUpTooEarly);
        }
        bankStates := bankStates[i := bankStates[i].(nextActivate := currentClockCycle + c.tXP, status := Idle)];
      }
      assert bankStates == DramRank.UpBanks(c, old(bankStates), currentClockCycle);
      o := Pass;
    }

    /** The controller tells the rank that a refresh is due. */
    method AwaitRefresh()
      requires Valid()
      modifies this`refreshWaiting
      ensures Valid() && View() == old(View()).(refreshWaiting := true)
    {
      refreshWaiting := true;
    }

    method Step()
      requires Valid()
      modifies this`currentClockCycle
      ensures Valid() && View() == old(View()) && currentClockCycle == old(currentClockCycle) + 1
    {
      currentClockCycle := currentClockCycle + 1;
    }
  }
}
