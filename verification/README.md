# A verified model of the FeS2 simulator core

FeS2 simulates an x86 processor and its memory. This project models the parts of it whose correctness is hardest to see
from the code, in the form the code has (classes that change their fields, loops over arrays, pure functions), and proves
what those parts are for.

- **DRAM protocol** (`Dram*.dfy`). The memory controller, its command queue and the ranks of DRAMSim2. The controller
  decides from its own bank table; every rank keeps a second table and stops the simulation on an illegal command. One
  cycle of the whole system is a function on values (`DramControl.Update`), a run is a sequence of requests and cycles
  (`DramControl.Exec`), and every theorem is about all runs of all configurations: both page policies, both queue
  structures, both scheduling policies, with refresh and power-down. The classes `Rank`, `CommandQueue`,
  `MemoryController` and `MemorySystem` do the same in place, and each of their methods is proved to do what the
  functions say, so that the theorems hold of them too (`DramMemorySystem.Run`). What the functions decide is fixed without
  them: the choice of a pop by what may be sent (`DramDecision`), the bank tables by the commands sent before
  (`DramTimes`, `DramLedger`, `DramReady`, and `DramAcceptance` for a rank on its own), power by what a rank has to do
  (`DramPower`), data by when and in which order the commands for it were sent (`DramDelivery`, `DramReplies`).
- **Multi-precision arithmetic** (`Mp*.dfy`). Comparison, addition, subtraction and multiplication of the math library's
  radix 2^24 digit arrays, with the accuracy their comments promise.
- **Rounding** (`Binary64.dfy`). `floor`, `ceil`, `trunc`, `round` and `ilogb` on the two words of a binary64 number
  (IEEE 754-2008, sections 3.4 and 5.9). Values are integers in units fine enough for every number, so nothing is
  rounded in the proofs.
- **x86 operands** (`X86*.dfy`). From prefix, ModRM, SIB and displacement bytes to micro-operations, and what these do to
  a machine: the access is at segment base plus the address the bytes of the operand define (Intel SDM volume 2A, sections
  2.1.5 and 2.2.1.6), before that is cut to the address size.
- **Event queue** (`Event*.dfy`). A doubly linked list of events against a map from cycles to waiters, and whole runs of it.
- **Store forwarding words** (`DoubleWords.dfy`). Masked partial words against a byte-addressed memory.
- **Priority heap** (`HeapKeys.dfy`, `PriorityHeap.dfy`, `GrowableVector.dfy`). A heap in a growing vector, for any total
  preorder.
- **Address mapping** (`AddressMap.dfy`). The six ways to cut a physical address into rank, bank, row and column.

## Side conditions

The DRAM theorems hold for configurations that satisfy `Config.Valid`: `tCMD = 1`, `AL <= tRCD`, `BL >= 2`, `CL + AL >= 2`,
`tRP >= 1`, `tFAW >= 1`, `TOTAL_ROW_ACCESSES >= 1`, `READ_AUTOPRE_DELAY >= READ_TO_PRE_DELAY`, for several ranks
`BL/2 <= 1 + tRCD - AL`, and refresh requests of all ranks within one period. `REFRESH_PERIOD/tCK` and
`(REFRESH_PERIOD/tCK)/NUM_RANKS`, truncated, are the parameters `refreshPeriod` and `refreshStep`.

## What the code does not guarantee

- Transactions overtake each other on their way into the command queue: when one is admitted, the loop erases it and still
  moves on, so that the next one is passed over (`DramAdmission.NextIsOvertaken`). With three reads and one cycle the third
  enters before the second, in a shipped configuration too (`DramAdmission.ThirdOvertakesSecond`, `ShippedOvertakes`). A
  cycle keeps the order of arrival if and only if the first transaction has room and, once it has entered, none behind the
  second has, or the first has none and neither has any other (`DramAdmission.AdmitsInOrderIff`, and for every run
  `RunAdmitsInOrderIff`); `hasRoomFor` tells, when the cycle comes to the transactions.
- A new request goes in front of those held back since the controller was full, if there is room when it comes
  (`DramArrivals.JoinsAtTheEndIff`, and a run in which it does, `LaterOvertakesHeldBack`).
- Waking a rank replaces what its banks had to wait for before an ACTIVATE, tRC and tRRD among it, by tXP: the distances
  that `DramReady.RunFindsReadyIff` and `RunKeepsDistances` are about are those from commands since then.
- A rank's own check is not the controller's: an ACTIVATE makes its bank forget earlier column commands of the rank, a
  write with auto-precharge is noticed by its own bank only and may be followed by an ACTIVATE without tRP, and a REFRESH
  is accepted by closed banks at any time (`DramAcceptance.AcceptsIff`).
- A rank's refresh request is lost if and only if the next one, of any rank, falls due while it still waits in the command
  queue (`DramAccounts.RunAccountsRefreshes`). That happens in a run of four cycles when a refresh is due in every cycle
  (`DramAccounts.FourCyclesLoseOne`, and for a concrete configuration `DramAccounts.ARefreshIsLost`).
- `DoubleWord::overlaps` misses words that meet when the lower one ends with the last byte of the address space, where the
  sum of address and size wraps around (`DoubleWords.OverlapFailsAtTheTop`), and finds an empty word to overlap one around
  its address (`DoubleWords.EmptyWordOverlaps`). It is right exactly outside these cases (`DoubleWords.OverlapsIff`).
- `DoubleWord::overlay` and `writeValue` lose stores that `overlaps` misses (`DoubleWords.OverlayFailsAtTheTop`,
  `DoubleWords.WriteFailsAtTheTop`). An overlay is right if and only if the words are found to overlap or the target has
  already what the store has for it (`DoubleWords.OverlayIsRightIff`), a write if and only if they are found to overlap or
  agree already (`DoubleWords.WrittenOverIsRightIff`). Forwarding through any queue of stores is forwarding through those
  found (`DoubleWords.ForwardingIsFound`, `DoubleWords.ForwardingIsMemoryIff`); for masks within the size only a lower word
  that ends at the top is not (`DoubleWords.ReachedIff`). Empty stores land nothing.
- `DoubleWord::overlapMatches` says that words match which it does not find to overlap, although their masks may share an
  address and their values differ there (`DoubleWords.MatchFailsBeyondTheSize`); it is right for all values if and only if
  the words are found to overlap or the masks share no address (`DoubleWords.TestIsRightIff`).
- `DoubleWord::covers` denies that an empty word is covered, unless its address is inside the other word
  (`DoubleWords.EmptyWordIsNotCovered`, `DoubleWords.CoveredIff`).
- `DoubleWord::setAddress` gets past its own assertion exactly if the access is empty or ends before the end of the next
  line (`DoubleWords.DoubleWord.SetAddress`); `DoubleWords.TwoWholeLinesFail` is an access that does not.
- The decoder never cuts the address of a ModRM operand to 32 bits, behind an address-size prefix or in 32-bit code. In
  64-bit code that is right exactly without the prefix or for addresses of no more than 32 bits, in 32-bit code exactly for
  accesses below 2^32 (`X86Decoder.AddressSizeIff`). Decoded behind the prefix, the bytes 0x67 0x8b 0x00 load from the wrong
  address when RAX holds 2^32 (`X86Decoder.AddressSizeIsIgnored`).
- `lea` of an address relative to the instruction pointer leaves all 64 bits of it in a smaller register
  (`X86Decoder.LeaIsRightIff`, `X86Decoder.TraceDecoder.DecodeLea`).

## Model

| member | source | states |
|---|---|---|
| DramRuns.RunIsSafe | DRAMSim2/MemoryController.cpp:178-855 | in no run is any exit reached: every command popped is accepted by its rank's own table when it arrives, every power-down and power-up is accepted, neither bus is driven twice, no queue overflows, and no packet is of a kind the search or the bank update does not know; and the invariant holds after every run |
| DramRuns.UpdateKeeps | DRAMSim2/MemorySystem.cpp:372-412 | one whole cycle, ranks first, from any state of the invariant succeeds and leads to one |
| DramRuns.ArriveKeeps | DRAMSim2/MemorySystem.cpp:336-352 | a request at any time keeps the invariant, whether or not the controller has room |
| DramRuns.InitialInv | DRAMSim2/MemoryController.cpp:38-136 | the state the constructors make satisfies the invariant |
| DramRuns.AdmitKeeps | DRAMSim2/MemoryController.cpp:559-645 | admitting a transaction as an ACTIVATE and its column command keeps pairing, order, timing and room |
| DramTiming.TickKeeps | DRAMSim2/MemoryController.cpp:184-213 | the controller's implicit state changes keep the relation between its bank entry and the rank's |
| DramTiming.IssueIsAccepted | DRAMSim2/Rank.cpp:78-276 | what the controller's table allows now passes the rank's own check one bus delay later |
| DramTiming.IssueKeeps | DRAMSim2/MemoryController.cpp:316-538 | after both sides have accounted for a command their entries are related again, for the bank itself, its rank and the others |
| DramTiming.LegalMayIssue | DRAMSim2/CommandQueue.cpp:992-1057 | whatever the queue chooses, by search, refresh or precharge, is allowed by the controller's table |
| DramTiming.IssuableIsAccepted | DRAMSim2/CommandQueue.cpp:992-1057 | whatever of the queued kinds the timing test finds issuable, the rank accepts when it arrives |
| DramTiming.PopKeepsStep | DRAMSim2/MemoryController.cpp:303-557 | popping and sending keeps the two tables in step across the bus |
| DramTiming.IdleRankMayPowerDown | DRAMSim2/Rank.cpp:329-345 | a rank is only powered down when its own banks are all idle |
| DramTiming.DownRankMayPowerUp | DRAMSim2/Rank.cpp:348-369 | a rank is only powered up when it is down and its own tCKE has passed |
| DramTiming.PowerRankKeepsStep | DRAMSim2/MemoryController.cpp:655-695 | powering a rank down or up succeeds and keeps the tables in step |
| DramPower.PowerRankIsRight | DRAMSim2/MemoryController.cpp:655-695 | an idle rank without queued commands or a refresh is put to sleep for tCKE, a sleeping one with either is woken when its tCKE is over, to be activated tXP later, in both tables; any other rank is left alone |
| DramPower.PowerPhaseIsRight | DRAMSim2/MemoryController.cpp:655-695 | the same for every rank in one cycle |
| DramPower.RunPowersRanks | DRAMSim2/MemoryController.cpp:655-695 | after every cycle of every run, no rank that has something to do sleeps on beyond its tCKE, and none that has nothing to do is awake with all banks idle |
| DramAcceptance.AcceptsIff | DRAMSim2/Rank.cpp:78-369 | a rank on its own, told anything in any order, accepts a command, a power-down or a power-up if and only if the row it left open, whether it sleeps, and its distances from what it accepted before allow it |
| DramBus.SendKeepsWritesClear | DRAMSim2/MemoryController.cpp:303-557 | a write sent now gets the data bus at a time of its own, at least BL/2 from every other |
| DramBus.WritePhaseKeepsClear | DRAMSim2/MemoryController.cpp:248-285 | write data goes onto the bus without a collision |
| DramBus.SendKeepsReadsClear | DRAMSim2/Rank.cpp:288-316 | reads on their way in a rank stay at least BL/2 cycles apart |
| DramOrder.PopKeepsQueues | DRAMSim2/CommandQueue.cpp:153-929 | queues stay made of ACTIVATEs followed by their own column commands, and at most one column command per bank whose row is open for it |
| DramOrder.CloseStrandsNothing | DRAMSim2/CommandQueue.cpp:405-502 | a PRECHARGE never closes a row that a queued command without its ACTIVATE still needs |
| DramHistory.PopIsFifo | DRAMSim2/CommandQueue.cpp:153-929 | for each row, what is popped is the oldest column command for it, in all four modes and in the refresh branch |
| DramWindow.PopKeepsWindows | DRAMSim2/CommandQueue.cpp:160-173 | the countdowns of a rank are those of its ACTIVATEs of the last tFAW cycles, strictly increasing and at most four |
| DramUses.PopKeepsRows | DRAMSim2/CommandQueue.cpp:626-867 | a bank is live in the table exactly if the commands sent so far left a row open in it, that row is the one in the table, and the row access counter is one less than its uses; and what is popped fits what was sent |
| DramRefresh.CycleKeepsSchedule | DRAMSim2/MemoryController.cpp:287-299 | the refresh counters stay on the staggered schedule |
| DramReads.AdmitBalances | DRAMSim2/MemoryController.cpp:571-605 | a read admitted is pending and queued once |
| DramReads.PopPhaseBalances | DRAMSim2/MemoryController.cpp:303-557 | popping moves a read from a queue to the bus and loses none |
| DramReads.RankPhaseBalances | DRAMSim2/Rank.cpp:283-326 | the ranks move reads on and lose none |
| DramReads.ReturnFindsPending | DRAMSim2/MemoryController.cpp:740-771 | data to be returned always finds its pending read |
| DramTheorems.RunIsFifo | DRAMSim2/CommandQueue.cpp:153-929 | in every run, the column commands for a row that entered the queue are those sent followed by those waiting, in order |
| DramReady.RunFindsReadyIff | DRAMSim2/CommandQueue.cpp:992-1057 | in every run, the timing test finds a command ready if and only if the commands sent before allow it: an ACTIVATE of a rank that is awake while the bank is idle or being refreshed and fewer than four of the rank are less than tFAW old, a column command while its row is open and not used up, and each at its distance, in tRCD, tRAS, tRC, tRRD, tRP, tRTP, tWR, tWTR, tRTRS, tCCD, tRFC and BL, from every command before it, or at tXP from the waking of its rank; column commands with auto-precharge and power management only if |
| DramReady.RunHoldsUpIff | DRAMSim2/CommandQueue.cpp:184-230 | in every run, a bank holds a waiting refresh up exactly while its row is open or a command sent before still keeps it from being activated |
| DramReady.RunKeepsDistances | DRAMSim2/MemoryController.cpp:316-538 | in every run, no command is sent sooner after an earlier one, or after the waking of its rank, than the two allow, a REFRESH for every bank of its rank |
| DramLedger.RunKeepsLedger | DRAMSim2/MemoryController.cpp:178-695 | in every run, every entry of the controller's bank table is what the commands sent and the wakings make it: its status and countdown those of the last command for the bank, each of its earliest times at the distance of some command, and at least at that of every command, that still counts |
| DramTimes.IssuePutsOff | DRAMSim2/MemoryController.cpp:316-538 | a command sent puts off exactly what it has to be at a distance from, by that distance |
| DramTimes.TickKeepsPhase | DRAMSim2/MemoryController.cpp:184-213 | how long a bank stays open before an auto-precharge, closing and in refresh |
| DramTheorems.RunSpreadsActivates | DRAMSim2/CommandQueue.cpp:999-1004 | in every run, five ACTIVATEs to one rank span at least tFAW cycles |
| DramTheorems.RunUsesOpenedRows | DRAMSim2/CommandQueue.cpp:626-867 | in every run, an ACTIVATE goes to a closed bank, a column command to an open bank, for the row open in it, a PRECHARGE to an open bank after 1 to TOTAL_ROW_ACCESSES + 1 uses, and a REFRESH to a rank whose banks are all closed; PRECHARGE and auto-precharge close a bank |
| DramSpacing.RunSpreadsBursts | DRAMSim2/MemoryController.cpp:316-538 | in every run, two writes to any ranks, and two reads to one rank, are sent at least BL/2 cycles apart |
| DramTheorems.RunOverwritesNoRead | DRAMSim2/Rank.cpp:306-316 | in every run, no rank puts a read on its data bus while another is on it |
| DramLatency.StepCarries | DRAMSim2/Rank.cpp:283-326 | a line of bursts and its bus, in step with what got in line when: what leaves is what got in line latency + BL/2 cycles ago |
| DramDelivery.RunReturnsReadsOnTime | DRAMSim2/Rank.cpp:283-326 | in every run, what leaves a rank is the data of the read sent to it RL + BL/2 + 1 cycles ago, and nothing if there was none |
| DramDelivery.RunDeliversInOrder | DRAMSim2/Rank.cpp:283-326 | in every run and for each rank, the reads sent to it are, in order, those that left it, the one on its data bus, those waiting for that bus and the one on the command bus |
| DramDelivery.RunWritesOnTime | DRAMSim2/MemoryController.cpp:220-285 | in every run, the data of a write is on the bus from WL to WL + BL/2 cycles after the write was sent, and nothing at other times |
| DramReplies.RunReportsInOrder | DRAMSim2/MemoryController.cpp:740-771 | in every run, what left the ranks is, in order, what was reported to the processor and what waits to be |
| DramTheorems.RunRefreshesOnTime | DRAMSim2/MemoryController.cpp:131-135 | in every run, rank i asks for a refresh exactly in the cycles s*(i+1) + k*P, and the queue is told so then and at no other time |
| DramPower.RunTellsOfRefresh | DRAMSim2/MemoryController.cpp:287-307 | in every run, a rank knows of a refresh exactly if it has been told, because one was due or, while it slept, due within tXP, and no REFRESH has arrived since |
| DramTheorems.RunNeverWrapsACounter | DRAMSim2/MemoryController.cpp:773-777 | in every run, the counter whose turn it is is the least and none is decremented at zero |
| DramTheorems.RunAnswersEveryRead | DRAMSim2/MemoryController.cpp:740-771 | in every run and for every address, reads admitted are reads reported plus reads pending, and the pending ones are those queued, on the bus, in ranks or about to be returned |
| DramAccounts.RunAccountsRequests | DRAMSim2/MemorySystem.cpp:336-412 | in every run, for every address and for reads and writes apart, requests made are those that entered the command queue, those waiting in the controller and those held back because it was full |
| DramAccounts.RunAccountsRefreshes | DRAMSim2/CommandQueue.cpp:1082-1086 | in every run and for every rank, refreshes asked for are those sent, those lost, and the one that may be waiting; one is lost exactly in each cycle in which the next of any rank falls due while it waits |
| DramAccounts.PopRefreshes | DRAMSim2/CommandQueue.cpp:179-236 | a pop sends a rank's refresh exactly if it was waiting and then no longer is |
| DramAccounts.FourCyclesLoseOne | DRAMSim2/CommandQueue.cpp:1082-1086 | with one rank due in every cycle and tRFC of two or more, four cycles lose a refresh |
| DramAccounts.ARefreshIsLost | DRAMSim2/CommandQueue.cpp:1082-1086 | a valid configuration and a run in which that happens |
| DramAdmission.AdmittedEnter | DRAMSim2/MemoryController.cpp:559-650 | exactly the commands of the transactions admitted enter the command queue, in that order, a transaction's ACTIVATE before its column command |
| DramAdmission.AdmitsInOrderIff | DRAMSim2/MemoryController.cpp:559-650 | a cycle admits an initial segment of the waiting transactions if and only if, when the first has room, no later than the second has room once it has entered, and when it has not, no other has |
| DramAdmission.RunAdmitsInOrderIff | DRAMSim2/MemoryController.cpp:559-650 | the same for the next cycle of every run, with what then enters the command queue |
| DramAdmission.ThirdOvertakesSecond | DRAMSim2/MemoryController.cpp:559-650 | three reads and one cycle: the commands of the third enter behind those of the first, and the second still waits |
| DramAdmission.ShippedOvertakes | DRAMSim2/MemoryController.cpp:559-650 | that happens in a shipped configuration, for three addresses in a row |
| DramShipped.ShippedIsValid | DRAMSim2/ini/DDR3_micron_32M_8B_x4_sg125.ini:1-41 | a shipped device with the default system settings, on two ranks, meets the side conditions |
| DramAdmission.NextIsOvertaken | DRAMSim2/MemoryController.cpp:559-650 | when a transaction is admitted the next one waits for another cycle, and the one behind it enters first if it fits |
| DramArrivals.JoinsAtTheEndIff | DRAMSim2/MemorySystem.cpp:336-352 | a new request gets to the end of the line if and only if none is held back, or the controller is full, or it cannot be told from those held back; otherwise in front of all those held back |
| DramArrivals.RunMovesUp | DRAMSim2/MemorySystem.cpp:383-397 | in every run, a cycle moves the first request held back up if the controller has room, and no other |
| DramArrivals.LaterOvertakesHeldBack | DRAMSim2/MemorySystem.cpp:336-397 | one request more than the controller takes, a cycle, and another request: the last is in front of the one held back |
| DramArrivals.RequestBecomes | DRAMSim2/MemoryController.cpp:571-605 | a request becomes an ACTIVATE and a read or write, with auto-precharge if pages are closed, and both name the place of its line |
| DramArrivals.NothingAtFirst | DRAMSim2/MemoryController.cpp:38-136 | what the constructors make: banks closed and free, ranks awake, all queues and buses empty, round robins at zero |
| DramMemorySystem.Run | DRAMSim2/MemorySystem.cpp:372-412 | driving the objects through any sequence of requests and cycles never fails and gives exactly the state the functions give |
| DramMemorySystem.MemorySystem.Update | DRAMSim2/MemorySystem.cpp:372-412 | the object's cycle is the cycle function |
| DramMemorySystem.MemorySystem.AddTransaction | DRAMSim2/MemorySystem.cpp:336-352 | the request is queued in the controller or kept until there is room |
| DramMemoryController.MemoryController.Update | DRAMSim2/MemoryController.cpp:178-855 | the object's update is the controller's part of the cycle function, or its exit |
| DramMemoryController.MemoryController.StaggerRefreshes | DRAMSim2/MemoryController.cpp:131-135 | the counters start at s*(i+1) |
| DramMemoryController.MemoryController.TickBanks | DRAMSim2/MemoryController.cpp:184-213 | every bank's countdown and implicit state change |
| DramMemoryController.MemoryController.DeliverCommand | DRAMSim2/MemoryController.cpp:217-228 | the command on the bus reaches its rank when its time has passed |
| DramMemoryController.MemoryController.IssueWriteData | DRAMSim2/MemoryController.cpp:248-285 | write data goes onto the bus after its latency, or the collision is reported |
| DramMemoryController.MemoryController.CheckRefresh | DRAMSim2/MemoryController.cpp:287-304 | a due refresh is asked for, and a sleeping rank woken in time |
| DramMemoryController.MemoryController.EnterCommand | DRAMSim2/MemoryController.cpp:316-538 | the in-place update of all ranks' and banks' entries for every command kind |
| DramMemoryController.MemoryController.PopAndSend | DRAMSim2/MemoryController.cpp:303-557 | pop, account, put on the command bus |
| DramMemoryController.MemoryController.AdmitTransactions | DRAMSim2/MemoryController.cpp:559-650 | the admission loop with its erase and increment |
| DramMemoryController.MemoryController.PowerRanks | DRAMSim2/MemoryController.cpp:655-695 | power-down of idle ranks and power-up of the others |
| DramMemoryController.MemoryController.ReturnReadData | DRAMSim2/MemoryController.cpp:740-771 | the first returned read leaves with its first pending entry |
| DramMemoryController.MemoryController.AddTransaction | DRAMSim2/MemoryController.cpp:857-875 | taken exactly if the queue has room |
| DramMemoryController.MemoryController.ReceiveFromBus | DRAMSim2/MemoryController.cpp:139-160 | data from a rank is queued for return; anything else is an error |
| DramCommandQueue.CommandQueue.Pop | DRAMSim2/CommandQueue.cpp:153-929 | all four queue and page modes: the scans in place compute the decision whose legality is proved |
| DramQueue.DecisionIsLegal | DRAMSim2/CommandQueue.cpp:179-873 | whatever is decided is the first issuable command of its queue that may go, an oldest use of an open row before a refresh, a closable row, or a refresh of an idle rank |
| DramDecision.DecisionIsRight | DRAMSim2/CommandQueue.cpp:179-867 | in every state the pop makes the right choice: the REFRESH that waits as soon as no bank of its rank holds it up and the rank is awake; else, for the first bank in the way, the first column command for its open row if that may go, or with open pages its PRECHARGE if none comes first; else the first command in turn, of the first queue in turn of a rank that may be served, that may go; else with open pages the first row in turn that no queued command wants or that is used up; and nothing only if nothing may go |
| DramDecision.OneChoiceIsRight | DRAMSim2/CommandQueue.cpp:179-867 | no two choices are right in the same state |
| DramDecision.PopIsRight | DRAMSim2/CommandQueue.cpp:153-929 | what the pop sends is the right choice, only a REFRESH sent ends the wait for it, and the round robins move on from where the command was found, every other time with posted column commands, or stay where a row was closed |
| DramDecision.ReadyRefreshIsSent | DRAMSim2/CommandQueue.cpp:350-356 | a waiting refresh that nothing holds up is what the pop sends |
| DramDecision.MustWaitIff | DRAMSim2/CommandQueue.cpp:245-396 | which earlier commands of its queue a command waits for, in each of the four modes |
| DramProgress.RunSendsWhatMayGo | DRAMSim2/CommandQueue.cpp:153-929 | in every run the next cycle sends the right choice |
| DramProgress.RunSendsReadyRefresh | DRAMSim2/CommandQueue.cpp:350-356 | in every run a waiting refresh is sent in the first cycle in which nothing holds it up |
| DramCommandQueue.CommandQueue.AgeWindows | DRAMSim2/CommandQueue.cpp:160-173 | the activation windows are counted down and their oldest entry dropped |
| DramCommandQueue.CommandQueue.ScanForCommand | DRAMSim2/CommandQueue.cpp:239-282 | the round robin search over queues from where it stopped last |
| DramCommandQueue.CommandQueue.ScanForPrecharge | DRAMSim2/CommandQueue.cpp:791-865 | the search for a row to close, with the start the code keeps |
| DramQueue.AdvanceComesCloser | DRAMSim2/CommandQueue.cpp:795-861 | both round robins come back to every start, so the scans end |
| DramCommandQueue.CommandQueue.Enqueue | DRAMSim2/CommandQueue.cpp:120-148 | appended to the queue for its rank and bank, unless that is full |
| DramCommandQueue.CommandQueue.HasRoomFor | DRAMSim2/CommandQueue.cpp:932-952 | in a queue that is not overfull, that many more fit if and only if the depth is not exceeded by them; in an overfull one the unsigned difference wraps and any number seems to fit |
| DramCommandQueue.CommandQueue.IsEmpty | DRAMSim2/CommandQueue.cpp:1060-1079 | all the rank's queues are empty |
| DramCommandQueue.CommandQueue.NeedRefresh | DRAMSim2/CommandQueue.cpp:1082-1086 | the rank becomes the one to be refreshed, whatever was asked before |
| DramRankDevice.Rank.ReceiveFromBus | DRAMSim2/Rank.cpp:64-276 | each command kind is checked and entered in the rank's own table, in place, and a read is queued for return; the data in the banks is left out |
| DramRankDevice.Rank.Update | DRAMSim2/Rank.cpp:283-326 | read data moves from the rank to its bus and off it |
| DramRankDevice.Rank.PowerDown | DRAMSim2/Rank.cpp:329-345 | every bank sleeps, or the first that is not idle is reported |
| DramRankDevice.Rank.PowerUp | DRAMSim2/Rank.cpp:348-369 | every bank wakes, or the attempt is reported as too early |
| AddressMap.AddressMapping | DRAMSim2/MemoryController.cpp:878-1034 | shifting the address in place yields the location, in all six schemes |
| AddressMap.LocateIsInjective | DRAMSim2/MemoryController.cpp:878-1034 | two addresses below the capacity have one location exactly if they are in one line |
| AddressMap.LocateIsSurjective | DRAMSim2/MemoryController.cpp:878-1034 | every location in range has an address below the capacity |
| AddressMap.LineOfLocate | DRAMSim2/MemoryController.cpp:878-1034 | the line can be computed back from the location |
| AddressMap.Log2 | DRAMSim2/SystemConfiguration.h:189-201 | the least r with 2^r at least the size |
| MpArithmetic.CompareIsOrder | decoder/mathlib.cpp:1059-1099 | the comparison of sign, exponent and digits is the order of the values |
| MpArithmetic.CompareDigits | decoder/mathlib.cpp:1059-1068 | the digit loop compares the mantissas |
| MpArithmetic.Acr | decoder/mathlib.cpp:1071-1086 | compares absolute values |
| MpArithmetic.Cr | decoder/mathlib.cpp:1090-1099 | compares values |
| MpArithmetic.Copy | decoder/mathlib.cpp:1103-1113 | exponent, sign and p digits are copied |
| MpArithmetic.AddMagnitudes | decoder/mathlib.cpp:1286-1320 | the normalised result is the exact sum, truncated to p digits |
| MpArithmetic.SubMagnitudes | decoder/mathlib.cpp:1328-1378 | the normalised result is off by less than one ulp, thanks to the guard digit, which alone of the digits beyond those of the greater number counts; the leading-zero scan ends |
| MpArithmetic.Add | decoder/mathlib.cpp:1384-1402 | a normalised sum: truncated for one direction, within one ulp for opposite ones, with the right sign and zero only if exact; of opposite summands the lesser is taken from the greater with exactly one guard digit |
| MpArithmetic.Sub | decoder/mathlib.cpp:1408-1426 | the same for differences |
| MpProduct.Mul | decoder/mathlib.cpp:1433-1466 | a normalised product with the right sign: truncated for p up to 3, otherwise below the exact one by less than 1.001 ulp; its digits are those of the first p + 2 columns, or of all of them, cut to p |
| MpProduct.CarryPlace | decoder/mathlib.cpp:1449-1456 | the digit kept is below 2^24 and the carry is the floor of the sum over 2^24, whichever nearest multiple the addition of CUTTER gave |
| MpDigits.ColumnSumsAreExact | decoder/mathlib.cpp:1449-1456 | every column sum with its carry is below 2^53, so that doubles hold it exactly |
| MpDigits.ColumnsMakeProduct | decoder/mathlib.cpp:1428-1465 | the columns, each in its place, add up to the product of the digit strings |
| Binary64.Floor | decoder/mathlib.cpp:5003-5050 | for every finite number the greatest integer not above it, with the sign kept, also when the carry crosses the words or bumps the exponent |
| Binary64.Ceil | decoder/mathlib.cpp:5052-5098 | the least integer not below it, with the sign kept |
| Binary64.Trunc | decoder/mathlib.cpp:5100-5131 | the integer part, with the sign kept |
| Binary64.Round | decoder/mathlib.cpp:4946-5001 | the nearest integer, ties away from zero, with the sign kept |
| Binary64.Ilogb | decoder/mathlib.cpp:5140-5173 | the exponent of the greatest power of two not above the magnitude, also for subnormal numbers |
| Binary64.Bump | decoder/mathlib.cpp:5029-5040 | adding to the bit pattern across fraction and exponent adds to the value |
| X86Decoder.TraceDecoder.Fetch | decoder/TraceDecoder.h:220-254 | the next bytes as a little-endian number, offset and instruction pointer moving together, or not enough bytes |
| X86Decoder.TraceDecoder.DecodePrefixes | decoder/decode-core.cpp:1031-1050 | every prefix read counts, a REX byte only when it is the last |
| X86Encoding.PrefixBytes | decoder/decode-core.cpp:93-129 | which byte is which prefix, and that no other is one |
| X86Encoding.RexBits | decoder/TraceDecoder.h:25-31 | the bits of a REX byte, a prefix in 64-bit code only |
| X86Encoding.ModRMBits | decoder/TraceDecoder.h:33-39 | the three fields of a ModRM byte |
| X86Encoding.SibBits | decoder/TraceDecoder.h:41-46 | the three fields of a SIB byte |
| X86Encoding.NumberBytes | decoder/TraceDecoder.h:220-254 | numbers of one and of four bytes, least significant first |
| X86Encoding.SignsOfBytes | decoder/decode-core.cpp:553-566 | sign extension is the same value modulo the width, between the halves of its range |
| X86Encoding.OperandLengths | decoder/decode-core.cpp:535-600 | how many SIB and displacement bytes there are, by mode, rm and base |
| X86Encoding.OperandSizes | decoder/decode-core.cpp:603-613 | the size of an operand by mode and prefixes |
| X86Encoding.EncodableIff | decoder/decode-core.cpp:716-718 | which displacements go into an access of each size |
| X86Encoding.SegmentWords | decoder/decode-core.cpp:652-672 | where the base of each segment is |
| X86Encoding.SegmentPrecedence | decoder/decode-core.cpp:652-672 | which segment is chosen by one override, by none, and by several |
| X86Decoder.TraceDecoder.EForm | decoder/decode-core.cpp:505-617 | exactly the SIB and displacement bytes the architecture has are consumed, and a memory operand means the architecture's address for all register contents; of a register operand the number is kept |
| X86Decoder.BaseTables | decoder/decode-core.cpp:518-547 | the register and immediate-size tables without a SIB byte, entry by entry |
| X86Decoder.SibTables | decoder/decode-core.cpp:567-600 | the tables for a SIB byte, entry by entry |
| X86Decoder.RegistersMean | decoder/decode-core.cpp:505-600 | the registers chosen give the operand's address for all register contents |
| X86Decoder.TraceDecoder.BiasBySegreg | decoder/decode-core.cpp:652-672 | the two micro-operations that add the base of the segment the prefixes choose |
| X86Decoder.TraceDecoder.AddressGenerateAndLoadOrStore | decoder/decode-core.cpp:674-796 | exactly the micro-operations of the chosen addressing form are appended; a register operand is refused |
| X86Uops.AddressIsRight | decoder/decode-core.cpp:674-796 | in every machine state they carry out one access, at segment base plus operand address modulo 2^64, with the data of any register but the two temporaries if it is a store, and change only these two and the destination |
| X86Uops.GeneratedShape | decoder/decode-core.cpp:674-796 | the last micro-operation makes the access, of the operand's size and locked exactly if there is a lock prefix; its immediate fits; those before it are 64-bit additions into temporaries, one each for the instruction pointer, an index and an offset that does not fit, but for the internal 64-bit load of the segment base |
| X86Uops.AddressIsComputed | decoder/decode-core.cpp:674-796 | those generated for an add access nothing and leave the operand's address in the destination, with the segment base only if that is forced, cut to the operand's size unless it is relative to the instruction pointer |
| X86Decoder.TraceDecoder.DecodeAndLoad | decoder/decode-core.cpp:798-800 | from ModRM, SIB and displacement bytes to a load at segment base plus the address those bytes define, of the size the mode and the prefixes give, for all bytes and machine states; exactly the operand's bytes are consumed |
| X86Decoder.TraceDecoder.DecodeAndStore | decoder/decode-core.cpp:802-804 | the same for a store of any register but the two temporaries |
| X86Decoder.TraceDecoder.DecodeLea | decoder/decode-fast.cpp:234-246 | from ModRM, SIB and displacement bytes to the operand's address in a register, for all bytes and machine states |
| X86Decoder.LeaIsRightIff | decoder/decode-core.cpp:724-732 | that is the address cut to the size of the register if and only if it is not relative to the instruction pointer or has no more bits |
| X86Decoder.AddressSizeIff | decoder/decode-core.cpp:1103-1109 | the uncut address is right in 64-bit code if and only if there is no address-size prefix or the operand's address has no more than 32 bits, and in 32-bit code if and only if the access stays below 2^32; there its low 32 bits are always right |
| X86Decoder.AddressSizeIsIgnored | decoder/decode-core.cpp:1099-1134 | the bytes 0x67 0x8b 0x00 of 64-bit code, decoded: the load is at the address in RAX, and with 2^32 in it not at zero |
| X86Decoder.TraceDecoder.FetchOpcode | decoder/decode-core.cpp:1099-1134 | a one-byte opcode and its ModRM byte |
| X86Decoder.ScaledMove | decoder/decode-core.cpp:505-617 | the bytes 0x64 0x4a 0x8b 0x54 0x88 0xf0 of 64-bit code, decoded: an eight-byte load into RDX at the base of FS plus RAX plus four times R9 less sixteen |
| EventQueue.EventsQueue.InsertAbsolute | pyrite/Event.cpp:64-99 | the waiter joins the list of its cycle, the list staying linked both ways, sorted and in agreement with the map; cycles not in the future and waiters already waiting are refused |
| EventQueue.EventsQueue.Insert | pyrite/Event.cpp:59-61 | with a delay, cut to 64 bits: it is accepted exactly if the cycle that many cycles from now is in the future and the waiter waits for none, and then the waiter waits for that cycle; without wrap-around exactly for delays greater than zero |
| EventQueue.EventsQueue.DoCycle | pyrite/Event.cpp:39-56 | exactly the waiters of the cycle reached are woken and leave; the other objects clocked by the queue are left out |
| EventQueue.EventsQueue.Clear | pyrite/Event.cpp:102-112 | every waiter is released, once |
| EventQueue.InsertEntry | pyrite/Event.cpp:78-98 | a new entry in a sorted list is a new entry of the map |
| EventSchedule.WokenExactlyWhenDue | pyrite/Event.cpp:39-56 | in every run without a clearing, a waiter is woken once, by exactly the tick that brings the clock to its cycle |
| EventSchedule.WokenAfterDelay | pyrite/Event.cpp:39-61 | a waiter inserted with a delay is woken by exactly the delay-th tick after that, if nothing clears the queue |
| EventSchedule.ClockCountsTicks | pyrite/Event.cpp:39-112 | in every run, clearings among it, the clock counts the ticks in 64 bits |
| EventSchedule.WokenInOrder | pyrite/Event.cpp:39-99 | who waits for a cycle already is woken before whoever is inserted for it later |
| EventSchedule.WokenWereInserted | pyrite/Event.cpp:59-99 | in every run, whoever is woken was inserted for that very cycle, and neither cleared nor woken since |
| EventSchedule.RunKeeps | pyrite/Event.cpp:39-112 | in every run everything scheduled is in the future and nobody waits twice |
| DoubleWords.OverlaysAreLatest | pyrite/DoubleWord.cpp:94-100 | after any stores, empty ones among them, that are found to overlap the word or have nothing for it: each byte of the range is the latest store's that has it, the mask marks exactly those bytes, and the others stay zero |
| DoubleWords.ForwardingIsMemory | pyrite/DoubleWord.cpp:94-100 | forwarding from a queue of such stores, and from memory for the rest, gives what memory would hold after them |
| DoubleWords.ForwardingIsFound | pyrite/DoubleWord.cpp:94-100 | forwarding from any stores gives what memory would hold if only those found to overlap had been made |
| DoubleWords.ForwardingIsMemoryIff | pyrite/DoubleWord.cpp:94-100 | it gives what memory would hold, whatever that held before, if and only if the latest byte stored is also the latest of the stores found |
| DoubleWords.OverlayIsRightIff | pyrite/DoubleWord.cpp:94-100 | one overlay is right at every address of the target if and only if the words are found to overlap or the target has already what the store has for it |
| DoubleWords.ReachedIff | pyrite/DoubleWord.cpp:94-112 | for a mask within the size, a store is found or has nothing for the word if and only if the lower of the two does not end at the top of the address space or the store has nothing for the word |
| DoubleWords.OverlayFailsAtTheTop | pyrite/DoubleWord.cpp:94-100 | a store to the last eight bytes is lost on a word for the same bytes |
| DoubleWords.WrittenOverByte | pyrite/DoubleWord.cpp:84-89 | of words found to overlap, or that agree anyway, exactly the bytes both have change, to those of the writer |
| DoubleWords.WrittenOverIsRightIff | pyrite/DoubleWord.cpp:84-89 | writing is right at every byte of the target if and only if the words are found to overlap or agree already |
| DoubleWords.WriteFailsAtTheTop | pyrite/DoubleWord.cpp:84-89 | a write to the last eight bytes is lost on a word that has the same bytes |
| DoubleWords.OverlapsIff | pyrite/DoubleWord.cpp:104-112 | the test is true exactly if the lower word reaches the address of the higher one and does not end at the top of the address space; it agrees with sharing an address exactly if the lower word does not reach the higher one, or the higher one is empty just when the lower one ends there |
| DoubleWords.OverlapFailsAtTheTop | pyrite/DoubleWord.cpp:104-112 | a word there does not overlap itself |
| DoubleWords.EmptyWordOverlaps | pyrite/DoubleWord.cpp:104-112 | an empty word in the middle of another is found to overlap it |
| DoubleWords.MatchesIff | pyrite/DoubleWord.cpp:117-129 | words of up to eight bytes that are found to overlap match exactly if they agree wherever both have a byte, other words always; for masks within the size, agreement decides unless the lower word ends at the top of the address space |
| DoubleWords.TestIsRightIff | pyrite/DoubleWord.cpp:117-129 | the match is agreement for all values if and only if the words are found to overlap or their masks have no address in common |
| DoubleWords.MatchFailsBeyondTheSize | pyrite/DoubleWord.cpp:117-129 | a word masked beyond its size matches one behind its end that it differs from |
| DoubleWords.CoveredIff | pyrite/DoubleWord.cpp:132-141 | a word is covered exactly if its address is in the other one, which does not end at the top of the address space, and all its bytes are there; for a word that is not empty the first follows when the other's mask is within its size |
| DoubleWords.EmptyWordIsNotCovered | pyrite/DoubleWord.cpp:132-141 | an empty word is not covered by itself |
| DoubleWords.DoubleWord.SetAddress | pyrite/DoubleWord.cpp:146-158 | size and overflow of an access of any number of bytes, of which the low eight bits count, cut at the end of its line, and exactly when the assertion holds |
| DoubleWords.TwoWholeLinesFail | pyrite/DoubleWord.cpp:146-158 | sixteen bytes from the start of an eight-byte line on do not get past the assertion |
| DoubleWords.DoubleWord.SetValue | pyrite/DoubleWord.cpp:52-57 | exactly the bytes of the size are masked and kept |
| DoubleWords.DoubleWord.CompareValue | pyrite/DoubleWord.cpp:60-63 | the value agrees on the masked bytes |
| DoubleWords.DoubleWord.WriteShifted | pyrite/DoubleWord.cpp:66-80 | shifting and masking moves each byte to its place, for shifts either way |
| DoubleWords.DoubleWord.WriteValue | pyrite/DoubleWord.cpp:84-89 | the target gets the bytes it has a mask for |
| DoubleWords.DoubleWord.Overlay | pyrite/DoubleWord.cpp:94-100 | the target gets the bytes and their mask |
| DoubleWords.DoubleWord.OverlapMatches | pyrite/DoubleWord.cpp:117-129 | the exclusive-or test decides the match, whatever the scratch value held |
| DoubleWords.DoubleWord.Covers | pyrite/DoubleWord.cpp:132-141 | the mask test decides the cover |
| PriorityHeap.PrioHeap.Insert | common/PrioHeap.h:110-128 | the loop on the vector, which may grow, inserts the key |
| PriorityHeap.PrioHeap.ExtractMin | common/PrioHeap.h:145-154 | the first key is returned and the last one sinks from its place; an empty heap is refused |
| PriorityHeap.PrioHeap.Heapify | common/PrioHeap.h:183-215 | the loop lets the first node sink |
| PriorityHeap.PrioHeap.VerifyHeap | common/PrioHeap.h:163-180 | the check on the object is the check on its keys |
| HeapKeys.VerifyHeapIff | common/PrioHeap.h:157-180 | the recursive check is true exactly if every node is at least its parent |
| HeapKeys.InsertedIsHeap | common/PrioHeap.h:110-128 | insertion keeps heap order and adds exactly the key |
| HeapKeys.InsertedRises | common/PrioHeap.h:110-128 | the new key rises past every key on its way that it is not above, equal ones among them, up to the first that it is not; those move down by one, and no other key moves |
| HeapKeys.ExtractedIsHeap | common/PrioHeap.h:145-215 | extraction takes a least key, nothing else, and keeps heap order |
| HeapKeys.ExtractedSinks | common/PrioHeap.h:145-215 | the last key sinks from the first node past every child that goes up, the right one of two equal ones, to where none does, and no other key moves |
| HeapKeys.DrainedIsSorted | common/PrioHeap.h:145-154 | repeated extraction gives all keys in order |
| HeapKeys.RunConservesKeys | common/PrioHeap.h:109-215 | in every run the heap is in order and what was put in is what was taken out and what is left |
| GrowableVector.Vector.Grow | common/Vector.h:316-333 | the elements survive the move to a larger array |
| GrowableVector.Vector.SetSize | common/Vector.h:150-161 | elements stay, and the array grows by the rule of the code |
| GrowableVector.Vector.InsertAtTop | common/Vector.h:202-209 | one element in front of the others |
| GrowableVector.Vector.InsertAtBottom | common/Vector.h:226-230 | one element behind the others |
| GrowableVector.Vector.RemoveFromTop | common/Vector.h:213-223 | the first elements are dropped, at most all |

## Left out

- DramReady.RunFindsReadyIff: with auto-precharge and power management together, a column command may also be kept waiting for what its bank had to wait for before the rank slept; there only one direction is stated.
- DramRuns.RunIsSafe: no deadline for refreshes, since a request may be overwritten by the next (the account is `DramAccounts.RunAccountsRefreshes`), and no fairness of the precharge scan, whose start is kept as a truth value.
- DramTheorems.RunIsFifo: order is not claimed across rows or banks; for transactions on their way into the queue see `DramAdmission.RunAdmitsInOrderIff`.
- DramMemorySystem.MemorySystem.Update: callbacks to the processor and from ranks to the controller are results of methods; the clock is unbounded.
- DramRankDevice.Rank.ReceiveFromBus: the data of reads and writes and the banks' storage are not modelled.
- DramCommandQueue.CommandQueue.Pop: the bank table the queue shares with the controller is a parameter; unknown policies cannot be expressed.
- DramCommandQueue.CommandQueue.Enqueue: the constructor's extra queue vectors for later ranks, which nothing uses, are left out.
- DRAM energy, latency histogram, epoch statistics, debug and verification output, reading of configuration files: nothing is decided by them.
- MpProduct.Mul: digits are integers, which the bound on column sums justifies; the sum with CUTTER is some nearest multiple of the radix.
- The conversion of doubles to digit arrays, inverse, division, trigonometric and exponential functions of the math library.
- Binary64.Floor: results for NaNs, which `Ceil`, `Trunc` and `Round` leave open too, and the always-true comparison with a huge number that raises the inexact flag.
- X86Decoder.TraceDecoder.DecodeAndLoad: immediate bytes behind the operand are not fetched here, so that the instruction pointer is the one after the operand.
- X86Decoder.TraceDecoder.DecodeAndStore: the same.
- X86Decoder.TraceDecoder.DecodeLea: the same; decoding of the destination register; what an addition of one or two bytes keeps of the register's other bytes.
- X86Decoder.AddressSizeIff: 16-bit addressing, which an address-size prefix would mean in 32-bit code.
- X86Decoder.TraceDecoder.EForm: of a register operand only the number is kept, not its width.
- X86Uops.AddressIsRight: the splitting of unaligned accesses; a store of an immediate value, which the decoder first moves to a register.
- Markers on micro-operations (first and last of an instruction, its length, data type, cache level) and the decoding of opcodes.
- EventQueue.EventsQueue.DoCycle: what waiters do when woken comes after it, as further insertions; events are not recycled through a pool, and other objects clocked by the queue are left out.
- EventQueue.EventsQueue.InsertAbsolute: a waiter's membership in lists of other owners is not modelled.
- DoubleWords.OverlapsIff: words of more than eight bytes, whose shifts the language leaves undefined; a 64-bit value is its eight bytes.
- PriorityHeap.PrioHeap.ExtractMin: printing of the heap and the constructors that copy it.
- GrowableVector.Vector.SetSize: filling new elements with a value, sorting, summing, deleting pointers, copying and clearing of vectors.
