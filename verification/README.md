# Verified model of the serial-port library's stateful cores

A Dafny model of the parts of the library whose behaviour is hard to see from one function:
the lock-file protocol between processes, the registry of ports and their ownership between
threads, the Win32 termios emulation, the event engine, the Windows CE event hand-off, the
RS-485 send and the ordered list of a file's owners. `dafny verify dfyconfig.toml` checks
everything.

| file | what it models |
|---|---|
| `LockProtocol.dfy` | lock, stale check, reclaim, unlock and crash of any number of processes, one file-system access per step |
| `LockText.dfy`, `LockRequests.dfy` | the pid line, the lock name, and the daemon's request parser on its 80-byte buffer |
| `PortOwnership.dfy` | claim, wait, driver call and release of one identifier by many threads |
| `PortIdentifiers.dfy`, `PortRuns.dfy`, `PortRegistry.dfy` | identifier objects, runs of open, close and refresh over them, and the linked list that a refresh rebuilds in place |
| `SpliceOrder.dfy`, `SpliceLinks.dfy` | which objects the rebuilt list reaches, for every enumeration, and where its links run |
| `PortTable.dfy`, `PortList.dfy` | the table of open ports as a value with its reference, and as the doubly linked list that implements it |
| `Speeds.dfy`, `BitSets.dfy`, `TermiosDcb.dfy` | speed codes, flag words as sets of one-bits, and the two-way translation between termios and the device control block |
| `OutputEmpty.dfy` | the unlocked three-thread handshake behind the output-buffer-empty event |
| `EventLoops.dfy` | the master list of running event loops |
| `LineEvents.dfy` | error counters and modem lines turned into events |
| `ReadBytes.dfy` | the bounded read loop |
| `EventHandoff.dfy` | the two-thread hand-off of event masks on Windows CE |
| `HalfDuplex.dfy` | the RS-485 array write as a trace |
| `OwnerList.dfy` | the ordered list of a file's owners |
| `Sequences.dfy`, `Options.dfy` | splicing elements into and out of sequences; optional values |

Protocols are state machines whose steps are single loads, stores, system calls or
`synchronized` blocks; a main theorem quantifies over every run. Where a property needs
something of the callers, that is a named predicate (`Orderly`, `EmptyAtEndOnly`, `Once`,
`Keeps`), and either the property is proved to hold exactly under it or a witness lemma shows
a run that goes wrong without it. Code that changes objects in place is a class whose methods
are tied to functions on values, and the theorems are about those functions. What the operating
system, the clock or the driver answers is a parameter.

Places where the code does not do what one would expect, each proved with its exact condition
or a run that shows it:

- Lock files exclude exactly under an order that the code does not enforce: a check that finds
  a stale file must overlap neither another such check nor a pid write, and an unlock that is
  accepted must be for the process's own file and overlap no such check. After any other step
  (a child that unlocks for its parent, say) orderly callers can end with two live holders.
- A port has one owner exactly as long as no CommPort is closed by two threads at once and the
  driver never answers with a CommPort that was handed out before.
- An owned port that a refresh does not find can never be released again. With repeated names
  that can happen to a port that is reported.
- A driver that reports a known name twice leaves positions out of the list: the walk from the
  head goes on behind the last position of each reused object. If the last two positions of a reused object
  are neighbours and nothing is reused right behind them, the object points to itself; the list
  is cyclic exactly when the walk runs into such an object.
- Opening a port while descriptor 1 is closed and another port is open dereferences null.
- A path without '/' loses its first character in the lock name.
- A requested speed that equals a speed code is set to that code's rate, and 0 to 9600.
- A `tcsetattr` whose timeouts cannot be set makes the next `tcgetattr` mix two data sizes.
- On Windows CE an empty event mask can be lost, and can cost the next mask its delivery.
  Masks are dispatched as a prefix in every interleaving exactly when no full mask follows an
  empty one, and all of them exactly when no mask but the last is empty.
- An RS-485 send does not wait for an empty transmitter on systems without TIOCSERGETLSR, and it
  ignores whether DTR could be set: it drives all bytes with DTR up and ends with
  DTR down exactly when the line was up or could be raised and was then lowered, or when there
  was nothing to send.

## Model

| member | source | states |
|---|---|---|
| `LockProtocol.StepKeepsInv` | native/src/SerialImp.c:5393-5410 | every orderly step keeps: each live holder's lock file holds its pid, a created file is its creator's, a file judged stale has no live holder and one judge, an unlock under way is for the process's own file |
| `LockProtocol.RunKeepsInv` | native/src/SerialImp.c:5215-5257 | the invariant holds after every orderly run of any processes, with crashes and reused pids |
| `LockProtocol.Exclusion` | native/src/SerialImp.c:5215-5257 | after every orderly run, a live holder's pid is the content of the device's lock file, so two live holders of one device are the same process |
| `LockProtocol.DeadLockIsReclaimed` | native/src/SerialImp.c:5761-5783 | a lock whose recorded process is dead can be taken over by any idle process in the four steps of one lock call |
| `LockProtocol.TakeOver` | native/src/SerialImp.c:5770-5783 | a process that found the file stale ends up as its recorded holder, and no other file, process or hold changes |
| `LockProtocol.FreshLock` | native/src/SerialImp.c:5240-5256 | a lock call that finds no file ends as the recorded holder and changes nothing else |
| `LockProtocol.LockedIsRefused` | native/src/SerialImp.c:5244-5250 | a lock call on a device that a live process has locked fails and leaves the whole state as it was |
| `LockProtocol.UnlockFrees` | native/src/SerialImp.c:5404-5405 | an unlock of the process's own file removes that file and that hold, and nothing else |
| `LockProtocol.UnlockThenLock` | native/src/SerialImp.c:5393-5410 | after an unlock any other idle process can lock the device, by an orderly run that ends with it as the holder and the former one without |
| `LockProtocol.ForeignUnlockIsRefused` | native/src/SerialImp.c:5476-5481 | an unlock of a file that names neither the process nor its kin removes no file |
| `LockProtocol.CrashedHolderIsReplaced` | native/src/SerialImp.c:5770-5783 | the lock of a holder that crashes passes to any idle process that asks |
| `LockProtocol.SecondUnlinkGivesUp` | native/src/SerialImp.c:5771-5780 | of two calls that found the file stale, the second to unlink gives up |
| `LockProtocol.LatePidIsLost` | native/src/SerialImp.c:5251-5255 | a pid written after its file was unlinked changes no file |
| `LockProtocol.OverlappingChecksShareDevice` | native/src/SerialImp.c:5761-5783 | for every dead lock and two idle processes, overlapping stale checks end with two live holders, by a run that is not orderly |
| `LockProtocol.UnwrittenPidSharesDevice` | native/src/SerialImp.c:5244-5255 | a stale check between exclusive create and pid write can end with two live holders |
| `LockProtocol.SafeIffOrderly` | native/src/SerialImp.c:5761-5783 | in every state of the invariant a step is orderly if and only if no orderly run after it ends with two live holders of one device |
| `LockProtocol.RunSafeIffOrderly` | native/src/SerialImp.c:5215-5257 | a run of any processes is orderly if and only if at none of its moments an orderly continuation can end with two live holders |
| `LockProtocol.OverlapIsUnsafe` | native/src/SerialImp.c:5761-5783 | after every stale verdict that overlaps another one or a pid write, orderly steps lead to two live holders |
| `LockProtocol.WrongUnlockIsUnsafe` | native/src/SerialImp.c:5460-5484 | after every accepted unlock of another's or an unwritten file, or of a file about to be unlinked as stale, orderly steps lead to two live holders |
| `LockProtocol.ChildUnlocksParent` | native/src/SerialImp.c:5460-5484 | a child that does not hold the device can unlock its live parent's lock and then lock the device itself |
| `LockText.LockLineRoundTrip` | native/src/SerialImp.c:5251-5254 | every pid below 2^31 prints to exactly 11 bytes, and the number read back is the pid whatever bytes follow |
| `LockText.LockLineLooks` | native/src/SerialImp.c:5251-5254 | character by character the line is blanks, the digits of the pid and a newline |
| `LockText.AtoiOfPrinted` | native/src/SerialImp.c:5469-5475 | any printed number, padded and followed by a non-digit, is read back |
| `LockText.LockName` | native/src/SerialImp.c:5397-5402 | the name found by the loop shared by lock, stale check and unlock is the text after the last '/' if and only if there is one; otherwise the first character is missing |
| `LockText.BasenameIsTail` | native/src/SerialImp.c:5736-5744 | the base name of a path is that of any prefix that leaves no '/' behind, followed by the rest |
| `LockRequests.ProcessRequest` | native/src/lfd/lockdaemon.c:681-735 | the in-place parser on the 80-byte buffer computes `Parse` of the terminated buffer for every content and read result, including running past the end |
| `LockRequests.ParseArguments` | native/src/lfd/lockdaemon.c:692-707 | writing NULs into the buffer while scanning gives the same file and pid as cutting them out of the original |
| `LockRequests.ArgumentsParse` | native/src/lfd/lockdaemon.c:692-707 | a file name without blank or NUL, a blank, a number and an end parse to that file and number at any position |
| `LockRequests.RequestRoundTrip` | native/src/SerialImp.c:5078 | every lock or unlock line that fits the buffer, with no blank, newline or NUL in the file name, parses to the command, file and pid sent, whatever the buffer held |
| `LockRequests.UnendedRequest` | native/src/lfd/lockdaemon.c:681-686 | a request read without its newline parses to what was sent, whatever digits the buffer held behind it |
| `LockRequests.CapitalsBegin` | native/src/lfd/lockdaemon.c:692-711 | the command words are recognised in capitals too |
| `LockRequests.QuitIsQuit` | native/src/lfd/lockdaemon.c:687-690 | a buffer that begins with quit ends the session |
| `LockRequests.NoPidIsMalformed` | native/src/lfd/lockdaemon.c:696-701 | a request whose file name is not followed by a blank is refused |
| `LockRequests.OtherTextIsUnknown` | native/src/lfd/lockdaemon.c:732-735 | a buffer that begins with no letter of a command word is no request |
| `PortOwnership.StepKeepsInv` | gnu-io/src/main/java/gnu/io/CommPortIdentifier.java:410-468 | every step keeps: one owning thread at most, available exactly when there is none, the fields agree with how far the owner is, a closer that found the port has the current CommPort |
| `PortOwnership.OneOwner` | gnu-io/src/main/java/gnu/io/CommPortIdentifier.java:410-468 | after every orderly run at most one thread is between claim and release, an available port has no owner and no CommPort, and a holding thread is the recorded owner of the current CommPort |
| `PortOwnership.FailureFreesPort` | gnu-io/src/main/java/gnu/io/CommPortIdentifier.java:459-467 | after a failed driver call the port is free again with owner and CommPort null, and all other threads are where they were |
| `PortOwnership.OpenGivesPort` | gnu-io/src/main/java/gnu/io/CommPortIdentifier.java:414-455 | an open of a free port whose driver makes a CommPort ends as its recorded owner holding that CommPort, and nothing else changes |
| `PortOwnership.FailedOpenLeavesNothing` | gnu-io/src/main/java/gnu/io/CommPortIdentifier.java:459-467 | an open whose driver fails leaves the port exactly as free as it was |
| `PortOwnership.WaiterGetsFreePort` | gnu-io/src/main/java/gnu/io/CommPortIdentifier.java:429-443 | a waiter claims a port that has come free as its recorded owner, and gives up on one that has not |
| `PortOwnership.CloseLetsWaiterIn` | gnu-io/src/main/java/gnu/io/CommPortIdentifier.java:494-505 | after the owner's CommPort is closed the waiter claims the port under its own name |
| `PortOwnership.CloseEndsOwnSession` | gnu-io/src/main/java/gnu/io/CommPortIdentifier.java:494-505 | closing a CommPort that is not the current one changes nothing; a release ends exactly the session that holds that CommPort |
| `PortOwnership.DoubleCloseFreesNextOwner` | gnu-io/src/main/java/gnu/io/CommPort.java:109-119 | two closers of one CommPort can release the next owner, so that two threads own the port |
| `PortOwnership.ReusedPortIsUnsafe` | gnu-io/src/main/java/gnu/io/CommPortIdentifier.java:448-451 | after every driver answer with a CommPort that was handed out before, orderly steps lead to two owners |
| `PortOwnership.SafeIffOrderly` | gnu-io/src/main/java/gnu/io/CommPortIdentifier.java:410-468 | in every state of the invariant a step meets the two conditions if and only if no orderly run after it ends with two owners |
| `PortOwnership.RunSafeIffOrderly` | gnu-io/src/main/java/gnu/io/CommPortIdentifier.java:494-505 | a run of any threads meets the conditions if and only if at none of its moments an orderly continuation can end with two owners |
| `PortRuns.StepKeepsInv` | gnu-io/src/main/java/gnu/io/CommPortIdentifier.java:302-353 | open, close, refresh with any enumeration, aborted refresh and listener changes keep: free exactly when without CommPort and owner, no CommPort in two identifiers, reached or not |
| `PortRuns.OpenMakesOwner` | gnu-io/src/main/java/gnu/io/CommPortIdentifier.java:410-468 | an open of a free identifier makes the caller its owner through the new CommPort, of one in use changes nothing, and touches no other field or identifier |
| `PortIdentifiers.KeptExactly` | gnu-io/src/main/java/gnu/io/CommPortIdentifier.java:329-330 | with different names in the list, a reported entry keeps an old object if and only if that object has its name and type |
| `PortIdentifiers.LastOfNameIsKept` | gnu-io/src/main/java/gnu/io/CommPortIdentifier.java:309-315 | whatever the names, an entry keeps the last old identifier of its name if the types agree, and none otherwise |
| `PortIdentifiers.ListenersAre` | gnu-io/src/main/java/gnu/io/CommPortIdentifier.java:183-198 | adding a listener adds that one once, removing it takes that one away, and no other changes |
| `SpliceLinks.StaysIffFound` | gnu-io/src/main/java/gnu/io/CommPortIdentifier.java:326-346 | for any enumeration, an old identifier is in the refreshed list if and only if the walk over the enumeration finds it |
| `SpliceLinks.ReportedAndLost` | gnu-io/src/main/java/gnu/io/CommPortIdentifier.java:326-346 | an identifier reported between two positions of another one is lost, for any two listed identifiers |
| `SpliceLinks.FoundIffReported` | gnu-io/src/main/java/gnu/io/CommPortIdentifier.java:326-346 | where the old names differ and no old object is kept twice, the walk finds exactly the identifiers whose name and type are reported |
| `PortRuns.StaysIffReported` | gnu-io/src/main/java/gnu/io/CommPortIdentifier.java:326-346 | with different names old and new, a refresh keeps an old identifier if and only if its name and type are reported |
| `PortRuns.RunKeepsOwner` | gnu-io/src/main/java/gnu/io/CommPortIdentifier.java:302-353 | in every run with any enumerations that does not close it, an owned identifier stays owned with the same owner, listeners and CommPort, and is reached as the same object at the end if and only if every refresh found it and none was cut short |
| `PortRuns.ReportedKeepsOwner` | gnu-io/src/main/java/gnu/io/CommPortIdentifier.java:302-353 | in every run whose enumerations have different names, an owned identifier that is always reported and not closed stays reachable as the same object with the same owner, listeners and CommPort |
| `PortRuns.CloseReleases` | gnu-io/src/main/java/gnu/io/CommPortIdentifier.java:277-292 | closing a CommPort finds its holder, on a looped list too, and releases it; no other field of any identifier changes |
| `PortRuns.ReleasableIffFound` | gnu-io/src/main/java/gnu/io/CommPort.java:109-119 | for any enumeration, closing an owner's CommPort after a refresh makes the port available if and only if the walk finds the identifier |
| `PortRuns.ReleasableIffReported` | gnu-io/src/main/java/gnu/io/CommPort.java:109-119 | with different names old and new, that is if and only if its name and type are reported |
| `PortRuns.DroppedStaysOwned` | gnu-io/src/main/java/gnu/io/CommPortIdentifier.java:307-316 | once unreachable, an owned identifier stays unreachable and owned in every later run, with any enumerations |
| `PortRegistry.Registry.AddIdentifier` | gnu-io/src/main/java/gnu/io/CommPortIdentifier.java:154-173 | the acyclic list gets the identifier as its last element |
| `PortRegistry.Registry.Place` | gnu-io/src/main/java/gnu/io/CommPortIdentifier.java:330-341 | one splice keeps the description of the half-built list: behind it the new list is as it was, before it every object points where its last splice and the next one left it |
| `PortRegistry.Registry.Restore` | gnu-io/src/main/java/gnu/io/CommPortIdentifier.java:326-346 | for every enumeration, repeated names included, the splice loop leaves the first chosen object as head, every link as described, and the new driver in exactly the reused objects |
| `PortRegistry.Registry.Followed` | gnu-io/src/main/java/gnu/io/CommPortIdentifier.java:326-346 | the links found from the head run through the objects of the walk, each once, and end in null, or in an object that points to itself exactly when the walk gets stuck |
| `PortRegistry.Registry.Refresh` | gnu-io/src/main/java/gnu/io/CommPortIdentifier.java:302-353 | for every enumeration the list becomes what the walk finds, looped exactly when the walk is, reused objects get the new driver and no other field changes; when no old object is kept twice it is the whole enumeration with old objects kept; if the driver throws, only new objects remain |
| `SpliceOrder.WholeIffOnce` | gnu-io/src/main/java/gnu/io/CommPortIdentifier.java:326-346 | the walk comes through every reported position if and only if no old object is kept for two of them, and then it ends |
| `SpliceOrder.WalkLeads` | gnu-io/src/main/java/gnu/io/CommPortIdentifier.java:328-346 | the walk goes on from the last position of an object to the last position of the object right behind it |
| `SpliceOrder.MendedLater` | gnu-io/src/main/java/gnu/io/CommPortIdentifier.java:330-341 | a self-link that the next splice leaves alone is mended when the object is spliced again later |
| `SpliceOrder.PassedOver` | gnu-io/src/main/java/gnu/io/CommPortIdentifier.java:330-341 | an object may be left pointing to itself and still not be reached from the head |
| `SpliceLinks.Onward` | gnu-io/src/main/java/gnu/io/CommPortIdentifier.java:330-345 | in the end an object points to the choice behind its last position, or to itself when it is stuck there |
| `SpliceLinks.RefreshedIffOnce` | gnu-io/src/main/java/gnu/io/CommPortIdentifier.java:302-353 | a refreshed list is the whole enumeration with old objects kept if and only if no old object is kept for two reported positions |
| `SpliceLinks.DifferentNamesOnce` | gnu-io/src/main/java/gnu/io/CommPortIdentifier.java:312-329 | different reported names suffice for that |
| `SpliceLinks.CycleIffStuck` | gnu-io/src/main/java/gnu/io/CommPortIdentifier.java:330-341 | the links among the chosen objects contain a cycle of any length if and only if some object is kept for two neighbouring positions, for none after them, and nothing is kept right behind |
| `PortRegistry.Registry.GetByName` | gnu-io/src/main/java/gnu/io/CommPortIdentifier.java:236-267 | a name in the list, looped or not, is found without a refresh; otherwise the list is refreshed and the answer is null if and only if the name is still missing; required is only that the searches end |
| `PortRegistry.Registry.GetByPort` | gnu-io/src/main/java/gnu/io/CommPortIdentifier.java:277-292 | the first identifier in the list that holds the CommPort, or null when none does; also on a looped list that has one |
| `PortRegistry.Registry.Open` | gnu-io/src/main/java/gnu/io/CommPortIdentifier.java:410-468 | an open that does not wait is the open step of the runs; without a port from the driver nothing has changed |
| `PortRegistry.Registry.Close` | gnu-io/src/main/java/gnu/io/CommPort.java:109-119 | close is the close step of the runs, on a looped list too |
| `PortTable.DenseUpTo` | native/src/termios.c:1050-1079 | below the smallest free descriptor an ordered table is numbered without a gap |
| `PortTable.InsertKeepsOrder` | native/src/termios.c:1130-1150 | inserting the smallest free descriptor at its own position keeps the table ordered with distinct files |
| `PortTable.RemoveUndoesInsert` | native/src/termios.c:1237-1260 | taking out a port that could not be opened restores the table |
| `PortTable.StepMatchesPairs` | native/src/termios.c:1228-1279 | one open or close does to the list what it does to a plain set of pairs, and crashes exactly when a new file is opened while ports are open and descriptor 1 is free |
| `PortTable.RunMatchesPairs` | native/src/termios.c:714-780 | after every sequence of opens and closes the ordered list holds what the plain set holds, or it crashed and the plain set's run meets that case |
| `PortTable.ReopeningAtHeadCrashes` | native/src/termios.c:1136-1143 | whenever two or more ports are open, closing descriptor 1 and opening a new file crashes |
| `PortList.PortList.PortOpened` | native/src/termios.c:912-926 | 0 if and only if the file is not open, otherwise its descriptor |
| `PortList.PortList.FindPort` | native/src/termios.c:1014-1037 | null if and only if the descriptor is not in use, otherwise the node with it |
| `PortList.PortList.GetFreeFd` | native/src/termios.c:1050-1079 | the smallest positive descriptor not in use |
| `PortList.PortList.AddPort` | native/src/termios.c:1092-1152 | the doubly linked list stays well formed and gets the file under the smallest free descriptor, or the head insertion dies and nothing has changed |
| `PortList.PortList.SerialClose` | native/src/termios.c:714-780 | the list loses the entry with that descriptor and no other; -1 only for an unknown descriptor in a non-empty table |
| `PortList.PortList.SerialOpen` | native/src/termios.c:1228-1279 | an open is the open step of the run model and returns the smallest free descriptor, or -1 when the file was open or the device failed |
| `Speeds.CodesAreExact` | native/src/termios.c:389-504 | every speed code has a table rate that leads back to it; every other number is kept as a rate |
| `Speeds.RatesAreExact` | native/src/termios.c:298-376 | every table rate has a code that leads back to it, and is not itself a code |
| `Speeds.CodesInBlocks` | native/src/win32termios.h:340-381 | the codes number the rates through in the order of the header, in three blocks |
| `Speeds.RateSurvives` | native/src/termios.c:298-504 | a rate comes through both switches unchanged if and only if it is a table rate or not a code |
| `TermiosDcb.SpeedIsSet` | native/src/termios.c:1687-1707 | the code in force after `cfsetospeed` is the one given, whether it fits the flags or not, and 9600's for 0; the speed bits are stated, and no other bit or setting changes |
| `TermiosDcb.GetAfterSet` | native/src/termios.c:1986-2140 | for all settings without CIGNORE and any earlier device state, a get after a set returns the normal form: INPCK on, IGNPAR off, parity kind dropped when parity is off, the speed in table form, everything else as set |
| `TermiosDcb.ReadCodeInForce` | native/src/termios.c:1846-1852 | the settings got back keep the speed in force, and without CBAUDEX no speed bits are added |
| `TermiosDcb.NormalFormIsStable` | native/src/termios.c:2176-2335 | setting the normal form leaves the whole control block and the timeouts as they were, and the normal form is its own normal form |
| `TermiosDcb.CyclesKeepDevice` | native/src/termios.c:1986-2335 | any number of get-and-set cycles after a set changes neither control block nor timeouts, and every get reports the same settings |
| `TermiosDcb.RequestReachesDevice` | native/src/SerialImp.c:991-1105 | after any number of cycles the device runs at the requested speed if and only if that is not 0 and is a table rate or not a code; 0 gives 9600, a code gives its rate |
| `TermiosDcb.FailedSetMixesSizes` | native/src/termios.c:2326-2332 | when the timeouts cannot be set, the size bits got are the union of the stored and the new ones, and right if and only if the stored ones are among the new |
| `TermiosDcb.CfSetOSpeed` | native/src/termios.c:1687-1707 | the step-by-step update leaves the given code in force, or 9600's for 0, with the flags of `WithSpeed` |
| `TermiosDcb.TermiosToDcb` | native/src/termios.c:1781-1821 | the branches compute rate, size, parity, stop bits and flow control of `Framed`, and the caller's speeds are rewritten as in `Settled` |
| `TermiosDcb.FramedByBits` | native/src/termios.c:1781-1821 | data size, stop bits, parity, flow control and rate by the bit numbers of the control flags |
| `TermiosDcb.SetByBits` | native/src/termios.c:2206-2332 | everything a set writes into the control block and the timeouts, by bit numbers and positions of control characters |
| `TermiosDcb.GetFraming` | native/src/termios.c:2047-2086 | the flag updates for stop bits, parity, size and flow control compute `FramingFlags` |
| `TermiosDcb.FramingByBits` | native/src/termios.c:2047-2086 | every control flag that a get reports, by bit number, whatever was stored; size bits are only added |
| `TermiosDcb.InputByBits` | native/src/termios.c:2011-2038 | every input flag that a get reports, by bit number, whatever was stored |
| `TermiosDcb.GotByBits` | native/src/termios.c:2118-2138 | speed, control characters and stored settings that a get reports |
| `TermiosDcb.Device.TcSetAttr` | native/src/termios.c:2176-2335 | success if and only if not canonical and all four system calls succeed, and then the set step; a failure after SetCommState has changed the control block only, any earlier one nothing |
| `TermiosDcb.Device.TcGetAttr` | native/src/termios.c:1986-2140 | success if and only if both queries succeed, and then the report of the device's state |
| `OutputEmpty.StepKeepsInv` | native/src/SerialImp.c:1317-1327 | every single load or store keeps: no write has two events, pending ones are unsent, an unmarked write has left no trace |
| `OutputEmpty.EventsNeverExceedWrites` | native/src/SerialImp.c:3722-3731 | in every interleaving of writers, drain thread, drain calls and event loop each event stems from an earlier write, no write yields two, and events never outnumber writes |
| `OutputEmpty.WriteYieldsItsEvent` | native/src/SerialImp.c:1317-1327 | from any quiet state a write that is drained and polled yields its own event, and all is quiet again |
| `OutputEmpty.FlagBecomesEvent` | native/src/SerialImp.c:3722-3731 | a raised flag becomes one event when the listener wants it, and none when not |
| `OutputEmpty.DrainCallTakesEvent` | native/src/SerialImp.c:1673-1683 | a drain call that comes first takes the event loop's event away |
| `EventLoops.ListIsStartOrder` | native/src/SerialImp.c:4004-4060 | for any order of starts and ends the list holds exactly the running loops, each once, in the order their sessions began |
| `EventLoops.MasterList.BeginSession` | native/src/SerialImp.c:4101-4107 | an entry that is not running, new or ended, begins a session: appended last with cleared flags, or nothing listed without the callback |
| `EventLoops.MasterList.Initialise` | native/src/SerialImp.c:4004-4060 | a new entry is appended with cleared flags and the doubly linked list stays well formed; a running entry is not relinked; without the callback the list is as before |
| `EventLoops.MasterList.Finalize` | native/src/SerialImp.c:4071-4085 | the entry is unlinked, the others stay linked in order |
| `EventLoops.MasterList.SetEventFlag` | native/src/SerialImp.c:4826-4848 | one flag of the first entry with that descriptor changes, nothing else in any entry does |
| `LineEvents.Monitor.CountUp` | native/src/SerialImp.c:3786-3801 | the counting loop ends and sends as many events as the counter has moved around the circle |
| `LineEvents.Monitor.CheckCgiCount` | native/src/SerialImp.c:3774-3805 | a failed poll changes nothing; a successful one sends the four counts and stores the sample |
| `LineEvents.EventsCountFaults` | native/src/SerialImp.c:3774-3805 | over any polls, failed ones included, no fault is reported twice, and the events of a kind number exactly the faults since the start if and only if fewer than 2^32 happened between polls that succeeded |
| `LineEvents.Monitor.CheckTiocmgetChanges` | native/src/SerialImp.c:3850-3887 | a poll sends one event for each line that changed, high or low by the sign of the difference of the masked flags, and stores the sample |
| `LineEvents.LinesByBit` | native/src/SerialImp.c:3850-3887 | which bit of the sampled flags tells which line |
| `LineEvents.StreamsReplay` | native/src/SerialImp.c:4864-4886 | over any polls each line's events alternate, and replaying them from the initial level gives the last level sampled |
| `ReadBytes.ReadByteArray` | native/src/SerialImp.c:3002-3104 | for all answers of select, read and any clock: as many bytes are taken as were asked for, are there and were offered, the port's next ones, in order, the rest of the buffer untouched; -1 exactly after a failed round, otherwise their number; short only after 20 rounds or time up; select gets exactly the remaining time, which is positive; the data-available flag is restored |
| `EventHandoff.PrefixIffEmptyLast` | native/src/WinCE/gnu_io_RXTXPort.cpp:1085-1132 | for every mask sequence: every interleaving that produces it has dispatched a prefix of it if and only if no full mask follows an empty one |
| `EventHandoff.AllIffEmptyAtEndOnly` | native/src/WinCE/gnu_io_RXTXPort.cpp:1085-1132 | for every mask sequence: every interleaving that produces it and comes to rest has dispatched exactly it if and only if no mask but the last is empty |
| `EventHandoff.FullIffEmptyLast` | native/src/WinCE/rxtxHelpers.cpp:327-397 | for every mask sequence: every interleaving that produces it and comes to rest has dispatched all its full masks in order if and only if none of them follows an empty one |
| `EventHandoff.DispatchedIsPrefix` | native/src/WinCE/gnu_io_RXTXPort.cpp:1085-1132 | in every interleaving with no empty mask but perhaps the last, the masks dispatched are a prefix of those produced, with at most two under way |
| `EventHandoff.RunKeepsGood` | native/src/WinCE/rxtxHelpers.cpp:327-397 | after the first empty mask, as long as only empty ones follow: the full masks are copied before it, and the empty ones copied and due never exceed those produced |
| `EventHandoff.StepKeepsInv` | native/src/WinCE/rxtxHelpers.cpp:327-397 | every step keeps: produced is dispatched, then carried, then parked, and signal, mask and positions agree |
| `EventHandoff.EmptyIsLost` | native/src/WinCE/rxtxHelpers.cpp:327-397 | from any quiet state, an empty mask followed by any other can be overtaken and lost |
| `EventHandoff.NextIsLost` | native/src/WinCE/gnu_io_RXTXPort.cpp:1085-1132 | from any quiet state, the mask behind an empty one can be cleared before it is copied, and two empty masks are dispatched instead |
| `HalfDuplex.WriteArray` | native/src/RS485Imp.c:487-544 | after any number of system calls the trace follows the half-duplex protocol for exactly the requested bytes, and by the answers of the calls it is told when the send has returned, thrown or is still running; a return means all of it, flush included, with the transmitter seen empty before DTR was asked down exactly when the system has TIOCSERGETLSR; the lines asked for are stated; the bytes were driven with DTR up and DTR was left down if and only if the two requests to set it had their effect |
| `HalfDuplex.SendAll` | native/src/RS485Imp.c:504-511 | the write loop ends when the writes have taken everything, whatever errors came between; it throws only when there was nothing to send |
| `HalfDuplex.PromptSend` | native/src/RS485Imp.c:504-536 | a device that takes everything, is empty and flushes at once makes the send return within one call of each |
| `HalfDuplex.LongSendFlushesOnce` | native/src/RS485Imp.c:531-536 | from five bytes on a failed flush ends the send with an error at once |
| `HalfDuplex.ShortSendFlushesAgain` | native/src/RS485Imp.c:531-536 | up to four bytes an interrupted flush is repeated |
| `HalfDuplex.PhaseTellsBytes` | native/src/RS485Imp.c:504-525 | a trace that follows the protocol has handed over a prefix of the message, and all of it once the transmitter was seen empty |
| `HalfDuplex.EmptiedBeforeRelease` | native/src/RS485Imp.c:515-529 | where the transmitter was seen empty, the poll that saw it came when the whole message was out and no byte followed |
| `HalfDuplex.DriverHoldsDtr` | native/src/RS485Imp.c:499-529 | in such a trace every byte is handed over after DTR was asked up and before it was asked down |
| `HalfDuplex.PhaseTellsLine` | native/src/RS485Imp.c:499-529 | in every phase, finished or not, the level of DTR follows from the level before and the results of the requests, and every byte was driven with DTR up if and only if the line was up, could be raised, or no byte was sent |
| `HalfDuplex.SendHoldsLine` | native/src/RS485Imp.c:499-529 | a whole send had DTR up for every byte and left it down if and only if the line was up or could be raised and was then lowered, or there was nothing to send |
| `OwnerList.ListSumsReports` | native/src/fuserImp.c:92-132 | after any reports the list is strictly ascending by pid with one item for exactly the pids seen, carrying the union of their references and the first known uid |
| `OwnerList.RefsContainEach` | native/src/fuserImp.c:126 | the references kept for a pid contain every reference reported for it |
| `OwnerList.RefsAreLeast` | native/src/fuserImp.c:126 | whatever contains all references reported for a pid contains what is kept, so no other bit is |
| `OwnerList.UidIsFirst` | native/src/fuserImp.c:127-129 | the uid kept for a pid is the one that was known first, and none is kept if and only if none was known |
| `OwnerList.AddKeepsOrder` | native/src/fuserImp.c:107-126 | one report keeps the list strictly ascending |
| `OwnerList.AddLookup` | native/src/fuserImp.c:110-129 | one report changes what the list says about its own pid, by the union, and about no other |
| `OwnerList.FileDsc.AddOwner` | native/src/fuserImp.c:107-130 | the linked list changed in place stands for the value list after the report |
| `OwnerList.AddFile` | native/src/fuserImp.c:92-132 | every file's list takes in, in order, the reports of exactly the matching entries that stand for it, with lstat asked for each, and the files' items stay apart |
| `OwnerList.ReportsAre` | native/src/fuserImp.c:101-108 | which entries report to a file, by device, inode, flags and name, and what they report |
| `OwnerList.SameAnswerOnce` | native/src/fuserImp.c:101-131 | where lstat always gives the same answer, a call has the effect of one report on each such file |
| `OwnerList.AddFiles` | native/src/fuserImp.c:134-150 | after any sequence of calls every file's list is that of the reports which reached it, the list that `ListSumsReports` is about |

## Left out

- LockProtocol.Exclusion: one call at a time per process.
- HalfDuplex.WriteArray: offset and count must lie within the array, as the C code reads out of bounds otherwise.
- PortRegistry.Registry.GetByName: a search for a name that a looped list does not have does not end, as in the Java code, and is excluded; the same holds for steps of the runs.
- PortList.PortList.SerialClose: the guard on the first port's handle is not modelled; the handle is set before any close can run.
- LockRequests.ProcessRequest: the write at `ret - 2` in the branch for unknown commands and the replies are not modelled.
- OutputEmpty.EventsNeverExceedWrites: the event that `nativeDrain` itself sends is not counted, and a writer whose descriptor is in no entry (it marks the last one) is not modelled.
- TermiosDcb.Device.TcSetAttr: the early returns for descriptor 0 or an unknown one are not modelled; the search is `PortList.PortList.FindPort`.
- TermiosDcb.RequestReachesDevice: a negative request is refused by `translate_speed` before any of this.
- PortList.PortList.AddPort: malloc does not fail.
- PortRegistry.Registry.Open: waiting for a port in use is in module PortOwnership only.
- The lock daemon's own lock and unlock (native/src/lfd/lockdaemon.c), which repeat those of SerialImp.c, and the UUCP, liblockdev and SCO locks.
- The other lock-directory probes of `is_device_locked`; the model lets them refuse at any time.
- Overflow of the fixed 80-byte message and file-name buffers by long paths.
- EINTR retries inside a select call: its final answer is the parameter.
- The `preopened` list, `nativeGetParity`, `nativeStaticGetStopBits` and `readTerminatedArray`, whose code does not keep the relation their names promise.
- JNI field access, exceptions as objects, logging and message formatting.
- I2C, raw and parallel ports, near copies of the same code.
- Overlapped I/O in `serial_read`, `serial_write` and `serial_select`, and port enumeration, which rest on system interfaces.
- The error exits of the Windows CE event thread and loop.
- Liveness: that waiters are woken, drains finish or spinning ends depends on fairness and timing.
