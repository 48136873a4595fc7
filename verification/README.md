# Gatekeeper: a verified model

Gatekeeper takes over ports, starts a backend when a client connects, hands the port to
it, and takes the port back later. This project models the parts of it whose correctness
does not show in any single function, and proves what they promise for every input, every
run or every interleaving.

What the operating system, the clock and the network answer (whether a bind succeeds, how
many bytes a read returns, whether a process is alive, the time) is an arbitrary input of
every statement. Threads are step machines: one atomic operation, system call or
mutex-protected section is one step, and the results hold for every interleaving. Loops and
objects that change in place are methods and classes, each proved equal to a function on
values about which the results are then proved.

| files | part of the program |
|---|---|
| `Json`, `JsonGrammar`, `JsonCorrect` | the JSON parser against a grammar of texts with arbitrary blanks and optional commas |
| `ConfigEditor`, `EditorScan`, `EditorCorrect`, `EditorMeaning` | the in-place edit of `refresh_seconds`, against the parser that reads the result |
| `Numbers` | the value of a number and the integer read from it |
| `Config`, `RefreshReload` | reading port entries, the reload diff, adjusting at run time and reloading |
| `Registry`, `RegistryUnique`, `RegistryLists` | relays moving between the active list, the pending list and an eviction |
| `PortGroup`, `GroupPass` | launching a group's backends and releasing its ports, beside the members' own threads |
| `Lifecycle` | the listening sockets of simple-mode relays under concurrent stops and group releases |
| `ListenThread` | when a listen thread launches, ends, hands its port over and comes back to it |
| `GiveUpLatch` | recycling an outside occupant of the port and giving up on it |
| `Eviction` | the sustained-pressure timer and the choice of the victim |
| `Socks5`, `Tunnel` | the SOCKS5 exchange (RFC 1928 and RFC 1929) and the two-way tunnel |
| `CommandLine` | the shell-free command-line splitter and leading environment assignments |
| `Chunked`, `Query`, `ControlText`, `RateLimiter` | the control server: chunked output, query strings, escaping, the PIN, the rate limit |
| `Text` | bytes, character classes, decimal numerals |

Eight promises do not hold without a condition. Each has a lemma with an input or run that
breaks it and a lemma with the exact condition:

- An edit replaces only the integer part of a number: writing 7 over `5e1` gives `7e1`, which
  the program reads as 70 (`EditorMeaning.ExponentSurvives`). The integer read is the one
  written exactly when the number had no exponent, or an exponent of zero, or the integer is
  zero and the exponent brings no digit before the point, and the nearest double is not already
  the next integer, as it is when 7 is written over 5.99999999999999999999; other fractions do
  no harm, because the program cuts them off. A number out of range is read as zero.
  (`EditorMeaning.EditReads`, `Numbers.WrittenReads`.) What a reload makes of it is
  `RefreshReload.AdjustThenReload`.
- A reload is three critical sections, and two windows in it let an eviction leave the wrong
  relays behind: a relay put back between the second and the third section of a reload that
  modifies its address ends up beside its replacement (`RegistryUnique.WindowOpens`), and a
  relay in flight when its address is removed comes back to stay (`RegistryUnique.RemovalOpens`).
  Exactly when: `RegistryUnique.GoodExactly` for a section, `RegistryUnique.InStepExactly` for a
  completed reload.
- A reload restarts the relays whose configuration has changed, but does not see a change of name,
  protocols, credentials or the ipv6 flag: such a relay goes on with its old ones. Exactly when:
  `Config.EqualMeans`, `RegistryLists.Compare`.
- On the eviction path give-up is not a permanent latch (`GiveUpLatch.EvictionUnlatches`;
  exactly when, over all runs: `GiveUpLatch.GiveUpHoldsExactly`).
- A group's pass is to release the ports of all members, but a member's thread that has tested its
  pid and not yet stored its descriptor takes the port back behind the pass: from every start of
  two members such a run exists (`GroupPass.PassCanMiss`). Exactly when: `GroupPass.PortHeldExactly`.
- A peer that ends its own stream first can lose the rest of the reply (`Tunnel.HalfCloseLoses`).
  Without a failure a direction loses bytes exactly when the opposite stream has ended before
  this one has ended and arrived (`Tunnel.HalfCloseExactly`, `Tunnel.CompleteAtTeardown`).
- A write of streamed output that fails is not reported: the client decodes what came before as a
  complete body, and has all of it exactly when no write failed (`Chunked.FailureIsSilent`). A
  short write breaks the framing (`Chunked.ShortWriteBreaks`).
- The escaper of the control server writes six-character escapes that the configuration
  parser does not decode (`ControlText.EscapeReadsBack`, with the exact condition).

Where code and documentation differ the model follows the code: the SOCKS5 exchange does not
check the version bytes after the first one, a splice into the configuration text writes
no comma, and an evicted relay listens again at once where
docs/adr/0002-idle-first-memory-eviction.md has it disabled for the rest of the run.

## Model

| member | source | states |
|---|---|---|
| `Json.ReadStr` | src/json.cpp:8-27 | the string loop decodes what the scan specification decodes and stops where it stops |
| `Json.ReadNum` | src/json.cpp:29-41 | the number scan ends behind sign, digits, fraction and exponent, each optional, and returns exactly that lexeme |
| `Json.ReadObj` | src/json.cpp:45-59 | the object loop with optional commas: same members, same cursor, and divergence exactly as specified |
| `Json.ReadArr` | src/json.cpp:61-73 | the same for arrays |
| `Json.ReadVal` | src/json.cpp:75-88 | the recursive descent returns the specified tree and cursor |
| `Json.LoopStuck` | src/json.cpp:50-57 | a container pass that does not advance and meets no closing character never ends, whatever the bound |
| `Json.LoopAtEof` | src/json.cpp:66-71 | past the end of input a container loop never ends |
| `Json.BoundsLoseNothing` | src/json.cpp:43-88 | if any bounds on depth and passes yield a tree, bounds above the number of characters left yield the same tree and cursor |
| `Json.ParseJsonComplete` | src/json.cpp:90-91 | the modelled parser gives a tree exactly when the unbounded one does, and None exactly when that never returns |
| `JsonCorrect.ValueParses` | src/json.cpp:43-88 | a well-formed value, anywhere in a text, parses to its meaning and the cursor stops right behind it |
| `JsonCorrect.DocParses` | src/json.cpp:90-91 | every well-formed document terminates and parses to its tree |
| `JsonCorrect.PrintParses` | src/json.cpp:4-91 | round trip: any tree printed with any blanks parses back to itself |
| `ConfigEditor.SkipJsonString` | src/config.cpp:211-219 | the editor's string skipper ends where specified |
| `ConfigEditor.SameStringEnd` | src/config.cpp:211-219 | for every text, well-formed or not, editor and parser end a string at the same position, exactly when it starts inside the text |
| `ConfigEditor.LocateEntry` | src/config.cpp:233-268 | the first scan finds the opening brace of the first depth-2 object that listens on the address |
| `ConfigEditor.LocateRefresh` | src/config.cpp:274-297 | the second scan finds the key at depth 1 of the entry, or the brace that closes the entry |
| `ConfigEditor.UpdateRefreshSeconds` | src/config.cpp:223-322 | the whole edit as one function on texts, with its failures |
| `EditorCorrect.EditIs` | src/config.cpp:223-322 | the edit of a text is the edit of its syntax tree; it is refused exactly when the tree has no place for the number |
| `EditorCorrect.NewNumberIs` | src/config.cpp:300-312 | replacing the integer part gives a number with the new integer part and the old rest; replacing it twice is replacing it once |
| `ConfigEditor.IndentIs` | src/config.cpp:313-321 | an added field takes the blank beginning of the line the entry's brace is on |
| `EditorMeaning.EditMeans` | src/config.cpp:223-322 | success exactly when an entry listens on the address and its number is missing or a number; the new text always parses, to the old tree with only that number set, to the new integer followed by what stood behind the old integer part |
| `EditorMeaning.EditReads` | src/config.cpp:299-322 | the integer then read is the one written if and only if a stated condition on the old fraction and exponent, on rounding up and on the range holds, for every conversion to nearest doubles; the number in the file is the one written if and only if the old rest adds nothing |
| `Numbers.WrittenReads` | src/json.cpp:38-40 | an integer written in front of a fraction and exponent is read back, unless the number is refused, if and only if nothing moves across the point and stod does not round up to the next integer; a refused number is read as zero; it is the number itself if and only if nothing is added |
| `Numbers.FloorIsWhole` | src/config.cpp:138 | cutting the fraction off a scaled decimal gives its integer part exactly under that condition |
| `Numbers.StandardReads` | src/json.cpp:29-41 | every number of section 6 of RFC 8259 is scanned as a whole and stands for its value |
| `Numbers.FloorMeans` | src/config.cpp:138 | the magnitude without its fraction, by its bounds |
| `EditorMeaning.EditInjective` | src/config.cpp:299-322 | different values give different trees |
| `EditorMeaning.LastWriterWins` | src/config.cpp:233-322 | writing a and then b is, character by character, writing b, also when the first write adds the field; for every well-formed text whose edited entry has no string value equal to the key |
| `EditorMeaning.ExponentSurvives` | src/config.cpp:300-312 | writing 7 over 5e1 reports success, leaves 7e1, and the program reads 70, however it rounds |
| `Config.ReadPorts` | src/config.cpp:106-197 | the loop over the ports array keeps exactly the complete, enabled entries, in order |
| `Config.EntryTaken` | src/config.cpp:109-133 | an entry gives a port if and only if it is an object with an address, not disabled, and has a command or a mode that needs none |
| `Config.EntryRead` | src/config.cpp:125-149 | the value of every field of a port: which key it is read from, the default without it, and what a value of another type gives |
| `Config.EntryOpened` | src/config.cpp:151-171 | the same for the credentials and the monitor settings |
| `Config.ProtocolsRead` | src/config.cpp:173-194 | each element of the protocols array, a name or an object, adds its protocol in order, unless it is disabled or has no type |
| `Config.PortsRead` | src/config.cpp:106-197 | each element of the ports array adds its port in order, or nothing |
| `Config.IndexByAddr` | src/main.cpp:280-283 | the index by address; of equal addresses the last configuration stays |
| `Config.ByAddrKeys` | src/main.cpp:280-283 | every indexed configuration comes from the list and has its key as address, and every address of the list is indexed |
| `Config.ByAddrLast` | src/main.cpp:280-283 | the configuration of an address is the last one in the list that has it |
| `Config.EqualMeans` | src/main.cpp:251-271 | two configurations count as equal if and only if they are the same once name, protocols, credentials and the ipv6 flag are blanked |
| `RefreshReload.Live.SetRefreshSeconds` | src/relay.cpp:397-405 | the clamped value goes to every matching configuration in memory, and to the file when it takes it; nothing else changes |
| `RefreshReload.ClampNearest` | src/relay.cpp:397-405 | the clamped value is the admissible one nearest to the value asked for |
| `RefreshReload.PortsEdited` | src/config.cpp:223-322 | reading the ports of an edited tree is adjusting the ports read before |
| `RefreshReload.AdjustThenReload` | src/main.cpp:356-367 | if memory and file agree, adjusting and then reloading classifies every port as unmodified exactly when the file took the value and gives it back when read, or did not take it and the port had it; otherwise that port alone is modified; for any reading of numbers |
| `RefreshReload.AdjustThenReloadReads` | src/config.cpp:138 | with numbers converted and cut as the program does, the reload is quiet if and only if the old fraction and exponent give the value back under that condition |
| `RefreshReload.EditIsLost` | src/main.cpp:356-367 | two ports adjusted at once, both reading the file before either writes it: the file keeps the later edit, and the reload classifies the other port, and only it, as modified unless it had its value already |
| `Registry.StepKeepsOwned` | src/main.cpp:142-187 | each critical section, in any order with any other, leaves every relay object held or dropped in exactly one place |
| `Registry.RunKeepsOwned` | src/main.cpp:298-326 | over all runs of idle, pending, reload and eviction sections every created relay is in exactly one of active, pending, in flight, dropped |
| `Registry.DroppedOnlyWhen` | src/system_monitor.cpp:393-403 | a relay is dropped only from the pending list, exited and not restarting, or as a victim that a reload replaced |
| `Registry.PendingPassMoves` | src/main.cpp:161-187 | relay by relay: a waiting relay stays while its backend runs, listens again once it has exited when it restarts, and is dropped when it does not; nothing happens to any other |
| `Registry.IdlePassMoves` | src/main.cpp:142-159 | relay by relay: an active relay leaves for the pending list if and only if it is monitored, running and without recent activity; nothing happens to any other |
| `RegistryUnique.StepWeak` | src/main.cpp:298-319 | up to the add section every interleaving keeps one relay per address and loses no address |
| `RegistryUnique.StepGood` | src/main.cpp:298-326 | outside the two windows every reload and eviction section keeps active relays and configuration in correspondence |
| `RegistryUnique.GoodExactly` | src/main.cpp:298-326 | from a good state a section keeps the correspondence if and only if it is not in one of the two windows |
| `RegistryUnique.InStepExactly` | src/main.cpp:298-326 | a completed reload is in step, once the eviction under way has put its relay back, if and only if no stray relay was active before the add section and the relay in flight is not of a removed address |
| `RegistryUnique.RunStaysInStep` | src/main.cpp:273-333 | over every race-free run, whenever no reload and no victim is under way, active relays and configured addresses correspond one to one, and each relay has the configuration of its address but for name, protocols, credentials and ipv6 flag |
| `RegistryUnique.RunKeepsMine` | src/system_monitor.cpp:359-405 | over every run of reloads and evictions whose reloads leave an address alone, that address keeps the same, single relay object, whatever races there are at other addresses |
| `RegistryUnique.RestIsMine` | src/main.cpp:273-333 | in a registry in step every active relay is such a single relay |
| `RegistryUnique.WindowBreaks` | src/main.cpp:298-326 | from every state at rest, an eviction put back between the sections of a reload that changes its address ends out of step |
| `RegistryUnique.WindowOpens` | src/system_monitor.cpp:391-404 | that run exists, and ends with two active relays for one address |
| `RegistryUnique.RemovalBreaks` | src/main.cpp:298-308 | from every state at rest, a reload that removes the address of a relay in flight ends out of step |
| `RegistryUnique.RemovalOpens` | src/system_monitor.cpp:391-404 | that run exists: of two ports one is removed during its eviction and its relay stays active |
| `RegistryLists.Globals.RetireByAddr` | src/main.cpp:298-319 | the erase loop moves exactly the matching relays to the pending list, in order |
| `RegistryLists.Globals.IdlePass` | src/main.cpp:142-159 | the idle pass moves exactly the monitored, running, inactive relays |
| `RegistryLists.Globals.PendingPass` | src/main.cpp:161-187 | the loop is the pending pass, and asks to stop exactly the running, monitored relays without recent activity |
| `RegistryLists.Globals.TakeOut` | src/system_monitor.cpp:363-384 | at most one relay is taken, the chosen one, and none exactly when none runs |
| `RegistryLists.Globals.PutBack` | src/system_monitor.cpp:393-404 | the victim returns to the list unless its address is taken there |
| `RegistryLists.Globals.AddAll` | src/main.cpp:320-325 | one new relay per configuration, in order |
| `RegistryLists.Compare` | src/main.cpp:280-297 | added are the configurations of new addresses, removed the addresses that are gone, modified exactly those whose configurations differ in more than name, protocols, credentials and ipv6 flag; each once |
| `RegistryLists.Globals.BeginReload` | src/main.cpp:273-297 | a reload is refused while another is in progress and then changes nothing; otherwise it is marked as in progress and its diff is listed |
| `RegistryLists.Globals.RemoveOld` | src/main.cpp:298-308 | the first removing section is the step of the machine, skipped or not |
| `RegistryLists.Globals.ModifyOld` | src/main.cpp:309-319 | the same for the modified ports |
| `RegistryLists.Globals.AddNew` | src/main.cpp:320-333 | the add section is the step of the machine and ends the reload |
| `RegistryLists.Globals.Reload` | src/main.cpp:273-333 | an undisturbed reload is its sections in a row; one during another is refused and changes nothing |
| `RegistryLists.ReloadInStep` | src/main.cpp:273-333 | an undisturbed reload of a registry in step leaves it in step with the new configuration |
| `PortGroup.Group.OnConnection` | src/port_group.cpp:20-43 | nothing when the group has launched; otherwise the events of the pids and descriptors it sees, whatever the members' threads change in between; when they are quiet, no member keeps its descriptor and every launched pid is stored |
| `PortGroup.PassEventsAre` | src/port_group.cpp:29-42 | a pass launches and stores exactly for the members it found without a backend, exchanges every descriptor and closes exactly those it found |
| `PortGroup.PassInOrder` | src/port_group.cpp:29-42 | member by member, and at each the launch before the store of its pid, then the exchange, then the close; nothing twice |
| `PortGroup.Group.Stop` | src/port_group.cpp:45-54 | the first stop sets every flag, exchanges, closes, kills and joins at every member and allows another launch; when the threads are quiet no member keeps its descriptor; later ones do nothing |
| `PortGroup.StopEventsAre` | src/relay.cpp:1424-1455 | a stop sets every flag, exchanges every descriptor, joins every thread, closes exactly the descriptors it found and kills exactly the backends it found alive |
| `PortGroup.StopInOrder` | src/relay.cpp:1424-1455 | member by member, and at each the flag, the exchange, the close, the kill, the join |
| `PortGroup.Group.SignalStop` | src/port_group.cpp:56-64 | the same without kill and join, and the group stays launched |
| `PortGroup.SignalEventsAre` | src/relay.cpp:1456-1465 | a signal sets every flag, exchanges every descriptor and closes those it found, in that order |
| `GroupPass.RunGood` | src/port_group.cpp:20-43 | over every run of passes, resets and stops beside the members' threads, the sockets, the pass and its counts are in order |
| `GroupPass.PassGoesOn` | src/port_group.cpp:28-43 | whatever the threads do, the pass can make its next operation, and each brings it closer to its end |
| `GroupPass.ClosesFound` | src/port_group.cpp:39-42 | each descriptor the pass closes is the open, never closed listening socket of the member, held by nobody else, and is closed once |
| `GroupPass.LaunchesFound` | src/port_group.cpp:30-31 | the pass tries to launch a member only when it found it without a backend, and had not tried before |
| `GroupPass.StoresLaunched` | src/port_group.cpp:31-34 | the pid of every launch that works is stored in its member, and nothing else is |
| `GroupPass.TurnsInOrder` | src/port_group.cpp:29-42 | no member is skipped: a turn ends with the exchange or the close, the next member's follows, and the last ends the pass |
| `GroupPass.TriesAtMostOnce` | src/port_group.cpp:29-38 | at every point of a pass it has tried each member at most once |
| `GroupPass.PassesApart` | src/port_group.cpp:66-70 | between two passes of any run the group has been reset, or stopped for the first time |
| `GroupPass.RearmsAllow` | src/port_group.cpp:66-70 | after such a reset or stop the next connection starts a pass |
| `GroupPass.PortHeldExactly` | src/relay.cpp:481-504 | after the exchange at a member whose backend lives, a run in which it goes on living gives the member its port again if and only if its thread was past its pid test and before its store at the exchange |
| `GroupPass.PassCanMiss` | src/port_group.cpp:28-43 | from every start of a group of two without backends, a run ends a pass with the second member launched by it and holding its port |
| `Lifecycle.StepInv` | src/relay.cpp:481-620 | every step of any listen thread, outside caller or re-arm keeps the socket invariant |
| `Lifecycle.CloseIsExact` | src/relay.cpp:1424-1465 | every close hits an open listening socket, held by the closer alone and never closed before, although descriptor numbers are reused |
| `Lifecycle.StoresOverNothing` | src/relay.cpp:503-504 | a new descriptor, and the -1 of a re-arm, are stored only over -1 |
| `Lifecycle.ExitedHoldsNone` | src/relay.cpp:574-580 | once a listen thread has exited, an open listening socket of its relay is in the hands of a caller about to close it |
| `Lifecycle.ClosedExactlyOnce` | src/relay.cpp:207-208 | with the thread exited and no caller in between, each of the relay's sockets has been closed exactly once |
| `Lifecycle.RunClosesExactlyOnce` | src/port_group.cpp:21-43 | over every run from the start no close fails or repeats, and a stopped relay has closed every socket it made |
| `Lifecycle.StopDrains` | src/relay.cpp:481-620 | with stop set every step of a listen thread brings it closer to its end |
| `Lifecycle.StoppedThreadEnds` | src/relay.cpp:1424-1465 | with stop set and no re-arm, a listen thread takes at most seventeen more steps, whatever else runs |
| `ListenThread.LaunchesExactly` | src/relay.cpp:531-571 | in every run a thread goes to launch exactly when it is to launch on start, or has a connection to serve outside a group and no backend |
| `ListenThread.EndsOnly` | src/relay.cpp:481-616 | in every run a thread ends only with stop set, released by its group, or without restart behind its backend |
| `ListenThread.ConnectionLaunches` | src/relay.cpp:199-208 | from every state that keeps the socket invariant, a connection to serve without a backend is followed by a launch, and a launch that works by the stored pid, the released port and its closed socket |
| `ListenThread.GroupTakesOver` | src/relay.cpp:561-566 | a connection the group serves ends the listening without a launch by the thread |
| `ListenThread.ComesBack` | src/relay.cpp:481-616 | from wherever it stands, a thread without stop, release or backend can come by its own steps to wait on an open socket of its own |
| `ListenThread.RearmedIsWilling` | src/relay.cpp:1551-1581 | re-arming makes an ended relay such a thread again and touches no socket |
| `ListenThread.ReleasedStaysAway` | src/relay.cpp:483-486 | in every run a released relay behind its test takes its port only after the release is cleared or the relay re-armed |
| `GiveUpLatch.StepInv` | src/relay.cpp:482-514 | on the idle path every step of every interleaving, group release and re-arming included, keeps the latch invariant |
| `GiveUpLatch.GiveUpIsForGood` | src/relay.cpp:1468-1495 | after a give-up on the idle path no later step marks the port or runs stop_command on an outsider |
| `GiveUpLatch.GivesUpOnce` | src/main.cpp:145-181 | a run on the idle path gives up at most once |
| `GiveUpLatch.LatchExactly` | src/relay.cpp:1486-1493 | on either path a step keeps the latch invariant if and only if it is not a give-up stored after the adoption passed its test |
| `GiveUpLatch.GiveUpHoldsExactly` | src/relay.cpp:1486-1493 | after a give-up in any run of evictions, some continuation marks the port or runs stop_command on an outsider again if and only if, at the give-up, an adoption had passed its test, or the port was marked and the thread was not just about to clear the mark |
| `GiveUpLatch.NeverWithoutCommand` | src/relay.cpp:89-90 | in every run on either path, a relay without a stop_command never takes an outsider for its backend |
| `GiveUpLatch.EvictionUnlatches` | src/relay.cpp:1534-1560 | a run of two whole evictions, each going on to signalStop and resetForIdle, leads from every fresh relay with a stop_command to running it again after giving up |
| `Eviction.Sampler.Pass` | src/system_monitor.cpp:456-478 | one sample updates the timer and triggers exactly as specified |
| `Eviction.Monitor` | src/system_monitor.cpp:420-478 | the loop over a trace evicts at exactly the passes the timer fires |
| `Eviction.FiresExactly` | src/system_monitor.cpp:456-478 | the timer fires if and only if an unbroken critical stretch without a firing in it spans the sustain time |
| `Eviction.FiresUnderPressure` | src/system_monitor.cpp:456-478 | in terms of the measurements: if and only if eviction is enabled and memory and a valid swap reading were both above their thresholds at every pass of the sustain time, without a firing since |
| `Eviction.FiringsApart` | src/system_monitor.cpp:468-471 | two firings are at least the sustain time apart |
| `Eviction.FiresWithin` | src/system_monitor.cpp:461-471 | under lasting pressure a firing follows every pass within the sustain time and two sampling gaps |
| `Eviction.FiringsClose` | src/system_monitor.cpp:461-471 | in an unbroken critical run neighbouring firings are at most that far apart |
| `Eviction.Choose` | src/system_monitor.cpp:364-382 | the victim is the earliest running relay with lexicographically greatest idle time and memory; none exactly when none runs |
| `Eviction.ChosenMeans` | src/system_monitor.cpp:364-382 | in terms of what is read: no running relay has been quiet for longer, or as long with more memory, and no earlier one as long with as much |
| `Eviction.ChosenOnce` | src/system_monitor.cpp:364-382 | that determines the victim |
| `Socks5.Client.RecvExact` | src/relay.cpp:930-938 | however reads are fragmented it returns the first n bytes, or reports fewer |
| `Socks5.Client.Choose` | src/relay.cpp:1004-1021 | the scan of the offered methods and the answer |
| `Socks5.Client.Serve` | src/relay.cpp:992-1126 | the replies sent, the outcome and the bytes left for the tunnel are a function of the concatenated input alone |
| `Socks5.SessionReplies` | src/relay.cpp:995-1126 | every session laid out as in the two RFCs gets the replies with the numbers of the RFCs, decodes to its target and leaves exactly the bytes behind its request |
| `Socks5.RepliesHeard` | src/relay.cpp:1111-1126 | for every input, a client that reads the replies by the two RFCs hears of a connection if and only if the tunnel is opened, and of a general failure if and only if its target was not reached |
| `Socks5.TunnelOnly` | src/relay.cpp:1004-1044 | a tunnel is opened only by a session that offered the selected method and, with userpass, gave the configured credentials |
| `Socks5.TunnelExactly` | src/relay.cpp:992-1130 | a tunnel is reached if and only if the input is such a session to a reachable target |
| `Tunnel.WriteAll` | src/relay.cpp:794-799 | the write loop delivers the whole buffer, or a front part before an error |
| `Tunnel.PipeRelay` | src/relay.cpp:790-804 | what arrives is a prefix of what was sent, all of it when no read or write fails; the write side is shut exactly without a write error |
| `Tunnel.RunDelivers` | src/relay.cpp:828-844 | in every interleaving each way delivers a prefix, and everything once it saw the end of the stream |
| `Tunnel.TornFreezes` | src/relay.cpp:838-844 | after the teardown nothing more arrives |
| `Tunnel.CompleteAtTeardown` | src/relay.cpp:838-844 | in every run without failures in which the opposite peer ends its stream only after this direction is complete, everything has arrived at the teardown |
| `Tunnel.HalfCloseExactly` | src/relay.cpp:828-844 | from every state before the teardown, a run without failures can cut a direction short if and only if the opposite stream has ended and this direction is not complete |
| `Tunnel.HalfCloseLoses` | src/relay.cpp:828-844 | a concrete run: the client ends its stream first and no byte of the reply arrives |
| `CommandLine.ScanQuotes` | src/relay_platform.h:156-170 | the quoted part of the inner loop |
| `CommandLine.ScanWord` | src/relay_platform.h:153-178 | one argument |
| `CommandLine.ParseCommandLine` | src/relay_platform.h:143-184 | the splitter terminates on every text; no arguments for an unterminated quote |
| `CommandLine.LineSplits` | src/relay_platform.h:143-184 | every line of the quoting language is split into the arguments it stands for |
| `CommandLine.SplitExactly` | src/relay_platform.h:143-184 | a text is split into given arguments if and only if it is a line of the language that stands for them |
| `CommandLine.IsEnvAssign` | src/relay_posix.cpp:110-120 | the scan accepts exactly NAME=anything with a name that does not start with a digit |
| `CommandLine.AssignExactly` | src/relay_posix.cpp:110-120 | such a text is exactly a variable name of letters, digits and underscores not starting with a digit, an equals sign, and anything |
| `CommandLine.PrepareLaunch` | src/relay_posix.cpp:129-140 | splitting and peeling, with the failures |
| `CommandLine.RefusedExactly` | src/relay_posix.cpp:129-140 | nothing is launched if and only if a quote is not closed or the line holds nothing but assignments |
| `CommandLine.LaunchRoundTrip` | src/relay_posix.cpp:129-140 | assignments, a program name and any arguments, double-quoted and joined, come back as exactly that environment and argv |
| `Chunked.HexLength` | src/relay_posix.cpp:275-282 | the nibble loop and the reversal print the hexadecimal numeral |
| `Chunked.HexIsValue` | src/relay_posix.cpp:275-282 | that numeral has the value of the length |
| `Chunked.WriteStream` | src/relay_posix.cpp:273-284 | what arrives of the frames and the terminator for any answers of the writes: a failed write ends the frames, a short one is taken for success |
| `Chunked.StreamDecodes` | src/control_server.cpp:611-619 | a decoder for section 7.1 of RFC 9112 reads the whole output and the terminator text back from a stream written whole, and stops exactly at the end |
| `Chunked.NoEarlyEnd` | src/relay_posix.cpp:273-284 | no proper prefix of a stream decodes as complete |
| `Chunked.FailureIsSilent` | src/relay_posix.cpp:284 | when no write is short, the client decodes exactly the chunks before the first failed write and the terminator; it has the whole output if and only if none failed |
| `Chunked.ShortWriteBreaks` | src/relay_posix.cpp:284 | when the first frame not written whole loses only bytes of its closing line end, nothing decodes, whatever is written next |
| `RateLimiter.Limiter.Allow` | src/control_server.h:37-50 | pruning the expired front answers as the full accept log would, and keeps doing so |
| `RateLimiter.Serve` | src/control_server.h:27-52 | over every run with a non-decreasing clock the answers are those of the full log |
| `RateLimiter.WindowBound` | src/control_server.h:37-50 | no half-open window of the configured length holds more accepts of an address than allowed |
| `RateLimiter.AllowedExactly` | src/control_server.h:37-50 | a request is allowed if and only if fewer than the allowed number of its address were allowed in the window that ends with it |
| `RateLimiter.Independent` | src/control_server.h:37-50 | an address gets the answers it would get alone |
| `Query.UrlDecode` | src/control_server.cpp:48-65 | the decoding loop, malformed triplets left as they are |
| `Query.QueryValue` | src/control_server.cpp:66-80 | the first field with the key, decoded; empty without one |
| `Query.DecodeEncode` | src/control_server.cpp:48-65 | percent-decoding undoes percent-encoding for every byte string |
| `Query.DecodeReads` | src/control_server.cpp:48-65 | a triplet of hexadecimal digits in either case is one byte, anything else stands for itself |
| `Query.PathFinds` | src/control_server.cpp:66-80 | in every path with encoded or bare fields each key finds the first value it was given, and other keys nothing |
| `Query.RefreshRoundTrip` | src/relay.cpp:343-348 | whatever name, address and token contain, the server reads back all four fields of the wait page's request |
| `ControlText.JsonEscape` | src/control_server.cpp:479-500 | the escaping loop |
| `ControlText.EscapeReadsBack` | src/control_server.cpp:479-500 | what is written is one JSON string whatever the text holds; the parser reads the text back if and only if no character needs a six-character escape |
| `ControlText.EscapeIsStandard` | src/control_server.cpp:479-500 | a reader of section 7 of RFC 8259 gives every escaped text back |
| `ControlText.ParsesStandard` | src/json.cpp:8-27 | the configuration parser reads every standard string without six-character escapes as the standard does |
| `ControlText.VerifyPin` | src/control_server.cpp:502-517 | true exactly for the configured PIN, never without one |

## Left out

- Sockets, processes, netlink, procfs, Winsock and the platform metrics: only their answers appear, as arbitrary inputs.
- Which numbers stod rounds up to an integer and which it refuses: arbitrary answers in `Numbers`, up to rounding to the nearest double, and any conversion at all in `RefreshReload.AdjustThenReload`; integer widths are unbounded, and the cast of a number outside `int`, undefined in C++, is exact here.
- RefreshReload.Live.SetRefreshSeconds: runs alone, although the source releases its mutex before it reads and rewrites the file; `RefreshReload.EditIsLost` says what two of them at once do.
- Chunked.ShortWriteBreaks: does not cover a write cut earlier in its frame, where later frames are read as data and what is decoded depends on them.
- `\u` escapes: the parser does not decode them, so the printed texts of the round trip do not use them.
- EditorMeaning.EditMeans: does not cover texts that spell one of the two keys with escapes, have a backslash in a `listen` value or a string value equal to the key, because the scanner compares raw characters there; the edit itself is modelled on all texts.
- EditorMeaning.LastWriterWins: needs only that no string value of the edited entry equals the key, because the second pass would stop there.
- RefreshReload.AdjustThenReload: is stated for the texts of `EditorMeaning.EditMeans` with one entry per address and a lookup of `listen` that finds it.
- Json.ReadVal: takes bounds on depth and passes, because the parser does not terminate on every text; `Json.BoundsLoseNothing` shows that they cut nothing off.
- File input and output, including writing the edited text back.
- The part of the configuration outside port entries, and validation of its settings.
- Uniqueness of relays while the idle and pending passes run: the pending pass puts auto-restart relays back even when a reload retired them. Ownership holds with them.
- Deadlock freedom: the passes take the two mutexes in different orders, and a section is one step here.
- Exactly-once close in the mixed and proxy listen loops, which test and close the descriptor in separate steps.
- Concurrent re-arming of one relay: one caller at a time is assumed, as ownership of the relay gives.
- The value of the outside mark in the socket model: that test goes either way.
- Backend supervision, the signal escalation of gracefulStop, retry back-off and protocol detection beyond the first byte.
- Failed or short writes of SOCKS5 replies: the program ignores them, and the model records what it asked to send.
- Trailer fields and chunk extensions in the chunk decoder: the program sends none.
- The wait page, logging, help text and service notification: presentation only.
- The constant-time aspect of the PIN comparison: only its result is stated.
- RegistryLists.Compare: iterates over the addresses in any order, where the source uses sorted order; only the order of new relays in the list depends on it.
