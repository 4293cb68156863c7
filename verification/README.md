# hush: verified core

hush is an SSH-like remote shell over QUIC. This project models, in Dafny 4.11, the parts of it
that decide something: which `Host` line applies, which UDP flows live and who protects them,
what counts as the `<Enter>~.` escape, when the terminal is on its alternate screen, when a client
hops to a new socket, who pinned which host, which identity and reset key a server has, what a
file copy sends, how SSH fields are written and read, and in which order addresses are tried.

Check everything with

    dafny verify --resource-limit 2000000 --verification-time-limit 0 dfyconfig.toml

## How the model is built

Code that updates things in place is a class or a method with the source's own loops, proved
against a function of its inputs or its old state; the theorems are lemmas about those functions.
Protocols with several threads or processes are step machines: one step per lock region or file
system call, any number of threads or processes, and a run is any sequence of steps. A process
that shares files may stop at every step, and a step that is not enabled changes nothing. Theorems
over runs hold for every run and every prefix of it.

| file | models |
|---|---|
| `Common.dfy` | bytes, word sizes, optional values and results |
| `HostMatch.dfy` | the wildcard matcher of ssh_config `Host` lines |
| `FlowTable.dfy`, `NwUdp.dfy` | the flow table of the Network.framework shim: its meaning, and the array that implements it |
| `NwFlows.dfy` | `adopt`, guard drops, `on_flow`, `on_close` and both eviction loops, interleaved |
| `NwRuns.dfy` | whole runs of that protocol: eviction loops, the reaper's clock, dropped guards |
| `NwIndex.dfy` | the index from peers to flows over whole runs, and flows that outlive their peer's last guard |
| `Inbox.dfy` | received datagrams, the byte budget and the waker |
| `Escapes.dfy`, `EscapeLaws.dfy` | the escape filter, and what it guarantees over every run |
| `AltScreen.dfy` | the alternate screen tracker |
| `Roam.dfy` | `PathWatch` and the watch loop |
| `KnownHosts.dfy`, `HostIdentity.dfy`, `ResetKey.dfy` | host pins, the two-file host identity and the reset key, shared by processes that crash |
| `FileCopy.dfy`, `Archive.dfy` | the tree walk, its budget, the archive byte limit and the unpacking order |
| `SshWire.dfy` | strings and mpints (section 5 of RFC 4251), ECDSA signatures (section 3.1.2 of RFC 5656), the agent's identities answer |
| `HappyEyeballs.dfy` | the address order and the connect loop |

## Results about the code that a reader might not expect

- The wildcard matcher tests for a literal match before it tests for `*`, so a `*` in the host
  name is consumed as an ordinary byte. The matcher never accepts more than the glob relation
  (`MatchesIsGlob`), and `ExactHosts` proves that it agrees with it for every pattern if and only
  if the host name holds no `*`.
- The reaper reads the clock before it takes the lock, and the age of a flow is an unsigned
  subtraction. A flow that became active in between looks billions of seconds idle and is closed
  (`FreshFlowReaped`, and as a run `JustActiveFlowReaped`). `ReapedBelowLimitWasIdle` proves that a
  flow closed below the limit really was silent for three seconds if and only if its last activity
  is not after that clock reading.
- Dropping the last guard of a peer looks its flow up and has it closed later, on the queue. If the
  peer is adopted again in between, its flow is closed although it is guarded and protected
  (`StaleCloseHappens`). `DropClosesExactly` proves that a guarded peer can lose its flow to a drop
  if and only if such a drop is already under way.
- The index is not the inverse of `peers`: a peer with two flows has only the one announced last in
  the index (`IndexIsLast`, an if-and-only-if). Dropping its last guard asks for that flow alone
  (`DropAsksForLast`), although the guard protected both. The other one stays: no eviction loop
  takes it, and nothing is sent on it (`OrphanHappens`). `OutlivesExactly` proves which protected
  flows outlive the last guard: all that no drop asked for, until the connection fails or the peer
  is adopted again. A second announcement of such a flow puts it back into the index, but closes
  nothing.
- The escape filter depends on read boundaries in two places: between ESC and `[`, and inside a
  control sequence already longer than 256 bytes (`CutAfterEsc` and `CutInLongReport` give an input
  for each). `ReadBoundaryBytes` proves from the bytes alone that a cut anywhere else cannot be
  seen, and `ReadBoundaryByPresses` says exactly, over every run, when no next read can show it.
- The copy budget saturates at 2^64-1, so an entry limit of exactly that number limits nothing, and
  neither does a byte limit of that number once two entries are admitted. `AcceptedSumsAreTrue`
  proves that under all other limits every copy is judged by its true sums.
- The byte limit of an archive allows 1024 bytes per entry and one stream buffer. Unless computing
  it saturates, it never stops a copy that the budget admits as long as records for long names fit
  that buffer (`SendLimited`); enough of them do not (`LongNamesOverflow`).
- `put_string` writes the length modulo 2^32, and `StringRoundTrip` proves that a string is read
  back if and only if its length fits.

## Model

| member | source | states |
|---|---|---|
| HostMatch.HostPatternMatches | hush-core/src/config.rs:458-485 | the last-star loop terminates on every input, never accepts a host the recursive glob relation refuses, and accepts exactly the glob relation on the lowercased bytes when the host has no `*` |
| HostMatch.GreedySound | hush-core/src/config.rs:465-484 | from every position of the loop, acceptance implies that the rest of the pattern, or the pattern from the remembered `*`, matches the rest of the host |
| HostMatch.GreedyComplete | hush-core/src/config.rs:465-484 | for hosts without `*`, remembering only the last star loses no match |
| HostMatch.NewStar | hush-core/src/config.rs:469-472 | once a later `*` is reached, the earlier one never needs to be stretched again |
| HostMatch.Backtrack | hush-core/src/config.rs:473-476 | at a mismatch the remembered `*` must take one more byte |
| HostMatch.MatchesIsGlob | hush-core/src/config.rs:458-485 | sound for every host, exact for hosts without `*` |
| HostMatch.ExactHosts | hush-core/src/config.rs:466-472 | matcher and glob relation agree on all patterns if and only if the host has no `*` |
| HostMatch.HostBlockMatches | hush-core/src/config.rs:440-456 | the early-return loop accepts iff some plain pattern hits and no negated one does |
| HostMatch.BlockIsGlob | hush-core/src/config.rs:440-456 | for hosts without `*` a line means: some non-empty plain pattern globs the host and no non-empty negated one does, whatever the order of the tokens |
| NwUdp.Handle.FindFlow | hush-core/csrc/nwudp.c:64-68 | the first index with the id, or the length |
| NwUdp.Handle.TakeFlow | hush-core/csrc/nwudp.c:70-79 | swap-removal of the flow with that id, reported exactly if it was there |
| NwUdp.Handle.AddFlow | hush-core/csrc/nwudp.c:231-255 | appends an unprotected flow under the next id, growing the array; without memory the table is unchanged |
| NwUdp.Handle.ScanTable | hush-core/csrc/nwudp.c:110-118 | counts unprotected flows and finds the oldest activity and its flow |
| NwUdp.Handle.ReapFlows | hush-core/csrc/nwudp.c:103-126 | terminates, closes least recently active unprotected flows only, keeps every protected one, and ends within the limit |
| NwUdp.Handle.ReserveUnprotectedFlow | hush-core/csrc/nwudp.c:128-152 | terminates with room for one more unprotected flow exactly if the limit is not zero, by closing least recently active unprotected flows only |
| NwUdp.Handle.Accept | hush-core/csrc/nwudp.c:296-304 | accepting a connection keeps ids unique, protected flows in place and unprotected flows within the limit |
| NwUdp.Handle.ProtectFlow | hush-core/csrc/nwudp.c:399-405 | marks the flow protected, reported exactly if it is in the table |
| NwUdp.Handle.TouchFlow | hush-core/csrc/nwudp.c:156-166 | records activity on the flow, and that it is ready |
| FlowTable.ScanMeans | hush-core/csrc/nwudp.c:106-118 | the scan's count is the number of unprotected flows, its victim a least recently active one, and 0 exactly if there is none |
| FlowTable.SwapRemoveKeeps | hush-core/csrc/nwudp.c:70-79 | exactly the removed flow goes, and ids stay unique |
| FlowTable.ReapMeans | hush-core/csrc/nwudp.c:103-126 | over all rounds: protected flows stay, each flow taken was least recently active, at most the limit stays unprotected |
| FlowTable.ReapLeavesNoneIdle | hush-core/csrc/nwudp.c:119-123 | when the reaper stops, no unprotected flow has been silent for three seconds at its last clock reading |
| FlowTable.ReserveMeans | hush-core/csrc/nwudp.c:128-152 | room is made iff the limit is not zero, nothing is taken while there is room, and only least recently active flows are |
| FlowTable.ReapedBelowLimitWasIdle | hush-core/csrc/nwudp.c:105-121 | a flow reaped below the limit was idle for three seconds iff its last activity is not after the clock reading |
| FlowTable.FreshFlowReaped | hush-core/csrc/nwudp.c:105-121 | a flow of a peer that became active one nanosecond after the clock reading is taken |
| NwFlows.StepKeeps | hush-core/src/nwsock.rs:124-191 | every step of the queue or of any thread keeps the invariant linking table, index, `peers`, guards and intentions to protect |
| NwFlows.GuardedPeerIsProtected | hush-core/src/nwsock.rs:124-151 | in every interleaving, with no adopt of the peer and no announcement of its flow under way, a peer with a guard has its indexed flow protected if the table still holds it |
| NwFlows.GuardsAreCounted | hush-core/src/nwsock.rs:300-359 | the count of a peer is always its live guards plus the adopts of it under way, so a drop never finds the entry missing |
| NwFlows.LimitHolds | hush-core/csrc/nwudp.c:296-304 | in every reachable state ids are unique and unprotected flows are within the limit |
| NwFlows.IndexAtRest | hush-core/src/nwsock.rs:124-191 | at rest every index entry names a flow in the table with that peer, for which `peers` says the same, and `peers` names only flows in the table with that peer; when the index leads back is NwIndex.IndexIsLast |
| NwFlows.OnlyLeastRecentEvicted | hush-core/csrc/nwudp.c:103-152 | a flow leaves the table only when its connection failed, when a drop asked for it to be closed, or as a least recently active unprotected flow |
| NwFlows.LoopsShrink | hush-core/csrc/nwudp.c:103-152 | under interference too, only an accepted connection grows the table and every continuing round of an eviction loop shrinks it |
| NwRuns.RoundsAreBounded | hush-core/csrc/nwudp.c:103-152 | over any stretch of a run until the next connection is added, whatever threads do meanwhile, continuing rounds and remaining flows together are at most the flows at its start |
| NwRuns.JustActiveFlowReaped | hush-core/csrc/nwudp.c:103-126 | the race as a run from the initial state: a datagram sent between clock reading and scan costs the peer its flow |
| NwRuns.ReapedWasIdleExactly | hush-core/csrc/nwudp.c:103-126 | in every run a flow the reaper takes is a least recently active one, and was silent for three seconds iff its last activity is not after the clock reading |
| NwRuns.DropsCloseOwnFlow | hush-core/src/nwsock.rs:352-357 | in every run the flow a drop is about to close is its own peer's, if it still is in the table |
| NwRuns.DropClosesExactly | hush-core/src/nwsock.rs:339-359 | from every reachable state at rest, a peer that keeps a guard throughout can lose its indexed flow to a drop iff a drop of its last guard is under way: about to look, about to ask, or asked |
| NwRuns.StaleCloseHappens | hush-core/src/nwsock.rs:300-359 | the run that shows it: adopted again between a drop and its lookup, the peer has a guard and a protected flow, and a continuation closes that flow |
| NwIndex.IndexIsLast | hush-core/src/nwsock.rs:124-191 | in every reachable state, for a flow that `peers` gives to a peer, the index names it iff it is the flow of that peer announced last |
| NwIndex.DropAsksForLast | hush-core/src/nwsock.rs:352-357 | a drop of the last guard asks for the flow announced last, or for none iff the peer is not in the index |
| NwIndex.OutlivesExactly | hush-core/src/nwsock.rs:296-359 | once every drop of an unguarded peer has looked, a protected flow of it can leave the table without a failure or a new adopt iff a drop asked for it or is about to |
| NwIndex.OrphanHappens | hush-core/src/nwsock.rs:124-191 | the run that shows it: a second flow replaces the first in the index, the last guard is dropped, and at rest the first is left in the table and in `peers`, protected, unguarded, unindexed and never to go |
| Inbox.Queue.Receive | hush-core/src/nwsock.rs:160-167 | a datagram is queued at the end exactly if it fits the byte budget |
| Inbox.Queue.Poll | hush-core/src/nwsock.rs:408-428 | hands over datagrams in order, one per buffer, cut to the buffer, and keeps the byte counter right |
| Inbox.NoLostWakeup | hush-core/src/nwsock.rs:153-171 | whenever the poller returned Pending with datagrams queued, it was woken or a receiver is about to take the registered waker, which wakes it |
| Inbox.NothingLost | hush-core/src/nwsock.rs:402-435 | in every interleaving the counter is the queued length within the limit, and accepted datagrams are the delivered ones followed by the queued ones |
| Escapes.EscapeFilter.HandleKey | hush/src/session.rs:305-329 | one key: held, flushed, passed or escape |
| Escapes.EscapeFilter.Push | hush/src/session.rs:275-303 | one read: verdict, output and state equal the scan of the carried partial followed by the input; a disabled filter passes everything |
| Escapes.EscapeFilter.Finish | hush/src/session.rs:331-334 | releases held bytes, then the partial |
| Escapes.NextKey | hush/src/session.rs:340-358 | waits exactly for an unfinished control sequence of at most 256 bytes, and otherwise splits off a non-empty prefix |
| EscapeLaws.RunValid | hush/src/session.rs:281-296 | over every run the carried partial is empty or an unfinished control sequence of at most 256 bytes |
| EscapeLaws.RunConserves | hush/src/session.rs:275-335 | until an escape the input is output, held bytes and partial in order; at an escape output and held bytes are a prefix of it |
| EscapeLaws.EscapeExactly | hush/src/session.rs:305-329 | over every run an escape is reported iff the key presses hold `~`, `.` with the `~` first or right after Enter |
| EscapeLaws.PlainTextEscape | hush/src/session.rs:353-356 | text without control sequences is an escape iff it holds the bytes `~.` at its start or after CR or LF, however it is cut into reads |
| EscapeLaws.ReportsIgnored | hush/src/session.rs:360-368 | focus and private-prefixed reports are single tokens and no key presses |
| EscapeLaws.ReadBoundary | hush/src/session.rs:340-352 | two reads equal one joined read in verdict, output and state when the tokens of the first make the cut safe |
| EscapeLaws.ReadBoundaryExactly | hush/src/session.rs:340-352 | for each classifier and state the cut is invisible to every next read iff its tokens make it safe |
| EscapeLaws.ReadBoundaryBytes | hush/src/session.rs:340-352 | in every state and for every classifier the cut cannot be seen if the bytes do not end in ESC before a `[`, nor in an unfinished control sequence of more than 256 bytes |
| EscapeLaws.ReadBoundaryByBytes | hush/src/session.rs:340-368 | the cut is invisible to every next read, however longer parameters are classified, iff the first read escapes, or the bytes do not end in ESC and an overlong control sequence at their end is a private report reached in mid-line |
| EscapeLaws.ReadBoundaryByPresses | hush/src/session.rs:305-368 | the same after every run, in terms of the bytes and of the key presses so far alone |
| EscapeLaws.CutAfterEsc | hush/src/session.rs:337-342 | ESC, then `[`: two reads differ from one for every classifier |
| EscapeLaws.CutInLongReport | hush/src/session.rs:351 | a private report of 303 bytes, then its final byte: two reads differ from one for every classifier |
| AltScreen.AltScreenTracker.Push | hush/src/session.rs:480-525 | the tracker after a read, and whether the screen changed |
| AltScreen.AltScreenTracker.EndParameter | hush/src/session.rs:527-534 | the mode a finished parameter names |
| AltScreen.FeedAppend | hush/src/session.rs:480-525 | reads may be split anywhere |
| AltScreen.DigitsSaturate | hush/src/session.rs:497-502 | the accumulator is the decimal value cut off at 2^32-1 |
| AltScreen.SwitchSequence | hush/src/session.rs:478-534 | from any state, a switch sequence with C0 controls anywhere after `ESC [` sets the screen by the last parameter whose value is exactly 47, 1047 or 1049, to Off for `l`, and changes nothing if there is none |
| AltScreen.OnlySwitchSequences | hush/src/session.rs:478-534 | whenever the screen changes, the stream so far ends in such a sequence with a parameter that names a screen |
| AltScreen.LastSwitchDecides | hush/src/session.rs:478-534 | the screen after a whole stream is the one set by the last switch sequence in it that names a screen |
| AltScreen.NoSwitchNoScreen | hush/src/session.rs:478-534 | a stream without such a sequence leaves the screen off |
| Roam.PathWatch.Observe | hush/src/roam.rs:355-377 | counters, timer and decision of one observation |
| Roam.PathWatch.RecordHop | hush/src/roam.rs:385-388 | the doubled and capped backoff |
| Roam.PathWatch.Handle | hush/src/roam.rs:227-254 | one event of the watch loop: its reason to hop, and the watch afterwards |
| Roam.PathWatch.WatchPath | hush/src/roam.rs:207-254 | the loop over a run of events: the hops made and the final watch |
| Roam.HopsAreSpaced | hush/src/roam.rs:355-388 | over every run with a monotone clock each hop is at least 1 s after the one before it, and at least 3 s if it is for unanswered packets, even after an ACK reset the backoff |
| Roam.HopsInWindow | hush/src/roam.rs:380-383 | any window of T seconds holds at most floor(T)+1 hops |
| Roam.RequestedHopsExactly | hush/src/roam.rs:229-243 | socket trouble and network changes hop iff the last hop is a second ago, the latter only to a different source |
| Roam.UnansweredHopIsSound | hush/src/roam.rs:362-377 | a silence hop has a tick at least `silence` earlier that showed unanswered frames, and no new ACK since |
| Roam.LongSilenceHops | hush/src/roam.rs:372-377 | a tick with unanswered frames hops if a tick 30 s earlier had some, no new ACK came since, and the last hop is 30 s ago |
| Roam.SilenceHopsExactly | hush/src/roam.rs:355-377 | over every run a tick hops for silence iff it shows unanswered frames and no new ACK, some tick `silence` earlier did with no new ACK since, and the last hop is a backoff ago |
| Roam.BackoffDoubles | hush/src/roam.rs:385-388 | in an outage with constant silence s the backoff after k hops is min(s*2^(k-1), 30 s) |
| KnownHosts.Client.CheckExisting | hush-core/src/tls.rs:130-145 | accepted, rejected or pinned, and the file afterwards |
| KnownHosts.Client.CheckOrInsert | hush-core/src/tls.rs:112-128 | exactly when each kind of trust accepts: Insecure always and untouched, KnownOnly iff pinned alike, Tofu iff pinned alike or new; pins only grow and the client's own snapshot does not matter |
| KnownHosts.StepKeeps | hush-core/src/tls.rs:120-157 | every step of every client keeps the invariant, and the file only grows |
| KnownHosts.PinsOnlyGrow | hush-core/src/tls.rs:112-157 | for any number of clients, snapshots and crashes no pin is removed or changed |
| KnownHosts.ChecksAgree | hush-core/src/tls.rs:112-157 | any two successful checks of one host, other than Insecure ones, saw the same fingerprint, which is the pinned one |
| KnownHosts.AloneIsCheck | hush-core/src/tls.rs:112-157 | the steps of one undisturbed client, other than an Insecure one, amount to the whole check |
| HostIdentity.Store.LoadOrCreate | hush-core/src/tls.rs:231-278 | returns a valid stored pair untouched, installs a fresh one otherwise, and fails, leaving the files alone, exactly for equal paths or a mismatched pair at explicit paths |
| HostIdentity.IdentityIsStable | hush-core/src/tls.rs:238-278 | once a pair was returned, the disk holds it and every later return equals it, with any number of processes stopping anywhere |
| HostIdentity.CompletionRepairs | hush-core/src/tls.rs:262-277 | a call that completes leaves exactly its valid pair on disk, whatever an interrupted call left |
| HostIdentity.AloneIsLoadOrCreate | hush-core/src/tls.rs:231-278 | the steps of one undisturbed process amount to the whole call |
| ResetKey.CallsAgree | hush-core/src/endpoint.rs:27-94 | in every interleaving with crashes all returned keys are the same 64 bytes, the contents of the installed file |
| ResetKey.InstalledStays | hush-core/src/endpoint.rs:68-81 | the installed file keeps its name and contents |
| ResetKey.NeverPartial | hush-core/src/endpoint.rs:63-73 | if the final name is absent or names a complete key at the start, then so in every state of every run |
| ResetKey.ReadersSucceed | hush-core/src/endpoint.rs:96-119 | from such a start a reader that opened the file gets a key, and a call that lost the race finds the winner's file |
| ResetKey.AloneInstalls | hush-core/src/endpoint.rs:27-94 | from such a start an undisturbed call returns the installed key or installs its own, and leaves no temporary file |
| FileCopy.CopyBudget.Add | hush-core/src/filecopy.rs:293-306 | saturating charge, refused exactly above a limit |
| FileCopy.AppendPathLimited | hush-core/src/filecopy.rs:322-360 | the stack walk terminates; it emits the whole tree in visiting order, or the part before the first entry that exceeds the limits |
| FileCopy.EmitIsTree | hush-core/src/filecopy.rs:331-357 | the visiting order holds every node of the tree exactly once under its path, with the tree's node count and total size |
| FileCopy.DirectoriesFirst | hush-core/src/filecopy.rs:341-351 | every directory comes before everything in it |
| FileCopy.AcceptedSumsAreTrue | hush-core/src/filecopy.rs:293-306 | every copy of files with 64-bit sizes is judged by its true sums iff the entry limit is below 2^64-1, and so is the byte limit unless at most one entry is admitted |
| Archive.SendArchive | hush-core/src/filecopy.rs:196-211 | the walk over several sources under one budget succeeds iff there are sources, copying is enabled and the limits admit everything; a failure emitted only what they admit |
| Archive.SendLimited | hush-core/src/filecopy.rs:183-219 | walk and limited writer together, whatever the records, cuts and acceptance: success iff the budget admits the sources and their archive fits the byte limit, then all of it went through; with an unsaturated limit and long-name records within one stream buffer, iff the budget admits them |
| Archive.AcceptedArchiveFits | hush-core/src/filecopy.rs:309-314 | the archive of an accepted copy fits the byte limit when that limit did not saturate and records for long names leave room in one stream buffer |
| Archive.LongNamesOverflow | hush-core/src/filecopy.rs:309-314 | empty files with two more blocks of name records each, in numbers that outweigh the allowance, are admitted by the budget and exceed the byte limit |
| Archive.LimitedWriter.PollWrite | hush-core/src/filecopy.rs:799-814 | passes a prefix on, never beyond the limit, and fails exactly at the limit |
| Archive.LimitedWriter.WriteAll | hush-core/src/filecopy.rs:795-814 | over any inner writer that takes at least one byte at a time, exactly the bytes that fit arrive, unchanged and in order, and the write succeeds iff that is all of them |
| Archive.LimitedWriter.WriteChunks | hush-core/src/filecopy.rs:795-814 | however the stream is cut into writes, exactly the part of it that fits arrives, and it is refused iff that is not all of it |
| Archive.UnpackLimited | hush-core/src/filecopy.rs:362-399 | an admitted archive is unpacked entry by entry once, every directory after everything below it; a refused one touches no directory |
| SshWire.StringRoundTrip | hush-core/src/agent.rs:386-389 | a string is read back with the rest left over iff its length is below 2^32 |
| SshWire.ReadStringInverts | hush-core/src/auth.rs:367-372 | whatever is read is the encoding of what is returned |
| SshWire.SshReader.Take | hush-core/src/auth.rs:705-712 | takes a prefix, or fails and leaves the cursor |
| SshWire.SshReader.ReadNumber | hush-core/src/auth.rs:714-717 | reads a big-endian word |
| SshWire.SshReader.ReadBytes | hush-core/src/auth.rs:719-722 | reads a length-prefixed string |
| SshWire.PutMpint | hush-core/src/agent.rs:393-405 | appends the length-prefixed mpint of the magnitude |
| SshWire.MpintIsCanonical | hush-core/src/agent.rs:391-405 | keeps the value and is the only canonical non-negative form of it |
| SshWire.MpintIsShortest | hush-core/src/agent.rs:391-405 | no non-negative form of the value is shorter |
| SshWire.NormalizedScalar | hush-core/src/auth.rs:827-836 | the trimmed and left-padded scalar, or the error |
| SshWire.NormalizeMeans | hush-core/src/auth.rs:825-836 | a byte string of that width is the result iff it has the same value |
| SshWire.ScalarRoundTrip | hush-core/src/auth.rs:825-836 | a magnitude written as an mpint comes back at its own width |
| SshWire.EcdsaFixedToSsh | hush-core/src/agent.rs:375-384 | two mpints, or an error for an empty or odd length |
| SshWire.SignatureRoundTrip | hush-core/src/agent.rs:373-384 | a fixed-width signature survives encoding and decoding iff both its mpints fit their length fields |
| SshWire.ListIdentities | hush-core/src/auth.rs:299-327 | the recognised keys of an answer the parser accepts, in order |
| SshWire.ParserInverts | hush-core/src/auth.rs:311-326 | the parser accepts exactly the encodings, and returns what was encoded |
| SshWire.AnswersAreExact | hush-core/src/auth.rs:323-325 | no accepted answer is a proper prefix of another |
| HappyEyeballs.HappyEyeballsOrder | hush/src/net.rs:150-168 | the two-queue loop yields the alternation of the two families |
| HappyEyeballs.OrderInterleaves | hush/src/net.rs:150-168 | nothing more or less than the addresses, each family in its own order, alternating with IPv6 first |
| HappyEyeballs.Connector.Advance | hush/src/net.rs:78-121 | one turn of the connect loop |
| HappyEyeballs.AttemptsInOrder | hush/src/net.rs:68-111 | attempts start in order, each address at most once, 250 ms apart or when nothing is in flight, and a deadline is set iff addresses remain |
| HappyEyeballs.NextAttemptStarts | hush/src/net.rs:82-111 | the next address is tried once the deadline passed or all attempts failed |
| HappyEyeballs.FailsOnlyAfterAll | hush/src/net.rs:79-122 | an error comes only after every address was tried and failed, and is an attempt's error |
| HappyEyeballs.TurnsMakeProgress | hush/src/net.rs:78-121 | every turn that changes anything lowers twice the waiting addresses plus the attempts in flight plus one while undecided |

## Left out

- quinn, rustls, tokio, Network.framework, tar, zstd, toml and the operating system: foreign code. Callbacks, lock regions and file system calls are single steps, clocks and outcomes are parameters of the events, and "certificate and key form a valid pair" is an arbitrary predicate.
- `classify_kitty_key` is an arbitrary function from parameters to keys: every theorem about the escape filter holds for every such function.
- Splitting a `Host` line at white space and the canonical form of addresses (IPv4-mapped IPv6): the model starts from tokens and from canonical peers.
- `NwSocket::connect` and the client's single flow, sending datagrams, and the pending datagrams of a flow that is not ready.
- Reading known_hosts and the identity files is one step, since each file is only ever replaced by renaming; a file that does not parse, and users editing or removing these files, are not modelled.
- Host identity at explicit paths appears only in the one-process method; the step machine uses the default paths.
- Reset key: a temporary name is never drawn again after its owner removed it (the source draws 12 random bytes), and the installed file is not removed.
- The wire byte limit of compressed archives, the form of archive records (their lengths are block sizes plus a parameter for long names), files that change while being copied, and errors of the file system or of the inner writer: the tree is a fixed value.
- Session start, terminals, agent relay, port forwarding, command line, logging, `fastsock.rs`, `netmon.rs` and `os.rs`: plumbing with little state of its own.
- The 60 s limit around the connect loop, and which attempt's connection wins a tie.
- Archive.SendLimited: the writes come after the walk instead of between its steps, so the model does not say how far the walk got when a write stopped it.
- SshWire.SignatureRoundTrip: the source only encodes signatures; the decoder is put together here from its string reader and `normalize_scalar`, which it uses on private keys.
- Pending closes are a set: the order in which the queue takes up what was asked of it is left open.
- NwUdp.Handle.AddFlow: ids are unbounded, so the reuse of an id after 2^64 connections is not modelled.
