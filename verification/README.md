# yggstack-ng in Dafny

A model of the stateful core of yggstack-ng, a userspace Yggdrasil node, with proofs of what it
keeps over every run. `dafny verify dfyconfig.toml` checks the whole project.

Each part is built the same way. The values and steps are datatypes, functions and predicates on
a snapshot; whole-run theorems are lemmas about them; and where the program changes things in
place there is a class (or a method with loops) whose contract ties its new state to those
functions. The laws about those functions do not name them: they speak of bytes, states, times and
calls, with the source's constants written as numbers. Every lemma switches automatic induction off: what it proves, it proves by the body
written. Time is a number given with each step, `select!` is any choice, and what the network
and smoltcp do is an input.

| part | modules |
|---|---|
| shared vocabulary, lists, text, UTF-8, decimal ports | `Common`, `Seqs`, `Text` (all in Common.dfy) |
| IPv6 fragment reassembly (section 4.5 of RFC 8200) | `FragModel`, `FragProofs`, `FragPackets`, `Frag` |
| socket bookkeeping of the netstack | `NetModel`, `NetProofs` (both in NetModel.dfy), `NetTheorems`, `NetLifetimes`, `NetLoops`, `Netstack` |
| nameserver failover, alone and overlapping | `FailoverModel`, `FailoverProofs`, `Failover`, `FailoverConcurrent`, `FailoverLaws` |
| DNS encoder and decoder (RFC 1035, RFC 3596) | `Dns`, `DnsLaws` |
| UDP session table | `UdpModel`, `UdpSteps` (both in UdpModel.dfy), `UdpProofs`, `UdpLaws`, `UdpSessions` |
| HTTP head reader, parser, rewriter (RFC 9112) | `HttpRead`, `HttpHead`, `HttpProofs` (both in HttpHead.dfy), `HttpTheorems`, `HttpTarget`, `HttpLaws` |
| engine lifecycle | `EngineModel`, `EngineProofs`, `EngineTheorems`, `EngineLaws`, `Engine` |
| ping session | `Ping` |
| mapping specs | `Mapping` |

## Where the code falls short of what it seems to promise

Each has a concrete input or run that shows it, and the exact condition under which it does not
happen.

- A repeated fragment can stand in for a missing one, because the counter adds its length again:
  three packets after which a packet with a hole comes out, `FragProofs.DuplicateFillsHole`;
  exactly when the counter is right, for any history: `FragProofs.CounterExactly`.
- Two overlapping lookups can leave the cursor off server 0 with no down time, so that the
  cool-down does not bring it back (server 0 is then asked only if the other servers fail):
  `FailoverConcurrent.OverlapLosesDownTime`. Runs with at most m lookups at a time are free of this
  exactly when m is at most one: `FailoverConcurrent.RecordKeptExactlyWithoutOverlap`.
- A UDP send of 30 seconds with an eviction tick in it, or a shorter one with the tick just before
  its listener is stored, leaves a listener that stop does not reach:
  `UdpProofs.SlowSendLeavesOrphan`, `UdpProofs.SlowStoreLeavesOrphan`; exactly which listeners
  survive a stop, in every run: `UdpProofs.SurvivesStopExactly`.
- A head of 16386 to 20480 bytes is accepted or refused depending on where the reads end: for every
  stream with such a head there is a chunking of each kind, and for no other stream,
  `HttpRead.ChunkingMattersExactly`.
- A mapping listed twice leaves a listener task alive after `stop`, also when both were added while
  the engine was stopped and nothing was tracked: `EngineTheorems.DuplicateOutlivesStop`; exactly
  when a start or an add loses a task: `EngineTheorems.StartOwnsExactly`,
  `EngineTheorems.AddOwnsExactly`.
- Skipping the name of a query the program itself wrote misses QTYPE for the root name,
  `Dns.RootNameMissesQtype`; with labels of up to 255 bytes it lands there exactly when none is
  empty or longer than 191 bytes, `Dns.QueryNameSkips`.

## Model

| member | source | states |
|---|---|---|
| `FragProofs.AnyOrderReassembly` | crates/yggstack/src/netstack/frag.rs:52-120 | Any payload of 1 to 65535 bytes cut at 8-byte boundaries, each fragment once, in any order, within 60 s, mixed with any other packets: nothing comes out before the last fragment, then exactly the rebuilt header and the payload |
| `FragPackets.DeliveredPacket` | crates/yggstack/src/netstack/frag.rs:134-153 | The packet that any arrival order delivers, byte by byte: version 6, the payload's length, bytes 8 to 40 those of every fragment fed, byte 6 their next header, then the payload; unless that next header is 44, feeding it back passes it through |
| `FragPackets.PassesThrough` | crates/yggstack/src/netstack/frag.rs:52-65 | Anything but a fragment comes out as it went in; slots older than 60 s go, the others stay |
| `FragPackets.DropsRunt` | crates/yggstack/src/netstack/frag.rs:67-71 | A fragment shorter than its extension header is dropped, and only slots out of time go with it |
| `FragPackets.DropsOversize` | crates/yggstack/src/netstack/frag.rs:98-104 | A fragment that would end past byte 65535 is dropped with all its key had; other keys lose only what is out of time |
| `FragPackets.SparesOtherKeys` | crates/yggstack/src/netstack/frag.rs:87-119 | No fragment touches another key's slot |
| `FragProofs.NonInterference` | crates/yggstack/src/netstack/frag.rs:52-125 | For any interleaving with non-decreasing times, a key's outputs equal those of its own packets fed alone, evictions and oversize drops included |
| `FragProofs.SlotCompletesExactly` | crates/yggstack/src/netstack/frag.rs:99-119 | On pairwise disjoint ranges with one final fragment and none past it, a slot is complete exactly when [0,total) is covered, and each byte is that of the fragment covering it |
| `FragProofs.CounterIsCoverage` | crates/yggstack/src/netstack/frag.rs:106-114 | On disjoint ranges inside [0,total) the byte counter reaches the total exactly when every position is covered |
| `FragProofs.CounterNeverLate` | crates/yggstack/src/netstack/frag.rs:106-114 | Full coverage always satisfies the counter, whatever overlaps |
| `FragProofs.CounterExactly` | crates/yggstack/src/netstack/frag.rs:106-114 | For any history: the counter test holds exactly when the missing bytes are no more than the repeated ones plus those past the end |
| `FragProofs.DuplicateFillsHole` | crates/yggstack/src/netstack/frag.rs:52-120 | Packets that `feed` reads as the first third, the first third again and the last third of a payload make it return a packet whose middle third is zeros no fragment carried |
| `FragProofs.EncodeClassify` | crates/yggstack/src/netstack/frag.rs:55-85 | Every fragment the extension header can express is read back from its packets, whatever the reserved bits |
| `Frag.FragReassembler.Feed` | crates/yggstack/src/netstack/frag.rs:52-120 | The table of in-place buffers behaves as `Feed` on values: same new table, same output, no two slots share a buffer |
| `Frag.FragReassembler.FeedFragment` | crates/yggstack/src/netstack/frag.rs:87-119 | Inserting, dropping an oversize slot, writing and completing are one step on the key's slot only |
| `Frag.FragReassembler.EvictExpired` | crates/yggstack/src/netstack/frag.rs:122-125 | Removes exactly the slots past the time-out and keeps the others as they are |
| `Frag.FragSlot.Write` | crates/yggstack/src/netstack/frag.rs:105-110 | The buffer changes only at the fragment's range, the counter grows by its length, a clear M flag sets the total |
| `Frag.BuildReassembled` | crates/yggstack/src/netstack/frag.rs:134-153 | The array filled by index is the 40-byte header followed by the payload |
| `NetTheorems.EveryRunLinear` | crates/yggstack/src/netstack/mod.rs:167-295 | In every state of every run, with freed handles reused, each handle held in a pool, accept queue, closing list, pending connect, dial, stream, UDP or ping object is in the table with the right kind, and no two roles hold the same one |
| `NetProofs.StepKeepsOwnership` | crates/yggstack/src/netstack/mod.rs:479-592 | Every locked section of every task, cancelled dials, UDP and ping polls and shutdown included, keeps that ownership |
| `NetTheorems.EveryRunQueues` | crates/yggstack/src/netstack/mod.rs:205-227 | In every run a non-empty accept queue has no sleeping waker, and what entered a queue is what was accepted, in order, followed by what waits |
| `NetTheorems.StepExtendsLogs` | crates/yggstack/src/netstack/mod.rs:877-892 | Short of a shutdown the logs only grow, and an accept hands exactly the oldest waiting handle to one new stream |
| `NetTheorems.EveryAcceptIsNew` | crates/yggstack/src/netstack/mod.rs:877-892 | In every run an accepted handle was the front of its queue and no stream's before |
| `NetTheorems.ServiceLeavesAllWell` | crates/yggstack/src/netstack/mod.rs:201-273 | After every call of service_listeners each listener has at least LISTEN_POOL sockets in LISTEN, marks are absent exactly on LISTEN sockets, and no pool socket is both receivable and sendable |
| `NetTheorems.ServicedIsWell` | crates/yggstack/src/netstack/mod.rs:228-271 | The same for one listener's turn |
| `NetLifetimes.ReapingExactly` | crates/yggstack/src/netstack/mod.rs:278-295 | Reaping keeps a listed socket that is not Closed and was dropped at most 60 s ago, listed and unchanged; one that is Closed or older is neither listed nor in the table |
| `NetLifetimes.ReapingSparesOthers` | crates/yggstack/src/netstack/mod.rs:278-295 | Sockets that are not listed are left as they are |
| `NetLifetimes.DroppedStreamLingers` | crates/yggstack/src/netstack/mod.rs:278-295 | In every run a dropped stream's socket stays listed and in the table, whatever any task does, until a shutdown or a poll that finds it Closed or more than 60 s old |
| `NetLifetimes.DropClosesGracefully` | crates/yggstack/src/netstack/mod.rs:759-776 | What a drop makes of each TCP state (FIN from ESTABLISHED, SYN-RECEIVED and CLOSE-WAIT, nothing from a closing state), with what is unread kept |
| `NetLifetimes.SlotFateExactly` | crates/yggstack/src/netstack/mod.rs:203-259 | By state and mark: a handshaken socket is queued, a listening one stays unmarked, a new handshake is marked now, one of at most 10 s stays, one older leaves the table |
| `NetLifetimes.EightListen` | crates/yggstack/src/netstack/mod.rs:260-271 | After every turn at least eight sockets of the pool are in LISTEN, and exactly eight if any had to be added |
| `NetLifetimes.NewListenerIsWell` | crates/yggstack/src/netstack/mod.rs:616-635 | A new listener starts well serviced, with eight listening sockets |
| `NetLifetimes.ConnectsExactly` | crates/yggstack/src/netstack/mod.rs:167-177 | Carrying out the queue puts the accepted commands' sockets, and no others, in SYN-SENT, and grants exactly the dialers that still wait |
| `NetLifetimes.ShutdownClosesAll` | crates/yggstack/src/netstack/mod.rs:479-506 | Every TCP socket is Closed, every other socket as it was, every queue empty |
| `NetTheorems.ServiceSparesEstablished` | crates/yggstack/src/netstack/mod.rs:245-256 | Service neither aborts nor removes a socket in ESTABLISHED |
| `NetProofs.FatePartition` | crates/yggstack/src/netstack/mod.rs:204-259 | Every handle of a pool is moved, kept or reaped, exactly one of these, as a multiset |
| `NetProofs.LingerPartition` | crates/yggstack/src/netstack/mod.rs:278-295 | Every closing socket stays or is freed, exactly one of these |
| `NetLoops.MoveReady` | crates/yggstack/src/netstack/mod.rs:205-221 | The `swap_remove` loop moves exactly the ready handles and leaves the others, as a multiset filter would |
| `NetLoops.ReapLoopKeeps` | crates/yggstack/src/netstack/mod.rs:230-259 | What the second `swap_remove` loop keeps is the multiset of the marked, unstuck slots |
| `NetLoops.CloseLoopKeeps` | crates/yggstack/src/netstack/mod.rs:278-295 | What the closing loop keeps is the multiset of the sockets neither closed nor out of time |
| `Netstack.NetstackState.AddSocket` | crates/yggstack/src/netstack/mod.rs:180-196 | A handle that was free, possibly used before; nothing else changes |
| `Netstack.NetstackState.DialAllocate` | crates/yggstack/src/netstack/mod.rs:549-552 | First locked section of a dial, as its step |
| `Netstack.NetstackState.DialQueue` | crates/yggstack/src/netstack/mod.rs:556-564 | Second locked section: the command is queued |
| `Netstack.NetstackState.DialBuild` | crates/yggstack/src/netstack/mod.rs:568-578 | A positive answer makes the dial's handle a stream's |
| `Netstack.NetstackState.ProcessConnects` | crates/yggstack/src/netstack/mod.rs:167-177 | Takes the whole queue and carries out every command in order; every lookup finds a live TCP socket |
| `Netstack.NetstackState.ListenTcp` | crates/yggstack/src/netstack/mod.rs:616-635 | Port zero fails and leaves its first socket behind; otherwise a full pool of new, distinct sockets |
| `Netstack.NetstackState.AddListenSockets` | crates/yggstack/src/netstack/mod.rs:1104-1110 | The new sockets are distinct, were free, and are in LISTEN |
| `Netstack.NetstackState.FindListener` | crates/yggstack/src/netstack/mod.rs:879-879 | The first listener on the port, or none |
| `Netstack.NetstackState.Accept` | crates/yggstack/src/netstack/mod.rs:877-892 | Takes the front of the queue, or registers the waker, or (no listener) changes nothing |
| `Netstack.NetstackState.UseStream` | crates/yggstack/src/netstack/mod.rs:778-868 | A stream's poll finds its socket, and changes that one only |
| `Netstack.NetstackState.DropStream` | crates/yggstack/src/netstack/mod.rs:759-776 | The socket is closed and joins the closing list |
| `Netstack.NetstackState.OpenUdp` | crates/yggstack/src/netstack/mod.rs:645-693 | A bound UDP socket has one owner; a refused bind leaves the socket behind |
| `Netstack.NetstackState.PollUdp` | crates/yggstack/src/netstack/mod.rs:906-970 | A poll of a UDP object finds its own UDP socket; one that has to wait leaves its waker and changes nothing else |
| `Netstack.NetstackState.DropUdp` | crates/yggstack/src/netstack/mod.rs:974-978 | The socket removed is the object's own UDP socket |
| `Netstack.NetstackState.OpenIcmp` | crates/yggstack/src/netstack/mod.rs:698-724 | The same for a ping socket |
| `Netstack.NetstackState.PollPing` | crates/yggstack/src/netstack/mod.rs:1012-1065 | The same for a ping object; once the netstack is closed it fails without a lookup |
| `Netstack.NetstackState.DropPing` | crates/yggstack/src/netstack/mod.rs:1084-1088 | The socket removed is the object's own ping socket |
| `Netstack.NetstackState.MarkAndReap` | crates/yggstack/src/netstack/mod.rs:230-259 | The loop in place equals its specification; only reaped sockets leave the table |
| `Netstack.NetstackState.ServiceEntry` | crates/yggstack/src/netstack/mod.rs:203-272 | One listener's turn, and the accept wakers fire exactly when a handle was moved |
| `Netstack.NetstackState.ServiceListeners` | crates/yggstack/src/netstack/mod.rs:201-273 | All turns in order; every listener is well serviced afterwards; the wakers fired are those of the listeners that got a connection |
| `Netstack.NetstackState.ReapClosing` | crates/yggstack/src/netstack/mod.rs:278-295 | Frees exactly the closing sockets that are closed or past the grace period |
| `Netstack.NetstackState.RunPoll` | crates/yggstack/src/netstack/mod.rs:119-164 | Service, then reaping, then all general wakers taken, from whatever smoltcp's poll left |
| `Netstack.NetstackState.Shutdown` | crates/yggstack/src/netstack/mod.rs:479-506 | Everything queued is dropped, every TCP socket aborted, and every general and accept waker is returned to be woken |
| `FailoverProofs.LookupResult` | crates/yggstack/src/resolver.rs:293-346 | A lookup alone returns the answer of the first responsive server in cyclic order from its start and leaves the cursor on it; when all fail the cursor is back at the start |
| `FailoverLaws.LookupExactly` | crates/yggstack/src/resolver.rs:251-346 | A lookup asks from the cursor on, or from server 0 if the cursor is elsewhere and the recorded failure at least the retry interval old; it returns the first answer and leaves the cursor on its server, or back at the start if all fail |
| `FailoverLaws.CursorIsAskedFirst` | crates/yggstack/src/resolver.rs:251-263 | With no record, or one younger than the retry interval, the server at the cursor is asked first: if it answers, that is the result and the cursor stays |
| `FailoverLaws.HistorySticks` | crates/yggstack/src/resolver.rs:251-346 | In every sequence of lookups the cursor is on a server that answered the previous one, and the next lookup asks it first unless server 0's outage has lasted the retry interval |
| `FailoverLaws.SoloIsResolve` | crates/yggstack/src/resolver.rs:251-346 | The atomic accesses of a lookup, taken one by one with no other lookup between, end in the state and with the result of the lookup as a whole |
| `FailoverLaws.LoadedStartsThere` | crates/yggstack/src/resolver.rs:251-263 | Among other lookups too: a lookup that loaded a cursor asks that server first, unless it finds the cool-down over |
| `FailoverProofs.EveryMomentSound` | crates/yggstack/src/resolver.rs:251-287 | In every sequence of lookups over two or more servers a cursor off server 0 has a down time, and it is server 0's earliest failure since it last answered |
| `FailoverProofs.StartsAtZero` | crates/yggstack/src/resolver.rs:251-263 | A lookup starts at server 0 exactly when the cursor is there or that failure is at least the retry interval ago |
| `FailoverProofs.WalkRecords` | crates/yggstack/src/resolver.rs:265-287 | Through a whole walk the recorded down time stays the first failure after the last success |
| `Failover.FailoverState.StartIndex` | crates/yggstack/src/resolver.rs:251-263 | The start and the cursor reset, as specified |
| `Failover.FailoverState.NoteSuccess` | crates/yggstack/src/resolver.rs:265-270 | The cursor sticks; only server 0's success clears the down time |
| `Failover.FailoverState.NoteFailure` | crates/yggstack/src/resolver.rs:272-287 | The first failure of server 0 is recorded; the cursor moves on only if it is still there |
| `Failover.FailoverState.ResolveWithFailover` | crates/yggstack/src/resolver.rs:293-346 | The loop's result and new state are those of the specified walk |
| `FailoverConcurrent.ConcurrentLookups` | crates/yggstack/src/resolver.rs:300-339 | For any number of lookups interleaved at every atomic access: the cursor stays in range, each lookup asks pairwise distinct servers, at most n, and its result follows from its own start and answers |
| `FailoverConcurrent.TaskStepKeeps` | crates/yggstack/src/resolver.rs:251-287 | Each access keeps a lookup well formed and brings it closer to its end |
| `FailoverConcurrent.BrokenExactlyWhenOvertaken` | crates/yggstack/src/resolver.rs:265-287 | Which accesses break "off server 0 implies a down time" once lookups overlap |
| `FailoverConcurrent.NoOverlapKeepsRecord` | crates/yggstack/src/resolver.rs:251-287 | In every run whose lookups do not overlap, a cursor off server 0 has a down time after every single atomic access |
| `FailoverConcurrent.RecordKeptExactlyWithoutOverlap` | crates/yggstack/src/resolver.rs:251-287 | For two or more servers, all runs with at most m lookups at a time keep it if and only if m is at most one |
| `FailoverConcurrent.OverlapLosesDownTime` | crates/yggstack/src/resolver.rs:265-270 | A run of two overlapping lookups, over any number of servers from two on, that breaks it |
| `Dns.ResponseRoundTrip` | crates/yggstack/src/resolver.rs:374-411 | Parsing any encoded response of up to 65535 records (owner names as labels, pointers or both) gives the data of its first AAAA record, or nothing if there is none |
| `Dns.ScanSound` | crates/yggstack/src/resolver.rs:388-410 | On any bytes at all, an answer is 16 bytes that follow an AAAA header in the buffer |
| `Dns.ParseDnsAaaaResponse` | crates/yggstack/src/resolver.rs:374-411 | Ends on every byte string with every read in bounds, with the specified result |
| `Dns.SkipDnsName` | crates/yggstack/src/resolver.rs:413-428 | Ends on every byte string and position, with the specified result |
| `Dns.BuildDnsQuery` | crates/yggstack/src/resolver.rs:350-372 | The bytes pushed are the header, the labels, the root and the question |
| `DnsLaws.QueryAsks` | crates/yggstack/src/resolver.rs:350-372 | Read back by a decoder of its own, a query holds one question: exactly the labels of the name asked for, whatever dots end it, the type asked for and class IN, and not a byte more |
| `Dns.QueryNameSkips` | crates/yggstack/src/resolver.rs:350-372 | Skipping the query's name lands on QTYPE if no label is empty or over 191 bytes, and only if, when every label's length fits its byte |
| `Dns.RootNameMissesQtype` | crates/yggstack/src/resolver.rs:362-366 | For the root name it stops one byte short of QTYPE |
| `Dns.SplitJoins` | crates/yggstack/src/resolver.rs:362-365 | Splitting a name at its dots loses nothing and leaves no dot |
| `UdpProofs.EveryRunIsolates` | crates/yggstack/src/forward/udp.rs:157-208 | In every run a session's socket is its client's, every reply went to the client its socket was opened for, and no socket has two unfinished listeners |
| `UdpProofs.OwnersAreForEver` | crates/yggstack/src/forward/udp.rs:157-208 | A socket's client never changes |
| `UdpLaws.RepliesAreHeard` | crates/yggstack/src/forward/udp.rs:157-208 | In every run, when the loop is done with a client's datagram the client's session has an unfinished listener on its own socket, unless the session was evicted or the listener ended meanwhile or local-udp gave up on a failed send |
| `UdpLaws.ReceiveBegins` | crates/yggstack/src/forward/udp.rs:160-174 | A listener is needed exactly when no unfinished one is on the session's socket |
| `UdpLaws.ReceiveReuses` | crates/yggstack/src/forward/udp.rs:160-174 | A client's session keeps its socket and listener; only a new client gets a new socket |
| `UdpLaws.SendSpawnsExactly` | crates/yggstack/src/forward/udp.rs:176-194 | A listener is spawned exactly when one is needed and the send succeeded or the mapping is remote; it is unfinished, on that socket and for that client |
| `UdpLaws.StoreTouchesOnly` | crates/yggstack/src/forward/udp.rs:195-198 | Storing changes the listener of the client's session and nothing else |
| `UdpLaws.EvictsExactly` | crates/yggstack/src/forward/udp.rs:62-82 | A tick evicts exactly the sessions idle for 30 s and ends exactly their listeners |
| `UdpProofs.PromptSendsLeaveNoOrphan` | crates/yggstack/src/forward/udp.rs:33-82 | If no send and storing takes 30 s, every unfinished listener is reachable from the table, and none is left after the stop drain |
| `UdpProofs.StoreLosesExactlyWhenEvicted` | crates/yggstack/src/forward/udp.rs:195-198 | The storing step makes its listener an orphan exactly when the session was evicted before it |
| `UdpProofs.DrainLeavesExactlyOrphans` | crates/yggstack/src/forward/udp.rs:33-46 | The drain ends every unfinished listener but the orphans |
| `UdpProofs.SurvivesStopExactly` | crates/yggstack/src/forward/udp.rs:33-208 | In every run, after the drain: a listener is running if and only if it was stored with its session evicted and has not ended by itself since |
| `UdpProofs.SlowSendLeavesOrphan` | crates/yggstack/src/forward/udp.rs:176-208 | A run with a 30-second send after which a listener survives the stop |
| `UdpProofs.SlowStoreLeavesOrphan` | crates/yggstack/src/forward/udp.rs:176-208 | A run whose send takes under 30 seconds, with the tick between it and the storing, after which a listener survives the stop |
| `UdpSessions.UdpForwarder.ReceiveFrom` | crates/yggstack/src/forward/udp.rs:160-174 | Finds or opens the client's session on its own socket and sees whether it needs a listener; a refused socket (remote only) drops the datagram and changes nothing |
| `UdpSessions.UdpForwarder.SendEnded` | crates/yggstack/src/forward/udp.rs:176-194 | Spawns the listener for that socket and client; a failed local send gives up, a remote one goes on |
| `UdpSessions.UdpForwarder.StoreHandle` | crates/yggstack/src/forward/udp.rs:195-198 | Stores the handle if the session is still there |
| `UdpSessions.UdpForwarder.RemoveAll` | crates/yggstack/src/forward/udp.rs:74-82 | Exactly these sessions go, and exactly their listeners are aborted |
| `UdpSessions.UdpForwarder.EvictStale` | crates/yggstack/src/forward/udp.rs:62-82 | Exactly the sessions idle for 30 whole seconds go, with their listeners |
| `UdpSessions.UdpForwarder.AbortAllSessions` | crates/yggstack/src/forward/udp.rs:33-46 | The table is empty and every listener in it aborted |
| `HttpTheorems.RewritePreservesRequest` | crates/yggstack/src/http_proxy.rs:404-450 | For every head that ends at its first blank line, parsed and resolved: the head sent on has its first blank line exactly at its end whatever body follows, parses to the same method and version with the origin-form target, keeps the surviving headers in order, has one Connection header (`close`) and no dropped one, and rewriting it again changes nothing |
| `HttpTheorems.ReadHeadEndsBlank` | crates/yggstack/src/http_proxy.rs:264-287 | Every head returned, from any stream and chunking, ends at its own first blank line |
| `HttpTheorems.RewrittenHeaders` | crates/yggstack/src/http_proxy.rs:413-446 | Which headers survive, are added and are gone, for any header list |
| `HttpLaws.NewHeadersExactly` | crates/yggstack/src/http_proxy.rs:413-446 | Line by line: the first Connection becomes `close` where it stands, before it only the proxy headers go, after it later Connections too, and a missing Host comes last |
| `HttpLaws.NewHeadersWithoutConnection` | crates/yggstack/src/http_proxy.rs:413-446 | Without a Connection, `close` follows the surviving headers |
| `HttpLaws.NameIgnoresBlanks` | crates/yggstack/src/http_proxy.rs:417-424 | A header's name is what stands before its first colon, without the blanks around it |
| `HttpLaws.CaseIgnoredExactly` | crates/yggstack/src/http_proxy.rs:417-424 | Two names are one exactly if they differ in the case of ASCII letters only |
| `HttpLaws.AcceptsExactly` | crates/yggstack/src/http_proxy.rs:299-325 | A head of proper lines is accepted exactly when its first has three pieces, and is those three and the other lines; otherwise the error names the first piece that is missing |
| `HttpTheorems.NewHeadersIdempotent` | crates/yggstack/src/http_proxy.rs:413-446 | Rewriting rewritten headers changes nothing |
| `HttpTheorems.RewriteReparses` | crates/yggstack/src/http_proxy.rs:296-326 | The parser undoes the rewriter |
| `HttpTheorems.RewriteEndsBlank` | crates/yggstack/src/http_proxy.rs:447-449 | The first blank line of the rewritten text is its end |
| `HttpTheorems.BytesEndWhereTextEnds` | crates/yggstack/src/http_proxy.rs:289-299 | The bytes of a head end at their first blank line exactly when its text does |
| `HttpTheorems.ReadRequestIsSound` | crates/yggstack/src/http_proxy.rs:296-326 | Every accepted head gives a request of three tokens and non-empty one-line headers |
| `HttpTheorems.TargetIsSound` | crates/yggstack/src/http_proxy.rs:353-388 | Every resolved target goes out as one token starting with `/`, and its authority is one line |
| `HttpProofs.ReadHeadIsLines` | crates/yggstack/src/http_proxy.rs:299-300 | A head cut at its first blank line is the list of its lines, none empty, none holding a break |
| `HttpHead.RewriteHead` | crates/yggstack/src/http_proxy.rs:404-450 | The text appended line by line, with its two flags, is the specified rewrite |
| `HttpRead.ReadHead` | crates/yggstack/src/http_proxy.rs:264-287 | The loop's outcome is the specified one, and head plus extra are exactly the bytes read |
| `HttpRead.ReadHeadExactly` | crates/yggstack/src/http_proxy.rs:264-294 | However the stream is cut: up to 16385 bytes always returned, cut at the first blank line; over 20480 always refused; between, returned exactly when no read ended inside (16384, its length) |
| `HttpRead.ChunkingMattersExactly` | crates/yggstack/src/http_proxy.rs:264-287 | All chunkings of a stream give the same head or error if and only if its first blank line does not end between bytes 16386 and 20480 |
| `HttpRead.ChunkingDoesNotMatter` | crates/yggstack/src/http_proxy.rs:264-287 | Two chunkings of one stream agree outside that range |
| `HttpRead.StretchInOneRead` | crates/yggstack/src/http_proxy.rs:264-287 | Inside it, a chunking with one read over the stretch past 16384 returns the head |
| `HttpRead.StretchInTwoReads` | crates/yggstack/src/http_proxy.rs:264-287 | Inside it, a chunking with a read that stops at byte 16385 refuses it |
| `HttpRead.FindHeadEnd` | crates/yggstack/src/http_proxy.rs:289-294 | The first place of CRLFCRLF, or none |
| `HttpTarget.AuthorityRoundTrip` | crates/yggstack/src/http_proxy.rs:329-348 | Every authority, bare or bracketed, with or without a port, is read back as its host and port or the default |
| `HttpTarget.AbsoluteRoundTrip` | crates/yggstack/src/http_proxy.rs:353-367 | An absolute URI resolves to the parts it was written from, whatever the headers |
| `HttpTarget.FindHeaderFirst` | crates/yggstack/src/http_proxy.rs:390-399 | The first header that has a colon and the name, and no other, gives the trimmed value |
| `HttpTarget.FindHeaderNone` | crates/yggstack/src/http_proxy.rs:390-399 | Without such a header there is no value |
| `HttpTarget.OriginRoundTrip` | crates/yggstack/src/http_proxy.rs:368-381 | A target in origin form goes to the host and port its first Host header was written from, unchanged |
| `HttpTarget.OriginNeedsHost` | crates/yggstack/src/http_proxy.rs:368-371 | Without a Host header that has a value it is refused |
| `HttpTheorems.TokensConcat` | crates/yggstack/src/http_proxy.rs:304-304 | The pieces of a request line are those of its parts on either side of any space |
| `EngineTheorems.EveryRunTracks` | crates/yggstack-mobile/src/mobile.rs:475-864 | In every run of start, stop, add, remove, clear and task exits: a stopped engine tracks nothing, a running one exactly the keys of its four lists |
| `EngineTheorems.CarefulRunsOwn` | crates/yggstack-mobile/src/mobile.rs:715-797 | If no key is added while listed, every task alive and spawned since the last clear is tracked |
| `EngineTheorems.StopEndsEveryTask` | crates/yggstack-mobile/src/mobile.rs:684-697 | Then none of those tasks is alive once stop returns |
| `EngineTheorems.OneTaskPerKey` | crates/yggstack-mobile/src/mobile.rs:738-748 | Then no two of them share a key |
| `EngineTheorems.StartOwnsExactly` | crates/yggstack-mobile/src/mobile.rs:608-628 | A start loses no task exactly when no list holds a key twice |
| `EngineTheorems.AddOwnsExactly` | crates/yggstack-mobile/src/mobile.rs:751-797 | An add on a running engine loses a task exactly when a live one is tracked under its key |
| `EngineTheorems.DuplicateOutlivesStop` | crates/yggstack-mobile/src/mobile.rs:738-748 | Add twice, start, stop: a task is still alive |
| `EngineLaws.KeysEqualExactly` | crates/yggstack/src/forward/tcp.rs:18-25 | Two mappings have the same key exactly when they are of one kind with the same target and the same listen address (local) or port (remote) |
| `EngineLaws.StartServesEach` | crates/yggstack-mobile/src/mobile.rs:608-628 | A start of lists that hold no mapping twice loses no task, spawns one per mapping and gives each its own live one |
| `EngineLaws.StartLosesExactly` | crates/yggstack-mobile/src/mobile.rs:608-628 | A start loses a task exactly when a list holds a mapping twice |
| `EngineLaws.AddServesIt` | crates/yggstack-mobile/src/mobile.rs:751-797 | An added mapping is listed last and, on a running engine, served by a new task, while the others keep theirs |
| `EngineLaws.RemovesOnlyItself` | crates/yggstack-mobile/src/mobile.rs:801-843 | A removal takes exactly its own mapping off the lists |
| `EngineLaws.RemovalEndsOnlyItsTask` | crates/yggstack-mobile/src/mobile.rs:801-843 | It ends that mapping's task, and every other mapping keeps its own |
| `EngineLaws.StopEndsEveryMapping` | crates/yggstack-mobile/src/mobile.rs:684-697 | In every run that never adds a listed mapping again, no task spawned since the last clear outlives a stop |
| `EngineLaws.RestartServes` | crates/yggstack-mobile/src/mobile.rs:475-698 | Mappings outlive a stop: the next start serves each again |
| `EngineLaws.ClearEndsNone` | crates/yggstack-mobile/src/mobile.rs:852-864 | A clear forgets every mapping and ends no task, and neither does the stop after it |
| `EngineProofs.RemoveLists` | crates/yggstack-mobile/src/mobile.rs:801-843 | A removal takes its key out of the lists, all of it and nothing else |
| `EngineProofs.KeysApart` | crates/yggstack/src/forward/tcp.rs:18-25 | Keys of different kinds never collide |
| `Engine.YggstackMobile.StartEngine` | crates/yggstack-mobile/src/mobile.rs:475-644 | One task per listed mapping; already running or no usable configuration is an error that changes nothing |
| `Engine.YggstackMobile.StopEngine` | crates/yggstack-mobile/src/mobile.rs:646-698 | Every tracked task is joined or aborted, nothing is tracked any more |
| `Engine.YggstackMobile.SpawnListener` | crates/yggstack-mobile/src/mobile.rs:715-749 | The new task is tracked under its key; what was there is forgotten, not stopped |
| `Engine.YggstackMobile.AddMapping` | crates/yggstack-mobile/src/mobile.rs:751-797 | The mapping is listed, and spawned when running; a bad spec changes nothing |
| `Engine.YggstackMobile.RemoveMapping` | crates/yggstack-mobile/src/mobile.rs:801-843 | The mapping's key is gone from its list and from the listeners, its task ended; a bad spec changes nothing |
| `Engine.YggstackMobile.StopListener` | crates/yggstack-mobile/src/mobile.rs:845-850 | Removes and ends the one listener of the key, if there is one |
| `Engine.YggstackMobile.ClearMappings` | crates/yggstack-mobile/src/mobile.rs:852-864 | Lists and listeners are empty; no task is waited for |
| `Ping.RunPing` | crates/yggstack/src/ping.rs:56-184 | For every schedule: the trace is that of the specification, at most one sent probe goes unreported, and a completed session sent and reported exactly `count` |
| `Ping.TraceGrammar` | crates/yggstack/src/ping.rs:89-183 | Probes 1, 2, … modulo 65536, then at most one Done, at the end and exactly when the session ended; never more than `count`; a round-trip time only where a reply with the probe's own number closed its window |
| `Ping.EndExactly` | crates/yggstack/src/ping.rs:89-183 | After k reports the session has completed exactly when k is the count, failed or stopped exactly when the next send, its window or the pause before it says so, and waits otherwise |
| `Ping.UndisturbedCompletes` | crates/yggstack/src/ping.rs:89-183 | If every send succeeds, every window is answered or times out and nobody stops it, a session of `count` probes reports them all and completes |
| `Ping.TraceIsUnique` | crates/yggstack/src/ping.rs:89-183 | The schedule settles the session: no two traces answer to it |
| `Ping.CloseExactly` | crates/yggstack/src/ping.rs:113-149 | A window is answered, lost, cancelled or broken exactly by the first thing that is not a late reply |
| `Ping.AwaitReply` | crates/yggstack/src/ping.rs:113-149 | The receive loop closes the window as specified |
| `Mapping.LocalRoundTrip` | crates/yggstack/src/mapping.rs:47-189 | Any listen address or none, any ports and any IPv6 remote read back as written |
| `Mapping.BareRemoteUsesOnePort` | crates/yggstack/src/mapping.rs:108-110 | Without a local side the remote port is used on both |
| `Mapping.EmptyHostListensEverywhere` | crates/yggstack/src/mapping.rs:108-120 | A colon with nothing before the local port listens on every address, like the port alone |
| `Mapping.PortTextExactly` | crates/yggstack/src/mapping.rs:54-59 | A port is any number below 65536 with or without a plus sign and leading zeros, and nothing else is |
| `Mapping.DigitAppended` | crates/yggstack/src/mapping.rs:57-59 | Appending a digit makes ten times the port and that digit, or no port above 65535 |
| `Mapping.RemoteRoundTrip` | crates/yggstack/src/mapping.rs:131-203 | All three remote forms read back as what they mean |
| `Mapping.AcceptedIsBracketed` | crates/yggstack/src/mapping.rs:56-105 | No spec is accepted unless its remote address stands in brackets, with a colon in it, before the last port |
| `Mapping.LenientHostPort` | crates/yggstack/src/mapping.rs:33-37 | Text that is no socket address still reads as host and port, brackets around the host or not |
| `Mapping.LawfulIsPossible` | crates/yggstack/src/mapping.rs:28-38 | What is assumed of address printing and parsing, for addresses of 32 and 128 bits, can be met by a printer and a parser that refuses larger numbers |

## Left out

- smoltcp and the Yggdrasil core: retransmission, checksums, routing and packets are inputs; only the kind and the TCP state of a socket are modelled.
- Socket leaks: a cancelled or refused dial, a refused bind and a listen on port zero leave sockets behind in the model too; freedom from leaks is not claimed.
- Wake-ups after shutdown: an accept then finds no listener and registers nothing; nothing is claimed about it.
- Cancelled dials: these are steps of the netstack model, taken by any task at any time, and have no method of their own.
- Netstack.NetstackState.PollUdp: the datagrams in its buffers are not modelled.
- Netstack.NetstackState.PollPing: the packets in its buffers are not modelled.
- Netstack.NetstackState.UseStream: what a read or write does to the buffers is any change of that one socket.
- Netstack.NetstackState.RunPoll: the periodic statistics and the packets sent out are not modelled; the order between accept wakers and general wakers is not claimed.
- Dns.QueryNameSkips: with a label of 256 bytes or more, whose length byte is cut to eight bits, skipping goes on inside the label, and nothing is said of where it ends.
- UdpSessions.UdpForwarder.ReceiveFrom: a netstack socket opened for local-udp is always granted (it is new and its port is 49152 or more); the panic that a refusal would cause is not modelled.
- UdpProofs.PromptSendsLeaveNoOrphan: the bound is on the send together with the storing that follows it, since a bound on the send alone is not enough (`UdpProofs.SlowStoreLeavesOrphan`); the exact condition is `UdpProofs.SurvivesStopExactly`.
- Name resolution proper: the suffix mapping, the choice between UDP and TCP transport and the time-out of one attempt; an attempt is an answer or a failure.
- The HTTP proxy's connections: dialing, tunnelling, relaying and error responses.
- Clocks: netstack times are taken as non-decreasing, and a difference of two as zero when they are not; what smoltcp's `Instant` does when the wall clock is set back is not modelled.
- EngineLaws.KeysEqualExactly: for listen addresses that print without a hyphen, as every socket address does.
- UdpLaws.RepliesAreHeard: a reply that comes while no listener is on the socket, between the end of one and the next datagram, is lost; nothing is claimed about it.
- Engine.YggstackMobile.StartEngine: the proxy servers and the peer-event task it also spawns are not modelled.
- Engine.YggstackMobile.StopEngine: how long joining takes, the SOCKS, HTTP, ping and peer-event tasks and the core's shutdown are not modelled.
- Engine.YggstackMobile.ClearMappings: whether the signalled tasks exit is not claimed, since they are not joined.
- Mapping.LocalRoundTrip: the standard library's printing and parsing of addresses is a parameter with stated laws.
- Ping.RunPing: the echo payload and the pacing between probes; a wait is known only by how it ends.
- crates/yggstack/src/socks.rs, stats.rs, netstack/device.rs and the relays of forward/tcp.rs: short codecs, counters, queues and copies that would add only easy members.
- QUIC probe, configuration, logging, command line, JSON, the UniFFI layer and generated code.
