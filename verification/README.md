# A verified model of atpd

atpd supervises a sing-box child process, forwards bytes between descriptors through kernel pipes, follows the state
of a VPN and keeps sing-box's Clash mode in step with it. It is a single event loop with one helper thread. This
project models its stateful core in Dafny and proves what the code keeps over whole runs.

| file | models |
|---|---|
| `Varint.dfy`, `WireFields.dfy`, `StatusFrame.dfy`, `ClashMode.dfy` | the protobuf decoder and encoder and the gRPC-Web frame |
| `StatusReader.dfy`, `SplitIndependence.dfy` | the incremental status reader, plain and chunked |
| `SplicePump.dfy` | the stateful splice pump, with the kernel's pipe beside the program's counters |
| `TimerQueue.dfy` | the reactor's timer list, as linked nodes |
| `RetryPolicy.dfy`, `Supervisor.dfy` | circuit breaker, backoff and the supervisor of the child |
| `SessionTables.dfy`, `SessionRuns.dfy`, `SessionTransfer.dfy`, `Sessions.dfy` | sessions, reference counts, registry, GC queue and handler table, and the transfers of a session |
| `VpnMailbox.dfy` | the VPN mode mailbox between the reactor and the worker thread |
| `AsyncValidate.dfy` | the race that ends a configuration check |

`dafny verify dfyconfig.toml` checks everything.

Code that changes state step by step is modelled by classes and by methods with loops; each is proved against a
specification, and the properties are proved of the specification. Everything the kernel, the clock, the allocator or
sing-box answers is a parameter or is taken from an arbitrary script, so that every theorem holds for every answer. Ghost state records what has
happened (traces, ledgers, histories), and the main theorems are statements about these records. The two threads of
the mailbox are a step system in which each mutex section and each remote call is one step.

Findings on the way:

- The header comment of `src/session.c` says that a failed registration moves a session to CLOSING (line 94); the code
  (lines 322-340) leaves it IDLE. The model follows the code.
- `atpd_bridge_splice_stateful` answers EAGAIN or EOF although the first phase of the same call forwarded bytes, exactly
  under the condition of `SplicePump.SilentIff` (an instance is `SilentForward`). After ERROR and NOTSUP the counters
  miss the bytes that the failing write had moved (`LostIff`, an instance is `CountLost`), and from then on the pump
  never reads its input again (`SplicePump.Pump.Forward`).
- The chunked reader forgets a chunk that holds only a beginning of the frame (`SplitIndependence.CutFrameIsMissed`) and
  reads the following chunks as if they had come alone. It may then answer a status that nobody sent
  (`SplitIndependence.FabricatedStatus`).
- A Clash mode is restored exactly if its name has at most 63 bytes and it is among the first 32 modes that sing-box
  lists (`VpnMailbox.UndoneIff`). Longer names come back cut, later modes are replaced by the fallback.
- In `src/async_validate.c` a child that was reaped without its status would be taken for a success (lines 256-257); the
  invariant proved here shows that this cannot happen.

## Model

| member | source | states |
|---|---|---|
| `Varint.ReadVarint` | src/singbox_api.c:140-152 | The loop delivers the base-128 value of the groups modulo 2^64, refuses a truncated number and one of more than ten groups, and moves the cursor just behind the last byte it used |
| `Varint.ScanInvertsEncode` | src/singbox_api.c:140-152 | Reading inverts base-128 encoding for every 64-bit number, at any position in any buffer, and consumes exactly its bytes |
| `Varint.EncodeDigits` | src/singbox_api.c:140-152 | Byte i of an encoding carries the i-th base-128 digit, all bytes but the last have the continuation bit, and the last digit is not zero: the encoding that the reader is measured against is that of the Protocol Buffers document |
| `Varint.ScanGroupsLocal` | src/singbox_api.c:140-152 | A read depends only on the bytes it consumed |
| `WireFields.ReadField` | src/singbox_api.c:170-208 | One turn of the field loop: the field at the cursor and where the next one starts, or refusal, for wire types 0, 1, 2 and 5 |
| `WireFields.FieldAtInvertsSerialize` | src/singbox_api.c:170-208 | Reading a serialised field gives the field back and stops exactly behind it |
| `WireFields.FieldsFromInvertsSerialize` | src/singbox_api.c:566-594 | Reading the serialisation of any field list, known and unknown fields, gives the list back |
| `WireFields.MessageFieldsOfFrame` | src/singbox_api.c:156-172 | The 5-byte big-endian frame around a message delimits exactly that message, whatever follows it |
| `WireFields.KeyByte` | src/singbox_api.c:170-175 | The key of a field is its number times eight plus the wire type: 0 for numbers, 1 and 5 for fixed fields of eight and four bytes, 2 for strings |
| `WireFields.FaultAt` | src/singbox_api.c:170-209 | Which bytes make a field unreadable, and how each case is told apart |
| `WireFields.FieldsThenFault` | src/singbox_api.c:170-209 | In front of an unreadable field every field is read |
| `StatusFrame.ParseStatusFrame` | src/singbox_api.c:156-213 | The parse loop refines the specification: need more, refuse, or the status read from the field list |
| `StatusFrame.StatusOfSerialized` | src/singbox_api.c:156-213 | On the serialisation of any field list the result is the last-wins reading when the int32 fields fit, and refusal exactly when they do not |
| `StatusFrame.StatusOfBroken` | src/singbox_api.c:170-209 | Behind any readable fields: a cut key, a missing number and an unknown wire type are refused, a fixed field or string that is cut short asks for more |
| `StatusFrame.FieldMeaning` | src/singbox_api.c:180-191 | Which of the fields 1 to 9 fills which component of the status, and that it fills no other |
| `StatusFrame.FieldsAreIndependent` | src/singbox_api.c:177-192 | A further field replaces the value of its own number and of no other |
| `StatusFrame.SignedInverts` | src/singbox_api.c:186-189 | The cast of the traffic counters undoes two's complement for every 64-bit integer |
| `StatusFrame.LastNumberIsLast` | src/singbox_api.c:177-192 | The reading of a field is the value of its last occurrence |
| `ClashMode.ParseClashModeStatus` | src/singbox_api.c:553-596 | The parse loop refines the specification, including the refusal of a status without a current mode |
| `ClashMode.ModesOfSerialized` | src/singbox_api.c:553-596 | On the serialisation of any field list: the first 32 field-1 strings and the last field-2 string, each cut to 63 bytes |
| `ClashMode.ModesInOrder` | src/singbox_api.c:570-582 | A list of modes comes back in order, the first 32 of them with their first 63 bytes, and so does the current mode |
| `ClashMode.ModesOfBroken` | src/singbox_api.c:520-596 | With an unreadable field the mode list is refused, while a single string in front of that field is still found |
| `ClashMode.ParseStringField` | src/singbox_api.c:520-551 | The search loop refines the specification: the first string of the wanted field, cut to the buffer |
| `ClashMode.StringOfSerialized` | src/singbox_api.c:520-551 | On the serialisation of any field list: the first string of the wanted field, refused only when there is none |
| `ClashMode.EncodeSetClashMode` | src/singbox_api.c:627-641 | The request is the serialisation of field 3 with the mode, for modes of 1 to 255 bytes and no others |
| `ClashMode.FrameRequest` | src/singbox_api.c:436-447 | The request is framed when it fits the send buffer, and refused exactly when it does not |
| `ClashMode.SetModeRoundTrip` | src/singbox_api.c:627-641 | Encoding, framing and decoding field 3 returns the mode; framing succeeds exactly for modes of at most 253 bytes |
| `StatusReader.ParseGrpcWebResponse` | src/singbox_api.c:218-250 | The header search and the chunk loop refine the specification of a response |
| `StatusReader.ReadStatus` | src/singbox_api.c:344-356 | The receive loop refines the specification of a read split into arbitrary pieces |
| `StatusReader.BufferLimit` | src/singbox_api.c:344-356 | Only the first 4095 bytes count: a response that they do not settle is never answered |
| `SplitIndependence.PlainDecides` | src/singbox_api.c:218-250 | Every proper prefix of a well-formed plain response parses to need more, and every extension of it to the same verdict, for every flag byte below 128 |
| `SplitIndependence.PlainByHead` | src/singbox_api.c:220-228 | For messages below 2^24 bytes, and for flag 0, whether a response is plain is a matter of its head alone |
| `SplitIndependence.ChunkedDecides` | src/singbox_api.c:230-249 | The same for a chunked response (section 7.1 of RFC 9112) whose first chunk holds the whole frame |
| `SplitIndependence.PrintedSize` | src/singbox_api.c:236-241 | Every size below 2^64 printed in base 16, with small or capital letters, is read back as that size |
| `SplitIndependence.RefusedLines` | src/singbox_api.c:234-243 | A size line that is empty, has 32 bytes or more, ends in something else than a digit or says 0 is refused |
| `SplitIndependence.ReadSplitIndependent` | src/singbox_api.c:344-356 | Whatever pieces the stream arrives in, the receive loop ends with the verdict of the response |
| `SplitIndependence.ReadStatusSplitIndependent` | src/singbox_api.c:344-356 | For both framings and every flag the read ends with the verdict of the message, a status or a refusal, as soon as the pieces cover the response, whatever the pieces |
| `SplitIndependence.CutFrameIsMissed` | src/singbox_api.c:230-249 | Why the first chunk must hold the whole frame: a chunk with only a beginning of the frame is forgotten, and the reader answers as if the chunks behind it had come alone |
| `SplitIndependence.ChunkSettlesIff` | src/singbox_api.c:244-247 | A chunk that runs along a frame settles the reader exactly when it holds the whole frame |
| `SplitIndependence.RestAnswers` | src/singbox_api.c:230-249 | If the rest of a cut frame looks like a frame itself, the reader answers from the rest |
| `SplitIndependence.FabricatedStatus` | src/singbox_api.c:230-249 | A concrete message with memory 5 that is read as a status of zeros when it comes in two chunks |
| `SplicePump.Pump.constructor` | src/splice.c:32-65 | A fresh pipe is empty and all counters agree |
| `SplicePump.Pump.Drain` | src/splice.c:133-181 | Bytes leave the front of the pipe for the output in order, as many as the kernel's answers say; the loop finishes exactly when everything wanted was moved |
| `SplicePump.Pump.Fill` | src/splice.c:206-243 | What is read is appended to the pipe, as much as the kernel's answer says; nothing of the input is skipped; a read that moves nothing stops for the reason the kernel gives |
| `SplicePump.Pump.DrainPending` | src/splice.c:121-200 | Phase 1 ends the call, or leaves an empty pipe and an exact rest of the limit |
| `SplicePump.Pump.ReadThenWrite` | src/splice.c:206-324 | Phases 2 and 3 keep conservation and report the exact growth of the output |
| `SplicePump.Pump.Forward` | src/splice.c:90-324 | In every state that calls can leave: output followed by pipe is always the input, byte by byte; counters are off by exactly the bytes that failing calls moved; a count is the growth of bytes_out, within a nonzero limit; what EAGAIN and EOF leave counted; input is read only from an emptied pipe, and never again once bytes went uncounted; a first answer that moves nothing decides the code: EAGAIN when it would block, EOF when nothing comes, NOTSUP and ERROR |
| `SplicePump.Pump.ForwardAll` | src/splice.c:90-324 | Over any number of calls the output is a prefix of the input stream, and the counters are exact as long as no call failed |
| `SplicePump.ReadAnswer` | src/splice.c:217-243 | With an empty pipe: a read that would block gives EAGAIN, one that ends gives EOF, one that is not supported NOTSUP and one that fails ERROR, and nothing moves |
| `SplicePump.ReadAnswerAfterDrain` | src/splice.c:217-243 | The same read after phase 1 has written everything: the count of phase 1 instead of EAGAIN and EOF |
| `SplicePump.FirstWriteAnswer` | src/splice.c:133-181 | What stops the write of phase 1, at once or after a part, decides the code and what goes uncounted |
| `SplicePump.SecondWriteAnswer` | src/splice.c:256-315 | The same for the write of phase 3 |
| `SplicePump.AllForwarded` | src/splice.c:90-324 | When the kernel takes everything, the call returns what was pending plus what was read, and all of it is out |
| `SplicePump.LimitKept` | src/splice.c:121-200 | Within a limit no more than the limit goes out |
| `SplicePump.InterruptionsDoNotMatter` | src/splice.c:133-243 | An interrupted call is repeated and changes nothing |
| `SplicePump.SilentIff` | src/splice.c:206-298 | EAGAIN or EOF although bytes were forwarded: exactly when phase 1 emptied the pipe, input was read, and the write stopped before its first byte |
| `SplicePump.NothingPendingNothingSilent` | src/splice.c:206-298 | A caller that finds nothing pending learns of every byte that is forwarded |
| `SplicePump.SilentForward` | src/splice.c:206-298 | Concrete answers of the kernel for which bytes are forwarded and EAGAIN is returned |
| `SplicePump.LostIff` | src/splice.c:159-165 | Bytes go uncounted exactly when the last write fails for good after it had moved some, and exactly those |
| `SplicePump.CountLost` | src/splice.c:159-165 | Concrete answers of the kernel for which the counters miss bytes |
| `TimerQueue.Queue.Insert` | src/reactor.c:67-91 | The pointer list gains the timer behind every timer that expires no later, and stays sorted with ties in insertion order |
| `TimerQueue.Queue.Remove` | src/reactor.c:93-111 | The pointer list loses exactly this timer |
| `TimerQueue.Queue.AddTimer` | src/reactor.c:476-513 | A new live timer is on the list at its expiry; the count is the length of the list |
| `TimerQueue.Queue.CancelTimer` | src/reactor.c:515-549 | The handle is gone, the callback will not run again, and a linked timer is due at once so that the next pass frees it |
| `TimerQueue.Queue.NextDue` | src/reactor.c:153-158 | A periodic timer moves a whole number of its own periods to the first expiry behind now |
| `TimerQueue.Queue.Finish` | src/reactor.c:153-169 | After its callback a periodic timer that was not cancelled stands n of its periods behind the expiry it fired for, n the least number that leads behind now; any other timer is off the list and its handle gone |
| `TimerQueue.Queue.Execute` | src/reactor.c:476-549 | An addition gives out one handle of a timer as asked for; a cancellation takes back exactly the handle it names, if it is out |
| `TimerQueue.Queue.RunCallback` | src/reactor.c:145-151 | Any additions and cancellations by a callback, also of the firing timer, are done in order, and they keep the queue well-formed; every cancelled handle is gone, every other timer is as it was |
| `TimerQueue.Queue.FireHead` | src/reactor.c:125-170 | One turn on a due timer: its callback runs once, and afterwards it stands at its next expiry if it is periodic and was not cancelled, and is freed otherwise; the commands executed are those of its callback |
| `TimerQueue.Queue.DropHead` | src/reactor.c:125-170 | One turn on a cancelled timer: freed without a callback |
| `TimerQueue.Queue.ProcessExpired` | src/reactor.c:125-170 | A pass ends with a sorted list, an exact count, nothing due and nothing cancelled left; every due timer fired and stands whole periods behind its expiry, or is off the list if it was for once, or was cancelled; callbacks run in expiry order, none twice, none after its cancellation, and do what they do in order; the pass ends when callbacks add only later timers |
| `TimerQueue.SortedInserted` | src/reactor.c:67-91 | Insertion behind every key that expires no later keeps the order |
| `TimerQueue.SortedRemoved` | src/reactor.c:93-111 | Removal keeps the order |
| `TimerQueue.SoundFire` | src/reactor.c:125-170 | A due timer that was never cancelled may fire if it has not fired before, or is periodic and its expiry lies behind its last run |
| `TimerQueue.OncePerPass` | src/reactor.c:125-170 | In a sound log no timer fires twice in one pass |
| `TimerQueue.OneShotFiresOnce` | src/reactor.c:153-169 | In a sound log a timer that fires again is periodic, and its later run is for an expiry behind the earlier run |
| `RetryPolicy.OpenIffStruckOut` | src/service.c:121-149 | Over every history with a nondecreasing clock: open exactly when at least threshold failures were recorded since the last success or cooldown expiry |
| `RetryPolicy.LastFailureIsLatest` | src/service.c:132-139 | The recorded failure time is that of the latest failure |
| `RetryPolicy.CooledByLatest` | src/service.c:121-130 | Comparing with the latest failure is the same as comparing with all of them |
| `RetryPolicy.CooldownIsExact` | src/service.c:121-130 | An open breaker stays open for cooldown seconds after the latest failure and not one second longer |
| `RetryPolicy.NextDelay` | src/service.c:106-113 | Each call moves the delay one step along min(1000 * 2^k, 60000) |
| `RetryPolicy.DelayClosedForm` | src/service.c:95-113 | The k-th delay since a reset is min(1000 * 2^k, 60000) |
| `RetryPolicy.FirstDelays` | src/service.c:95-113 | The delays are 1, 2, 4, 8, 16 and 32 seconds, and a minute from then on |
| `Supervisor.SpawnsAreSeparated` | src/service.c:689-777 | In a sound trace an earlier child is reaped, seen dead or sent SIGKILL between any two spawns, and no spawn happens with the breaker open |
| `Supervisor.DelaysFollowSchedule` | src/service.c:725-740 | The delays of a sound trace follow the exponential schedule |
| `Supervisor.Service.constructor` | src/service.c:919-1000 | The initial supervisor satisfies every invariant, with an unused budget and clock |
| `Supervisor.Service.ScheduleRetry` | src/service.c:725-740 | One retry timer that fires once after the scheduled delay, no outstanding child; FAILED without a timer when it cannot be had |
| `Supervisor.Service.Spawn` | src/service.c:378-540 | A child is outstanding exactly when the spawn succeeded; a child forked by a failing spawn is killed and reaped; a fork that fails changes nothing |
| `Supervisor.Service.Start` | src/service.c:1055-1092 | From STOPPED the start succeeds exactly when the breaker allows it, the binary exists and the fork goes through: then STARTING with the new child, a fresh episode and a clean count; otherwise FAILED, or STOPPED with an open breaker, and nothing outstanding |
| `Supervisor.Service.DelayedSpawn` | src/service.c:689-723 | The retry timer: with a closed breaker and a fork that goes through, STARTING with the next child, an attempt and a spawn in the trace, and a readiness check after 100 ms; with a failing fork one more failure, and a retry within the budget; with an open breaker a retry after the next delay; nothing in STOPPED |
| `Supervisor.Service.SigChld` | src/service.c:742-777 | A reaped child is no longer outstanding; a crash in STARTING or RUNNING is FAILED and told to the breaker, and within the budget it counts and leaves a retry pending; without an exited child nothing changes |
| `Supervisor.Service.LooksAlive` | src/service.c:200-206 | A child that does not look alive is observed dead |
| `Supervisor.Service.StartingChildAlive` | src/service.c:208-226 | Alive exactly when the child looks alive and a wait does not find it gone; a child that looks alive but is gone is reaped and forgotten |
| `Supervisor.Service.ApiAnswers` | src/service.c:228-246 | Ready exactly when the API answers and the child is alive before and after the call |
| `Supervisor.Service.EnterRunning` | src/service.c:851-878 | RUNNING with a new health timer of the configured period, a clean count, a reset backoff and a closed breaker, or FAILED when there is no timer |
| `Supervisor.Service.RenewHealthTimer` | src/service.c:864-877 | One health timer of the configured period, or none without memory |
| `Supervisor.Service.MonitorStarting` | src/service.c:827-891 | A timeout counts as a failure only start_timeout after the start, a child that is gone counts as one at any time; a ready child enters RUNNING, and one that is neither gone nor ready stays STARTING with its count |
| `Supervisor.Service.Probe` | src/service.c:838-878 | A starting child that is alive: killed and forgotten when it is not ours, RUNNING exactly when the API answers between two looks that find it running, STARTING otherwise |
| `Supervisor.Service.StartupTimeout` | src/service.c:828-837 | A child that does not start in time is killed, counted as a failure and told to the breaker, and within the budget a retry is pending |
| `Supervisor.Service.Monitor` | src/service.c:816-917 | Every case of the monitor: a starting child as above, a dead running child is one failure and a retry within the budget, a live one changes nothing, FAILED without a pending retry asks for one within the budget, STOPPED and STOPPING do nothing |
| `Supervisor.Service.HealthCheck` | src/service.c:790-814 | In RUNNING, health is what the process table and the snapshot say, and the breaker is told exactly when the process is alive; nothing else changes, in any state |
| `Supervisor.Service.ApplyConfig` | src/service.c:1002-1038 | A reload fails exactly when a new health timer is needed and cannot be had, and then changes nothing; a successful one takes over the three settings and leaves the health timer with the configured period |
| `Supervisor.Service.SetReactor` | src/service.c:1040-1053 | One monitor timer, after 100 ms and then every second, replaced when there was one; nothing else changes |
| `Supervisor.Service.StopSync` | src/service.c:1094-1154 | STOPPED with no handle, no child and nothing outstanding; the child is reaped, after SIGKILL exactly when no poll found it gone; at most one-shot readiness checks are left, which find a stopped service |
| `Supervisor.Service.Fire` | src/reactor.c:125-170 | The reactor runs the callback that belongs to the live timer, with its whole effect; a one-shot timer is gone afterwards |
| `Supervisor.Service.Run` | src/service.c:689-917 | Over any interleaving of ticks, signals, retries, reloads, starts and stops: every event has its effect in turn and the record only grows; sound traces, live handles, the breaker's meaning and the health period; while reloads keep max_failures, at most max_failures + 1 retry attempts per episode, fail_count at most max_failures + 1, and a pending retry only up to max_failures |
| `Supervisor.CrashIsRepaired` | src/service.c:689-878 | A crash of a running child within the budget: the signal leaves a retry pending, the retry starts the next child, and when that child is ready the service runs again with a clean count and a closed breaker |
| `Supervisor.Supervise` | src/service.c:919-1000 | From service_init on, under any events that keep max_failures: a sound trace, at most max_failures + 1 retry attempts in an episode, fail_count at most max_failures + 1, and nothing outstanding while a retry is pending |
| `SessionTables.SessionFreed` | src/session.c:250-318 | When the last reference is dropped the object is in no registry, slot or queue, its creator has let go, and freeing it keeps every count exact |
| `SessionTables.RegistryLeft` | src/session.c:163-191 | Leaving the registry hands its reference to the running code |
| `SessionTables.GcJoined` | src/session.c:712-746 | Joining the GC queue takes over a reference, and no session is in the queue twice |
| `SessionTables.GcTaken` | src/session.c:748-757 | Taking the whole queue hands its references to the loop |
| `SessionTables.SlotReleased` | src/reactor.c:452-474 | A free callback runs once for its registration and takes the slot's reference with it |
| `SessionTables.SlotCleared` | src/reactor.c:466-473 | active_handlers stays the number of occupied slots |
| `SessionTables.SlotInstalled` | src/reactor.c:379-420 | Installing or replacing a handler keeps active_handlers exact |
| `SessionTables.SlotArmed` | src/reactor.c:422-433 | Setting the free callback makes the caller's reference the slot's |
| `SessionTables.SlotOwnerSurvives` | src/session.c:655-664 | Dropping a slot's reference never frees the session |
| `SessionTables.Anchored` | src/session.c:13-48 | A session is alive only as long as its creator, the registry, the GC queue or running code holds it |
| `SessionTables.NoLeak` | src/session.c:13-48 | With no creator, registry entry or queue entry left, every session has been freed |
| `SessionTables.ClosingFacts` | src/session.c:668-708 | Registered exactly below CLOSING; at or past CLOSING no slot holds the session |
| `Sessions.Daemon.constructor` | src/session.c:139-148 | Empty tables satisfy every invariant |
| `Sessions.Daemon.Get` | src/session.c:236-248 | One more reference, held by the running code |
| `Sessions.Daemon.Put` | src/session.c:250-269 | Destroyed exactly when this was the last reference, and then nothing refers to the object; otherwise only the count changes |
| `Sessions.Daemon.DestroyInternal` | src/session.c:278-318 | The object is freed and its pipe closed unless it was closed before |
| `Sessions.Daemon.SetState` | src/session.c:121-135 | A state at or past CLOSING never goes back below it |
| `Sessions.Daemon.RegistryRemove` | src/session.c:163-191 | Out of the registry, its reference dropped, everything else untouched |
| `Sessions.Daemon.Create` | src/session.c:195-234 | A session for these two descriptors in IDLE with an open, empty pipe, at the head of the registry, with one reference for the creator and one for the registry; nothing when the pipe cannot be had |
| `Sessions.Daemon.CreatorPut` | src/session.c:250-269 | The creator lets go; the session is freed exactly when nobody else holds it |
| `Sessions.Daemon.FreeSlot` | src/session.c:655-664 | The free callback of a slot runs once and the owner lives on |
| `Sessions.Daemon.AddFd` | src/reactor.c:379-420 | The new handler is in the slot and the free callback of a replaced one has run; unchanged on failure |
| `Sessions.Daemon.AddFdEx` | src/reactor.c:422-433 | On success the caller's reference is the slot's; unchanged on failure |
| `Sessions.Daemon.RemoveFd` | src/reactor.c:452-474 | The slot is empty, its free callback has run, every session keeps all but its count |
| `Sessions.Daemon.AddOwned` | src/session.c:325-340 | A reference is taken for a handler and given back when the reactor refuses |
| `Sessions.Daemon.AddBoth` | src/session.c:322-340 | Handlers for both descriptors, or for neither |
| `Sessions.Daemon.Register` | src/session.c:322-347 | Both descriptors registered and ACTIVE, or neither and the state as before, with the counts exact in every case |
| `Sessions.Daemon.Detach` | src/session.c:686-700 | CLOSING, out of the registry and out of the reactor, although removal runs callbacks on the same session |
| `Sessions.Daemon.MarkClosing` | src/session.c:668-708 | Nothing on a closing session; an open one is queued once, unregistered and out of the reactor, and all other sessions keep all but their counts |
| `Sessions.Daemon.Close` | src/session.c:849-852 | The same from outside |
| `Sessions.Daemon.GcEnqueue` | src/session.c:712-746 | Queued once with a reference of the queue |
| `Sessions.Daemon.GcProcess` | src/session.c:748-773 | Exactly the queued sessions that nothing else holds are freed, once each; all others are untouched |
| `Sessions.Daemon.EmergencyDrain` | src/session.c:777-801 | The pipe is closed once, its bytes given up, an open session closed; a second drain does nothing |
| `Sessions.Daemon.DrainAll` | src/session.c:803-837 | The registry is empty; the sessions it held are at DESTROY_PENDING, queued once in registry order, out of the reactor, their pipes closed once; nothing is freed; without memory nothing happens |
| `SessionRuns.FdsOf` | src/session.c:803-837 | The descriptors that leave the reactor in a drain are those of every drained session |
| `Sessions.Daemon.DrainPipe` | src/session.c:359-408 | As the kernel's answers say: still dirty with what was not sent, active with nothing pending, closed because the reactor refuses, or as before after an error; only this session changes |
| `Sessions.Daemon.DrainLoop` | src/session.c:372-393 | The loop refines the specification of a drain |
| `SessionTransfer.DrainLaw` | src/session.c:372-393 | The drain without its loop: it uses up a beginning of the answers, sends what that beginning offers, and stops for what its last answer says |
| `Sessions.Daemon.SendMoved` | src/session.c:466-542 | The inner loop either sends everything and changes nothing, or ends the pump as the last answer says |
| `Sessions.Daemon.SendLoop` | src/session.c:466-542 | The inner loop refines its specification, a look at the VPN before every write |
| `SessionTransfer.SendAnswers` | src/session.c:466-542 | What each pair of answers, of the VPN and of the write, means to the inner loop |
| `Sessions.Daemon.Stall` | src/session.c:490-522 | What is left is pending and the session dirty; the session is closed when the reactor refuses to wait |
| `Sessions.Daemon.Pump` | src/session.c:412-555 | Code, bytes sent and state as the kernel's answers say: not ready, quiet, dirty with exactly what was read and not sent, abandoned or closed; no other session changes |
| `SessionTransfer.PumpLaw` | src/session.c:412-555 | Conservation over any answers: a stalled pump leaves pending what it read and did not send, a count is what it sent, and the negative codes are the four of the source |
| `SessionTransfer.ReadAnswers` | src/session.c:430-461 | What each answer to the read means: nothing to read, end of input, not supported, error |
| `SessionTransfer.WriteAnswers` | src/session.c:466-542 | What each end of the writes means to the pump |
| `SessionTransfer.HundredBytes` | src/session.c:412-555 | A hundred bytes that the kernel takes at once are forwarded and counted |
| `Sessions.Daemon.InBody` | src/session.c:559-606 | Between its two references the input callback changes only its session: a dirty pipe is drained first, then bytes are pumped as the kernel's answers say, and a negative result or an error closes the session |
| `Sessions.Daemon.OutBody` | src/session.c:610-651 | The output callback drains a dirty pipe and does nothing else; an error closes the session |
| `Sessions.Daemon.SessionCallback` | src/session.c:559-651 | The transfer of the input or of the output callback, an error that closes, nothing on a closing session; whatever happens, the session outlives its callback |
| `Sessions.Daemon.Dispatch` | src/reactor.c:351-357 | The handler of a descriptor runs the input callback for an input slot and the output callback for an output slot, on its live owner and on no other session; a descriptor without a handler does nothing |
| `SessionTransfer.CleanOutputIsIdle` | src/session.c:633-650 | The output callback of an ACTIVE session leaves the session and the kernel alone |
| `SessionTransfer.ActiveInputPumps` | src/session.c:582-603 | The input callback of an ACTIVE session with answers left consumes one, and forwards what the pump forwards |
| `Sessions.Daemon.Handle` | src/reactor.c:351-357 | Each event does exactly what it should to the tables, and an event that does not apply does nothing |
| `Sessions.Daemon.ReactorDestroy` | src/reactor.c:184-212 | The table is empty and every registration's free callback has run exactly once |
| `Sessions.Daemon.VpnTransition` | src/atpd_context.c:186-240 | Every change of state or identity is counted and told to the mode callback once; each edge into TEARDOWN, and nothing else, drains all sessions; an invalid state is refused |
| `Sessions.Daemon.Shutdown` | src/main.c:516-530 | If the creators have let go, every session ever created has been freed once and its pipe closed once, and every free callback ever registered has run once |
| `Sessions.Daemon.Run` | src/session.c:13-48 | Every event has its effect in turn; after any events the reference count of every live session is its number of holders, ids are not reused, every dead session was freed once, and no state at or past CLOSING has gone back |
| `SessionRuns.AdvancesTrans` | src/session.c:121-135 | Not going back composes over runs |
| `VpnMailbox.NewestNeverLost` | src/api.c:85-106 | For every interleaving up to the stop the newest submission is pending, in flight or applied; attempts never go back to an older submission; none completes twice |
| `VpnMailbox.OrderedStep` | src/api.c:85-106 | Every step of either thread keeps that |
| `VpnMailbox.SavedModeIsFirst` | src/api.c:349-401 | For every interleaving the saved mode is the one live at the first READY read since the last completed restore, and each completed request left sing-box in the target, or in the saved mode or its fallback |
| `VpnMailbox.FaithfulStep` | src/api.c:349-401 | Every step keeps that, also a set that took effect but reported failure |
| `VpnMailbox.IdleUndoesReady` | src/api.c:358-381 | Without outside changes, for a mode that fits the buffers and is among the first 32: whenever nothing is saved, and so after every completed IDLE request, sing-box is in the mode it started in |
| `VpnMailbox.LongNamesAreCut` | src/api.c:384-386 | For every mode name of more than 63 bytes the law fails: the mode comes back cut |
| `VpnMailbox.LateModesAreLost` | src/singbox_api.c:570-572 | For every supported mode past the 32nd entry of the list the law fails: the fallback comes back |
| `VpnMailbox.UndoneIff` | src/api.c:349-401 | The undo law holds exactly for the modes that fit the buffers and are among the first 32 |
| `VpnMailbox.IsClashModeSupported` | src/api.c:305-311 | The search finds a non-empty mode exactly when it is in the list |
| `VpnMailbox.Api.constructor` | src/api.c:154-178 | The initial mailbox satisfies the ordering and the saved-mode invariants, and the undo law's when sing-box is in a mode that can be restored |
| `VpnMailbox.Api.VpnModeCallback` | src/api.c:321-347 | READY and IDLE overwrite the mailbox with a new submission of the target, or "Google VPN", and the fallback, or "Rule"; other states and a disabled feature do nothing |
| `VpnMailbox.ReadyServed` | src/api.c:338-401 | For every target and fallback: a READY request that is served undisturbed leaves sing-box in the target, or in "Google VPN" for an empty one, when that mode is listed, and is put back otherwise |
| `VpnMailbox.IdleServed` | src/api.c:338-381 | For every target and fallback: an IDLE request restores the saved mode when it is listed, else the fallback, or "Rule" for an empty one, when that is listed, and is put back otherwise; with nothing saved it changes nothing |
| `VpnMailbox.Api.Follow` | src/api.c:321-401 | The same of the callback and the worker's methods, called one after the other |
| `VpnMailbox.Api.TakeRequest` | src/api.c:90-96 | The worker's first section is the step Take: what was pending is taken and the slot is free |
| `VpnMailbox.Api.ReadStatus` | src/api.c:349-395 | Reading and deciding is the step ReadWorks or ReadFails: failure without an answer, otherwise the mode to set, with the first READY mode saved |
| `VpnMailbox.Api.SetMode` | src/api.c:371-375 | Setting the mode is the step SetWorks or SetFails: the mode is live if the call reported success or took effect, and an IDLE request that succeeds clears the saved mode |
| `VpnMailbox.Api.PutRequestBack` | src/api.c:97-105 | The worker's second section is the step PutBack: never over a newer request |
| `VpnMailbox.Api.GiveUp` | src/api.c:115-119 | The worker leaves on a failing poll; what is pending stays pending |
| `VpnMailbox.Api.Round` | src/api.c:85-127 | A round of the worker, with anything happening between its sections, is the run of its steps in order: Take, the read, the set if there is one to do, and the put-back after a failure |
| `AsyncValidate.Validation.constructor` | src/async_validate.c:98-111 | The cleared context satisfies the invariant |
| `AsyncValidate.Validation.ReapChild` | src/async_validate.c:25-45 | At most one successful wait; a reaped child is not waited for again; its status is kept when it was asked for |
| `AsyncValidate.CleanExitMeans` | src/async_validate.c:257 | Of all exit codes exactly 0 is clean, and no death by a signal is |
| `AsyncValidate.Validation.Cleanup` | src/async_validate.c:315-370 | The first call deregisters and closes both descriptors, gets rid of the child and reports the verdict last; every other call, also from inside the callback, does nothing |
| `AsyncValidate.Validation.ReleaseFds` | src/async_validate.c:329-349 | Both descriptors leave the reactor before they are closed |
| `AsyncValidate.Validation.ReleaseChild` | src/async_validate.c:351-361 | No child is left, running or dead; a running one is killed before it is waited for, and no other is killed |
| `AsyncValidate.Validation.Append` | src/async_validate.c:228-241 | The output is the first 4095 bytes received, flagged as truncated when there were more |
| `AsyncValidate.Validation.IoCallback` | src/async_validate.c:214-265 | All output before the deciding result is taken; would-block waits, an error ends with verdict 0, and end of file is judged by the child's exit; nothing after completion |
| `AsyncValidate.Validation.AtEndOfFile` | src/async_validate.c:244-260 | At end of file a child that has exited is judged by its status, 1 exactly for a clean exit, also when the timer had reaped it; one that was waited for elsewhere gives 0; a running child changes nothing |
| `AsyncValidate.Validation.TimeoutCallback` | src/async_validate.c:267-306 | A running child is killed and the verdict is 0; a child that has already exited is reaped and kept with its status, and the validation goes on; a failing timer read gives 0 |
| `AsyncValidate.Validation.ManualCleanup` | src/async_validate.c:207-210 | Completes with verdict -1 unless completed before |
| `AsyncValidate.Validation.Start` | src/async_validate.c:89-205 | Either both descriptors are registered and a child runs, or every descriptor obtained is closed and no child is left; the write end of the pipe is closed in every case |
| `AsyncValidate.Validation.Watch` | src/async_validate.c:154-204 | The same behind the fork |
| `AsyncValidate.Validation.GiveUp` | src/async_validate.c:189-204 | The failure exit leaves nothing behind and does not call back |
| `AsyncValidate.Validation.Race` | src/async_validate.c:75-84 | Any order of events, each with its effect in turn: the callback at most once and last, each descriptor deregistered and then closed exactly once, at most one successful wait, and verdict 1 only if the child really exited with status 0 |
| `AsyncValidate.VerdictIsExit` | src/async_validate.c:214-306 | A child that exits is judged by its exit status, also when the timer fires before the end of its output is read |
| `AsyncValidate.RaceFacts` | src/async_validate.c:75-84 | The invariant read as statements about the record of acts |

## Left out

- Supervisor.Service.Run: when reloads change max_failures, the bounds are stated with the largest value so far, and the one on attempts grows by one for each change within an episode.
- Supervisor.Service.Start: only from STOPPED, as the daemon does.
- Supervisor.Service.SetReactor: before the start or again with the same reactor; moving a running service to another reactor would leave its timers behind.
- Sessions.Daemon.Register: only for a session that is not closing, as its callers do; on a closing one the code leaves handlers behind that hold references.
- Sessions.Daemon.Pump: the byte statistics of a session are not modelled, because the EAGAIN branch adds the sent bytes twice; the bytes are numbers here, and their order is the business of SplicePump.Pump.Forward.
- Sessions.Daemon.DestroyInternal: the session's two sockets are closed in the step that frees it, and so as often as it is freed; the socket numbers are not tracked.
- Sessions.Daemon.ReactorDestroy: the timers that are freed beside the handlers, and closing the reactor's own descriptors.
- Sessions.Daemon.VpnTransition: the time of the change; both callbacks are registered, as in the running daemon.
- Sessions.Daemon.FreeSlot: free callbacks other than the sessions' do nothing to the tables; one that removes its own descriptor again is outside the model.
- TimerQueue.Queue.ProcessExpired: milliseconds do not overflow 64 bits, the clock is monotone and a callback does not move the reactor's time; a pass whose callbacks keep adding timers that are already due need not end.
- VpnMailbox.IdleUndoesReady: names do not contain a zero byte.
- AsyncValidate.Validation.ReapChild: retries after EINTR, and errors of waitpid other than ECHILD.
- AsyncValidate.Validation.Race: reuse of the context for a new validation from inside the callback.
- Varint.ReadVarint: the disjunction of disjoint bit groups is written as a sum.
- `service_stop_async` and its wait callback: the daemon does not call them.
- The registry and the GC queue are sequences and the handler table is a map; the pointer surgery is modelled for the timer list only.
- Several threads inside the session code: compare-and-swap loops are one step, because only the event loop runs them. Memory ordering below sequential consistency.
- The response reader of unary calls, sockets, health probes and timeouts.
- Process identity: reuse of process numbers, /proc parsing, pid files, log rotation, fork and exec bodies.
- Netlink, the control socket, status rendering, command line, logging, error ring, initialisation phases, configuration validators and the vendored JSON library: input/output, presentation or finite tables that would only add easy members.
