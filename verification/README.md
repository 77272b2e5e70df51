# tlsdated: a verified model

tlsdated keeps the system clock on time by asking TLS servers for it. The daemon is a set of event handlers
over one `struct state`. It starts short-lived `tlsdate` children that report a time through a pipe, and hands
accepted times to a privileged setter coprocess that sets the clock and saves a timestamp file. The helper
that a child runs reaches its server through an optional SOCKS or HTTP proxy and may read the time from an HTTP
`Date` header. This project models these parts and proves what they promise, for every run and every input.

Check everything with `dafny verify dfyconfig.toml`.

## How the project is laid out

| files | part |
|---|---|
| `Settings`, `Daemon`, `EventLoop` | the event handlers: a function on the value of `struct state` for each, and a method of class `Tlsdated` that updates the fields in place and is proved to agree with it |
| `Timestamp`, `Setter` | the timestamp file and one turn of the setter coprocess |
| `World` | daemon, children, setter and the three pipes as a transition system; a run is any sequence of steps |
| `SyncInvariants`, `SetterInvariants` | the two inductive invariants, one lemma per kind of step |
| `Runs` | the promises, over every reachable world |
| `Handlers` | what each event does to the whole system, case by case and in the program's own numbers |
| `Delivery` | whether an accepted time gets to the setter, and where the times on disk come from |
| `Restarts` | the timestamp file over any number of runs |
| `Progress` | from every reachable world the clock can still be set |
| `Examples` | concrete runs for what the code does not promise |
| `Service` | the promises read off the object that runs the handlers |
| `Scanner`, `Transport` | C strings, the used part of `sscanf`, the FIFO transport of the test BIO |
| `Handshake`, `Proxy` | the proxy handshakes on values and as class `ProxyBio`; stream transparency |
| `Calendar`, `HttpDate`, `DateRoundTrip`, `DateAnswers`, `Rfc850` | the Date header reader, its round trips, and what each of its answers means |
| `Conf`, `ConfLaws` | configuration parser and list of sources, and what they refuse |
| `Seccomp` | the setter's system-call filter |

## What is taken from the environment

- A child writes at most one 4-byte time and has written it when it exits with status 0
  (`src/tlsdate-helper.c:1398-1401`).
- Children and setter write to their pipes whole, and the setter reads whole messages; what happens to a write
  of the daemon is open. A new process id is not in use; the system clock reads as non-negative.
- Waits are non-negative and fit an `int`; `max_tries` and `wait_between_tries` are at least 1; the build date
  lies before the last sane date (`Config.Valid`). `wait_between_tries` is at most `INT_MAX - 30`, so that the
  delay with a resolver still fits an `int`; `SyncInvariants.RetryArmed` says what happens to a delay that
  does not. `check_conf` refuses zero but lets negative values through (`src/tlsdated.c:391-394`).
- Clock readings, random draws, process ids, statuses and the outcome of system calls are parameters, so every
  theorem holds for all of them. Steps interleave freely, and a step that is not enabled changes nothing.
- The transport below the proxy never returns a negative count: the connect functions can return -1, which
  their callers take for success (`src/proxy-bio.c:307`, `src/proxy-bio.c:327`).
- `timegm` and `gmtime` are the Gregorian day count and its inverse; bytes are characters below 256.

## What the code does not promise

- **A wake can be lost.** `abs` of the most negative `int` is negative on a two's complement machine, so
  `add_jitter (30, 30)` can return -8 and `trigger_event` then leaves a pure timer unscheduled. `Runs.NoWakeLost`
  gives the exact condition and `Examples.LostWake` a run that meets it.
- **An accepted time can be lost.** `action_sync_and_save` returns when the pipe is full and expects to be
  notified again, but its event is not persistent (`src/tlsdated.c:533-535`). `Delivery.StepDelivers` says that
  exactly the save events that do not write what they should lose a time, `Delivery.NoTimeLost` that runs
  without one lose none, and `Examples.LostTime` gives a run that loses a network time.
- **Not only network time reaches the disk.** On SIGTERM the local clock takes the place of the last time and
  the sync type stays (`src/events/sigterm.c:24-32`). `Delivery.SavedTimesHaveSources` says where every saved
  time comes from, `Delivery.StepKeepsNet` that exactly a SIGTERM while the type is NET brings in another time,
  `Delivery.OnlyNetworkTimeSaved` that runs without one save only what children sent, and
  `Examples.LocalClockIsSaved` gives a run that saves a time no server sent.
- **SOCKS5 replies with another address type** than IPv4 or a name are not consumed.
  `Handshake.Socks5Framing` says when the framing is exact; `Handshake.Socks5LeavesIpv6Address` shows the address
  of an IPv6 reply left in the stream.
- **The RFC 850 date form** is read as 19xx and limited to 32 characters. `Rfc850.Rfc850RoundTripsIff` gives the exact
  condition and `Rfc850.Rfc850Example` a date outside it.

## Model

| member | source | states |
|---|---|---|
| `Runs.ReachableInv` | src/tlsdated.c:542-597 | both inductive invariants hold in every world any run leads to, from every start |
| `SyncInvariants.StepInv` | src/events/run_tlsdate.c:18-77 | every step of daemon or environment keeps the invariant on children, attempts, retry credit and backoff |
| `SetterInvariants.StepInv` | src/tlsdate-setter.c:101-177 | every step keeps the invariant on the held time, the pipes, the clock, the saves and the file |
| `Runs.NoAttemptLost` | src/events/sigchld.c:55-78 | with `tries > 0` a child runs, E_TLSDATE is pending, or an unread answer waits with the listener armed; running with tries has the listener armed; sync type NET has no tries |
| `Runs.NoWakeLost` | src/events/kickoff_time_sync.c:118-170 | after a wake in any reachable world the type is NET or an attempt is outstanding, if and only if the wake is not one with a clock jump, no attempt, no resolver and the draw INT_MIN |
| `Runs.NoSteadyStateWakeLost` | src/events/kickoff_time_sync.c:69-85 | after the steady-state timer an attempt is outstanding under exactly the same condition |
| `Runs.JitterRange` | src/events/kickoff_time_sync.c:32-56 | the jittered delay stays in [base - jitter, base + jitter) except exactly for the draw whose absolute value overflows |
| `Runs.JitterCovers` | src/events/kickoff_time_sync.c:32-56 | every delay in that range comes up for some draw |
| `Handlers.WakeAndTime` | src/events/kickoff_time_sync.c:118-139 | a wake in sync changes nothing, one after a jump of more than 14400 s makes the time the local clock's, any other keeps the time |
| `Handlers.WakeAndAttempts` | src/events/kickoff_time_sync.c:140-170 | a wake gives one try back, leaves a pending attempt with its timer, or schedules one: after 0 s, or abs(draw) % 60 s after a jump, behind the resolver with 30 s more |
| `Handlers.SteadyStateCases` | src/events/kickoff_time_sync.c:69-85 | an invalid time being acquired is left alone, any other becomes the local clock's; the reference goes only with a jump |
| `Examples.LostWake` | src/events/kickoff_time_sync.c:124-162 | a concrete run whose wake is lost: one synchronisation, a jump of 20000 s, the draw INT_MIN |
| `SyncInvariants.RetryArmed` | src/events/sigchld.c:62-78 | a failed exit re-arms E_TLSDATE if and only if its delay modulo 2^32 is below 2^31 |
| `Handlers.FailedChildIsRetried` | src/events/sigchld.c:62-78 | in every run: the backoff doubles below 600, the retry's timer is exactly that many seconds, 30 more behind a resolver, and tries stay |
| `Handlers.CleanExitIsNotRetried` | src/events/sigchld.c:55-61 | a clean exit frees the slot and its timeout and changes nothing else |
| `Handlers.UnknownDeath` | src/events/sigchld.c:44-50 | the death of any other process changes nothing |
| `Handlers.DeadSetterStopsTheLoop` | src/events/sigchld.c:38-43 | once a dead setter is reaped the loop has stopped, and in any run after it the daemon's state stays |
| `Handlers.LaunchCases` | src/events/run_tlsdate.c:47-76 | with a try left: one more child, its pid, one more try, the listener, the timeout after `subprocess_wait` seconds; or, when fork fails, none of it and no tries |
| `Handlers.NoLaunchCases` | src/events/run_tlsdate.c:22-58 | in sync, while a child runs and after the last try no child is started; what becomes of tries and backoff |
| `Handlers.AnswerCases` | src/events/tlsdate_status.c:58-95 | an answer ends the attempt; exactly a time between the build date and 1999991337 is taken over with its save due |
| `Handlers.BrokenAnswer` | src/events/tlsdate_status.c:65-70 | a broken monitor pipe lets the timeout fire at once and changes nothing else |
| `Runs.ChildDiscipline` | src/events/tlsdate_status.c:48-56 | `running` iff a pid is held; at most one unreaped child; a running child has the timeout pending or was killed; the timeout kills only that child |
| `Runs.RetryCredit` | src/events/run_tlsdate.c:37-58 | 0 <= tries <= max_tries; launches since the last reset are tries plus credited wakes |
| `Runs.BackoffClosedForm` | src/events/sigchld.c:64-77 | backoff is the configured wait times 2^min(k, K), K the least exponent that reaches the limit, and at most max(wait, 1198) |
| `SyncInvariants.BackoffBounds` | src/events/sigchld.c:64-65 | one failed exit moves the closed form from k to k + 1, within the bound |
| `Runs.OneReplyPerRequest` | src/events/time_set.c:83-106 | messages sent = messages in the save pipe + replies in the notify pipe + replies handled, once the setter has started |
| `Runs.ClockFollowsDaemon` | src/tlsdate-setter.c:101-177 | the clock settings are, in order, the sane magnitudes of what was read; after a clean shutdown, of all that was sent before the first 0, and likewise the saves |
| `Runs.ClockValuesWereSent` | src/events/save.c:21-63 | position by position: the clock settings are the sane values `last_time` had when the messages read so far were sent, the saves those of them sent while the type was NET; at most the last message read is missing |
| `Runs.SavedWhileNet` | src/events/save.c:27-32 | every saved value is sane and was held with type NET when it was sent |
| `Delivery.SavedTimesHaveSources` | src/events/sigterm.c:19-33 | over every run a saved value was read from a tlsdate child or is the clock reading of a SIGTERM that came while the type was NET; before any SIGTERM only the former |
| `Delivery.StepKeepsSources` | src/events/tlsdate_status.c:77-83 | every step keeps: what is held or was sent with type NET was read from a child or from the clock at SIGTERM |
| `Delivery.StepKeepsNet` | src/events/sigterm.c:24-32 | a step makes the daemon hold, with type NET, a time no child sent, if and only if it is a SIGTERM that comes while the type is NET and reads such a time |
| `Delivery.OnlyNetworkTimeSaved` | src/events/save.c:27-32 | in every run without such a SIGTERM every saved value was read from a child |
| `Examples.LocalClockIsSaved` | src/events/sigterm.c:24-32 | a concrete run that saves a time no child wrote |
| `Delivery.StepDelivers` | src/events/save.c:33-62 | a step makes the daemon hold a time that is neither sent nor due, if and only if it is a save event that returns without writing it |
| `Delivery.NoTimeLost` | src/events/save.c:21-63 | in every run without such a save event the time held is always sent or due |
| `Delivery.DeliveredTimeIsSet` | src/events/save.c:21-63 | once the pipe is empty and no save is due, the clock was last set to the time held, and a network time is the last one on disk |
| `Handlers.SaveCases` | src/events/save.c:31-62 | what a written save puts on the pipe, negated unless from the network, and the 0 after it on the way out |
| `Handlers.UnwrittenSaveCases` | src/events/save.c:33-54 | a save that cannot be written sends nothing and is over; only an unexpected error ends the daemon |
| `Handlers.TerminateCases` | src/events/sigterm.c:19-33 | SIGTERM takes the clock's reading, keeps the type and arms the save |
| `Handlers.ReplyCases` | src/events/time_set.c:30-81 | the effect of each reply by number |
| `Handlers.SaneMessage` | src/tlsdate-setter.c:141-171 | for a sane time of either sign: the clock setting, the save, the file and the reply by number, for every outcome of the system calls |
| `Handlers.UselessMessage` | src/tlsdate-setter.c:136-141 | 0 ends the setter with reply 0; an insane time gets one reply and no effect |
| `Handlers.FailedStart` | src/tlsdate-setter.c:80-100 | a failed start leaves a dead setter, the reply 2 or 6, and no file if it was removed |
| `Handlers.ClockAndDiskAreSane` | src/tlsdated.c:47-51 | every value put on the clock or on disk lies strictly between the build date and 1999991337 |
| `Examples.LostTime` | src/events/save.c:48-49 | a concrete run in which a full pipe loses a network time, and a wake after it does not bring it back |
| `Runs.TimeIsSane` | src/events/tlsdate_status.c:77-83 | unless exiting, a time whose type is not RTC is sane |
| `Restarts.FileIsLastSave` | src/tlsdate-setter.c:80-92 | over any number of runs the file loads as the last time any of them saved, or as before if none did, unless a failed start removed it since |
| `Restarts.StartPicks` | src/tlsdated.c:542-568 | for every clock and file: the later of the two if both are sane, the sane one if one is, else the second after the build date; the sync type says exactly which |
| `Restarts.RestartMonotone` | src/tlsdated.c:542-568 | the start after any number of runs is at a sane time, no earlier than a sane clock and, with loading on, no earlier than the last time saved |
| `Restarts.RunTouchesFile` | src/tlsdate-setter.c:161-166 | a run that saves nothing leaves the file as it was |
| `Runs.QuietStep` | src/events/check_continuity.c:35-58 | a step without a network reply or a detected jump leaves the reference alone, and what it measured lies within the interval |
| `Runs.NoRatcheting` | src/events/check_continuity.c:35-58 | over any such stretch of steps the reference never moves and every reading lies within 14400 s of it |
| `Runs.JumpInvalidates` | src/events/kickoff_time_sync.c:122-134 | a detected jump drops the reference and the network type |
| `Handlers.ContinuityOverTime` | src/events/check_continuity.c:35-58 | the reference is the difference of the clocks at the setter's reply; while both advance alike no check ever reports a jump, and when the wall clock alone moves by j the next wake drops reference and time exactly for abs(j) > 14400 |
| `Runs.SetTimeAccepted` | src/dbus.c:373-410 | exactly when SetTime is a bad call, invalid or accepted: for a sane time with no reference left after the check; then the requested time survives the kickoff with the save armed, and otherwise nothing changes |
| `Handlers.SetTimeKicksOff` | src/dbus.c:406-407 | an accepted SetTime gives a try back, leaves a pending attempt or schedules one at once |
| `Progress.CanSync` | src/events/run_tlsdate.c:47-77 | from every live world some continuation without failed system calls makes the daemon hold a given sane server time with its save armed |
| `Progress.NeverWedged` | src/tlsdate-setter.c:101-177 | from every reachable world with loop and setter running and no shutdown under way, some continuation without failed system calls sets the clock to a given sane time |
| `EventLoop.CheckContinuity` | src/events/check_continuity.c:35-58 | negative iff a clock cannot be read, else the new difference real minus monotonic; positive iff it is more than 14400 s from a non-zero reference |
| `EventLoop.Tlsdated.constructor` | src/tlsdated.c:542-570 | the object starts in the state of `Restarts.StartPicks` before its first kickoff, with the save armed |
| `EventLoop.Tlsdated.TriggerEvent` | src/util.c:396-417 | which event is pending afterwards, with the fall-through from resolver to tlsdate; a negative delay arms only events with a descriptor |
| `EventLoop.Tlsdated.ActionKickoff` | src/events/kickoff_time_sync.c:118-170 | the whole new state after a wake |
| `EventLoop.Tlsdated.ActionInvalidate` | src/events/kickoff_time_sync.c:69-85 | the whole new state after the steady-state timer |
| `EventLoop.Tlsdated.ActionRunTlsdate` | src/events/run_tlsdate.c:18-77 | the whole new state after a launch, a re-run request, giving up or a failed fork |
| `EventLoop.Tlsdated.ActionStatus` | src/events/tlsdate_status.c:58-95 | the whole new state for a broken, an incomplete, a sane and an insane answer |
| `EventLoop.Tlsdated.HandleChildDeath` | src/events/sigchld.c:38-79 | the whole new state for the setter, an unknown process, a clean and a failed tlsdate |
| `EventLoop.Tlsdated.ActionSigchld` | src/events/sigchld.c:114-125 | all ready processes are dealt with in order, and exactly the stopped ones killed |
| `EventLoop.DeathsInOrder` | src/events/sigchld.c:122-124 | deaths are dealt with one after the other |
| `EventLoop.OneDeath` | src/events/sigchld.c:20-79 | one of them is what the step of the whole system makes of it |
| `EventLoop.Tlsdated.ActionSigterm` | src/events/sigterm.c:19-33 | the whole new state on the way out |
| `EventLoop.Tlsdated.ActionSyncAndSave` | src/events/save.c:21-63 | the messages written and the new state for a broken, closed, full or failing pipe and for the shutdown message after a written time |
| `EventLoop.Tlsdated.HandleTimeSetter` | src/events/time_set.c:30-81 | the whole new state for each setter status |
| `EventLoop.Tlsdated.CanSetTime` | src/dbus.c:356-371 | the state after the forced check; yes iff no reference is left |
| `EventLoop.Tlsdated.HandleSetTime` | src/dbus.c:373-410 | reply and whole new state of SetTime |
| `EventLoop.Tlsdated.Perform` | src/tlsdated.c:594-597 | for every step of the system the object's fields become the daemon's part of the next world; what it writes joins the save pipe, and the timeout kills exactly the child of that world |
| `EventLoop.Tlsdated.Run` | src/tlsdated.c:594-597 | after any sequence of steps the object is in the state of the run |
| `Service.Serve` | src/tlsdated.c:542-597 | an object started and run through any steps: no attempt is lost, tries stay in range, running iff a pid is held, and the time held is sane |
| `Service.WakeUp` | src/events/kickoff_time_sync.c:118-170 | a wake of the object at any point of any run leaves it in sync or with an attempt outstanding, if and only if it is not one of the lost |
| `EventLoop.TimeSetterCoprocess` | src/tlsdate-setter.c:74-178 | from start to death, with a file that cannot be opened, a missing sandbox, interrupted and short reads: one reply per message and one for a failed start or the end of the pipe, the last one its exit status; clock, saves and file are those its messages ask for |
| `EventLoop.ReceivedInOrder` | src/tlsdate-setter.c:113-129 | messages are received whole and in order through any interrupted and short reads |
| `EventLoop.SetterIteration` | src/tlsdate-setter.c:130-171 | one turn does what the specification of a message says, and a fatal status is the one it dies with |
| `SetterInvariants.HandleKeepsClock` | src/tlsdate-setter.c:141-169 | one more message extends clock settings and saves exactly as the message sequence asks |
| `SetterInvariants.HandleKeepsFile` | src/tlsdate-setter.c:161-166 | the file always holds the last saved time |
| `Setter.SettingsAppend` | src/tlsdate-setter.c:130-166 | what a sequence of messages asks for grows with its last message |
| `Timestamp.BytesRoundTrip` | src/util.c:287-342 | the byte form of a number of any width decodes to it |
| `Timestamp.SaveThenRead` | src/util.c:287-342 | a saved time is read back exactly, whatever the file held |
| `Handshake.Socks5RoundTrip` | src/proxy-bio.c:159-178 | the request decodes under section 4 of RFC 1928 to host and port, for every host of at most 255 bytes |
| `Handshake.Socks5Conversation` | src/proxy-bio.c:136-178 | all that is sent decodes to an offer of method 0 alone and then that request |
| `Handshake.HttpRoundTrip` | src/proxy-bio.c:254-273 | the CONNECT request decodes to host and port, with a Host line that names the same authority, for every host without a space and every port |
| `Handshake.DecimalValue` | src/proxy-bio.c:254-262 | the digits printed for a port read back as it |
| `Handshake.Socks4aSucceeds` | src/proxy-bio.c:110-122 | success iff the second of 8 reply bytes is 90 |
| `Handshake.Socks5Succeeds` | src/proxy-bio.c:151-228 | success iff both replies are 05 00 and all that is announced is there; how much is taken |
| `Handshake.StatusDecides` | src/proxy-bio.c:277-281 | a status line is a success iff its status is from 200 to 299, whatever the version |
| `Handshake.LongLineFails` | src/proxy-bio.c:231-246 | a line is given up after 4096 bytes or at the end of the input |
| `Handshake.Socks4aRoundTrip` | src/proxy-bio.c:81-105 | the request decodes to host and port for every accepted host |
| `Handshake.ConnectSends` | src/proxy-bio.c:132-148 | what is sent is a prefix of the request, all of it on success, nothing for a SOCKS5 host over 255 bytes |
| `Handshake.RequestFits` | src/proxy-bio.c:252-262 | both CONNECT lines fit the buffer |
| `Handshake.Socks5Framing` | src/proxy-bio.c:192-225 | on success exactly the reply of section 6 of RFC 1928 is consumed, if and only if the address type is 1 or 3 |
| `Handshake.Socks5LeavesIpv6Address` | src/proxy-bio.c:203-228 | an IPv6 reply succeeds and leaves its 18 address and port bytes in the stream |
| `Handshake.HttpFraming` | src/proxy-bio.c:274-290 | for every 2xx status line and header lines, CONNECT takes them and the first empty line and no byte more |
| `Handshake.HttpOnlyFraming` | src/proxy-bio.c:274-291 | nothing else makes CONNECT succeed |
| `Handshake.EmptyLine` | src/proxy-bio.c:284 | comparing a line as a C string with CRLF is comparing the line |
| `Handshake.ConnectLocal` | src/proxy-bio.c:73-292 | a successful handshake depends on nothing beyond the bytes it takes |
| `Proxy.Fill4a` | src/proxy-bio.c:81-104 | the buffer holds the SOCKS4a request, within bounds |
| `Proxy.Fill5` | src/proxy-bio.c:168-177 | the buffer holds the SOCKS5 request, within bounds |
| `Proxy.ProxyBio.Socks4aConnect` | src/proxy-bio.c:73-123 | bytes sent, bytes taken and outcome of one attempt |
| `Proxy.ProxyBio.Socks5Connect` | src/proxy-bio.c:125-229 | bytes sent, bytes taken and outcome of one attempt |
| `Proxy.ProxyBio.Greet5` | src/proxy-bio.c:136-158 | hello sent, at most 2 bytes taken, ok iff they are 05 00 |
| `Proxy.ProxyBio.ReadReply5` | src/proxy-bio.c:192-225 | outcome and exact consumption for each address type and for short input |
| `Proxy.ProxyBio.Drain` | src/proxy-bio.c:209-217 | takes exactly the announced length, or all there is and fails; stays in the buffer |
| `Proxy.ProxyBio.SockGets` | src/proxy-bio.c:231-246 | a line with its terminator, or failure; the bytes consumed in both cases |
| `Proxy.ProxyBio.SkipHeaders` | src/proxy-bio.c:282-290 | terminates on every input and stops after the first empty line |
| `Proxy.ProxyBio.HttpConnect` | src/proxy-bio.c:248-292 | bytes sent, bytes taken and outcome of one attempt |
| `Proxy.ProxyBio.Write` | src/proxy-bio.c:294-314 | wire and count after a write, with the lazy handshake |
| `Proxy.ProxyBio.Read` | src/proxy-bio.c:316-334 | wire and delivered bytes after a read, with the lazy handshake; the rest of the buffer untouched |
| `Proxy.StreamTransparency` | src/proxy-bio.c:294-334 | for every sequence of calls, failed handshakes included: output = what each failed handshake sent, a beginning of the request, then request and accepted payload; input = handshake replies then delivered then waiting bytes; no payload before a success |
| `Proxy.FirstUseTransparency` | src/proxy-bio.c:294-334 | with success on first use: output = request then payload, input = exactly one reply then payload |
| `Proxy.UseGetsThrough` | src/proxy-bio.c:294-334 | every use but an empty write tries the handshake; once connected a write is accepted whole and a read delivers all that waits up to its size |
| `Proxy.Converse` | src/proxy-bio.c:294-334 | the same for the object: after any calls on a new filter, what its writes accepted, its reads delivered and its wire holds fit together so |
| `Transport.TestBio.Read` | src/test-bio.c:42-53 | the front of the queue moves to the buffer and nothing else changes |
| `Transport.TestBio.Write` | src/test-bio.c:90-97 | all bytes join the end of the output |
| `HttpDate.ReadHttpDate` | src/tlsdate-helper.c:316-344 | for every stream and every way of splitting it into reads, code and time are those of one search of its first 8191 bytes |
| `DateAnswers.OneMeansTime` | src/tlsdate-helper.c:316-344 | an answer of 1 means a first complete Date line in the first 8191 bytes, a value of at most 32 characters, a month name of the table, and the Gregorian count of its fields as the result |
| `DateAnswers.NoLineNoTime` | src/tlsdate-helper.c:326-343 | without a complete Date line the answer is 0 for a stream below 8191 bytes and -2 otherwise |
| `DateAnswers.FirstLineDecides` | src/tlsdate-helper.c:232-314 | the first complete line gives -1 when too long, in no known form or out of range, -2 for an unknown month, and only otherwise 1 |
| `HttpDate.TryLine` | src/tlsdate-helper.c:328-341 | found iff the bytes so far hold a complete Date line, which is then read; otherwise they are unchanged |
| `HttpDate.LocateExtends` | src/tlsdate-helper.c:332-338 | a line found in a prefix is the line of every longer stream |
| `HttpDate.Find` | src/tlsdate-helper.c:332-338 | the first occurrence, or none at all |
| `HttpDate.SkipWeekday` | src/tlsdate-helper.c:264-269 | the three loops skip blanks, a word and blanks |
| `HttpDate.FindMonth` | src/tlsdate-helper.c:291-298 | the index of the name, or 12 |
| `HttpDate.HandleDateLine` | src/tlsdate-helper.c:232-314 | return code and time for every line: no header, too long, not parsed, unknown month, out of range, read |
| `DateRoundTrip.DateRoundTrips` | src/tlsdate-helper.c:232-314 | every t below 2^32 in RFC 1123 or asctime form is read back as (1, t) |
| `DateRoundTrip.ParsesRendering` | src/tlsdate-helper.c:270-275 | the three formats, tried in order, give back the fields of either form |
| `DateRoundTrip.LocatesHeader` | src/tlsdate-helper.c:332-340 | the first Date header of a response is the line that is found |
| `DateRoundTrip.ResponseRoundTrips` | src/tlsdate-helper.c:316-344 | a response whose first Date header prints t yields (1, t), whatever stands before and after it |
| `Rfc850.Rfc850RoundTripsIff` | src/tlsdate-helper.c:257-281 | the RFC 850 form of t is read as t if and only if t lies before 2000 and the weekday with its comma has at most 9 characters |
| `Rfc850.Rfc850Example` | src/tlsdate-helper.c:278-281 | 1 January 2014 in that form is not read as that time |
| `Rfc850.ParsesRfc850` | src/tlsdate-helper.c:270-275 | the first format fails on the dashes and the second gives the fields, with a two-digit year |
| `Rfc850.PrintedForms` | src/tlsdate-helper.c:243-247 | the printed forms of the RFC's example date are the three listed there |
| `Scanner.ScanSigned` | src/tlsdate-helper.c:270-275 | a number is read after white space and with its sign |
| `Scanner.ScanShortWord` | src/tlsdate-helper.c:270-275 | a word is read after white space and up to the next, however short |
| `Calendar.TimeGmInverts` | src/tlsdate-helper.c:300-308 | timegm undoes gmtime at every second |
| `Calendar.YearDayInverts` | src/tlsdate-helper.c:300-308 | year and day of year add up to the day count |
| `Calendar.MonthLengths` | src/tlsdate-helper.c:300-308 | the lengths of the months in common and leap years |
| `Calendar.GmTimeIsProper` | src/tlsdate-helper.c:300-308 | broken-down time names a day its month has |
| `Calendar.KnownTimes` | src/tlsdate-helper.c:300-308 | the epoch, the example of section 3.3.1 of RFC 2616, 1 March 2000 and 2100, and the last 32-bit second |
| `Conf.ConfParse` | src/conf.c:58-106 | the linked list it builds holds the entries of every file, long lines and NUL bytes included |
| `Conf.ConfLine` | src/conf.c:66-83 | cutting, skipping and tokenising the line buffer in place gives the entry of the line, or none |
| `Conf.CutAt` | src/conf.c:40-44 | the C string in the buffer ends before the first such character |
| `Conf.EatWhitespace` | src/conf.c:46-51 | the string that is left has lost its leading white space |
| `Conf.TextIsCutTwice` | src/conf.c:40-44 | cutting at the first line feed and then at the first carriage return leaves the text up to either |
| `Conf.EntriesRoundTrip` | src/conf.c:40-106 | entries printed with any indentation, comments, blank lines and line ends parse back in order |
| `Conf.ReadStanza` | src/tlsdated.c:256-286 | the source of a stanza and the node where it ends, or a fatal error |
| `Conf.ParseSource` | src/tlsdated.c:256-289 | the list gains exactly the source of the stanza, or there is a fatal error |
| `Conf.SourceList.Add` | src/tlsdated.c:223-254 | the walk to the last node links the new one there, numbered after it; no other node changes |
| `Conf.LoadSources` | src/tlsdated.c:316-384 | the linked list of sources of every list of entries, or a fatal error |
| `Conf.LoadFile` | src/tlsdated.c:312-384 | the sources a file leads to, or a fatal error, also for a file without entries |
| `ConfLaws.StanzaAccepted` | src/tlsdated.c:269-288 | a stanza is accepted iff only host, port and proxy stand before its end and host and port are set |
| `ConfLaws.StanzaYields` | src/tlsdated.c:271-287 | for each key of an accepted stanza the last entry counts |
| `ConfLaws.BlankValues` | src/conf.c:74-77 | one blank after a key is no value, two are an empty one |
| `ConfLaws.LongLines` | src/conf.c:62-64 | a longer line is read in pieces of 16383 characters |
| `ConfLaws.NothingButNoise` | src/tlsdated.c:312-314 | a file of comments and blank lines only is refused |
| `Conf.LoadsItems` | src/tlsdated.c:316-384 | stanzas among other settings are appended in order and numbered after the last one |
| `Conf.SourcesRoundTrip` | src/tlsdated.c:223-289 | a printed configuration loads as exactly its sources, in order, with ids 0 to n - 1 |
| `Conf.IdsArePositions` | src/tlsdated.c:242-253 | whatever the entries, loaded sources are numbered by position |
| `Seccomp.FilterImplementsPolicy` | src/seccomp.c:61-109 | for all rule tables and calls the program kills a foreign architecture, else does what the first matching rule says, else kills |
| `Seccomp.FilterIsLoadable` | src/seccomp.c:35-40 | jumps in range and a final return; loadable iff the table fits the kernel's limit |
| `Seccomp.SetterSandbox` | src/seccomp.c:61-109 | on every platform, whichever of the conditional entries it has: which calls the setter may make, which get EINVAL, that all others are killed, and that the program loads |
| `Seccomp.SetterCalls` | src/seccomp.c:61-109 | by name and number: which calls give 0x7fff0000, which 0x00050016, and that all others and a foreign architecture give 0 |

## Left out

- TLS handshakes, certificate, host-name and key-length checks: they rest on OpenSSL and PolarSSL objects.
- The PolarSSL and Plan 9 variants of files modelled here.
- DBus plumbing and the Chrome OS platform code, beyond SetTime, CanSetTime and a resolver that may re-arm E_TLSDATE at any time.
- Netlink route messages: they appear as a wake that may come at any time.
- The value replied for an out-of-range time, which the setter does not assign: any value, one reply.
- Truncated reads of the monitor and notify pipes, and a setter killed between reading a message and its reply.
- EventLoop.Tlsdated.ActionStatus: the broken read is a branch of the handler but not a step of a run, because the daemon holds the write end of the monitor pipe open.
- Overflow of `%d` in `sscanf` and of `int` fields passed to `timegm`: numbers are unbounded there.
- Options other than sources in `load_conf`, with `atoi` and the command line: easy cases of the same loop.
- `write_all_to_bio`: an easy loop.
- Source rotation and the argument vector of a child, which live in the forked child only.
- The RTC device, privilege dropping, logging, process names, start-up failures other than that of the setter.
- Transport.TestBio.Read: the queue is a sequence, not a reallocated block.
- Conf.ConfParse: allocation failure, with the list freed and NULL returned, is not captured.
