/** What each event does to the whole system, case by case and in the program's own numbers. */
module Handlers {
  import opened Settings
  import opened Daemon
  import opened Setter
  import opened World
  import SyncInvariants
  import T = SetterInvariants
  import Runs
  import Timestamp

  // ---- wakes and the continuity check ----

  /** Both clocks can be read, there is a reference, and they have drifted more than four hours from it. */
  predicate Jump(w: World, k: Clocks) {
    && k.wall.Some? && k.monotonic.Some? && w.s.clockDelta != 0
    && !(-14400 <= k.wall.value - k.monotonic.value - w.s.clockDelta <= 14400)
  }

  /** The seconds until the attempt a wake schedules: at once, or within a minute after a jump. */
  function WakeDelay(w: World, k: Clocks, draw: int32): int
    requires draw != -0x8000_0000
  {
    if Jump(w, k) then (if draw < 0 then -draw else draw) % 60 else 0
  }

  /** A wake with the clock in sync does nothing; a jump drops the time; otherwise the time stays. */
  lemma WakeAndTime(c: Config, w: World, k: Clocks, now: nat, draw: int32)
    requires w.s.looping
    ensures var v := Next(c, w, Wake(k, now, draw));
            && (!Jump(w, k) && w.s.syncType == Net ==> v == w)
            && (!Jump(w, k) ==> T.SameTime(w.s, v.s))
            && (Jump(w, k) ==> v.s.syncType == Rtc && v.s.lastTime == now && v.s.clockDelta == 0)
  {
    T.ScheduleKeepsTime(c, ForgetDelta(w.s, k, now), KickoffDelay(w.s, k, draw));
  }

  /** The attempt that follows: directly after `d` seconds, or from the resolver, and 30 seconds later anyway. */
  predicate Scheduled(c: Config, p: Events, d: int) {
    && p.tlsdate && ETlsdate in p.delay
    && if c.hasResolver then
         p.delay[ETlsdate] == d + 30 && p.resolver && EResolver in p.delay && p.delay[EResolver] == d
       else p.delay[ETlsdate] == d
  }

  lemma RearmSchedules(c: Config, s: State, d: int)
    requires d >= 0
    ensures var t := Rearm(c, s, d, d + 30); Scheduled(c, t.pending, d) && t.tries == s.tries
  {
  }

  /** Without the clock in sync a wake gives a try back, leaves a pending attempt alone, or schedules one. */
  lemma WakeAndAttempts(c: Config, w: World, k: Clocks, now: nat, draw: int32)
    requires w.s.looping && draw != -0x8000_0000 && (Jump(w, k) || w.s.syncType != Net)
    ensures var v := Next(c, w, Wake(k, now, draw));
            && (w.s.tries > 0 ==> v.s.tries == w.s.tries - 1 && v.ledger.credits == w.ledger.credits + 1)
            && (w.s.tries <= 0 ==> v.s.tries == w.s.tries && v.ledger == w.ledger)
            && (w.s.tries > 0 || w.s.pending.tlsdate ==> v.s.pending == w.s.pending)
            && (w.s.tries <= 0 && !w.s.pending.tlsdate ==> Scheduled(c, v.s.pending, WakeDelay(w, k, draw)))
  {
    DelayOfWake(w, k, draw);
    ScheduleCases(c, ForgetDelta(w.s, k, now), WakeDelay(w, k, draw));
  }

  lemma ScheduleCases(c: Config, s: State, d: int)
    requires s.syncType != Net && d >= 0
    ensures var t := Schedule(c, s, d);
            && t.tries == (if s.tries > 0 then s.tries - 1 else s.tries)
            && (s.tries > 0 || s.pending.tlsdate ==> t.pending == s.pending)
            && (s.tries <= 0 && !s.pending.tlsdate ==> Scheduled(c, t.pending, d))
  {
    RearmSchedules(c, s, d);
  }

  lemma DelayOfWake(w: World, k: Clocks, draw: int32)
    requires draw != -0x8000_0000
    ensures KickoffDelay(w.s, k, draw) == WakeDelay(w, k, draw) >= 0
  {
  }

  /** The steady-state timer leaves an invalid time that is being acquired alone, and drops any other. */
  lemma SteadyStateCases(c: Config, w: World, now: nat, k: Clocks, later: nat, draw: int32)
    requires w.s.looping
    ensures var v := Next(c, w, SteadyState(now, k, later, draw));
            && (w.s.syncType == Rtc && w.s.pending.tlsdate ==> v == w)
            && (!(w.s.syncType == Rtc && w.s.pending.tlsdate) ==>
                  && v.s.syncType == Rtc && v.s.lastTime == (if Jump(w, k) then later else now)
                  && v.s.clockDelta == if Jump(w, k) then 0 else w.s.clockDelta)
  {
    var s := InvalidateTime(w.s, now);
    T.ScheduleKeepsTime(c, ForgetDelta(s, k, later), KickoffDelay(s, k, draw));
  }

  /**
    The reference is the difference of the two clocks when the setter's reply comes.  As long as
    both advance alike it holds, however long; when the wall clock alone moves by `j`, the next
    wake drops the reference and the time exactly for more than four hours either way.
   */
  lemma ContinuityOverTime(c: Config, w: World, a: int, b: int, now0: nat, steps: seq<Step>,
                           n: nat, j: int, now: nat, draw: int32)
    requires w.s.looping && w.s.syncType == Net && w.notifyPipe != [] && w.notifyPipe[0] == 4 && a != b
    requires var u := Next(c, w, SetterReply(Clocks(Some(a), Some(b)), now0));
             Runs.Quiet(c, u, steps) && Exec(c, u, steps).s.looping
    ensures var u := Next(c, w, SetterReply(Clocks(Some(a), Some(b)), now0));
            var v := Exec(c, u, steps);
            var x := Next(c, v, Wake(Clocks(Some(a + n + j), Some(b + n)), now, draw));
            && u.s.clockDelta == a - b && v.s.clockDelta == a - b
            && (-14400 <= j <= 14400 ==> T.SameTime(v.s, x.s))
            && (!(-14400 <= j <= 14400) ==> x.s.clockDelta == 0 && x.s.syncType == Rtc && x.s.lastTime == now)
  {
    var u := Next(c, w, SetterReply(Clocks(Some(a), Some(b)), now0));
    Runs.NoRatcheting(c, u, steps);
    WakeAndTime(c, Exec(c, u, steps), Clocks(Some(a + n + j), Some(b + n)), now, draw);
  }

  /** An accepted SetTime starts a synchronisation like a wake without a jump, for there is no reference left. */
  lemma SetTimeKicksOff(c: Config, w: World, arg: Option<int>, r0: Clocks, now0: nat,
                        r1: Clocks, now1: nat, draw: int32)
    requires w.s.looping && SetTime(c, w.s, arg, r0, now0, r1, now1, draw).1 == Accepted
    ensures var v := Next(c, w, DBusSetTime(arg, r0, now0, r1, now1, draw));
            && (w.s.tries > 0 ==> v.s.tries == w.s.tries - 1 && v.ledger.credits == w.ledger.credits + 1)
            && (w.s.tries <= 0 ==> v.s.tries == w.s.tries && v.s.pending.tlsdate)
            && (w.s.tries <= 0 && !w.s.pending.tlsdate ==> Scheduled(c, v.s.pending, 0))
  {
    var s := ForgetDelta(w.s, r0, now0).(lastTime := arg.value, syncType := Platform);
    AcceptedIsScheduled(c, w.s, arg, r0, now0, r1, now1, draw);
    ScheduleCases(c, Trigger(c, s, ESave, -1), 0);
  }

  lemma AcceptedIsScheduled(c: Config, s: State, arg: Option<int>, r0: Clocks, now0: nat,
                            r1: Clocks, now1: nat, draw: int32)
    requires SetTime(c, s, arg, r0, now0, r1, now1, draw).1 == Accepted
    ensures var t := ForgetDelta(s, r0, now0).(lastTime := arg.value, syncType := Platform);
            SetTime(c, s, arg, r0, now0, r1, now1, draw).0 == Schedule(c, Trigger(c, t, ESave, -1), 0)
  {
  }

  // ---- attempts ----

  /** E_TLSDATE in sync, while a child runs, and after the last try. */
  lemma NoLaunchCases(c: Config, w: World, fork: Option<nat>)
    requires w.s.looping && w.s.pending.tlsdate && FreshPid(c, w, fork) && c.Valid()
    requires w.s.syncType == Net || w.s.running || w.s.tries >= c.maxTries
    ensures var v := Next(c, w, TlsdateDue(fork));
            && v.children == w.children && !v.s.pending.tlsdate && T.SameTime(w.s, v.s)
            && v.s.resolving == (w.s.resolving && w.s.syncType == Net)
            && v.s.running == w.s.running && v.s.tlsdatePid == w.s.tlsdatePid
            && (w.s.syncType == Net ==> v.s.tries == w.s.tries && v.s.backoff == w.s.backoff)
            && (w.s.syncType != Net && w.s.running && w.s.tries <= 0 ==>
                  v.s.tries == w.s.tries && v.s.backoff == w.s.backoff)
            && (w.s.syncType != Net && w.s.running && w.s.tries > 0 ==>
                  v.s.tries == w.s.tries - 1 && v.s.backoff == c.waitBetweenTries)
            && (w.s.syncType != Net && !w.s.running ==>
                  v.s.tries == 0 && v.s.backoff == c.waitBetweenTries && v.ledger == Ledger(0, 0, 0))
  {
  }

  /** E_TLSDATE with a try left: a child with its timeout and listener, or, if fork() fails, none and no tries. */
  lemma LaunchCases(c: Config, w: World, fork: Option<nat>)
    requires w.s.looping && w.s.pending.tlsdate && FreshPid(c, w, fork) && c.Valid()
    requires w.s.syncType != Net && !w.s.running && w.s.tries < c.maxTries
    ensures var v := Next(c, w, TlsdateDue(fork));
            && !v.s.pending.tlsdate && v.s.pending.status && T.SameTime(w.s, v.s) && v.s.backoff == w.s.backoff
            && !v.s.resolving
            && (fork.None? ==>
                  && v.children == w.children && !v.s.running && v.s.tries == 0 && !v.s.pending.timeout
                  && v.ledger == Ledger(0, 0, w.ledger.failures))
            && (fork.Some? ==>
                  && v.children == w.children[fork.value := Child(false, false, None)]
                  && v.s.running && v.s.tlsdatePid == fork.value && v.s.tries == w.s.tries + 1
                  && v.ledger.launches == w.ledger.launches + 1
                  && v.s.pending.timeout && ETimeout in v.s.pending.delay
                  && v.s.pending.delay[ETimeout] == c.subprocessWait)
  {
  }

  /** An answer ends the attempt; only a sane one is taken over, and its save is due. */
  lemma AnswerCases(c: Config, w: World)
    requires w.s.looping && w.s.pending.status && c.Valid()
    ensures var v := Next(c, w, StatusReady);
            && (w.monitor == [] ==> v.s.(pending := w.s.pending) == w.s && v.s.pending.status && v.heard == w.heard)
            && (w.monitor != [] ==>
                  && v.monitor == w.monitor[1..] && v.heard == w.heard + [w.monitor[0]]
                  && !v.s.pending.status && v.s.tries == 0 && v.s.backoff == c.waitBetweenTries
                  && v.ledger == Ledger(0, 0, 0)
                  && if c.compileDate < w.monitor[0] < 1999991337
                     then v.s.syncType == Net && v.s.lastTime == w.monitor[0] && v.s.pending.save
                     else T.SameTime(w.s, v.s) && v.s.pending.save == w.s.pending.save)
  {
  }

  /** A monitor pipe that is broken or cut short lets the timeout fire at once, and changes nothing else. */
  lemma BrokenAnswer(c: Config, s: State)
    ensures var t := Status(c, s, Broken);
            && t.(pending := s.pending) == s
            && t.pending == s.pending.(timeout := true, delay := s.pending.delay[ETimeout := 0])
  {
  }

  /** The timer of a retry: the doubled backoff up to ten minutes, 30 seconds more behind a resolver. */
  lemma FailedChildIsRetried(c: Config, w: World, pid: nat)
    requires c.Valid() && Reachable(c, w) && w.s.looping
    requires pid in w.children && w.children[pid].exited.Some? && w.children[pid].exited.value != 0
    ensures var v := Next(c, w, Reap(pid));
            && v.s.backoff == (if w.s.backoff < 600 then 2 * w.s.backoff else w.s.backoff)
            && Scheduled(c, v.s.pending, v.s.backoff) && v.ledger.failures == w.ledger.failures + 1
            && !v.s.running && v.s.tlsdatePid == 0 && v.s.tries == w.s.tries && pid !in v.children
            && T.SameTime(w.s, v.s)
  {
    Runs.ReachableInv(c, w);
    BackoffFits(c, w);
    var status := w.children[pid].exited.value;
    RetrySchedules(c, w.s, pid, status, DoubledBackoff(w.s.backoff));
    T.DeathKeepsTime(c, w.s, pid, status);
    ReapedChild(c, w, pid);
  }

  lemma ReapedChild(c: Config, w: World, pid: nat)
    requires w.s.looping && pid in w.children && w.children[pid].exited.Some?
    ensures var v, status := Next(c, w, Reap(pid)), w.children[pid].exited.value;
            && v.s == ChildDeath(c, w.s, pid, status) && pid !in v.children
            && v.ledger.failures == w.ledger.failures + if status != 0 then 1 else 0
  {
  }

  lemma BackoffFits(c: Config, w: World)
    requires SyncInvariants.Inv(c, w)
    ensures var b := DoubledBackoff(w.s.backoff);
            && b == (if w.s.backoff < 600 then 2 * w.s.backoff else w.s.backoff)
            && ToInt(b) == b && ToInt(30 + b) == 30 + b
  {
    SyncInvariants.BackoffBounds(c.waitBetweenTries, w.ledger.failures + 1);
    SyncInvariants.BackoffBounds(c.waitBetweenTries, w.ledger.failures);
    var b := DoubledBackoff(w.s.backoff);
    FitsInt(b);
    FitsInt(30 + b);
  }

  lemma FitsInt(x: nat)
    requires x < 0x8000_0000
    ensures ToInt(x) == x
  {
  }

  lemma RetrySchedules(c: Config, s: State, pid: nat, status: int, b: nat)
    requires pid == s.tlsdatePid != c.setterPid && status != 0 && b == DoubledBackoff(s.backoff)
    requires ToInt(b) == b && ToInt(30 + b) == 30 + b
    ensures var t := ChildDeath(c, s, pid, status);
            Scheduled(c, t.pending, b) && t.backoff == b && !t.running && t.tlsdatePid == 0 && t.tries == s.tries
  {
    var u := s.(running := false, tlsdatePid := 0, pending := s.pending.(timeout := false), backoff := b);
    RearmSchedules(c, u, b);
  }

  /** A clean exit is not rerun. */
  lemma CleanExitIsNotRetried(c: Config, w: World, pid: nat)
    requires c.Valid() && Reachable(c, w) && w.s.looping
    requires pid in w.children && w.children[pid].exited == Some(0)
    ensures var v := Next(c, w, Reap(pid));
            && v.s == w.s.(running := false, tlsdatePid := 0, pending := w.s.pending.(timeout := false))
            && v.children == map[] && v.ledger == w.ledger
  {
    Runs.ReachableInv(c, w);
  }

  /** The death of a process that is neither the setter nor the child changes nothing. */
  lemma UnknownDeath(c: Config, s: State, pid: nat, status: int)
    requires pid != c.setterPid && pid != s.tlsdatePid
    ensures ChildDeath(c, s, pid, status) == s
  {
  }

  // ---- the end of the loop ----

  lemma LoopEnds(c: Config, w: World, step: Step)
    requires !w.s.looping
    ensures Next(c, w, step).s == w.s
  {
  }

  lemma {:induction false} StoppedForGood(c: Config, w: World, steps: seq<Step>)
    requires !w.s.looping
    ensures Exec(c, w, steps).s == w.s
    decreases |steps|
  {
    if steps != [] {
      LoopEnds(c, w, steps[0]);
      StoppedForGood(c, Next(c, w, steps[0]), steps[1..]);
    }
  }

  /** Once a dead setter is reaped the loop stops, and nothing the daemon holds changes in any run after it. */
  lemma {:induction false} DeadSetterStopsTheLoop(c: Config, w: World, steps: seq<Step>)
    requires c.Valid() && Reachable(c, w) && !w.setter.alive
    ensures var v := Next(c, w, Reap(c.setterPid));
            !v.s.looping && Exec(c, v, steps).s == w.s.(looping := false)
  {
    Runs.ReachableInv(c, w);
    ReapedSetter(c, w);
    StoppedForGood(c, Next(c, w, Reap(c.setterPid)), steps);
  }

  lemma ReapedSetter(c: Config, w: World)
    requires SyncInvariants.ChildrenOk(c, w) && !w.setter.alive
    ensures Next(c, w, Reap(c.setterPid)).s == w.s.(looping := false)
  {
    assert c.setterPid !in w.children;
  }

  // ---- sending and replies ----

  /** SIGTERM takes the clock's reading with the type as it is, and its save is due. */
  lemma TerminateCases(c: Config, w: World, now: nat)
    requires w.s.looping
    ensures var v := Next(c, w, Terminate(now));
            && (!c.shouldSaveDisk ==> v == w)
            && (c.shouldSaveDisk ==>
                  v.s.exiting && v.s.lastTime == now && v.s.syncType == w.s.syncType && v.s.pending.save)
  {
  }

  /** A due save sends the time, negated unless it is from the network, and on the way out a 0 after it. */
  lemma SaveCases(c: Config, w: World, io: SaveIo)
    requires w.s.looping && w.s.pending.save && w.setter.alive && !io.broken && io.first == Whole
    ensures var v := Next(c, w, SaveReady(io));
            var t := if w.s.syncType == Net then w.s.lastTime else 0 - w.s.lastTime;
            && !v.s.pending.save
            && (w.s.exiting && w.s.lastTime != 0 ==>
                  v.s.lastTime == 0 && v.savePipe == w.savePipe + (if io.second == Whole then [t, 0] else [t]))
            && (!(w.s.exiting && w.s.lastTime != 0) ==>
                  v.s.lastTime == w.s.lastTime && v.savePipe == w.savePipe + [t])
            && v.s.looping == !(w.s.exiting && w.s.lastTime != 0 && io.second == Fatal)
  {
  }

  /** A save that cannot be written sends nothing and is over; only an unexpected error ends the daemon. */
  lemma UnwrittenSaveCases(c: Config, w: World, io: SaveIo)
    requires w.s.looping && w.s.pending.save && (!w.setter.alive || io.broken || io.first != Whole)
    ensures var v := Next(c, w, SaveReady(io));
            && v.savePipe == w.savePipe && v.sent == w.sent && !v.s.pending.save && T.SameTime(w.s, v.s)
            && v.s.looping == !(w.setter.alive && !io.broken && io.first == Fatal)
  {
    assert w.savePipe + [] == w.savePipe && w.sent + [] == w.sent;
  }

  /** The reply 1 drops the time, 4 takes the reference of a network time, and unknown ones end the daemon. */
  lemma ReplyCases(c: Config, w: World, k: Clocks, now: nat)
    requires w.s.looping && w.notifyPipe != []
    ensures var v, r := Next(c, w, SetterReply(k, now)), w.notifyPipe[0];
            && v.notifyPipe == w.notifyPipe[1..] && v.acked == w.acked + 1
            && (r == 1 ==> v.s == w.s.(syncType := Rtc, lastTime := now))
            && (r == 4 && w.s.syncType == Net && k.wall.Some? && k.monotonic.Some? ==>
                  v.s == w.s.(clockDelta := k.wall.value - k.monotonic.value))
            && (r == 4 && w.s.syncType == Net && (k.wall.None? || k.monotonic.None?) ==>
                  v.s == w.s.(clockDelta := 0))
            && (r == 4 && w.s.syncType != Net ==> v.s == w.s)
            && (r in {0, 2, 3, 5, 6, 7} ==> v.s == w.s)
            && (r < 0 || r > 7 ==> v.s == w.s.(looping := false))
  {
  }

  // ---- the setter ----

  /** A message that is not a usable time: 0 ends the setter with 0, an insane one gets one reply and no effect. */
  lemma UselessMessage(c: Config, w: World, o: Outcome)
    requires w.setter.alive && w.savePipe != []
    requires var m := w.savePipe[0]; !(c.compileDate < m < 1999991337 || c.compileDate < -m < 1999991337)
    ensures var v := Next(c, w, SetterReads(o));
            && v.setter.clock == w.setter.clock && v.setter.saved == w.setter.saved && v.setter.file == w.setter.file
            && v.savePipe == w.savePipe[1..] && |v.notifyPipe| == |w.notifyPipe| + 1
            && v.setter.alive == (w.savePipe[0] != 0)
            && (w.savePipe[0] == 0 ==> v.notifyPipe == w.notifyPipe + [0])
  {
  }

  /** A sane time sets the clock, a positive one is also saved; the reply says how far that got. */
  lemma SaneMessage(c: Config, w: World, o: Outcome)
    requires w.setter.alive && w.savePipe != []
    requires var m := w.savePipe[0]; c.compileDate < m < 1999991337 || c.compileDate < -m < 1999991337
    ensures var v, m := Next(c, w, SetterReads(o)), w.savePipe[0];
            var saves := m > 0 && c.shouldSaveDisk;
            var r := if c.dryRun then 4 else if !o.setOk then 5 else if c.syncHwclock && !o.rtcOk then 7
                     else if saves && !o.saveOk then 2 else 4;
            && v.notifyPipe == w.notifyPipe + [r] && v.savePipe == w.savePipe[1..]
            && v.setter.alive == (r == 4)
            && v.setter.clock == w.setter.clock + (if c.dryRun || r == 5 then [] else [if m < 0 then -m else m])
            && v.setter.saved == w.setter.saved + (if c.dryRun || r != 4 || !saves then [] else [m])
            && (!c.dryRun && r == 4 && saves ==> Timestamp.Read(v.setter.file) == Some(m))
            && (c.dryRun || r != 4 || !saves ==> v.setter.file == w.setter.file)
  {
    var m := w.savePipe[0];
    if m > 0 { Timestamp.SaveThenRead(w.setter.file, m); }
    assert w.setter.clock + [] == w.setter.clock && w.setter.saved + [] == w.setter.saved;
  }

  /** A setter that cannot open its file or sandbox itself is dead with status 2 or 6, and says so. */
  lemma FailedStart(c: Config, now: nat, file: Option<seq<Timestamp.octet>>, f: Failure, k: Clocks, draw: int32)
    requires f.CannotOpen? ==> c.shouldSaveDisk && !c.dryRun
    ensures var w := Start(c, now, file, Some(f), k, draw);
            && !w.setter.alive && w.notifyPipe == [if f.CannotOpen? then 2 else 6]
            && (f == CannotOpen(true) ==> Timestamp.Read(w.setter.file).None?)
            && (f != CannotOpen(true) && file.Some? ==> w.setter.file == file.value)
  {
  }

  /** Every time the setter put on the clock or on disk lies between the build date and the last sane date. */
  lemma ClockAndDiskAreSane(c: Config, w: World, t: int)
    requires c.Valid() && Reachable(c, w) && (t in w.setter.clock || t in w.setter.saved)
    ensures c.compileDate < t < 1999991337
  {
    Runs.ReachableInv(c, w);
    SettingsAreSane(c, T.Applied(w.setter, w.consumed), t);
    SettingsAreSane(c, T.Stored(w.setter, w.consumed), t);
  }

  lemma {:induction false} SettingsAreSane(c: Config, ms: seq<int>, t: int)
    ensures t in ClockSettings(c, ms) || t in DiskSaves(c, ms) ==> c.compileDate < t < 1999991337
  {
    if ms != [] && ms[0] != 0 { SettingsAreSane(c, ms[1..], t); }
  }
}
