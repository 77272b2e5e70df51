/** The handlers as the daemon runs them: methods that update `struct state` in place. */
module EventLoop {
  import opened Settings
  import opened Daemon
  import opened Setter
  import opened World
  import T = SetterInvariants
  import Timestamp

  /** What waitid() reports to the SIGCHLD handler. */
  datatype Notice = Died(pid: nat, status: int) | Stopped(pid: nat)

  function Deaths(c: Config, s: State, notices: seq<Notice>): State {
    if notices == [] then s
    else
      var rest, last := notices[..|notices| - 1], notices[|notices| - 1];
      var t := Deaths(c, s, rest);
      if last.Died? then ChildDeath(c, t, last.pid, last.status) else t
  }

  /** Deaths are dealt with one after the other, and stopped children change nothing. */
  lemma {:induction false} DeathsInOrder(c: Config, s: State, a: seq<Notice>, b: seq<Notice>)
    ensures Deaths(c, s, a + b) == Deaths(c, Deaths(c, s, a), b)
    decreases |b|
  {
    if b == [] {
      assert a + b == a;
    } else {
      var n := |b| - 1;
      assert (a + b)[..|a + b| - 1] == a + b[..n] && (a + b)[|a + b| - 1] == b[n];
      DeathsInOrder(c, s, a, b[..n]);
    }
  }

  /** One death is what the step of the whole system makes of it. */
  lemma OneDeath(c: Config, w: World, pid: nat)
    requires w.s.looping
    ensures pid in w.children && w.children[pid].exited.Some? ==>
              Deaths(c, w.s, [Died(pid, w.children[pid].exited.value)]) == Next(c, w, Reap(pid)).s
    ensures Deaths(c, w.s, [Stopped(pid)]) == w.s
  {
    assert forall n: Notice :: [n][..0] == [];
  }

  /** Negative when a clock cannot be read, positive on a jump; `delta` is replaced unless negative. */
  method CheckContinuity(delta: int, clocks: Clocks) returns (code: int, newDelta: int)
    ensures code < 0 <==> clocks.wall.None? || clocks.monotonic.None?
    ensures code < 0 ==> newDelta == delta
    ensures code >= 0 ==> newDelta == clocks.wall.value - clocks.monotonic.value
    ensures code > 0 <==> Desync(delta, clocks)
    ensures code > 0 <==> code >= 0 && delta != 0 && !(delta - 14400 <= newDelta <= delta + 14400)
  {
    if clocks.wall.None? { return -1, delta; }
    if clocks.monotonic.None? { return -1, delta; }
    newDelta := clocks.wall.value - clocks.monotonic.value;
    if delta != 0 {
      if newDelta < delta - CONTINUITY_INTERVAL || newDelta > delta + CONTINUITY_INTERVAL {
        return 1, newDelta;
      }
    }
    code := 0;
  }

  class Tlsdated {
    const c: Config
    var clockDelta: int
    var syncType: SyncType
    var lastTime: int
    var tlsdatePid: nat
    var backoff: nat
    var tries: int
    var resolving: bool
    var running: bool
    var exiting: bool
    var looping: bool
    var pending: Events

    ghost function View(): State
      reads this
    {
      State(clockDelta, syncType, lastTime, tlsdatePid, backoff, tries, resolving, running, exiting, looping, pending)
    }

    /** Start-up as far as the first save: the system clock, the disk, or the build date. */
    constructor (c: Config, now: nat, file: Option<seq<Timestamp.octet>>)
      ensures this.c == c
      ensures View() == StartState(c, now, Timestamp.Load(c, file))
    {
      this.c := c;
      clockDelta, tlsdatePid, tries := 0, 0, 0;
      resolving, running, exiting, looping := false, false, false, true;
      backoff := ToUint(c.waitBetweenTries);
      pending := Events(false, false, false, false, false, map[]);
      syncType := Rtc;
      lastTime := now;
      new;
      if c.shouldLoadDisk {
        var disk := Timestamp.Load(c, file);
        if disk.Some? && (!c.IsSane(lastTime) || lastTime < disk.value) {
          syncType := Disk;
          lastTime := disk.value;
        }
      }
      if !c.IsSane(lastTime) {
        syncType := Build;
        lastTime := c.compileDate + 1;
      }
      TriggerEvent(ESave, -1);
    }

    method TriggerEvent(id: EventId, sec: int)
      modifies this`pending
      ensures pending == Arm(c, old(pending), id, sec)
      ensures id == EResolver && !c.hasResolver ==>
                && pending.tlsdate == (sec >= 0) && pending.delay == old(pending.delay)[ETlsdate := sec]
                && pending.resolver == old(pending.resolver)
    {
      var e := id;
      if e == EResolver && !c.hasResolver { e := ETlsdate; }
      pending := pending.Set(e, false);
      if sec >= 0 {
        pending := pending.Set(e, true);
      } else if HasDescriptor(e) {
        pending := pending.Set(e, true);
      }
      pending := pending.(delay := pending.delay[e := sec]);
    }

    /** The first half of the kickoff: a jump drops the time and delays the attempt. */
    method Recheck(clocks: Clocks, now: nat, draw: int32) returns (jitter: int)
      modifies this
      ensures View() == ForgetDelta(old(View()), clocks, now)
      ensures jitter == KickoffDelay(old(View()), clocks, draw)
    {
      jitter := 0;
      var code, _ := CheckContinuity(clockDelta, clocks);
      if code > 0 {
        if clockDelta != 0 { jitter := AddJitter(30, 30, draw); }
        clockDelta := 0;
        syncType := Rtc;
        lastTime := now;
      }
    }

    method ActionKickoff(clocks: Clocks, now: nat, draw: int32)
      modifies this
      ensures View() == Kickoff(c, old(View()), clocks, now, draw)
    {
      var jitter := Recheck(clocks, now, draw);
      if syncType == Net { return; }
      if tries > 0 {
        tries := tries - 1;
        return;
      }
      if pending.tlsdate { return; }
      if !c.hasResolver {
        TriggerEvent(ETlsdate, jitter);
        return;
      }
      TriggerEvent(ETlsdate, jitter + RESOLVER_TIMEOUT);
      TriggerEvent(EResolver, jitter);
    }

    method ActionInvalidate(now: nat, clocks: Clocks, later: nat, draw: int32)
      modifies this
      ensures View() == Invalidate(c, old(View()), now, clocks, later, draw)
    {
      if syncType == Rtc && pending.tlsdate { return; }
      syncType := Rtc;
      lastTime := now;
      ActionKickoff(clocks, later, draw);
    }

    method ActionRunTlsdate(fork: Option<nat>)
      modifies this
      ensures View() == RunTlsdate(c, old(View()), fork)
    {
      if syncType == Net { return; }
      resolving := false;
      if running {
        if tries > 0 {
          tries := tries - 1;
          backoff := ToUint(c.waitBetweenTries);
        }
        return;
      }
      if tries < c.maxTries {
        tries := tries + 1;
      } else {
        tries := 0;
        backoff := ToUint(c.waitBetweenTries);
        return;
      }
      LaunchTlsdate(fork);
    }

    /** tlsdate() with the events around it; `fork` is None when it fails. */
    method LaunchTlsdate(fork: Option<nat>)
      requires !running
      modifies this
      ensures View() == Launch(c, old(View()), fork)
    {
      running := true;
      TriggerEvent(ETimeout, c.subprocessWait);
      TriggerEvent(EStatus, -1);
      match fork
      case Some(pid) => tlsdatePid := pid;
      case None =>
        running := false;
        tries := 0;
        pending := pending.Set(ETimeout, false);
    }

    method ActionStatus(r: Response)
      modifies this
      ensures View() == Status(c, old(View()), r)
    {
      match r
      case Broken => TriggerEvent(ETimeout, 0);
      case Again => TriggerEvent(EStatus, -1);
      case Time(t) =>
        if c.IsSane(t) {
          syncType := Net;
          lastTime := t;
          TriggerEvent(ESave, -1);
        }
        tries := 0;
        backoff := ToUint(c.waitBetweenTries);
    }

    /** Kills the child that took too long; `children` are the processes not yet reaped. */
    method ActionTimeout(children: map<nat, Child>) returns (left: map<nat, Child>)
      ensures left.Keys == children.Keys
      ensures forall pid :: pid in children && (pid != tlsdatePid || pid == 0) ==> left[pid] == children[pid]
      ensures tlsdatePid != 0 && tlsdatePid in children ==> left[tlsdatePid] == children[tlsdatePid].(killed := true)
    {
      left := children;
      if tlsdatePid != 0 { left := Kill(children, tlsdatePid); }
    }

    method HandleChildDeath(pid: nat, status: int)
      modifies this
      ensures View() == ChildDeath(c, old(View()), pid, status)
    {
      if pid == c.setterPid {
        looping := false;
        return;
      }
      if pid != tlsdatePid { return; }
      pending := pending.Set(ETimeout, false);
      running := false;
      tlsdatePid := 0;
      if status == 0 { return; }
      if backoff < MAX_SANE_BACKOFF { backoff := ToUint(2 * backoff); }
      ScheduleRetry();
    }

    method ScheduleRetry()
      modifies this`pending
      ensures View() == Retry(c, old(View()))
    {
      if !c.hasResolver {
        TriggerEvent(ETlsdate, ToInt(backoff));
        return;
      }
      TriggerEvent(ETlsdate, ToInt(RESOLVER_TIMEOUT + backoff));
      TriggerEvent(EResolver, ToInt(backoff));
    }

    /** Every process that is ready is dealt with; the stopped ones are killed. */
    method ActionSigchld(notices: seq<Notice>) returns (killed: seq<nat>)
      modifies this
      ensures View() == Deaths(c, old(View()), notices)
      ensures forall pid :: pid in killed <==> Stopped(pid) in notices
    {
      killed := [];
      for i := 0 to |notices|
        invariant View() == Deaths(c, old(View()), notices[..i])
        invariant forall pid :: pid in killed <==> Stopped(pid) in notices[..i]
      {
        assert notices[..i + 1][..i] == notices[..i];
        match notices[i]
        case Died(pid, status) => HandleChildDeath(pid, status);
        case Stopped(pid) => killed := killed + [pid];
      }
      assert notices[..|notices|] == notices;
    }

    method ActionSigterm(now: nat)
      modifies this
      ensures View() == Sigterm(c, old(View()), now)
    {
      exiting := true;
      lastTime := now;
      TriggerEvent(ESave, -1);
    }

    /** Sends the time, and on the way out the shutdown message after it. */
    method ActionSyncAndSave(io: SaveIo) returns (written: seq<int>)
      modifies this
      ensures View() == AfterSave(old(View()), io)
      ensures written == SaveMessages(old(View()), io)
      decreases lastTime != 0
    {
      var t := lastTime;
      if syncType != Net { t := -t; }
      if io.broken { return []; }
      match io.first
      case Gone => return [];
      case Full => return [];
      case Fatal =>
        looping := false;
        return [];
      case Whole =>
        written := [t];
        if exiting && t != 0 {
          lastTime := 0;
          var more := ActionSyncAndSave(io.(first := io.second));
          written := written + more;
        }
    }

    method HandleTimeSetter(status: int, clocks: Clocks, now: nat)
      modifies this
      ensures View() == TimeSet(old(View()), status, clocks, now)
    {
      if status == SETTER_BAD_TIME {
        syncType := Rtc;
        lastTime := now;
      } else if status == SETTER_TIME_SET {
        if syncType == Net {
          clockDelta := 0;
          var _, delta := CheckContinuity(clockDelta, clocks);
          clockDelta := delta;
        }
      } else if status < SETTER_EXIT || status > SETTER_NO_RTC {
        looping := false;
      }
    }

    /** True when the daemon has no trusted time of its own. */
    method CanSetTime(clocks: Clocks, now: nat) returns (yes: bool)
      modifies this
      ensures View() == ForgetDelta(old(View()), clocks, now)
      ensures yes <==> clockDelta == 0
    {
      var code, _ := CheckContinuity(clockDelta, clocks);
      if code > 0 {
        clockDelta := 0;
        syncType := Rtc;
        lastTime := now;
      }
      yes := clockDelta == 0;
    }

    method HandleSetTime(arg: Option<int>, clocks0: Clocks, now0: nat,
                         clocks1: Clocks, now1: nat, draw: int32)
      returns (reply: SetTimeReply)
      modifies this
      ensures (View(), reply) == SetTime(c, old(View()), arg, clocks0, now0,
                                         clocks1, now1, draw)
    {
      if arg.None? { return BadCall; }
      if !c.IsSane(arg.value) { return Invalid; }
      var yes := CanSetTime(clocks0, now0);
      if !yes { return NotAllowed; }
      lastTime := arg.value;
      syncType := Platform;
      TriggerEvent(ESave, -1);
      ActionKickoff(clocks1, now1, draw);
      reply := Accepted;
    }

    // ---- the loop ----

    /** One handler runs: the event has been taken off the pending ones before. */
    method Take(id: EventId)
      modifies this`pending
      ensures View() == Fire(old(View()), id)
    {
      pending := pending.Set(id, false);
    }

    method PerformTimer(w: World, step: Step) returns (left: map<nat, Child>)
      requires View() == w.s && looping
      requires step.TlsdateDue? || step.StatusReady? || step.TimeoutDue?
      modifies this
      ensures View() == Next(c, w, step).s
      ensures step.TimeoutDue? ==> left == Next(c, w, step).children
    {
      left := w.children;
      match step
      case TlsdateDue(fork) =>
        if pending.tlsdate && FreshPid(c, w, fork) {
          Take(ETlsdate);
          ActionRunTlsdate(fork);
        }
      case StatusReady =>
        if pending.status {
          Take(EStatus);
          ActionStatus(if w.monitor == [] then Again else Time(w.monitor[0]));
        }
      case TimeoutDue =>
        if pending.timeout {
          Take(ETimeout);
          left := ActionTimeout(w.children);
          assert left == Next(c, w, step).children;
        }
    }

    method PerformSave(w: World, io: SaveIo) returns (written: seq<int>)
      requires View() == w.s
      modifies this
      ensures View() == OnSaveReady(w, io).s
      ensures OnSaveReady(w, io).savePipe == w.savePipe + written
    {
      written := [];
      if pending.save {
        Take(ESave);
        written := ActionSyncAndSave(Meets(w, io));
      }
    }

    method PerformResolver(w: World, step: Step)
      requires View() == w.s && looping && (step.ResolverDue? || step.ResolverAnswer?)
      modifies this
      ensures View() == Next(c, w, step).s
    {
      match step
      case ResolverDue(answer) =>
        if pending.resolver {
          Take(EResolver);
          if answer { TriggerEvent(ETlsdate, 1); } else { resolving := true; }
        }
      case ResolverAnswer =>
        if c.hasResolver {
          resolving := false;
          TriggerEvent(ETlsdate, 1);
        }
    }

    method PerformReap(w: World, pid: nat)
      requires View() == w.s
      modifies this
      ensures View() == OnReap(c, w, pid).s
    {
      if pid in w.children && w.children[pid].exited.Some? {
        HandleChildDeath(pid, w.children[pid].exited.value);
      } else if pid == c.setterPid && !w.setter.alive {
        HandleChildDeath(pid, 0);
      }
    }

    method PerformWake(w: World, step: Step)
      requires View() == w.s && looping
      requires step.Wake? || step.SteadyState? || step.DBusSetTime? || step.DBusCanSetTime?
      modifies this
      ensures View() == Next(c, w, step).s
    {
      match step
      case Wake(r, now, draw) => ActionKickoff(r, now, draw);
      case SteadyState(now, r, later, draw) => ActionInvalidate(now, r, later, draw);
      case DBusSetTime(arg, r0, now0, r1, now1, draw) =>
        var _ := HandleSetTime(arg, r0, now0, r1, now1, draw);
      case DBusCanSetTime(r, now) =>
        var _ := CanSetTime(r, now);
    }

    /** The daemon's part in a step of the whole system: its state, what it writes and whom it kills. */
    method Perform(w: World, step: Step) returns (written: seq<int>, left: map<nat, Child>)
      requires View() == w.s
      modifies this
      ensures View() == Next(c, w, step).s
      ensures !step.SetterReads? ==> Next(c, w, step).savePipe == w.savePipe + written
      ensures step.TimeoutDue? ==> left == Next(c, w, step).children
    {
      written, left := [], w.children;
      if !looping { return; }
      match step
      case SaveReady(io) => written := PerformSave(w, io);
      case Reap(pid) => PerformReap(w, pid);
      case Terminate(now) => if c.shouldSaveDisk { ActionSigterm(now); }
      case SetterReply(r, now) => if w.notifyPipe != [] { HandleTimeSetter(w.notifyPipe[0], r, now); }
      case TlsdateDue(_) => left := PerformTimer(w, step);
      case StatusReady => left := PerformTimer(w, step);
      case TimeoutDue => left := PerformTimer(w, step);
      case ResolverDue(_) => PerformResolver(w, step);
      case ResolverAnswer => PerformResolver(w, step);
      case Wake(_, _, _) => PerformWake(w, step);
      case SteadyState(_, _, _, _) => PerformWake(w, step);
      case DBusSetTime(_, _, _, _, _, _) => PerformWake(w, step);
      case DBusCanSetTime(_, _) => PerformWake(w, step);
      case _ =>
    }

    /** The object goes through the states of the run. */
    method Run(w0: World, steps: seq<Step>) returns (w: World)
      requires View() == w0.s
      modifies this
      ensures w == Exec(c, w0, steps) && View() == w.s
    {
      w := w0;
      for i := 0 to |steps|
        invariant View() == w.s && Exec(c, w, steps[i..]) == Exec(c, w0, steps)
      {
        assert steps[i..][1..] == steps[i + 1..];
        var _, _ := Perform(w, steps[i]);
        w := Next(c, w, steps[i]);
      }
    }
  }

  /** The messages that reads of the pipe yield; None is a read that was interrupted or came up short. */
  function Received(got: seq<Option<int>>): seq<int> {
    if got == [] then []
    else
      var rest, last := got[..|got| - 1], got[|got| - 1];
      if last.Some? then Received(rest) + [last.value] else Received(rest)
  }

  /** Whole reads are all received, and nothing else is. */
  lemma {:induction false} ReceivedInOrder(ms: seq<int>, gaps: seq<nat>)
    requires |gaps| == |ms|
    ensures Received(WithGaps(ms, gaps)) == ms
  {
    if ms != [] {
      var n := |ms| - 1;
      var front, pause := WithGaps(ms[..n], gaps[..n]), seq(gaps[n], _ => None);
      ReceivedInOrder(ms[..n], gaps[..n]);
      ReceivedGap(front, gaps[n]);
      assert (front + pause + [Some(ms[n])])[..|front + pause|] == front + pause;
      assert ms == ms[..n] + [ms[n]];
    }
  }

  /** The messages, each after some reads that were interrupted or short. */
  function WithGaps(ms: seq<int>, gaps: seq<nat>): seq<Option<int>>
    requires |gaps| == |ms|
  {
    if ms == [] then []
    else
      var n := |ms| - 1;
      WithGaps(ms[..n], gaps[..n]) + seq(gaps[n], _ => None) + [Some(ms[n])]
  }

  lemma {:induction false} ReceivedGap(got: seq<Option<int>>, gap: nat)
    ensures Received(got + seq(gap, _ => None)) == Received(got)
    decreases gap
  {
    var all := got + seq(gap, _ => None);
    if gap == 0 {
      assert all == got;
    } else {
      assert all[..|all| - 1] == got + seq(gap - 1, _ => None);
      ReceivedGap(got, gap - 1);
    }
  }

  lemma ReceivedStep(got: seq<Option<int>>, n: nat)
    requires n < |got|
    ensures Received(got[..n + 1])
         == if got[n].Some? then Received(got[..n]) + [got[n].value] else Received(got[..n])
  {
    assert got[..n + 1][..n] == got[..n];
  }

  /** One reply to every message, and one more from a setter that failed to start or met the end of the pipe. */
  predicate Answers(p: Coprocess, messages: seq<int>, replies: seq<int>) {
    && (p.alive ==> |replies| == |messages|)
    && (!p.alive ==>
          && p.died.Some? && replies != [] && replies[|replies| - 1] == p.died.value
          && |replies| == |messages| + if p.died.value == SETTER_READ_ERR || messages == [] then 1 else 0)
  }

  lemma {:induction false} HandleAnswers(c: Config, p: Coprocess, messages: seq<int>, replies: seq<int>,
                                         m: int, o: Outcome)
    requires T.SetterOk(c, p, messages) && T.FileOk(p) && p.alive && Answers(p, messages, replies)
    ensures var (q, reply) := Handle(c, p, m, o);
            && T.SetterOk(c, q, messages + [m]) && T.FileOk(q)
            && Answers(q, messages + [m], replies + [reply])
  {
    T.HandleKeepsClock(c, p, messages, m, o);
    T.HandleKeepsFile(c, p, m, o);
  }

  /**
    The setter from its start over what its reads yield to its death: a failure to start, a fatal
    message, or the end of the pipe.
   */
  method TimeSetterCoprocess(c: Config, failure: Option<Failure>, got: seq<Option<int>>, outcomes: seq<Outcome>,
                             file: seq<Timestamp.octet>)
    returns (p: Coprocess, n: nat, replies: seq<int>)
    requires |outcomes| == |got|
    ensures !p.alive && n <= |got|
    ensures Spawn(c, file, failure).alive <==> p.died == Some(SETTER_READ_ERR) || Received(got[..n]) != []
    ensures !Spawn(c, file, failure).alive ==> n == 0 && p == Spawn(c, file, failure)
    ensures p.died == Some(SETTER_READ_ERR) ==> n == |got|
    ensures Answers(p, Received(got[..n]), replies)
    ensures T.SetterOk(c, p, Received(got[..n])) && T.FileOk(p)
  {
    p := Spawn(c, file, failure);
    n, replies := 0, [];
    if !p.alive { return p, 0, [p.died.value]; }
    while n < |got|
      invariant n <= |got| && p.alive && Answers(p, Received(got[..n]), replies)
      invariant T.SetterOk(c, p, Received(got[..n])) && T.FileOk(p)
    {
      ReceivedStep(got, n);
      n := n + 1;
      if got[n - 1].None? { continue; }
      var q, reply := SetterIteration(c, p, got[n - 1].value, outcomes[n - 1]);
      HandleAnswers(c, p, Received(got[..n - 1]), replies, got[n - 1].value, outcomes[n - 1]);
      p, replies := q, replies + [reply];
      if !p.alive { return; }
    }
    T.EndOfPipe(c, p, Received(got[..n]));
    p := p.(alive := false, died := Some(SETTER_READ_ERR));
    replies := replies + [SETTER_READ_ERR];
  }

  /** One turn of the loop: negative times are not saved, 0 ends the process. */
  method SetterIteration(c: Config, p0: Coprocess, m: int, o: Outcome) returns (p: Coprocess, status: int)
    ensures (p, status) == Handle(c, p0, m, o)
    ensures !p.alive && p0.alive ==> p.died == Some(status) && status != SETTER_READ_ERR
  {
    p := p0;
    status := o.junk;
    var t, save := m, true;
    if t < 0 {
      t := -t;
      save := false;
    }
    if t == 0 {
      status := SETTER_EXIT;
      return p.(alive := false, died := Some(status)), status;
    }
    if c.IsSane(t) {
      status := SETTER_BAD_TIME;
      if !c.dryRun {
        if !o.setOk {
          status := SETTER_SET_ERR;
          return p.(alive := false, died := Some(status)), status;
        }
        p := p.(clock := p.clock + [t]);
        if c.syncHwclock && !o.rtcOk {
          status := SETTER_NO_RTC;
          return p.(alive := false, died := Some(status)), status;
        }
        if save && SavesToDisk(c) {
          if !o.saveOk {
            status := SETTER_NO_SAVE;
            return p.(alive := false, died := Some(status)), status;
          }
          p := p.(saved := p.saved + [t], file := Timestamp.Write(p.file, Timestamp.Encode(t)));
        }
      }
      status := SETTER_TIME_SET;
    }
  }
}
