/**
  tlsdated together with its two child processes and the three pipes between
  them, as a transition system.  A run is any finite sequence of steps; a step
  that is not enabled leaves the world as it is, so every interleaving of the
  daemon, the tlsdate children and the time setter is a sequence of steps.

  Environment assumptions: replies and times are written to their pipes whole,
  a tlsdate child writes at most one time and has written it when it exits with
  status 0, the clocks read as non-negative, and a new process id is not in use.
 */
module World {
  import opened Settings
  import opened Daemon
  import opened Setter
  import Timestamp

  datatype Child = Child(wrote: bool, killed: bool, exited: Option<int>)

  /** A message to the time setter with the daemon's view of the time when it was sent. */
  datatype Sent = Sent(msg: int, lastTime: int, syncType: SyncType)

  /** Launches and wake credits since `tries` was last reset, failed exits since `backoff` was. */
  datatype Ledger = Ledger(launches: nat, credits: nat, failures: nat)

  datatype World = World(
    s: State,
    children: map<nat, Child>,   // tlsdate processes not yet reaped
    monitor: seq<nat>,           // times written by tlsdate, not yet read
    savePipe: seq<int>,
    notifyPipe: seq<int>,
    setter: Coprocess,
    ledger: Ledger,
    sent: seq<Sent>,
    consumed: seq<int>,          // messages the setter has read
    acked: nat,                  // replies the daemon has handled
    heard: seq<nat>,             // times read from the monitor pipe
    farewells: seq<nat>)         // clock readings of SIGTERM while the type was NET

  datatype Step =
    // event handlers of the daemon
    | Wake(reading: Clocks, now: nat, draw: int32)
    | SteadyState(now: nat, reading: Clocks, later: nat, draw: int32)
    | TlsdateDue(fork: Option<nat>)
    | StatusReady
    | TimeoutDue
    | SaveReady(io: SaveIo)
    | ResolverDue(answer: bool)
    | ResolverAnswer
    | Reap(pid: nat)
    | ChildStopped(pid: nat)
    | Terminate(now: nat)
    | DBusSetTime(arg: Option<int>, r0: Clocks, now0: nat, r1: Clocks, now1: nat, draw: int32)
    | DBusCanSetTime(reading: Clocks, now: nat)
    | SetterReply(reading: Clocks, now: nat)
    // the environment
    | ChildWrites(pid: nat, t: nat)
    | ChildExits(pid: nat, status: int)
    | SetterReads(outcome: Outcome)

  predicate DaemonStep(step: Step) {
    !step.ChildWrites? && !step.ChildExits? && !step.SetterReads?
  }

  /** A wake that lowers `tries` earns one more launch. */
  function Credited(l: Ledger, before: State, after: State): Ledger {
    if after.tries < before.tries then l.(credits := l.credits + 1) else l
  }

  function RunLedger(c: Config, w: World, fork: Option<nat>): Ledger {
    if w.s.syncType == Net then w.ledger
    else if w.s.running then
      if w.s.tries > 0 then w.ledger.(credits := w.ledger.credits + 1, failures := 0) else w.ledger
    else if w.s.tries >= c.maxTries then Ledger(0, 0, 0)
    else if fork.None? then Ledger(0, 0, w.ledger.failures)
    else w.ledger.(launches := w.ledger.launches + 1)
  }

  predicate FreshPid(c: Config, w: World, fork: Option<nat>) {
    fork.Some? ==> fork.value != 0 && fork.value !in w.children && fork.value != c.setterPid
  }

  /** Whether the E_TLSDATE handler gets as far as fork(). */
  predicate Launches(c: Config, s: State) {
    s.syncType != Net && !s.running && s.tries < c.maxTries
  }

  function Records(s: State, io: SaveIo): seq<Sent> {
    if !TimeWritten(io) then []
    else if Leaving(s) && io.second == Whole
    then [Sent(SaveMessage(s), s.lastTime, s.syncType), Sent(0, 0, s.syncType)]
    else [Sent(SaveMessage(s), s.lastTime, s.syncType)]
  }

  const BrokenPipe := SaveIo(true, Gone, Gone)

  /** Without a reader at the other end no write succeeds. */
  function Meets(w: World, io: SaveIo): SaveIo {
    if w.setter.alive then io else BrokenPipe
  }

  function OnWake(c: Config, w: World, reading: Clocks, now: nat, draw: int32): World {
    var s := Kickoff(c, w.s, reading, now, draw);
    w.(s := s, ledger := Credited(w.ledger, w.s, s))
  }

  function OnSteadyState(c: Config, w: World, now: nat, reading: Clocks, later: nat, draw: int32): World {
    var s := Invalidate(c, w.s, now, reading, later, draw);
    w.(s := s, ledger := Credited(w.ledger, w.s, s))
  }

  function OnTlsdateDue(c: Config, w: World, fork: Option<nat>): World {
    if !w.s.pending.tlsdate || !FreshPid(c, w, fork) then w
    else
      w.(s := RunTlsdate(c, Fire(w.s, ETlsdate), fork),
      ledger := RunLedger(c, w, fork),
      children := if Launches(c, w.s) && fork.Some?
                  then w.children[fork.value := Child(false, false, None)] else w.children)
  }

  function OnStatusReady(c: Config, w: World): World {
    if !w.s.pending.status then w
    else if w.monitor == [] then w.(s := Daemon.Status(c, Fire(w.s, EStatus), Again))
    else w.(s := Daemon.Status(c, Fire(w.s, EStatus), Time(w.monitor[0])),
         monitor := w.monitor[1..], heard := w.heard + [w.monitor[0]], ledger := Ledger(0, 0, 0))
  }

  function Kill(children: map<nat, Child>, pid: nat): map<nat, Child> {
    if pid in children then children[pid := children[pid].(killed := true)] else children
  }

  function OnTimeoutDue(w: World): World {
    if !w.s.pending.timeout then w
    else w.(s := Fire(w.s, ETimeout),
         children := if w.s.tlsdatePid != 0 then Kill(w.children, w.s.tlsdatePid) else w.children)
  }

  function OnSaveReady(w: World, io: SaveIo): World {
    if !w.s.pending.save then w
    else w.(s := AfterSave(Fire(w.s, ESave), Meets(w, io)),
         savePipe := w.savePipe + SaveMessages(w.s, Meets(w, io)), sent := w.sent + Records(w.s, Meets(w, io)))
  }

  function OnResolverDue(c: Config, w: World, answer: bool): World {
    if !w.s.pending.resolver then w
    else if answer then w.(s := Trigger(c, Fire(w.s, EResolver), ETlsdate, 1))
    else w.(s := Fire(w.s, EResolver).(resolving := true))
  }

  function OnResolverAnswer(c: Config, w: World): World {
    if !c.hasResolver then w
    else w.(s := Trigger(c, w.s.(resolving := false), ETlsdate, 1))
  }

  function OnReap(c: Config, w: World, pid: nat): World {
    if pid in w.children && w.children[pid].exited.Some? then
      var status := w.children[pid].exited.value;
      w.(s := ChildDeath(c, w.s, pid, status), children := w.children - {pid},
      ledger := if status != 0 then w.ledger.(failures := w.ledger.failures + 1) else w.ledger)
    else if pid == c.setterPid && !w.setter.alive then w.(s := ChildDeath(c, w.s, pid, 0))
    else w
  }

  function OnChildStopped(c: Config, w: World, pid: nat): World {
    if pid == c.setterPid then w.(setter := w.setter.(alive := false))
    else w.(children := Kill(w.children, pid))
  }

  function OnTerminate(c: Config, w: World, now: nat): World {
    if !c.shouldSaveDisk then w
    else w.(s := Sigterm(c, w.s, now),
         farewells := if w.s.syncType == Net then w.farewells + [now] else w.farewells)
  }

  function OnSetTime(c: Config, w: World, arg: Option<int>, r0: Clocks, now0: nat,
                     r1: Clocks, now1: nat, draw: int32): World {
    var s := SetTime(c, w.s, arg, r0, now0, r1, now1, draw).0;
    w.(s := s, ledger := Credited(w.ledger, w.s, s))
  }

  function OnCanSetTime(w: World, reading: Clocks, now: nat): World {
    w.(s := ForgetDelta(w.s, reading, now))
  }

  function OnSetterReply(w: World, reading: Clocks, now: nat): World {
    if w.notifyPipe == [] then w
    else w.(s := TimeSet(w.s, w.notifyPipe[0], reading, now),
         notifyPipe := w.notifyPipe[1..], acked := w.acked + 1)
  }

  function OnChildWrites(w: World, pid: nat, t: nat): World {
    if pid in w.children && w.children[pid].exited.None? && !w.children[pid].wrote && t < TWO_32
    then w.(children := w.children[pid := w.children[pid].(wrote := true)], monitor := w.monitor + [t])
    else w
  }

  function OnChildExits(w: World, pid: nat, status: int): World {
    if pid in w.children && w.children[pid].exited.None? && (status == 0 ==> w.children[pid].wrote)
    then w.(children := w.children[pid := w.children[pid].(exited := Some(status))])
    else w
  }

  function OnSetterReads(c: Config, w: World, outcome: Outcome): World {
    if !w.setter.alive || w.savePipe == [] then w
    else
      var (p, reply) := Handle(c, w.setter, w.savePipe[0], outcome);
      w.(setter := p, savePipe := w.savePipe[1..], consumed := w.consumed + [w.savePipe[0]],
      notifyPipe := w.notifyPipe + [reply])
  }

  function Next(c: Config, w: World, step: Step): World {
    if DaemonStep(step) && !w.s.looping then w
    else
      match step
      case Wake(r, now, draw) => OnWake(c, w, r, now, draw)
      case SteadyState(now, r, later, draw) => OnSteadyState(c, w, now, r, later, draw)
      case TlsdateDue(fork) => OnTlsdateDue(c, w, fork)
      case StatusReady => OnStatusReady(c, w)
      case TimeoutDue => OnTimeoutDue(w)
      case SaveReady(io) => OnSaveReady(w, io)
      case ResolverDue(answer) => OnResolverDue(c, w, answer)
      case ResolverAnswer => OnResolverAnswer(c, w)
      case Reap(pid) => OnReap(c, w, pid)
      case ChildStopped(pid) => OnChildStopped(c, w, pid)
      case Terminate(now) => OnTerminate(c, w, now)
      case DBusSetTime(arg, r0, now0, r1, now1, draw) => OnSetTime(c, w, arg, r0, now0, r1, now1, draw)
      case DBusCanSetTime(r, now) => OnCanSetTime(w, r, now)
      case SetterReply(r, now) => OnSetterReply(w, r, now)
      case ChildWrites(pid, t) => OnChildWrites(w, pid, t)
      case ChildExits(pid, status) => OnChildExits(w, pid, status)
      case SetterReads(outcome) => OnSetterReads(c, w, outcome)
  }

  /**
    The world when main() enters the event loop.  `file` is None when there is no
    timestamp file; `failure` says why the setter did not start.
   */
  function Start(c: Config, now: nat, file: Option<seq<Timestamp.octet>>, failure: Option<Failure>,
                 reading: Clocks, draw: int32): World {
    var s := Kickoff(c, StartState(c, now, Timestamp.Load(c, file)), reading, now, draw);
    var p := Spawn(c, if file.Some? then file.value else [], failure);
    World(s, map[], [], [], if p.died.Some? then [p.died.value] else [], p, Ledger(0, 0, 0), [], [], 0, [], [])
  }

  function Exec(c: Config, w: World, steps: seq<Step>): World
    decreases |steps|
  {
    if steps == [] then w else Exec(c, Next(c, w, steps[0]), steps[1..])
  }

  /** Some run of the daemon leads to `w`. */
  ghost predicate Reachable(c: Config, w: World) {
    exists now, file, failure, reading, draw, steps ::
      w == Exec(c, Start(c, now, file, failure, reading, draw), steps)
  }
}
