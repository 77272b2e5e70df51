/**
  The event handlers of tlsdated.  Each handler appears twice: as a function from
  the value of `struct state` before the event to its value after it, and as a
  method of class `Tlsdated` that updates the fields in place.
 */
module Daemon {
  import opened Settings

  datatype SyncType = Unset | Build | Disk | Rtc | Platform | Net

  /** The events the daemon re-arms itself; wake-ups and signals are persistent. */
  datatype EventId = EResolver | ETlsdate | EStatus | ETimeout | ESave

  /** Which of these events libevent reports as pending, and the seconds each was last armed with. */
  datatype Events = Events(resolver: bool, tlsdate: bool, status: bool, timeout: bool, save: bool,
                           delay: map<EventId, int>)
  {
    function Set(id: EventId, on: bool): Events {
      match id
      case EResolver => this.(resolver := on)
      case ETlsdate => this.(tlsdate := on)
      case EStatus => this.(status := on)
      case ETimeout => this.(timeout := on)
      case ESave => this.(save := on)
    }
  }

  /** The mutable part of `struct state`, with the events that are pending. */
  datatype State = State(
    clockDelta: int,
    syncType: SyncType,
    lastTime: int,
    tlsdatePid: nat,
    backoff: nat,
    tries: int,
    resolving: bool,
    running: bool,
    exiting: bool,
    looping: bool,           // false once the event loop was told to stop
    pending: Events)

  /** What one read of the monitor pipe yields. */
  datatype Response = Again | Broken | Time(t: nat)

  /** What the real-time and the monotonic clock read, None when one cannot be read. */
  datatype Clocks = Clocks(wall: Option<int>, monotonic: Option<int>)

  /** How a write to the time setter turns out: whole, EPIPE, EAGAIN, or an error that ends the daemon. */
  datatype WriteResult = Whole | Gone | Full | Fatal

  /** What a save event meets: a broken pipe, and the outcomes of writing the time and the shutdown message. */
  datatype SaveIo = SaveIo(broken: bool, first: WriteResult, second: WriteResult)

  datatype SetTimeReply = BadCall | Invalid | NotAllowed | Accepted

  const SETTER_EXIT: int := 0
  const SETTER_BAD_TIME: int := 1
  const SETTER_NO_SAVE: int := 2
  const SETTER_READ_ERR: int := 3
  const SETTER_TIME_SET: int := 4
  const SETTER_SET_ERR: int := 5
  const SETTER_NO_SBOX: int := 6
  const SETTER_NO_RTC: int := 7

  /** Events with a descriptor stay armed without a delay; pure timers do not. */
  predicate HasDescriptor(id: EventId) {
    id == EStatus || id == ESave
  }

  /** Which event `trigger_event` really re-arms. */
  function Target(c: Config, id: EventId): EventId {
    if id == EResolver && !c.hasResolver then ETlsdate else id
  }

  /** `trigger_event` on the pending events: a negative delay leaves a pure timer unscheduled. */
  function Arm(c: Config, pending: Events, id: EventId, sec: int): Events {
    var e := Target(c, id);
    pending.Set(e, sec >= 0 || HasDescriptor(e)).(delay := pending.delay[e := sec])
  }

  function Trigger(c: Config, s: State, id: EventId, sec: int): State {
    s.(pending := Arm(c, s.pending, id, sec))
  }

  /** libevent takes a one-shot event off its lists before it runs the handler. */
  function Fire(s: State, id: EventId): State {
    s.(pending := s.pending.Set(id, false))
  }

  function AddJitter(base: int, jitter: nat, draw: int32): int {
    if jitter == 0 then base else base + Rem(Abs(draw), 2 * jitter) - jitter
  }

  /** The real-minus-monotonic difference, None when a clock cannot be read. */
  function Difference(k: Clocks): Option<int> {
    if k.wall.Some? && k.monotonic.Some? then Some(k.wall.value - k.monotonic.value) else None
  }

  /** A continuity check against reference `delta` reports a clock jump. */
  predicate Desync(delta: int, reading: Clocks) {
    var d := Difference(reading);
    && d.Some?
    && delta != 0
    && (d.value < delta - CONTINUITY_INTERVAL || d.value > delta + CONTINUITY_INTERVAL)
  }

  function InvalidateTime(s: State, now: nat): State {
    s.(syncType := Rtc, lastTime := now)
  }

  function ForgetDelta(s: State, reading: Clocks, now: nat): State {
    if Desync(s.clockDelta, reading) then InvalidateTime(s.(clockDelta := 0), now) else s
  }

  function KickoffDelay(s: State, reading: Clocks, draw: int32): int {
    if Desync(s.clockDelta, reading) then AddJitter(30, 30, draw) else 0
  }

  /** Schedules an attempt: directly, or through the resolver with `backup` as the latest moment. */
  function Rearm(c: Config, s: State, delay: int, backup: int): State {
    if !c.hasResolver then Trigger(c, s, ETlsdate, delay)
    else Trigger(c, Trigger(c, s, ETlsdate, backup), EResolver, delay)
  }

  /** The scheduling half of the kickoff handler, after the continuity check. */
  function Schedule(c: Config, s: State, delay: int): State {
    if s.syncType == Net then s
    else if s.tries > 0 then s.(tries := s.tries - 1)
    else if s.pending.tlsdate then s
    else Rearm(c, s, delay, delay + RESOLVER_TIMEOUT)
  }

  function Kickoff(c: Config, s: State, reading: Clocks, now: nat, draw: int32): State {
    Schedule(c, ForgetDelta(s, reading, now), KickoffDelay(s, reading, draw))
  }

  /** Whether `action_invalidate_time` finds the time already invalid and being acquired. */
  predicate AlreadyInvalid(s: State) {
    s.syncType == Rtc && s.pending.tlsdate
  }

  function Invalidate(c: Config, s: State, now: nat, reading: Clocks, later: nat, draw: int32): State {
    if AlreadyInvalid(s) then s
    else Kickoff(c, InvalidateTime(s, now), reading, later, draw)
  }

  /** `fork` is the new child's process id, or None when fork() fails. */
  function RunTlsdate(c: Config, s: State, fork: Option<nat>): State {
    var wait := ToUint(c.waitBetweenTries);
    if s.syncType == Net then s
    else if s.running then
      if s.tries > 0 then s.(resolving := false, tries := s.tries - 1, backoff := wait)
      else s.(resolving := false)
    else if s.tries >= c.maxTries then s.(resolving := false, tries := 0, backoff := wait)
    else
      Launch(c, s.(resolving := false, tries := s.tries + 1), fork)
  }

  /** The timeout and the listener are armed before the fork; a failed one disarms the timeout only. */
  function Launch(c: Config, s: State, fork: Option<nat>): State {
    var s1 := Trigger(c, Trigger(c, s, ETimeout, c.subprocessWait), EStatus, -1);
    match fork
    case Some(pid) => s1.(running := true, tlsdatePid := pid)
    case None => s1.(tries := 0, pending := s1.pending.(timeout := false))
  }

  function Status(c: Config, s: State, r: Response): State {
    match r
    case Broken => Trigger(c, s, ETimeout, 0)
    case Again => Trigger(c, s, EStatus, -1)
    case Time(t) =>
      var s1 := if c.IsSane(t) then Trigger(c, s.(syncType := Net, lastTime := t), ESave, -1) else s;
      s1.(tries := 0, backoff := ToUint(c.waitBetweenTries))
  }

  function DoubledBackoff(b: nat): nat {
    if b < MAX_SANE_BACKOFF then ToUint(2 * b) else b
  }

  /** One successful waitid(): process `pid` has ended with `status`. */
  function ChildDeath(c: Config, s: State, pid: nat, status: int): State {
    if pid == c.setterPid then s.(looping := false)
    else if pid != s.tlsdatePid then s
    else
      var s1 := s.(running := false, tlsdatePid := 0, pending := s.pending.(timeout := false));
      if status == 0 then s1
      else
        Retry(c, s1.(backoff := DoubledBackoff(s.backoff)))
  }

  /** Schedules the next attempt after the backoff. */
  function Retry(c: Config, s: State): State {
    Rearm(c, s, ToInt(s.backoff), ToInt(RESOLVER_TIMEOUT + s.backoff))
  }

  function Sigterm(c: Config, s: State, now: nat): State {
    Trigger(c, s.(exiting := true, lastTime := now), ESave, -1)
  }

  /** Times that did not come from the network travel negated. */
  function SaveMessage(s: State): int {
    if s.syncType == Net then s.lastTime else -s.lastTime
  }

  predicate TimeWritten(io: SaveIo) {
    !io.broken && io.first == Whole
  }

  /** On the way out a written time is followed by the shutdown message. */
  predicate Leaving(s: State) {
    s.exiting && s.lastTime != 0
  }

  /** The messages one save event puts on the pipe to the time setter. */
  function SaveMessages(s: State, io: SaveIo): seq<int> {
    if !TimeWritten(io) then []
    else if Leaving(s) && io.second == Whole then [SaveMessage(s), 0]
    else [SaveMessage(s)]
  }

  function AfterSave(s: State, io: SaveIo): State {
    if io.broken then s
    else if io.first == Fatal then s.(looping := false)
    else if io.first == Whole && Leaving(s) then s.(lastTime := 0, looping := s.looping && io.second != Fatal)
    else s
  }

  function TimeSet(s: State, status: int, reading: Clocks, now: nat): State {
    if status == SETTER_BAD_TIME then InvalidateTime(s, now)
    else if status == SETTER_TIME_SET then
      if s.syncType != Net then s
      else s.(clockDelta := if Difference(reading).Some? then Difference(reading).value else 0)
    else if 0 <= status <= SETTER_NO_RTC then s
    else s.(looping := false)
  }

  /** The handler of DBus SetTime; `arg` is None when the argument is not a 64-bit integer. */
  function SetTime(c: Config, s: State, arg: Option<int>, r0: Clocks, now0: nat,
                   r1: Clocks, now1: nat, draw: int32): (State, SetTimeReply) {
    if arg.None? then (s, BadCall)
    else if !c.IsSane(arg.value) then (s, Invalid)
    else
      var s1 := ForgetDelta(s, r0, now0);
      if s1.clockDelta != 0 then (s1, NotAllowed)
      else
        var s2 := Trigger(c, s1.(lastTime := arg.value, syncType := Platform), ESave, -1);
        (Kickoff(c, s2, r1, now1, draw), Accepted)
  }

  /** What main() starts with: the system clock, the time on disk, or the build date. */
  function StartTime(c: Config, now: nat, disk: Option<int>): (SyncType, int) {
    var (ty, t) := if c.shouldLoadDisk && disk.Some? && (!c.IsSane(now) || now < disk.value)
                   then (Disk, disk.value) else (Rtc, now);
    if c.IsSane(t) then (ty, t) else (Build, c.compileDate + 1)
  }

  function StartState(c: Config, now: nat, disk: Option<int>): State {
    var (ty, t) := StartTime(c, now, disk);
    State(0, ty, t, 0, ToUint(c.waitBetweenTries), 0, false, false, false, true,
          Events(false, false, false, false, true, map[ESave := -1]))
  }
}
