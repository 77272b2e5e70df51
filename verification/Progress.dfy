/** From every reachable world with a live loop and setter, some smooth continuation sets the clock. */
module Progress {
  import opened Settings
  import opened Daemon
  import opened Setter
  import opened World
  import opened SyncInvariants
  import T = SetterInvariants
  import Runs

  const AllWritten := SaveIo(false, Whole, Whole)
  const AllWell := Outcome(true, true, true, SETTER_TIME_SET)

  predicate Readable(k: Clocks) {
    k.wall.Some? && k.monotonic.Some?
  }

  /** A step in which no system call of the daemon or the setter fails. */
  predicate Smooth(step: Step) {
    match step
    case Wake(k, _, _) => Readable(k)
    case SteadyState(_, k, _, _) => Readable(k)
    case DBusSetTime(_, k, _, l, _, _) => Readable(k) && Readable(l)
    case DBusCanSetTime(k, _) => Readable(k)
    case SetterReply(k, _) => Readable(k)
    case TlsdateDue(fork) => fork.Some?
    case SaveReady(io) => io == AllWritten
    case SetterReads(o) => o == AllWell
    case _ => true
  }

  predicate AllSmooth(steps: seq<Step>) {
    forall i :: 0 <= i < |steps| ==> Smooth(steps[i])
  }

  /** Some smooth continuation of `w` leads to `v`. */
  ghost predicate CanReach(c: Config, w: World, v: World) {
    exists steps :: AllSmooth(steps) && v == Exec(c, w, steps)
  }

  lemma {:induction false} ExecConcat(c: Config, w: World, a: seq<Step>, b: seq<Step>)
    ensures Exec(c, w, a + b) == Exec(c, Exec(c, w, a), b)
    decreases |a|
  {
    if a == [] {
      assert a + b == b;
    } else {
      assert (a + b)[1..] == a[1..] + b;
      ExecConcat(c, Next(c, w, a[0]), a[1..], b);
    }
  }

  lemma Reflexive(c: Config, w: World)
    ensures CanReach(c, w, w)
  {
    assert AllSmooth([]) && w == Exec(c, w, []);
  }

  lemma Transitive(c: Config, u: World, v: World, w: World)
    requires CanReach(c, u, v) && CanReach(c, v, w)
    ensures CanReach(c, u, w)
  {
    var a :| AllSmooth(a) && v == Exec(c, u, a);
    var b :| AllSmooth(b) && w == Exec(c, v, b);
    ExecConcat(c, u, a, b);
    assert AllSmooth(a + b);
  }

  lemma Append(c: Config, u: World, v: World, step: Step)
    requires CanReach(c, u, v) && Smooth(step)
    ensures CanReach(c, u, Next(c, v, step))
  {
    assert AllSmooth([step]);
    assert Exec(c, v, [step]) == Exec(c, Next(c, v, step), []) by { assert [step][1..] == []; }
    assert CanReach(c, v, Next(c, v, step));
    Transitive(c, u, v, Next(c, v, step));
  }

  /** The event loop runs and the setter lives with no order to stop on the way. */
  predicate Live(c: Config, w: World) {
    && Inv(c, w) && T.Inv(c, w)
    && w.s.looping && w.setter.alive && !w.s.exiting && 0 !in w.savePipe
  }

  /** Nothing new was answered, and the setter was left alone. */
  predicate Calm(w: World, v: World) {
    && v.s.looping == w.s.looping && v.s.exiting == w.s.exiting
    && v.setter == w.setter && v.savePipe == w.savePipe
    && |v.monitor| <= |w.monitor|
  }

  ghost predicate Follows(c: Config, w: World, v: World) {
    CanReach(c, w, v) && Live(c, v) && |v.monitor| <= |w.monitor|
  }

  lemma Follow(c: Config, w: World, v: World, step: Step)
    requires Follows(c, w, v) && Smooth(step) && Calm(v, Next(c, v, step))
    ensures Follows(c, w, Next(c, v, step))
  {
    Append(c, w, v, step);
    StepInv(c, v, step);
    T.StepInv(c, v, step);
  }

  lemma ReapEnds(c: Config, w: World)
    requires ChildrenOk(c, w) && w.s.looping && w.s.running && w.children[w.s.tlsdatePid].exited.Some?
    ensures var v := Next(c, w, Reap(w.s.tlsdatePid)); Calm(w, v) && !v.s.running
  {
  }

  lemma ExitEnds(c: Config, w: World)
    requires ChildrenOk(c, w) && w.s.running && w.children[w.s.tlsdatePid].exited.None?
    ensures var v := Next(c, w, ChildExits(w.s.tlsdatePid, 1));
            Calm(w, v) && v.s == w.s && v.children == w.children[w.s.tlsdatePid := v.children[w.s.tlsdatePid]]
            && v.children[w.s.tlsdatePid].exited.Some?
  {
  }

  /** End the running child, if any, without an answer. */
  lemma Quiesce(c: Config, w: World) returns (v: World)
    requires Live(c, w)
    ensures Follows(c, w, v) && !v.s.running
  {
    Reflexive(c, w);
    v := w;
    if w.s.running {
      if w.children[w.s.tlsdatePid].exited.None? {
        ExitEnds(c, v);
        Follow(c, w, v, ChildExits(w.s.tlsdatePid, 1));
        v := Next(c, v, ChildExits(w.s.tlsdatePid, 1));
      }
      ReapEnds(c, v);
      Follow(c, w, v, Reap(w.s.tlsdatePid));
      v := Next(c, v, Reap(w.s.tlsdatePid));
    }
  }

  /** Ready to launch: E_TLSDATE is pending and a full set of tries is left. */
  predicate Ready(w: World) {
    !w.s.running && w.s.tries == 0 && w.s.syncType == Rtc && w.s.pending.tlsdate
  }

  /** Clocks as far apart as when the reference was taken. */
  function Unmoved(w: World): Clocks {
    var up := if w.s.clockDelta < 0 then -w.s.clockDelta else 0;
    Clocks(Some(w.s.clockDelta + up), Some(up))
  }

  /** The steady-state timer and a wake, both at a moment when the clock has not jumped. */
  function QuietTimer(w: World): Step {
    SteadyState(0, Unmoved(w), 0, 0)
  }

  function QuietWake(w: World): Step {
    Wake(Unmoved(w), 0, 0)
  }

  lemma StatusClears(c: Config, w: World)
    requires w.s.looping && w.s.pending.status && w.monitor != []
    ensures var v := Next(c, w, StatusReady);
            && Calm(w, v) && v.s.running == w.s.running && v.s.tries == 0
            && !v.s.pending.status && v.monitor == w.monitor[1..]
            && (c.IsSane(w.monitor[0]) ==> v.s.syncType == Net && v.s.lastTime == w.monitor[0] && v.s.pending.save)
  {
  }

  lemma SteadyArms(c: Config, w: World)
    requires w.s.looping && !w.s.running && w.s.tries >= 0 && (w.s.tries > 0 ==> w.s.pending.tlsdate)
    ensures var v := Next(c, w, QuietTimer(w));
            && Calm(w, v) && !v.s.running && v.s.syncType == Rtc && v.s.pending.tlsdate && v.s.tries >= 0
  {
  }

  lemma WakeLowers(c: Config, w: World)
    requires w.s.looping && !w.s.running && w.s.syncType == Rtc && w.s.pending.tlsdate && w.s.tries > 0
    ensures var v := Next(c, w, QuietWake(w));
            && Calm(w, v) && !v.s.running && v.s.syncType == Rtc && v.s.pending.tlsdate
            && v.s.tries == w.s.tries - 1
  {
  }

  /** Wakes give back the tries that were used. */
  lemma {:induction false} UseWakes(c: Config, w: World, u: World) returns (v: World)
    requires Follows(c, w, u) && !u.s.running && u.s.syncType == Rtc && u.s.pending.tlsdate
    ensures Follows(c, w, v) && Ready(v)
    decreases if u.s.tries > 0 then u.s.tries else 0
  {
    v := u;
    if u.s.tries > 0 {
      WakeLowers(c, u);
      Follow(c, w, u, QuietWake(u));
      v := UseWakes(c, w, Next(c, u, QuietWake(u)));
    }
  }

  lemma MakeReady(c: Config, w: World) returns (v: World)
    requires Live(c, w)
    ensures Follows(c, w, v) && Ready(v)
  {
    v := Quiesce(c, w);
    if v.s.pending.status && v.monitor != [] {
      StatusClears(c, v);
      Follow(c, w, v, StatusReady);
      v := Next(c, v, StatusReady);
    }
    SteadyArms(c, v);
    Follow(c, w, v, QuietTimer(v));
    v := UseWakes(c, w, Next(c, v, QuietTimer(v)));
  }

  lemma LaunchArms(c: Config, w: World, pid: nat)
    requires Inv(c, w) && Ready(w) && w.s.looping && pid != 0 && pid != c.setterPid
    ensures var v := Next(c, w, TlsdateDue(Some(pid)));
            && Calm(w, v) && v.s.pending.status && v.monitor == w.monitor
            && v.children == map[pid := Child(false, false, None)]
  {
  }

  /** Read off the answers earlier children left in the monitor pipe. */
  lemma Drain(c: Config, w: World) returns (v: World)
    requires Live(c, w)
    ensures Follows(c, w, v) && Ready(v) && v.monitor == []
    decreases |w.monitor|
  {
    v := MakeReady(c, w);
    if v.monitor != [] {
      var pid := c.setterPid + 1;
      LaunchArms(c, v, pid);
      Follow(c, w, v, TlsdateDue(Some(pid)));
      v := Next(c, v, TlsdateDue(Some(pid)));
      StatusClears(c, v);
      Follow(c, w, v, StatusReady);
      v := Next(c, v, StatusReady);
      var u := v;
      v := Drain(c, u);
      Transitive(c, w, u, v);
    }
  }

  /** The daemon can always get hold of a fresh server time. */
  lemma CanSync(c: Config, w: World, t: nat) returns (v: World)
    requires Live(c, w) && c.IsSane(t)
    ensures CanReach(c, w, v) && Live(c, v)
    ensures v.s.syncType == Net && v.s.lastTime == t && v.s.pending.save
  {
    v := Drain(c, w);
    var pid := c.setterPid + 1;
    LaunchArms(c, v, pid);
    Follow(c, w, v, TlsdateDue(Some(pid)));
    v := Next(c, v, TlsdateDue(Some(pid)));
    v := Answer(c, w, v, pid, t);
    StatusClears(c, v);
    Append(c, w, v, StatusReady);
    StepInv(c, v, StatusReady);
    T.StepInv(c, v, StatusReady);
    v := Next(c, v, StatusReady);
  }

  lemma AnswerArrives(c: Config, u: World, pid: nat, t: nat)
    requires pid in u.children && u.children[pid] == Child(false, false, None) && t < TWO_32
    ensures var v := Next(c, u, ChildWrites(pid, t));
            v.s == u.s && v.setter == u.setter && v.savePipe == u.savePipe && v.monitor == u.monitor + [t]
  {
  }

  lemma Answer(c: Config, w: World, u: World, pid: nat, t: nat) returns (v: World)
    requires CanReach(c, w, u) && Live(c, u) && u.monitor == [] && u.s.pending.status
    requires pid in u.children && u.children[pid] == Child(false, false, None) && t < TWO_32
    ensures CanReach(c, w, v) && Live(c, v) && v.monitor == [t] && v.s.pending.status
  {
    AnswerArrives(c, u, pid, t);
    Append(c, w, u, ChildWrites(pid, t));
    StepInv(c, u, ChildWrites(pid, t));
    T.StepInv(c, u, ChildWrites(pid, t));
    v := Next(c, u, ChildWrites(pid, t));
  }

  lemma ReadOne(c: Config, w: World)
    requires w.setter.alive && w.savePipe != [] && w.savePipe[0] != 0
    ensures var v := Next(c, w, SetterReads(AllWell));
            && v.setter.alive && v.savePipe == w.savePipe[1..] && v.consumed == w.consumed + [w.savePipe[0]]
  {
  }

  /** The setter works off its pipe. */
  lemma {:induction false} WorkOff(c: Config, w: World, u: World) returns (v: World)
    requires CanReach(c, w, u) && u.setter.alive && 0 !in u.savePipe
    ensures CanReach(c, w, v)
    ensures v.setter.alive && v.consumed == u.consumed + u.savePipe
    decreases |u.savePipe|
  {
    v := u;
    if u.savePipe != [] {
      ReadOne(c, u);
      Append(c, w, u, SetterReads(AllWell));
      v := WorkOff(c, w, Next(c, u, SetterReads(AllWell)));
      assert u.savePipe == [u.savePipe[0]] + u.savePipe[1..];
    }
  }

  lemma SendTime(c: Config, w: World)
    requires Live(c, w) && w.s.syncType == Net && w.s.pending.save
    ensures var v := Next(c, w, SaveReady(AllWritten));
            v.setter == w.setter && v.consumed == w.consumed && v.savePipe == w.savePipe + [w.s.lastTime]
  {
  }

  lemma SendAndSet(c: Config, w: World, u: World) returns (v: World)
    requires CanReach(c, w, u) && Live(c, u) && u.s.syncType == Net && u.s.pending.save && u.s.lastTime != 0
    ensures CanReach(c, w, v) && v.setter.alive
    ensures v.consumed == u.consumed + u.savePipe + [u.s.lastTime]
  {
    SendTime(c, u);
    Append(c, w, u, SaveReady(AllWritten));
    v := WorkOff(c, w, Next(c, u, SaveReady(AllWritten)));
  }

  /**
    Whatever has happened so far, as long as the loop and the setter run and no shutdown is
    under way, a server that answers `t` can still get the clock set to `t`, without any
    system call having to fail on the way.
   */
  lemma {:induction false} NeverWedged(c: Config, w: World, t: nat) returns (v: World)
    requires c.Valid() && Reachable(c, w) && !c.dryRun && c.IsSane(t)
    requires w.s.looping && w.setter.alive && !w.s.exiting && 0 !in w.savePipe
    ensures CanReach(c, w, v)
    ensures v.setter.clock != [] && v.setter.clock[|v.setter.clock| - 1] == t
  {
    Runs.ReachableInv(c, w);
    v := CanSync(c, w, t);
    var before := v.consumed + v.savePipe;
    v := SendAndSet(c, w, v);
    var steps :| AllSmooth(steps) && v == Exec(c, w, steps);
    Runs.ExecInv(c, w, steps);
    LastSetting(c, v.setter, before, t);
  }

  lemma {:induction false} LastSetting(c: Config, p: Coprocess, before: seq<int>, t: nat)
    requires T.SetterOk(c, p, before + [t]) && p.alive && !c.dryRun && c.IsSane(t)
    ensures p.clock != [] && p.clock[|p.clock| - 1] == t
  {
    SettingsAppend(c, before, t);
    T.SingleMessage(c, t);
  }
}
