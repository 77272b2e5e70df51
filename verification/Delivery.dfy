/** Whether a time the daemon accepts gets to the setter, and where the times on disk come from. */
module Delivery {
  import opened Settings
  import opened Daemon
  import opened Setter
  import opened World
  import T = SetterInvariants
  import Runs
  import Timestamp

  // ---- no accepted time is lost ----

  /** The last message carried the time the daemon holds now. */
  predicate LastSent(w: World) {
    && w.sent != []
    && w.sent[|w.sent| - 1].lastTime == w.s.lastTime
    && w.sent[|w.sent| - 1].syncType == w.s.syncType
  }

  /** A time that is more than the local clock has been sent or is about to be. */
  predicate Delivered(w: World) {
    w.s.looping && w.setter.alive && w.s.syncType != Rtc ==> w.s.pending.save || LastSent(w)
  }

  predicate Unwritten(r: WriteResult) {
    r == Gone || r == Full
  }

  /** A save event that ends without writing what it should: the event is not armed again. */
  predicate Drops(w: World, step: Step) {
    && step.SaveReady? && w.s.looping && w.setter.alive && w.s.pending.save && w.s.syncType != Rtc
    && var io := step.io;
       || ((io.broken || Unwritten(io.first)) && !LastSent(w))
       || (TimeWritten(io) && Leaving(w.s) && Unwritten(io.second))
  }

  /** What a step may do to the held time and its save: nothing, or fall back to the local clock. */
  predicate Holds(s: State, t: State) {
    t.syncType == Rtc || (t.syncType == s.syncType && t.lastTime == s.lastTime && t.pending.save == s.pending.save)
  }

  lemma ScheduleHolds(c: Config, s: State, delay: int)
    ensures Holds(s, Schedule(c, s, delay))
  {
  }

  lemma KickoffHolds(c: Config, s: State, r: Clocks, now: nat, draw: int32)
    ensures Holds(s, Kickoff(c, s, r, now, draw))
  {
    T.ScheduleKeepsTime(c, ForgetDelta(s, r, now), KickoffDelay(s, r, draw));
    ScheduleHolds(c, ForgetDelta(s, r, now), KickoffDelay(s, r, draw));
  }

  lemma SetTimeHolds(c: Config, s: State, arg: Option<int>, r0: Clocks, now0: nat,
                     r1: Clocks, now1: nat, draw: int32)
    ensures var t := SetTime(c, s, arg, r0, now0, r1, now1, draw).0; Holds(s, t) || t.pending.save
  {
    if arg.Some? {
      var s1 := ForgetDelta(s, r0, now0).(lastTime := arg.value, syncType := Platform);
      KickoffHolds(c, Trigger(c, s1, ESave, -1), r1, now1, draw);
    }
  }

  lemma RunHolds(c: Config, s: State, fork: Option<nat>)
    ensures Holds(s, RunTlsdate(c, s, fork))
  {
  }

  lemma ArmKeepsSave(c: Config, pending: Events, id: EventId, sec: int)
    requires id != ESave
    ensures Arm(c, pending, id, sec).save == pending.save
  {
  }

  lemma RearmKeepsSave(c: Config, s: State, delay: int, backup: int)
    ensures Rearm(c, s, delay, backup).pending.save == s.pending.save
  {
    if c.hasResolver {
      ArmKeepsSave(c, s.pending, ETlsdate, backup);
      ArmKeepsSave(c, Arm(c, s.pending, ETlsdate, backup), EResolver, delay);
    } else {
      ArmKeepsSave(c, s.pending, ETlsdate, delay);
    }
  }

  lemma RetryKeepsSave(c: Config, s: State)
    ensures Retry(c, s).pending.save == s.pending.save
  {
    RearmKeepsSave(c, s, ToInt(s.backoff), ToInt(RESOLVER_TIMEOUT + s.backoff));
  }

  lemma DeathHolds(c: Config, s: State, pid: nat, status: int)
    ensures Holds(s, ChildDeath(c, s, pid, status))
  {
    var t := s.(running := false, tlsdatePid := 0, pending := s.pending.(timeout := false));
    T.DeathKeepsTime(c, s, pid, status);
    RetryKeepsSave(c, t.(backoff := DoubledBackoff(s.backoff)));
  }

  lemma AnswerHolds(c: Config, s: State, r: Response)
    ensures var t := Status(c, s, r); Holds(s, t) || t.pending.save
  {
    match r
    case Broken =>
    case Again =>
    case Time(t) =>
      var g := s.(syncType := Net, lastTime := t);
      assert Trigger(c, g, ESave, -1).pending.save;
  }

  lemma StatusHolds(c: Config, w: World)
    ensures var s := OnStatusReady(c, w).s; Holds(w.s, s) || s.pending.save
  {
    var s := Fire(w.s, EStatus);
    assert Holds(w.s, s);
    AnswerHolds(c, s, if w.monitor == [] then Again else Time(w.monitor[0]));
  }

  lemma ReplyHolds(w: World, r: Clocks, now: nat)
    ensures Holds(w.s, OnSetterReply(w, r, now).s)
    ensures Holds(w.s, OnCanSetTime(w, r, now).s)
  {
  }

  lemma ReapHolds(c: Config, w: World, pid: nat)
    ensures Holds(w.s, OnReap(c, w, pid).s)
  {
    DeathHolds(c, w.s, pid, 0);
    if pid in w.children && w.children[pid].exited.Some? {
      DeathHolds(c, w.s, pid, w.children[pid].exited.value);
    }
  }

  lemma ResolverHolds(c: Config, w: World, answer: bool)
    ensures Holds(w.s, OnResolverDue(c, w, answer).s)
    ensures Holds(w.s, OnResolverAnswer(c, w).s)
  {
  }

  lemma StepHolds(c: Config, w: World, step: Step)
    requires !step.SaveReady?
    ensures var s := Next(c, w, step).s; Holds(w.s, s) || s.pending.save
  {
    if DaemonStep(step) && !w.s.looping { return; }
    match step
    case Wake(r, now, draw) => KickoffHolds(c, w.s, r, now, draw);
    case SteadyState(now, r, later, draw) => KickoffHolds(c, InvalidateTime(w.s, now), r, later, draw);
    case DBusSetTime(arg, r0, now0, r1, now1, draw) => SetTimeHolds(c, w.s, arg, r0, now0, r1, now1, draw);
    case TlsdateDue(fork) => RunHolds(c, Fire(w.s, ETlsdate), fork);
    case Reap(pid) => ReapHolds(c, w, pid);
    case ResolverDue(answer) => ResolverHolds(c, w, answer);
    case ResolverAnswer => ResolverHolds(c, w, false);
    case StatusReady => StatusHolds(c, w);
    case SetterReply(r, now) => ReplyHolds(w, r, now);
    case DBusCanSetTime(r, now) => ReplyHolds(w, r, now);
    case _ =>
  }

  /** The loop and the setter never come back. */
  lemma StepEnds(c: Config, w: World, step: Step)
    requires !step.SaveReady?
    ensures var v := Next(c, w, step);
            (v.s.looping ==> w.s.looping) && (v.setter.alive ==> w.setter.alive) && v.sent == w.sent
  {
    match step
    case Wake(r, now, draw) => LoopKept(c, ForgetDelta(w.s, r, now), KickoffDelay(w.s, r, draw));
    case _ =>
  }

  lemma LoopKept(c: Config, s: State, delay: int)
    ensures Schedule(c, s, delay).looping == s.looping
  {
  }

  lemma {:induction false} SaveDelivers(w: World, io: SaveIo)
    requires Delivered(w) && w.s.looping
    ensures Delivered(OnSaveReady(w, io)) <==> !Drops(w, SaveReady(io))
  {
    var v := OnSaveReady(w, io);
    if w.s.pending.save && w.setter.alive && TimeWritten(io) {
      assert v.sent[|v.sent| - 1] == Records(w.s, io)[|Records(w.s, io)| - 1];
    }
  }

  /** A step loses the time that is held exactly when it is a save event that does not write it. */
  lemma {:induction false} StepDelivers(c: Config, w: World, step: Step)
    requires Delivered(w)
    ensures Delivered(Next(c, w, step)) <==> !Drops(w, step)
  {
    if step.SaveReady? {
      if w.s.looping { SaveDelivers(w, step.io); }
    } else {
      StepHolds(c, w, step);
      StepEnds(c, w, step);
    }
  }

  predicate NoDrops(c: Config, w: World, steps: seq<Step>)
    decreases |steps|
  {
    steps != [] ==> !Drops(w, steps[0]) && NoDrops(c, Next(c, w, steps[0]), steps[1..])
  }

  lemma {:induction false} RunDelivers(c: Config, w: World, steps: seq<Step>)
    requires Delivered(w) && NoDrops(c, w, steps)
    ensures Delivered(Exec(c, w, steps))
    decreases |steps|
  {
    if steps != [] {
      StepDelivers(c, w, steps[0]);
      RunDelivers(c, Next(c, w, steps[0]), steps[1..]);
    }
  }

  lemma StartDelivers(c: Config, now: nat, file: Option<seq<Timestamp.octet>>, failure: Option<Failure>,
                      reading: Clocks, draw: int32)
    ensures Delivered(Start(c, now, file, failure, reading, draw))
  {
    KickoffHolds(c, StartState(c, now, Timestamp.Load(c, file)), reading, now, draw);
  }

  /** In every run whose save events all write, no accepted time is lost. */
  lemma {:induction false} NoTimeLost(c: Config, now: nat, file: Option<seq<Timestamp.octet>>, failure: Option<Failure>,
                                      reading: Clocks, draw: int32, steps: seq<Step>)
    requires NoDrops(c, Start(c, now, file, failure, reading, draw), steps)
    ensures Delivered(Exec(c, Start(c, now, file, failure, reading, draw), steps))
  {
    StartDelivers(c, now, file, failure, reading, draw);
    RunDelivers(c, Start(c, now, file, failure, reading, draw), steps);
  }

  lemma {:induction false} LastSetting(c: Config, before: seq<int>, m: int)
    requires 0 !in before && c.IsSane(Magnitude(m))
    ensures ClockSettings(c, before + [m]) == ClockSettings(c, before) + [Magnitude(m)]
    ensures m > 0 ==> DiskSaves(c, before + [m]) == DiskSaves(c, before) + [m]
  {
    SettingsAppend(c, before, m);
    T.SingleMessage(c, m);
  }

  lemma {:induction false} LastApplies(c: Config, p: Coprocess, before: seq<int>, m: int)
    requires T.SetterOk(c, p, before + [m]) && p.alive && c.IsSane(Magnitude(m))
    ensures !c.dryRun ==> p.clock == ClockSettings(c, before) + [Magnitude(m)]
    ensures SavesToDisk(c) && m > 0 ==> p.saved == DiskSaves(c, before) + [m]
  {
    assert forall x :: x in before ==> x in before + [m];
    LastSetting(c, before, m);
  }

  /**
    Once the save pipe is empty and no save is due, a delivered time is what the clock was last set to,
    and a network time is the last one on disk.
   */
  lemma {:induction false} DeliveredTimeIsSet(c: Config, w: World)
    requires c.Valid() && Reachable(c, w) && Delivered(w)
    requires w.s.looping && w.setter.alive && !w.s.exiting && w.s.syncType != Rtc
    requires !w.s.pending.save && w.savePipe == []
    ensures !c.dryRun ==> w.setter.clock != [] && w.setter.clock[|w.setter.clock| - 1] == w.s.lastTime
    ensures SavesToDisk(c) && w.s.syncType == Net ==>
              w.setter.saved != [] && w.setter.saved[|w.setter.saved| - 1] == w.s.lastTime
  {
    Runs.ReachableInv(c, w);
    HeldTimeIsSet(c, w);
  }

  lemma {:induction false} HeldTimeIsSet(c: Config, w: World)
    requires T.Inv(c, w) && LastSent(w) && w.setter.alive && w.savePipe == [] && c.IsSane(w.s.lastTime)
    ensures !c.dryRun ==> w.setter.clock != [] && w.setter.clock[|w.setter.clock| - 1] == w.s.lastTime
    ensures SavesToDisk(c) && w.s.syncType == Net ==>
              w.setter.saved != [] && w.setter.saved[|w.setter.saved| - 1] == w.s.lastTime
  {
    LastRead(w);
    var r := w.sent[|w.sent| - 1];
    assert T.Faithful(r);
    LastApplies(c, w.setter, w.consumed[..|w.consumed| - 1], r.msg);
  }

  lemma {:induction false} LastRead(w: World)
    requires T.PipesOk(w) && w.savePipe == [] && w.sent != []
    ensures w.consumed != [] && w.consumed == w.consumed[..|w.consumed| - 1] + [w.sent[|w.sent| - 1].msg]
  {
    Runs.MsgsLength(w.sent);
    assert T.Msgs(w.sent) == w.consumed;
  }

  // ---- where saved times come from ----

  /** Read from the monitor pipe, or from the clock at SIGTERM, or the 0 of a shutdown message. */
  predicate Known(w: World, t: int) {
    t in w.heard || t in w.farewells || t == 0
  }

  predicate SentKnown(w: World) {
    forall i :: 0 <= i < |w.sent| ==> (w.sent[i].syncType == Net ==> Known(w, w.sent[i].lastTime))
  }

  predicate SourcesOk(w: World) {
    && (w.s.syncType == Net ==> Known(w, w.s.lastTime))
    && SentKnown(w)
    && (w.farewells != [] ==> w.s.exiting)
  }

  lemma {:induction false} SaveKeepsSources(w: World, io: SaveIo)
    requires SourcesOk(w)
    ensures SourcesOk(OnSaveReady(w, io))
  {
    var v, rs := OnSaveReady(w, io), Records(w.s, Meets(w, io));
    forall i | 0 <= i < |v.sent| && v.sent[i].syncType == Net ensures Known(v, v.sent[i].lastTime) {
      assert v.sent[i] == if i < |w.sent| then w.sent[i] else rs[i - |w.sent|];
    }
  }

  lemma {:induction false} StatusKeepsSources(c: Config, w: World)
    requires SourcesOk(w)
    ensures SourcesOk(OnStatusReady(c, w))
  {
  }

  lemma {:induction false} TerminateKeepsSources(c: Config, w: World, now: nat)
    requires SourcesOk(w)
    ensures SourcesOk(OnTerminate(c, w, now))
  {
  }

  /** Steps other than these three bring no new network time. */
  lemma NoNewNetTime(c: Config, w: World, step: Step)
    requires !step.SaveReady? && !step.StatusReady? && !step.Terminate?
    ensures var v := Next(c, w, step);
            && v.heard == w.heard && v.farewells == w.farewells && v.s.exiting == w.s.exiting
            && (v.s.syncType == Net ==> w.s.syncType == Net && v.s.lastTime == w.s.lastTime)
  {
    if DaemonStep(step) && !w.s.looping { return; }
    match step
    case Wake(r, now, draw) => T.ScheduleKeepsTime(c, ForgetDelta(w.s, r, now), KickoffDelay(w.s, r, draw));
    case SteadyState(now, r, later, draw) =>
      var s := InvalidateTime(w.s, now);
      T.ScheduleKeepsTime(c, ForgetDelta(s, r, later), KickoffDelay(s, r, draw));
    case DBusSetTime(arg, r0, now0, r1, now1, draw) => SetTimeIsNotNet(c, w.s, arg, r0, now0, r1, now1, draw);
    case TlsdateDue(fork) => T.RunKeepsTime(c, Fire(w.s, ETlsdate), fork);
    case Reap(pid) => T.ReapKeepsTime(c, w, pid);
    case _ =>
  }

  lemma SetTimeIsNotNet(c: Config, s: State, arg: Option<int>, r0: Clocks, now0: nat,
                        r1: Clocks, now1: nat, draw: int32)
    ensures var t := SetTime(c, s, arg, r0, now0, r1, now1, draw).0;
            t.exiting == s.exiting && (t.syncType == Net ==> s.syncType == Net && t.lastTime == s.lastTime)
  {
    if arg.Some? {
      var s1 := ForgetDelta(s, r0, now0).(lastTime := arg.value, syncType := Platform);
      var s2 := Trigger(c, s1, ESave, -1);
      T.ScheduleKeepsTime(c, ForgetDelta(s2, r1, now1), KickoffDelay(s2, r1, draw));
    }
  }

  lemma {:induction false} StepKeepsSources(c: Config, w: World, step: Step)
    requires SourcesOk(w)
    ensures SourcesOk(Next(c, w, step))
  {
    if step.SaveReady? {
      SaveKeepsSources(w, step.io);
    } else if step.StatusReady? {
      StatusKeepsSources(c, w);
    } else if step.Terminate? {
      TerminateKeepsSources(c, w, step.now);
    } else {
      NoNewNetTime(c, w, step);
      StepEnds(c, w, step);
    }
  }

  lemma {:induction false} RunKeepsSources(c: Config, w: World, steps: seq<Step>)
    requires SourcesOk(w)
    ensures SourcesOk(Exec(c, w, steps))
    decreases |steps|
  {
    if steps != [] {
      StepKeepsSources(c, w, steps[0]);
      RunKeepsSources(c, Next(c, w, steps[0]), steps[1..]);
    }
  }

  lemma StartSources(c: Config, now: nat, file: Option<seq<Timestamp.octet>>, failure: Option<Failure>,
                     reading: Clocks, draw: int32)
    ensures SourcesOk(Start(c, now, file, failure, reading, draw))
  {
    var s := StartState(c, now, Timestamp.Load(c, file));
    T.ScheduleKeepsTime(c, ForgetDelta(s, reading, now), KickoffDelay(s, reading, draw));
  }

  /**
    Every time on disk was read from a tlsdate child, or is the local clock at a SIGTERM that came
    while the type was NET; before any SIGTERM all of them come from children.
   */
  lemma {:induction false} SavedTimesHaveSources(c: Config, w: World, t: int)
    requires c.Valid() && Reachable(c, w) && t in w.setter.saved
    ensures t in w.heard || t in w.farewells
    ensures !w.s.exiting ==> t in w.heard
  {
    var now, file, failure, reading, draw, steps :|
      w == Exec(c, Start(c, now, file, failure, reading, draw), steps);
    StartSources(c, now, file, failure, reading, draw);
    RunKeepsSources(c, Start(c, now, file, failure, reading, draw), steps);
    Runs.SavedWhileNet(c, w, t);
  }

  // ---- when only network time reaches the disk ----

  predicate FromNet(w: World, t: int) {
    t in w.heard || t == 0
  }

  /** Everything held or sent with type NET was read from a child. */
  predicate NetOnly(w: World) {
    && (w.s.syncType == Net ==> FromNet(w, w.s.lastTime))
    && forall i :: 0 <= i < |w.sent| ==> (w.sent[i].syncType == Net ==> FromNet(w, w.sent[i].lastTime))
  }

  /** SIGTERM puts a clock reading that no child sent in the place of a network time. */
  predicate ClockForNet(c: Config, w: World, step: Step) {
    && step.Terminate? && w.s.looping && c.shouldSaveDisk && w.s.syncType == Net
    && !FromNet(w, step.now)
  }

  lemma {:induction false} SaveKeepsNet(w: World, io: SaveIo)
    requires NetOnly(w)
    ensures NetOnly(OnSaveReady(w, io))
  {
    var v, rs := OnSaveReady(w, io), Records(w.s, Meets(w, io));
    forall i | 0 <= i < |v.sent| && v.sent[i].syncType == Net ensures FromNet(v, v.sent[i].lastTime) {
      assert v.sent[i] == if i < |w.sent| then w.sent[i] else rs[i - |w.sent|];
    }
  }

  lemma {:induction false} StatusKeepsNet(c: Config, w: World)
    requires NetOnly(w)
    ensures NetOnly(OnStatusReady(c, w))
  {
  }

  /** A step brings in a NET time of another origin exactly when it is such a SIGTERM. */
  lemma {:induction false} StepKeepsNet(c: Config, w: World, step: Step)
    requires NetOnly(w)
    ensures NetOnly(Next(c, w, step)) <==> !ClockForNet(c, w, step)
  {
    if step.SaveReady? {
      SaveKeepsNet(w, step.io);
    } else if step.StatusReady? {
      StatusKeepsNet(c, w);
    } else if !step.Terminate? {
      NoNewNetTime(c, w, step);
      StepEnds(c, w, step);
    }
  }

  predicate NoClockForNet(c: Config, w: World, steps: seq<Step>)
    decreases |steps|
  {
    steps != [] ==> !ClockForNet(c, w, steps[0]) && NoClockForNet(c, Next(c, w, steps[0]), steps[1..])
  }

  lemma {:induction false} RunKeepsNet(c: Config, w: World, steps: seq<Step>)
    requires NetOnly(w) && NoClockForNet(c, w, steps)
    ensures NetOnly(Exec(c, w, steps))
    decreases |steps|
  {
    if steps != [] {
      StepKeepsNet(c, w, steps[0]);
      RunKeepsNet(c, Next(c, w, steps[0]), steps[1..]);
    }
  }

  /** In every run without such a SIGTERM, only times read from children reach the disk. */
  lemma {:induction false} OnlyNetworkTimeSaved(c: Config, now: nat, file: Option<seq<Timestamp.octet>>,
                                                failure: Option<Failure>, reading: Clocks, draw: int32,
                                                steps: seq<Step>, t: int)
    requires c.Valid() && NoClockForNet(c, Start(c, now, file, failure, reading, draw), steps)
    ensures var w := Exec(c, Start(c, now, file, failure, reading, draw), steps);
            t in w.setter.saved ==> t in w.heard
  {
    var w0 := Start(c, now, file, failure, reading, draw);
    var w := Exec(c, w0, steps);
    StartSources(c, now, file, failure, reading, draw);
    RunKeepsNet(c, w0, steps);
    assert Reachable(c, w);
    if t in w.setter.saved { Runs.SavedWhileNet(c, w, t); }
  }
}
