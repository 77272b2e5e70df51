/** What every run keeps on the way from the daemon's idea of the time to the clock and the disk. */
module SetterInvariants {
  import opened Settings
  import opened Daemon
  import opened Setter
  import opened World
  import Timestamp

  // ---- the daemon's own time ----

  predicate TimeOk(c: Config, s: State) {
    && s.lastTime >= 0
    && (!s.exiting && s.syncType != Rtc ==> c.IsSane(s.lastTime))
  }

  lemma ScheduleKeepsTime(c: Config, s: State, delay: int)
    ensures SameTime(s, Schedule(c, s, delay))
  {
  }

  lemma KickoffKeepsTime(c: Config, s: State, r: Clocks, now: nat, draw: int32)
    requires TimeOk(c, s)
    ensures TimeOk(c, Kickoff(c, s, r, now, draw))
  {
    ScheduleKeepsTime(c, ForgetDelta(s, r, now), KickoffDelay(s, r, draw));
  }

  lemma SetTimeKeepsTime(c: Config, s: State, arg: Option<int>, r0: Clocks, now0: nat,
                         r1: Clocks, now1: nat, draw: int32)
    requires TimeOk(c, s)
    ensures TimeOk(c, SetTime(c, s, arg, r0, now0, r1, now1, draw).0)
  {
    if arg.Some? && c.IsSane(arg.value) {
      var s1 := ForgetDelta(s, r0, now0).(lastTime := arg.value, syncType := Platform);
      KickoffKeepsTime(c, Trigger(c, s1, ESave, -1), r1, now1, draw);
    }
  }

  /** Launching and reaping a child leave the daemon's time alone. */
  predicate SameTime(s: State, t: State) {
    t.lastTime == s.lastTime && t.syncType == s.syncType && t.exiting == s.exiting && t.clockDelta == s.clockDelta
  }

  lemma RunKeepsTime(c: Config, s: State, fork: Option<nat>)
    ensures SameTime(s, RunTlsdate(c, s, fork))
  {
  }

  lemma DeathKeepsTime(c: Config, s: State, pid: nat, status: int)
    ensures SameTime(s, ChildDeath(c, s, pid, status))
  {
  }

  lemma ReapKeepsTime(c: Config, w: World, pid: nat)
    ensures SameTime(w.s, OnReap(c, w, pid).s)
  {
    DeathKeepsTime(c, w.s, pid, 0);
    if pid in w.children && w.children[pid].exited.Some? {
      DeathKeepsTime(c, w.s, pid, w.children[pid].exited.value);
    }
  }

  lemma StatusKeepsTime(c: Config, w: World)
    requires TimeOk(c, w.s)
    ensures TimeOk(c, OnStatusReady(c, w).s)
  {
  }

  lemma StepKeepsTime(c: Config, w: World, step: Step)
    requires TimeOk(c, w.s)
    ensures TimeOk(c, Next(c, w, step).s)
  {
    if DaemonStep(step) && !w.s.looping { return; }
    match step
    case Wake(r, now, draw) => KickoffKeepsTime(c, w.s, r, now, draw);
    case SteadyState(now, r, later, draw) => KickoffKeepsTime(c, InvalidateTime(w.s, now), r, later, draw);
    case DBusSetTime(arg, r0, now0, r1, now1, draw) => SetTimeKeepsTime(c, w.s, arg, r0, now0, r1, now1, draw);
    case TlsdateDue(fork) => RunKeepsTime(c, Fire(w.s, ETlsdate), fork);
    case Reap(pid) => ReapKeepsTime(c, w, pid);
    case StatusReady => StatusKeepsTime(c, w);
    case _ =>
  }

  // ---- pipes ----

  function Msgs(sent: seq<Sent>): seq<int> {
    if sent == [] then [] else Msgs(sent[..|sent| - 1]) + [sent[|sent| - 1].msg]
  }

  /** The message carries the daemon's time; only a network time travels as a positive number. */
  predicate Faithful(r: Sent) {
    r.lastTime >= 0 && r.msg == if r.syncType == Net then r.lastTime else -r.lastTime
  }

  predicate PipesOk(w: World) {
    && Msgs(w.sent) == w.consumed + w.savePipe
    && (forall i :: 0 <= i < |w.sent| ==> Faithful(w.sent[i]))
    && |w.notifyPipe| + w.acked == |w.consumed| + (if w.consumed == [] && w.setter.died.Some? then 1 else 0)
  }

  // ---- clock and disk ----

  function ButLast(ms: seq<int>): seq<int> {
    if ms == [] then [] else ms[..|ms| - 1]
  }

  /** The messages whose clock setting went through. */
  function Applied(p: Coprocess, consumed: seq<int>): seq<int> {
    if p.died == Some(SETTER_SET_ERR) then ButLast(consumed) else consumed
  }

  /** The messages whose save, if they asked for one, went through. */
  function Stored(p: Coprocess, consumed: seq<int>): seq<int> {
    if p.died in {Some(SETTER_SET_ERR), Some(SETTER_NO_RTC), Some(SETTER_NO_SAVE)}
    then ButLast(consumed) else consumed
  }

  predicate LifeOk(p: Coprocess, consumed: seq<int>) {
    && (p.alive ==> 0 !in consumed && p.died.None?)
    && (p.died == Some(SETTER_EXIT) && consumed != [] ==> consumed[|consumed| - 1] == 0)
  }

  predicate ClockOk(c: Config, p: Coprocess, consumed: seq<int>) {
    p.clock == if c.dryRun then [] else ClockSettings(c, Applied(p, consumed))
  }

  predicate SavedOk(c: Config, p: Coprocess, consumed: seq<int>) {
    p.saved == if SavesToDisk(c) then DiskSaves(c, Stored(p, consumed)) else []
  }

  /** Where the coprocess stands after reading `consumed`. */
  predicate SetterOk(c: Config, p: Coprocess, consumed: seq<int>) {
    LifeOk(p, consumed) && ClockOk(c, p, consumed) && SavedOk(c, p, consumed)
  }

  predicate FileOk(p: Coprocess) {
    p.saved != [] ==> Timestamp.Read(p.file) == Some(p.saved[|p.saved| - 1])
  }

  lemma {:induction false} ClockAfter(c: Config, consumed: seq<int>, m: int, clock: seq<int>, q: Coprocess)
    requires 0 !in consumed && clock == if c.dryRun then [] else ClockSettings(c, consumed)
    requires q.clock == if q.died == Some(SETTER_SET_ERR) || c.dryRun || !c.IsSane(Magnitude(m))
                        then clock else clock + [Magnitude(m)]
    ensures ClockOk(c, q, consumed + [m])
  {
    SettingsAppend(c, consumed, m);
    SingleMessage(c, m);
    assert ButLast(consumed + [m]) == consumed;
  }

  lemma {:induction false} SavedAfter(c: Config, consumed: seq<int>, m: int, saved: seq<int>, q: Coprocess)
    requires 0 !in consumed && saved == if SavesToDisk(c) then DiskSaves(c, consumed) else []
    requires q.saved == if q.died in {Some(SETTER_SET_ERR), Some(SETTER_NO_RTC), Some(SETTER_NO_SAVE)}
                           || !SavesToDisk(c) || !c.IsSane(m)
                        then saved else saved + [m]
    ensures SavedOk(c, q, consumed + [m])
  {
    SettingsAppend(c, consumed, m);
    SingleMessage(c, m);
    assert ButLast(consumed + [m]) == consumed;
  }

  lemma HandleEffect(c: Config, p: Coprocess, m: int, o: Outcome)
    requires p.alive && p.died.None?
    ensures var q := Handle(c, p, m, o).0;
            && q.clock == (if q.died == Some(SETTER_SET_ERR) || c.dryRun || !c.IsSane(Magnitude(m))
                           then p.clock else p.clock + [Magnitude(m)])
            && q.saved == (if q.died in {Some(SETTER_SET_ERR), Some(SETTER_NO_RTC), Some(SETTER_NO_SAVE)}
                              || !SavesToDisk(c) || !c.IsSane(m)
                           then p.saved else p.saved + [m])
            && (q.alive ==> m != 0 && q.died.None?) && (q.died == Some(SETTER_EXIT) ==> m == 0)
  {
  }

  lemma {:induction false} HandleKeepsClock(c: Config, p: Coprocess, consumed: seq<int>, m: int, o: Outcome)
    requires SetterOk(c, p, consumed) && p.alive
    ensures SetterOk(c, Handle(c, p, m, o).0, consumed + [m])
  {
    HandleEffect(c, p, m, o);
    var q := Handle(c, p, m, o).0;
    ClockAfter(c, consumed, m, p.clock, q);
    SavedAfter(c, consumed, m, p.saved, q);
  }

  lemma SingleMessage(c: Config, m: int)
    ensures ClockSettings(c, [m]) == if c.IsSane(Magnitude(m)) then [Magnitude(m)] else []
    ensures DiskSaves(c, [m]) == if c.IsSane(m) then [m] else []
  {
    assert [m][1..] == [];
  }

  lemma {:induction false} EndOfPipe(c: Config, p: Coprocess, consumed: seq<int>)
    requires SetterOk(c, p, consumed) && p.alive
    ensures SetterOk(c, p.(alive := false, died := Some(SETTER_READ_ERR)), consumed)
  {
  }

  lemma HandleKeepsFile(c: Config, p: Coprocess, m: int, o: Outcome)
    requires FileOk(p)
    ensures FileOk(Handle(c, p, m, o).0)
  {
    var q, t := Handle(c, p, m, o).0, Magnitude(m);
    if q.saved != p.saved {
      Timestamp.SaveThenRead(p.file, t);
      assert q.saved == p.saved + [t];
    }
  }

  lemma {:induction false} MsgsConcat(a: seq<Sent>, b: seq<Sent>)
    ensures Msgs(a + b) == Msgs(a) + Msgs(b)
  {
    if b == [] {
      assert a + b == a;
    } else {
      var n := |b| - 1;
      assert (a + b)[..|a + b| - 1] == a + b[..n];
      MsgsConcat(a, b[..n]);
    }
  }

  lemma {:induction false} RecordsOk(c: Config, s: State, io: SaveIo)
    requires TimeOk(c, s)
    ensures Msgs(Records(s, io)) == SaveMessages(s, io)
    ensures forall r :: r in Records(s, io) ==> Faithful(r)
  {
    var rs := Records(s, io);
    if rs != [] {
      assert Msgs([rs[0]]) == [rs[0].msg] by { assert [rs[0]][..0] == []; }
      if |rs| == 2 { assert rs[..1] == [rs[0]]; }
    }
  }

  lemma {:induction false} SendAppends(sent: seq<Sent>, consumed: seq<int>, pipe: seq<int>, rs: seq<Sent>)
    requires Msgs(sent) == consumed + pipe
    requires forall i :: 0 <= i < |sent| ==> Faithful(sent[i])
    requires forall r :: r in rs ==> Faithful(r)
    ensures Msgs(sent + rs) == consumed + (pipe + Msgs(rs))
    ensures forall i :: 0 <= i < |sent + rs| ==> Faithful((sent + rs)[i])
  {
    var ms := Msgs(rs);
    assert Msgs(sent + rs) == consumed + pipe + ms by { MsgsConcat(sent, rs); }
    assert consumed + pipe + ms == consumed + (pipe + ms);
  }

  lemma {:induction false} SendKeepsPipes(c: Config, w: World, io: SaveIo)
    requires PipesOk(w) && TimeOk(c, w.s)
    ensures PipesOk(OnSaveReady(w, io))
  {
    RecordsOk(c, w.s, Meets(w, io));
    SendAppends(w.sent, w.consumed, w.savePipe, Records(w.s, Meets(w, io)));
  }

  predicate Inv(c: Config, w: World) {
    TimeOk(c, w.s) && PipesOk(w) && SetterOk(c, w.setter, w.consumed) && FileOk(w.setter)
  }

  lemma {:induction false} ReadKeepsPipes(c: Config, w: World, o: Outcome)
    requires PipesOk(w) && (w.setter.alive ==> w.setter.died.None?)
    ensures PipesOk(OnSetterReads(c, w, o))
  {
    if w.savePipe != [] {
      assert w.consumed + w.savePipe == w.consumed + [w.savePipe[0]] + w.savePipe[1..];
    }
  }

  lemma {:induction false} ReadKeepsSetter(c: Config, w: World, o: Outcome)
    requires SetterOk(c, w.setter, w.consumed) && FileOk(w.setter)
    ensures var v := OnSetterReads(c, w, o); SetterOk(c, v.setter, v.consumed) && FileOk(v.setter)
  {
    if w.setter.alive && w.savePipe != [] {
      HandleKeepsClock(c, w.setter, w.consumed, w.savePipe[0], o);
      HandleKeepsFile(c, w.setter, w.savePipe[0], o);
    }
  }

  lemma OtherKeepsPipes(c: Config, w: World, step: Step)
    requires !step.SaveReady? && !step.SetterReads? && !step.SetterReply? && !step.ChildStopped?
    ensures var v := Next(c, w, step);
            && v.sent == w.sent && v.consumed == w.consumed && v.savePipe == w.savePipe
            && v.notifyPipe == w.notifyPipe && v.acked == w.acked && v.setter == w.setter
  {
  }

  lemma {:induction false} ReplyKeepsPipes(w: World, r: Clocks, now: nat)
    requires PipesOk(w)
    ensures PipesOk(OnSetterReply(w, r, now))
  {
  }

  lemma {:induction false} KilledKeepsSetter(c: Config, p: Coprocess, consumed: seq<int>)
    requires SetterOk(c, p, consumed) && FileOk(p)
    ensures var q := p.(alive := false); SetterOk(c, q, consumed) && FileOk(q)
  {
    var q := p.(alive := false);
    assert Applied(q, consumed) == Applied(p, consumed) && Stored(q, consumed) == Stored(p, consumed);
  }

  lemma {:induction false} SamePipes(w: World, v: World)
    requires PipesOk(w) && v.sent == w.sent && v.consumed == w.consumed && v.savePipe == w.savePipe
    requires v.notifyPipe == w.notifyPipe && v.acked == w.acked && v.setter.died == w.setter.died
    ensures PipesOk(v)
  {
  }

  lemma {:induction false} StepKeepsPipes(c: Config, w: World, step: Step)
    requires PipesOk(w) && TimeOk(c, w.s) && (w.setter.alive ==> w.setter.died.None?)
    ensures PipesOk(Next(c, w, step))
  {
    if DaemonStep(step) && !w.s.looping { return; }
    match step
    case SaveReady(io) => SendKeepsPipes(c, w, io);
    case SetterReads(o) => ReadKeepsPipes(c, w, o);
    case SetterReply(r, now) => ReplyKeepsPipes(w, r, now);
    case ChildStopped(pid) => SamePipes(w, OnChildStopped(c, w, pid));
    case _ =>
      var v := Next(c, w, step);
      OtherKeepsPipes(c, w, step);
      SamePipes(w, v);
  }

  lemma {:induction false} StepKeepsSetter(c: Config, w: World, step: Step)
    requires SetterOk(c, w.setter, w.consumed) && FileOk(w.setter)
    ensures var v := Next(c, w, step); SetterOk(c, v.setter, v.consumed) && FileOk(v.setter)
  {
    match step
    case SetterReads(o) => ReadKeepsSetter(c, w, o);
    case ChildStopped(pid) => KilledKeepsSetter(c, w.setter, w.consumed);
    case _ => OtherKeepsSetter(c, w, step);
  }

  lemma OtherKeepsSetter(c: Config, w: World, step: Step)
    requires !step.SetterReads? && !step.ChildStopped?
    ensures var v := Next(c, w, step); v.setter == w.setter && v.consumed == w.consumed
  {
  }

  lemma {:induction false} StepInv(c: Config, w: World, step: Step)
    requires Inv(c, w)
    ensures Inv(c, Next(c, w, step))
  {
    StepKeepsTime(c, w, step);
    StepKeepsPipes(c, w, step);
    StepKeepsSetter(c, w, step);
  }
}
