/** The timestamp file over any number of runs of the daemon, and the time each run starts with. */
module Restarts {
  import opened Settings
  import opened Daemon
  import opened Setter
  import opened World
  import T = SetterInvariants
  import Runs
  import Timestamp

  type File = Option<seq<Timestamp.octet>>

  /** One run: what main() meets on the way to the event loop, and the steps after it. */
  datatype Life = Life(now: nat, failure: Option<Failure>, reading: Clocks, draw: int32, steps: seq<Step>)

  function Begin(c: Config, file: File, life: Life): World {
    Start(c, life.now, file, life.failure, life.reading, life.draw)
  }

  function End(c: Config, file: File, life: Life): World {
    Exec(c, Begin(c, file, life), life.steps)
  }

  function FileAfter(c: Config, file: File, lives: seq<Life>): File
    decreases |lives|
  {
    if lives == [] then file else FileAfter(c, Some(End(c, file, lives[0]).setter.file), lives[1..])
  }

  /** A setter that cannot open the file removes it. */
  predicate Removes(c: Config, life: Life) {
    life.failure == Some(CannotOpen(true)) && SavesToDisk(c)
  }

  /** What is known of the time on disk after a run: its last save, nothing if it removed the file, else as before. */
  function KnownAfterOne(c: Config, known: Option<int>, file: File, life: Life): Option<int> {
    var saved := End(c, file, life).setter.saved;
    if saved != [] then Some(saved[|saved| - 1])
    else if Removes(c, life) then None
    else known
  }

  function KnownAfter(c: Config, known: Option<int>, file: File, lives: seq<Life>): Option<int>
    decreases |lives|
  {
    if lives == [] then known
    else
      var life := lives[0];
      KnownAfter(c, KnownAfterOne(c, known, file, life), Some(End(c, file, life).setter.file), lives[1..])
  }

  lemma HandleTouchesFile(c: Config, p: Coprocess, m: int, o: Outcome)
    ensures var q := Handle(c, p, m, o).0;
            p.saved <= q.saved && (q.saved == p.saved ==> q.file == p.file)
  {
  }

  lemma StepTouchesFile(c: Config, w: World, step: Step)
    ensures var q := Next(c, w, step).setter;
            w.setter.saved <= q.saved && (q.saved == w.setter.saved ==> q.file == w.setter.file)
  {
    match step
    case SetterReads(o) => if w.savePipe != [] { HandleTouchesFile(c, w.setter, w.savePipe[0], o); }
    case ChildStopped(_) =>
    case _ => T.OtherKeepsSetter(c, w, step);
  }

  /** A run that saves nothing leaves the file as it was. */
  lemma {:induction false} RunTouchesFile(c: Config, w: World, steps: seq<Step>)
    ensures var q := Exec(c, w, steps).setter;
            w.setter.saved <= q.saved && (q.saved == w.setter.saved ==> q.file == w.setter.file)
    decreases |steps|
  {
    if steps != [] {
      StepTouchesFile(c, w, steps[0]);
      RunTouchesFile(c, Next(c, w, steps[0]), steps[1..]);
    }
  }

  lemma {:induction false} LastIsSane(c: Config, w: World)
    requires c.Valid() && Reachable(c, w) && w.setter.saved != []
    ensures Timestamp.Load(c, Some(w.setter.file)) == Some(w.setter.saved[|w.setter.saved| - 1])
  {
    Runs.ReachableInv(c, w);
    var last := w.setter.saved[|w.setter.saved| - 1];
    assert last in w.setter.saved;
    Runs.SavedWhileNet(c, w, last);
  }

  lemma {:induction false} OneLife(c: Config, file: File, life: Life)
    requires c.Valid()
    ensures Timestamp.Load(c, Some(End(c, file, life).setter.file))
         == KnownAfterOne(c, Timestamp.Load(c, file), file, life)
  {
    var w := End(c, file, life);
    assert Reachable(c, w);
    if w.setter.saved != [] {
      LastIsSane(c, w);
    } else {
      RunTouchesFile(c, Begin(c, file, life), life.steps);
    }
  }

  /** Over any number of runs the file loads as the last time saved, unless a failed start removed it since. */
  lemma {:induction false} FileIsLastSave(c: Config, file: File, lives: seq<Life>)
    requires c.Valid()
    ensures Timestamp.Load(c, FileAfter(c, file, lives)) == KnownAfter(c, Timestamp.Load(c, file), file, lives)
    decreases |lives|
  {
    if lives != [] {
      OneLife(c, file, lives[0]);
      FileIsLastSave(c, Some(End(c, file, lives[0]).setter.file), lives[1..]);
    }
  }

  /** The time a file offers: eight bytes that decode to a sane time, and loading is on. */
  function Offered(c: Config, file: File): Option<int> {
    var t := if file.Some? then Timestamp.Read(file.value) else None;
    if c.shouldLoadDisk && t.Some? && c.compileDate < t.value < 1999991337 then t else None
  }

  /**
    Every start, whatever the clock and the file: the later of the two if both are sane, the sane
    one if one is, and the second after the build date if neither is; the type tells which.
   */
  lemma {:induction false} StartPicks(c: Config, file: File, life: Life)
    requires c.Valid()
    ensures var now, disk, w := life.now, Offered(c, file), Begin(c, file, life);
            var sane := c.compileDate < now < 1999991337;
            && (sane ==> w.s.lastTime >= now)
            && (disk.Some? ==> w.s.lastTime == if sane && disk.value <= now then now else disk.value)
            && (disk.None? ==> w.s.lastTime == if sane then now else c.compileDate + 1)
            && (w.s.syncType == Disk <==> disk.Some? && (!sane || now < disk.value))
            && (w.s.syncType == Rtc <==> sane && (disk.None? || disk.value <= now))
            && (w.s.syncType == Build <==> !sane && disk.None?)
            && w.s.pending.save && w.s.tries == 0 && w.s.backoff == c.waitBetweenTries
            && w.s.clockDelta == 0 && w.s.looping && !w.s.exiting
  {
    var s := StartState(c, life.now, Timestamp.Load(c, file));
    T.ScheduleKeepsTime(c, s, 0);
    Runs.StartSync(c, life.now, file, life.failure, life.reading, life.draw);
  }

  /** The next start is at a sane time and, with loading on, never before the last time known. */
  lemma {:induction false} RestartMonotone(c: Config, file: File, lives: seq<Life>, next: Life)
    requires c.Valid()
    ensures var known := KnownAfter(c, Timestamp.Load(c, file), file, lives);
            var w := Begin(c, FileAfter(c, file, lives), next);
            && c.compileDate < w.s.lastTime < 1999991337
            && (c.compileDate < next.now < 1999991337 ==> w.s.lastTime >= next.now)
            && (known.Some? && c.shouldLoadDisk ==> w.s.lastTime >= known.value)
  {
    FileIsLastSave(c, file, lives);
    StartPicks(c, FileAfter(c, file, lives), next);
  }
}
