/** Concrete runs: a wake that is lost, a time that is lost, and a local clock reading on disk. */
module Examples {
  import opened Settings
  import opened Daemon
  import opened Setter
  import opened World
  import opened SyncInvariants
  import opened Progress
  import Delivery
  import Runs

  const Sample := Config(1400000000, 10, 10, 10, true, true, false, true, false, 2)

  /** The system clock reads 1400000001, ten seconds after the machine came up. */
  const SampleStart := Start(Sample, 1400000001, None, None, Clocks(Some(1400000001), Some(10)), 0)

  predicate Armed(w: World, resolver: bool, tlsdate: bool, status: bool, timeout: bool, save: bool) {
    var p := w.s.pending;
    && p.resolver == resolver && p.tlsdate == tlsdate && p.status == status && p.timeout == timeout
    && p.save == save
  }

  lemma SampleReachable(w: World)
    requires CanReach(Sample, SampleStart, w)
    ensures Sample.Valid() && Reachable(Sample, w)
  {
  }

  lemma SampleLaunch() returns (w: World)
    ensures CanReach(Sample, SampleStart, w) && w.s.looping && w.setter.alive && !w.s.exiting
    ensures w.s.tlsdatePid == 3 && w.s.running && w.monitor == [] == w.heard && w.sent == []
    ensures Armed(w, false, false, true, true, true)
    ensures w.children == map[3 := Child(false, false, None)] && w.savePipe == [] == w.notifyPipe
    ensures w.setter.saved == [] && w.farewells == [] && w.s.clockDelta == 0
  {
    Reflexive(Sample, SampleStart);
    Append(Sample, SampleStart, SampleStart, TlsdateDue(Some(3)));
    w := OnTlsdateDue(Sample, SampleStart, Some(3));
  }

  lemma SampleWritten() returns (w: World)
    ensures CanReach(Sample, SampleStart, w) && w.s.looping && w.setter.alive && !w.s.exiting
    ensures w.s.tlsdatePid == 3 && w.monitor == [1400000100] && w.heard == [] && w.sent == []
    ensures Armed(w, false, false, true, true, true)
    ensures w.children == map[3 := Child(true, false, None)] && w.savePipe == [] == w.notifyPipe
    ensures w.setter.saved == [] && w.farewells == [] && w.s.clockDelta == 0
  {
    var u := SampleLaunch();
    Append(Sample, SampleStart, u, ChildWrites(3, 1400000100));
    w := OnChildWrites(u, 3, 1400000100);
  }

  /** The child has answered 1400000100 and the daemon has accepted it. */
  lemma SampleAnswer() returns (w: World)
    ensures CanReach(Sample, SampleStart, w) && w.s.looping && w.setter.alive && !w.s.exiting
    ensures w.s.syncType == Net && w.s.lastTime == 1400000100 && w.heard == [1400000100] && w.sent == []
    ensures w.s.tlsdatePid == 3 && Armed(w, false, false, false, true, true)
    ensures w.children == map[3 := Child(true, false, None)] && w.savePipe == [] == w.notifyPipe
    ensures w.setter.saved == [] && w.farewells == [] && w.s.clockDelta == 0
  {
    var u := SampleWritten();
    Append(Sample, SampleStart, u, StatusReady);
    w := OnStatusReady(Sample, u);
  }

  lemma SampleSent() returns (w: World)
    ensures CanReach(Sample, SampleStart, w) && w.s.looping && w.setter.alive && w.s.syncType == Net
    ensures w.s.tlsdatePid == 3 && Armed(w, false, false, false, true, false)
    ensures w.children == map[3 := Child(true, false, None)]
    ensures w.savePipe == [1400000100] && w.notifyPipe == []
  {
    var u := SampleAnswer();
    Append(Sample, SampleStart, u, SaveReady(AllWritten));
    w := OnSaveReady(u, AllWritten);
  }

  lemma SampleSet() returns (w: World)
    ensures CanReach(Sample, SampleStart, w) && w.s.looping && w.s.syncType == Net
    ensures w.s.tlsdatePid == 3 && Armed(w, false, false, false, true, false)
    ensures w.children == map[3 := Child(true, false, None)] && w.notifyPipe == [SETTER_TIME_SET]
  {
    var u := SampleSent();
    Append(Sample, SampleStart, u, SetterReads(AllWell));
    w := OnSetterReads(Sample, u, AllWell);
  }

  /** The clock now reads 1400000102, a hundred and one seconds after the machine came up. */
  lemma SampleReply() returns (w: World)
    ensures CanReach(Sample, SampleStart, w) && w.s.looping
    ensures w.s.clockDelta == 1400000001
    ensures w.s.tlsdatePid == 3 && Armed(w, false, false, false, true, false)
    ensures w.children == map[3 := Child(true, false, None)]
  {
    var u := SampleSet();
    Append(Sample, SampleStart, u, SetterReply(Clocks(Some(1400000102), Some(101)), 1400000102));
    w := OnSetterReply(u, Clocks(Some(1400000102), Some(101)), 1400000102);
  }

  /**
    The lost wake is real: after one synchronisation the clock jumps ahead by 20000 seconds, and a
    wake with the draw INT_MIN leaves nothing scheduled.
   */
  lemma LostWake() returns (w: World, clocks: Clocks)
    ensures Sample.Valid() && Reachable(Sample, w) && w.s.looping
    ensures var v := Next(Sample, w, Wake(clocks, 1400020200, INT_MIN)); v.s.syncType != Net && !Outstanding(v)
  {
    var u := SampleReply();
    Append(Sample, SampleStart, u, ChildExits(3, 0));
    var v := OnChildExits(u, 3, 0);
    Append(Sample, SampleStart, v, Reap(3));
    w := OnReap(Sample, v, 3);
    SampleReachable(w);
    clocks := Clocks(Some(1400020200), Some(199));
    Runs.NoWakeLost(Sample, w, clocks, 1400020200, INT_MIN);
  }

  /**
    The lost time is real: the pipe is full when the network time is due, and from then on a wake
    finds the clock in sync and nothing sends the time.
   */
  lemma LostTime() returns (w: World)
    ensures Sample.Valid() && Reachable(Sample, w) && Delivery.Delivered(w)
    ensures w.s.syncType == Net && w.s.lastTime in w.heard
    ensures var v := Next(Sample, w, SaveReady(SaveIo(false, Full, Full)));
            && v.s.looping && v.setter.alive && !Delivery.Delivered(v)
            && Next(Sample, v, Wake(Clocks(Some(1400000003), Some(12)), 1400000003, 0)) == v
  {
    w := SampleAnswer();
    SampleReachable(w);
    Delivery.StepDelivers(Sample, w, SaveReady(SaveIo(false, Full, Full)));
  }

  lemma SampleTerminated() returns (w: World)
    ensures CanReach(Sample, SampleStart, w) && w.s.looping && w.setter.alive && w.s.exiting && w.s.pending.save
    ensures w.s.syncType == Net && w.s.lastTime == 1500000000 && w.heard == [1400000100]
    ensures w.savePipe == [] && w.setter.saved == []
  {
    var u := SampleAnswer();
    Append(Sample, SampleStart, u, Terminate(1500000000));
    w := OnTerminate(Sample, u, 1500000000);
  }

  lemma SampleLeaving() returns (w: World)
    ensures CanReach(Sample, SampleStart, w) && w.setter.alive && w.heard == [1400000100]
    ensures w.savePipe == [1500000000, 0] && w.setter.saved == []
  {
    var u := SampleTerminated();
    Append(Sample, SampleStart, u, SaveReady(AllWritten));
    w := OnSaveReady(u, AllWritten);
  }

  /** SIGTERM after a synchronisation puts the local clock on disk, here a time no child ever wrote. */
  lemma LocalClockIsSaved() returns (w: World)
    ensures Sample.Valid() && Reachable(Sample, w)
    ensures 1500000000 in w.setter.saved && 1500000000 !in w.heard
  {
    var u := SampleLeaving();
    Append(Sample, SampleStart, u, SetterReads(AllWell));
    w := OnSetterReads(Sample, u, AllWell);
    assert w.setter.saved == [1500000000];
    SampleReachable(w);
  }
}
