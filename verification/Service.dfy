/** The promises of tlsdated read off the object that runs the handlers. */
module Service {
  import opened Settings
  import opened Daemon
  import opened Setter
  import opened World
  import opened EventLoop
  import opened SyncInvariants
  import Runs
  import Timestamp

  /** main(): start up, kick off the first synchronisation, and run the loop. */
  method Serve(c: Config, now: nat, file: Option<seq<Timestamp.octet>>, failure: Option<Failure>,
               reading: Clocks, draw: int32, steps: seq<Step>) returns (d: Tlsdated, w: World)
    requires c.Valid()
    ensures fresh(d) && d.c == c && d.View() == w.s
    ensures w == Exec(c, Start(c, now, file, failure, reading, draw), steps)
    ensures d.tries > 0 ==> d.running || d.pending.tlsdate || (d.pending.status && w.monitor != [])
    ensures 0 <= d.tries <= c.maxTries && (d.syncType == Net ==> d.tries == 0)
    ensures d.running <==> d.tlsdatePid != 0
    ensures !d.exiting && d.syncType != Rtc ==> c.IsSane(d.lastTime)
  {
    d := new Tlsdated(c, now, file);
    d.ActionKickoff(reading, now, draw);
    w := Start(c, now, file, failure, reading, draw);
    w := d.Run(w, steps);
    assert Reachable(c, w);
    Runs.ReachableInv(c, w);
  }

  /** A wake at any time in a run: the daemon is in sync or at it, unless the wake is one of the lost. */
  method WakeUp(d: Tlsdated, w: World, clocks: Clocks, now: nat, draw: int32)
    requires d.c.Valid() && Reachable(d.c, w) && d.View() == w.s && d.looping
    modifies d
    ensures d.syncType == Net || d.running || d.pending.tlsdate || (d.pending.status && w.monitor != [])
            <==> !Runs.WakeLost(d.c, w, clocks, draw)
  {
    Runs.NoWakeLost(d.c, w, clocks, now, draw);
    d.ActionKickoff(clocks, now, draw);
  }
}
