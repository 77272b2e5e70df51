/** The promises of tlsdated, stated over every run of the daemon and its children. */
module Runs {
  import opened Settings
  import opened Daemon
  import opened Setter
  import opened World
  import opened SyncInvariants
  import T = SetterInvariants
  import Timestamp

  // ---- both invariants hold in every reachable world ----

  lemma StartSync(c: Config, now: nat, file: Option<seq<Timestamp.octet>>, failure: Option<Failure>,
                  reading: Clocks, draw: int32)
    requires c.Valid()
    ensures Inv(c, Start(c, now, file, failure, reading, draw))
  {
    ScheduleReschedules(c, StartState(c, now, Timestamp.Load(c, file)), 0);
  }

  lemma StartTimes(c: Config, now: nat, file: Option<seq<Timestamp.octet>>, failure: Option<Failure>,
                   reading: Clocks, draw: int32)
    requires c.Valid()
    ensures T.Inv(c, Start(c, now, file, failure, reading, draw))
  {
    T.ScheduleKeepsTime(c, StartState(c, now, Timestamp.Load(c, file)), 0);
  }

  lemma {:induction false} ExecInv(c: Config, w: World, steps: seq<Step>)
    requires Inv(c, w) && T.Inv(c, w)
    ensures Inv(c, Exec(c, w, steps)) && T.Inv(c, Exec(c, w, steps))
    decreases |steps|
  {
    if steps != [] {
      StepInv(c, w, steps[0]);
      T.StepInv(c, w, steps[0]);
      ExecInv(c, Next(c, w, steps[0]), steps[1..]);
    }
  }

  lemma ReachableInv(c: Config, w: World)
    requires c.Valid() && Reachable(c, w)
    ensures Inv(c, w) && T.Inv(c, w)
  {
    var now, file, failure, reading, draw, steps :|
      w == Exec(c, Start(c, now, file, failure, reading, draw), steps);
    StartSync(c, now, file, failure, reading, draw);
    StartTimes(c, now, file, failure, reading, draw);
    ExecInv(c, Start(c, now, file, failure, reading, draw), steps);
  }

  // ---- attempts and wakes ----

  lemma NoAttemptLost(c: Config, w: World)
    requires c.Valid() && Reachable(c, w)
    ensures w.s.tries > 0 ==> Outstanding(w)
    ensures w.s.running && w.s.tries > 0 ==> w.s.pending.status
    ensures w.s.syncType == Net ==> w.s.tries == 0
  {
    ReachableInv(c, w);
  }

  /** The jitter stays within its bounds except for the one draw whose absolute value overflows. */
  lemma JitterRange(base: int, jitter: nat, draw: int32)
    requires jitter > 0
    ensures base - jitter <= AddJitter(base, jitter, draw) < base + jitter
            <==> (draw != -0x8000_0000 || 0x8000_0000 % (2 * jitter) == 0)
  {
  }

  /** Every delay in that range comes up. */
  lemma JitterCovers(base: int, jitter: nat, x: int)
    requires base - jitter <= x < base + jitter && 2 * jitter <= INT_MAX
    ensures AddJitter(base, jitter, x - base + jitter) == x
  {
    SmallRemainder(x - base + jitter, 2 * jitter);
  }

  lemma SmallRemainder(k: nat, n: nat)
    requires k < n
    ensures k % n == k
  {
  }

  /** The wakes that do get lost: a clock jump, nothing under way, no resolver, and that draw. */
  predicate WakeLost(c: Config, w: World, reading: Clocks, draw: int32) {
    && draw == -0x8000_0000
    && !c.hasResolver
    && !Outstanding(w)
    && Desync(w.s.clockDelta, reading)
  }

  lemma DelaySign(s: State, reading: Clocks, draw: int32)
    ensures -RESOLVER_TIMEOUT <= KickoffDelay(s, reading, draw)
    ensures KickoffDelay(s, reading, draw) >= 0 <==> !(Desync(s.clockDelta, reading) && draw == INT_MIN)
  {
    JitterRange(30, 30, draw);
  }

  lemma ScheduleArms(c: Config, s: State, delay: int)
    requires s.syncType != Net && s.tries == 0 && -RESOLVER_TIMEOUT <= delay
    ensures var t := Schedule(c, s, delay);
            t.pending.tlsdate <==> s.pending.tlsdate || c.hasResolver || delay >= 0
  {
    if c.hasResolver {
      assert Trigger(c, s, ETlsdate, delay + RESOLVER_TIMEOUT).pending.tlsdate;
    } else {
      assert Trigger(c, s, ETlsdate, delay).pending.tlsdate <==> delay >= 0;
    }
  }

  /** After a wake the clock is in sync or an attempt is outstanding, unless the wake is one of the lost. */
  lemma NoWakeLost(c: Config, w: World, reading: Clocks, now: nat, draw: int32)
    requires c.Valid() && Reachable(c, w) && w.s.looping
    ensures var v := Next(c, w, Wake(reading, now, draw));
            (v.s.syncType == Net || Outstanding(v)) <==> !WakeLost(c, w, reading, draw)
  {
    ReachableInv(c, w);
    KickoffOutcome(c, w, w.s, reading, now, draw);
  }

  lemma NoSteadyStateWakeLost(c: Config, w: World, now: nat, reading: Clocks, later: nat, draw: int32)
    requires c.Valid() && Reachable(c, w) && w.s.looping
    ensures Outstanding(Next(c, w, SteadyState(now, reading, later, draw))) <==> !WakeLost(c, w, reading, draw)
  {
    ReachableInv(c, w);
    KickoffOutcome(c, w, InvalidateTime(w.s, now), reading, later, draw);
  }

  lemma KickoffOutcome(c: Config, w: World, s: State, reading: Clocks, now: nat, draw: int32)
    requires Inv(c, w) && Rescheduled(w.s, s) && s.tries == w.s.tries && s.clockDelta == w.s.clockDelta
    requires s.pending.tlsdate == w.s.pending.tlsdate
    ensures var v := w.(s := Kickoff(c, s, reading, now, draw));
            && (v.s.syncType == Net ==> s.syncType == Net && !Desync(s.clockDelta, reading))
            && ((v.s.syncType == Net || Outstanding(v)) <==> !WakeLost(c, w, reading, draw))
  {
    var s1, delay := ForgetDelta(s, reading, now), KickoffDelay(s, reading, draw);
    DelaySign(s, reading, draw);
    ScheduleReschedules(c, s1, delay);
    T.ScheduleKeepsTime(c, s1, delay);
    if s1.syncType != Net && s1.tries == 0 { ScheduleArms(c, s1, delay); }
  }

  // ---- children ----

  lemma ChildDiscipline(c: Config, w: World)
    requires c.Valid() && Reachable(c, w)
    ensures w.s.running <==> w.s.tlsdatePid != 0
    ensures |w.children| <= 1
    ensures w.s.running ==> w.s.tlsdatePid in w.children
    ensures w.s.running ==> w.s.pending.timeout || w.children[w.s.tlsdatePid].killed
    ensures var v := Next(c, w, TimeoutDue);
            v.children != w.children ==> w.s.running && v.children == Kill(w.children, w.s.tlsdatePid)
  {
    ReachableInv(c, w);
    assert |w.children| == |w.children.Keys|;
  }

  lemma RetryCredit(c: Config, w: World)
    requires c.Valid() && Reachable(c, w)
    ensures 0 <= w.s.tries <= c.maxTries
    ensures w.ledger.launches == w.s.tries + w.ledger.credits
    ensures w.ledger.launches <= c.maxTries + w.ledger.credits
  {
    ReachableInv(c, w);
  }

  /** `backoff` is the configured wait times a power of two, capped at the first step past the limit. */
  lemma BackoffClosedForm(c: Config, w: World)
    requires c.Valid() && Reachable(c, w)
    ensures var k, n := Doublings(c.waitBetweenTries), w.ledger.failures;
            && w.s.backoff == c.waitBetweenTries * Pow2(if n < k then n else k)
            && c.waitBetweenTries * Pow2(k) >= 600
            && (k > 0 ==> c.waitBetweenTries * Pow2(k - 1) < 600)
    ensures w.s.backoff <= if c.waitBetweenTries > 1198 then c.waitBetweenTries else 1198
  {
    ReachableInv(c, w);
    PowersOfTwo(c.waitBetweenTries, w.ledger.failures);
    BackoffBounds(c.waitBetweenTries, w.ledger.failures);
  }

  lemma {:induction false} PowersOfTwo(wait: nat, n: nat)
    requires 1 <= wait
    ensures var k := Doublings(wait);
            && Backoff(wait, n) == wait * Pow2(if n < k then n else k)
            && wait * Pow2(k) >= MAX_SANE_BACKOFF
            && (k > 0 ==> wait * Pow2(k - 1) < MAX_SANE_BACKOFF)
  {
    var k := Doublings(wait);
    DoubledIsPower(wait, if n < k then n else k);
    DoubledIsPower(wait, k);
    if k > 0 { DoubledIsPower(wait, k - 1); }
  }

  // ---- from the daemon to the clock and the disk ----

  lemma {:induction false} MsgsLength(sent: seq<Sent>)
    ensures |T.Msgs(sent)| == |sent|
    ensures forall i :: 0 <= i < |sent| ==> T.Msgs(sent)[i] == sent[i].msg
  {
    if sent != [] { MsgsLength(sent[..|sent| - 1]); }
  }

  /** Every request is in the save pipe, or answered in the notify pipe, or its answer was handled. */
  lemma OneReplyPerRequest(c: Config, w: World)
    requires c.Valid() && Reachable(c, w)
    requires w.setter.died.None? || w.consumed != []   // the setter did start
    ensures |w.sent| == |w.savePipe| + |w.notifyPipe| + w.acked
  {
    ReachableInv(c, w);
    MsgsLength(w.sent);
  }

  lemma {:induction false} SettingsCut(c: Config, a: seq<int>, b: seq<int>)
    requires 0 in a
    ensures ClockSettings(c, a + b) == ClockSettings(c, a)
    ensures DiskSaves(c, a + b) == DiskSaves(c, a)
  {
    if a[0] != 0 {
      assert (a + b)[1..] == a[1..] + b;
      SettingsCut(c, a[1..], b);
    }
  }

  /** The clock shows, in order, the sane magnitudes of what was sent before the first shutdown message. */
  lemma ClockFollowsDaemon(c: Config, w: World)
    requires c.Valid() && Reachable(c, w) && !c.dryRun
    ensures T.Msgs(w.sent) == w.consumed + w.savePipe
    ensures w.setter.died != Some(SETTER_SET_ERR) ==> w.setter.clock == ClockSettings(c, w.consumed)
    ensures w.setter.died == Some(SETTER_EXIT) && w.consumed != [] ==>
              && w.setter.clock == ClockSettings(c, T.Msgs(w.sent))
              && w.setter.saved == if c.shouldSaveDisk then DiskSaves(c, T.Msgs(w.sent)) else []
  {
    ReachableInv(c, w);
    if w.setter.died == Some(SETTER_EXIT) && w.consumed != [] {
      assert w.consumed[|w.consumed| - 1] in w.consumed;
      SettingsCut(c, w.consumed, w.savePipe);
    }
  }

  /** The sane times sent before the first shutdown message, in order. */
  function SentTimes(c: Config, sent: seq<Sent>): seq<int> {
    if sent == [] || sent[0].msg == 0 then []
    else (if c.IsSane(sent[0].lastTime) then [sent[0].lastTime] else []) + SentTimes(c, sent[1..])
  }

  /** Those among them that were sent while the type was NET. */
  function SentNetTimes(c: Config, sent: seq<Sent>): seq<int> {
    if sent == [] || sent[0].msg == 0 then []
    else
      var r := sent[0];
      (if c.IsSane(r.lastTime) && r.syncType == Net then [r.lastTime] else []) + SentNetTimes(c, sent[1..])
  }

  lemma {:induction false} SettingsAreSentTimes(c: Config, sent: seq<Sent>, ms: seq<int>)
    requires |ms| == |sent| && forall i :: 0 <= i < |sent| ==> T.Faithful(sent[i]) && ms[i] == sent[i].msg
    ensures ClockSettings(c, ms) == SentTimes(c, sent) && DiskSaves(c, ms) == SentNetTimes(c, sent)
    decreases |sent|
  {
    if sent != [] {
      assert T.Faithful(sent[0]) && ms[0] == sent[0].msg;
      forall i | 0 <= i < |sent| - 1 ensures T.Faithful(sent[1..][i]) && ms[1..][i] == sent[1..][i].msg {
        assert sent[1..][i] == sent[i + 1];
      }
      SettingsAreSentTimes(c, sent[1..], ms[1..]);
    }
  }

  lemma {:induction false} SentPrefix(sent: seq<Sent>, ms: seq<int>, rest: seq<int>)
    requires ms + rest == T.Msgs(sent)
    ensures |ms| <= |sent| && forall i :: 0 <= i < |ms| ==> ms[i] == sent[i].msg
  {
    MsgsLength(sent);
    forall i | 0 <= i < |ms| ensures ms[i] == sent[i].msg {
      assert ms[i] == (ms + rest)[i];
    }
  }

  lemma {:induction false} PrefixOfSent(c: Config, w: World, ms: seq<int>)
    requires T.PipesOk(w) && ms <= w.consumed
    ensures |ms| <= |w.sent|
    ensures ClockSettings(c, ms) == SentTimes(c, w.sent[..|ms|])
    ensures DiskSaves(c, ms) == SentNetTimes(c, w.sent[..|ms|])
  {
    var rest := w.consumed[|ms|..] + w.savePipe;
    assert ms + rest == w.consumed + w.savePipe;
    SentPrefix(w.sent, ms, rest);
    SettingsAreSentTimes(c, w.sent[..|ms|], ms);
  }

  /**
    The clock settings are, one for one and in order, the sane values `last_time` had when the messages
    read so far were sent, and the saves are those of them sent while the type was NET.
   */
  lemma {:induction false} ClockValuesWereSent(c: Config, w: World)
    requires c.Valid() && Reachable(c, w) && !c.dryRun
    ensures var n, k := |T.Applied(w.setter, w.consumed)|, |T.Stored(w.setter, w.consumed)|;
            && k <= n <= |w.consumed| <= |w.sent| && |w.consumed| <= k + 1
            && w.setter.clock == SentTimes(c, w.sent[..n])
            && w.setter.saved == if c.shouldSaveDisk then SentNetTimes(c, w.sent[..k]) else []
  {
    ReachableInv(c, w);
    PrefixOfSent(c, w, w.consumed);
    PrefixOfSent(c, w, T.Applied(w.setter, w.consumed));
    PrefixOfSent(c, w, T.Stored(w.setter, w.consumed));
  }

  lemma {:induction false} NetTimesWereSent(c: Config, sent: seq<Sent>, t: int)
    requires t in SentNetTimes(c, sent)
    ensures c.IsSane(t)
    ensures exists i :: 0 <= i < |sent| && sent[i].lastTime == t && sent[i].syncType == Net
  {
    if !(c.IsSane(sent[0].lastTime) && sent[0].syncType == Net && sent[0].lastTime == t) {
      NetTimesWereSent(c, sent[1..], t);
      var i :| 0 <= i < |sent| - 1 && sent[1..][i].lastTime == t && sent[1..][i].syncType == Net;
      assert sent[i + 1] == sent[1..][i];
    }
  }

  /** Every saved time is sane and was held with type NET when it was sent. */
  lemma {:induction false} SavedWhileNet(c: Config, w: World, t: int)
    requires c.Valid() && Reachable(c, w) && t in w.setter.saved
    ensures c.IsSane(t)
    ensures exists i :: 0 <= i < |w.sent| && w.sent[i].lastTime == t && w.sent[i].syncType == Net
  {
    ReachableInv(c, w);
    var ms := T.Stored(w.setter, w.consumed);
    PrefixOfSent(c, w, ms);
    PrefixTimes(c, w.sent, |ms|, t);
  }

  lemma {:induction false} PrefixTimes(c: Config, sent: seq<Sent>, k: nat, t: int)
    requires k <= |sent| && t in SentNetTimes(c, sent[..k])
    ensures c.IsSane(t)
    ensures exists i :: 0 <= i < |sent| && sent[i].lastTime == t && sent[i].syncType == Net
  {
    NetTimesWereSent(c, sent[..k], t);
    var i :| 0 <= i < k && sent[..k][i].lastTime == t && sent[..k][i].syncType == Net;
    assert sent[i] == sent[..k][i];
  }

  // ---- the time held ----

  lemma TimeIsSane(c: Config, w: World)
    requires c.Valid() && Reachable(c, w)
    ensures !w.s.exiting && w.s.syncType != Rtc ==> c.IsSane(w.s.lastTime)
  {
    ReachableInv(c, w);
  }

  // ---- continuity ----

  /** The handled reply or the detected jump that may change the reference of the continuity check. */
  predicate Resyncs(c: Config, w: World, step: Step) {
    && w.s.looping
    && match step
       case SetterReply(_, _) =>
         w.notifyPipe != [] && w.notifyPipe[0] == SETTER_TIME_SET && w.s.syncType == Net
       case Wake(r, _, _) => Desync(w.s.clockDelta, r)
       case SteadyState(_, r, _, _) => !AlreadyInvalid(w.s) && Desync(w.s.clockDelta, r)
       case DBusCanSetTime(r, _) => Desync(w.s.clockDelta, r)
       case DBusSetTime(arg, r, _, _, _, _) => arg.Some? && c.IsSane(arg.value) && Desync(w.s.clockDelta, r)
       case _ => false
  }

  const Unread := Clocks(None, None)

  /** The real-minus-monotonic differences a step compares with the reference. */
  function Readings(c: Config, w: World, step: Step): seq<int> {
    if !w.s.looping then []
    else
      var r := match step
        case Wake(r, _, _) => r
        case SteadyState(_, r, _, _) => if AlreadyInvalid(w.s) then Unread else r
        case DBusCanSetTime(r, _) => r
        case DBusSetTime(arg, r, _, _, _, _) => if arg.Some? && c.IsSane(arg.value) then r else Unread
        case _ => Unread;
      if r.wall.Some? && r.monotonic.Some? then [r.wall.value - r.monotonic.value] else []
  }

  function RunReadings(c: Config, w: World, steps: seq<Step>): seq<int>
    decreases |steps|
  {
    if steps == [] then []
    else Readings(c, w, steps[0]) + RunReadings(c, Next(c, w, steps[0]), steps[1..])
  }

  predicate Quiet(c: Config, w: World, steps: seq<Step>)
    decreases |steps|
  {
    steps != [] ==> !Resyncs(c, w, steps[0]) && Quiet(c, Next(c, w, steps[0]), steps[1..])
  }

  lemma KickoffReference(c: Config, s: State, r: Clocks, now: nat, draw: int32)
    ensures var t := Kickoff(c, s, r, now, draw);
            && t.clockDelta == (if Desync(s.clockDelta, r) then 0 else s.clockDelta)
            && (Desync(s.clockDelta, r) ==> t.syncType == Rtc)
  {
    T.ScheduleKeepsTime(c, ForgetDelta(s, r, now), KickoffDelay(s, r, draw));
  }

  lemma QuietStep(c: Config, w: World, step: Step)
    requires !Resyncs(c, w, step)
    ensures Next(c, w, step).s.clockDelta == w.s.clockDelta
    ensures forall r :: r in Readings(c, w, step) && w.s.clockDelta != 0 ==>
              w.s.clockDelta - CONTINUITY_INTERVAL <= r <= w.s.clockDelta + CONTINUITY_INTERVAL
  {
    if DaemonStep(step) && !w.s.looping { return; }
    match step
    case Wake(r, now, draw) => KickoffReference(c, w.s, r, now, draw);
    case SteadyState(now, r, later, draw) => KickoffReference(c, InvalidateTime(w.s, now), r, later, draw);
    case DBusSetTime(arg, r0, now0, r1, now1, draw) => SetTimeReference(c, w.s, arg, r0, now0, r1, now1, draw);
    case TlsdateDue(fork) => T.RunKeepsTime(c, Fire(w.s, ETlsdate), fork);
    case Reap(pid) => T.ReapKeepsTime(c, w, pid);
    case SetterReply(r, now) => ReplyReference(w, r, now);
    case _ =>
  }

  lemma ReplyReference(w: World, r: Clocks, now: nat)
    requires w.notifyPipe != [] && w.s.syncType == Net ==> w.notifyPipe[0] != SETTER_TIME_SET
    ensures OnSetterReply(w, r, now).s.clockDelta == w.s.clockDelta
  {
  }

  lemma SetTimeReference(c: Config, s: State, arg: Option<int>, r0: Clocks, now0: nat,
                         r1: Clocks, now1: nat, draw: int32)
    ensures var t := SetTime(c, s, arg, r0, now0, r1, now1, draw).0;
            t.clockDelta == if arg.Some? && c.IsSane(arg.value) && Desync(s.clockDelta, r0) then 0 else s.clockDelta
  {
    if arg.Some? {
      var s1 := ForgetDelta(s, r0, now0).(lastTime := arg.value, syncType := Platform);
      KickoffReference(c, Trigger(c, s1, ESave, -1), r1, now1, draw);
    }
  }

  /**
    Between network replies and detected jumps the reference does not move, and every check
    in that stretch compares with it: small jumps cannot add up unnoticed.
   */
  lemma {:induction false} NoRatcheting(c: Config, w: World, steps: seq<Step>)
    requires Quiet(c, w, steps)
    ensures Exec(c, w, steps).s.clockDelta == w.s.clockDelta
    ensures forall r :: r in RunReadings(c, w, steps) && w.s.clockDelta != 0 ==>
              w.s.clockDelta - CONTINUITY_INTERVAL <= r <= w.s.clockDelta + CONTINUITY_INTERVAL
    decreases |steps|
  {
    if steps != [] {
      QuietStep(c, w, steps[0]);
      NoRatcheting(c, Next(c, w, steps[0]), steps[1..]);
    }
  }

  /** A jump past the interval is never passed over: the reference and the network time are dropped. */
  lemma JumpInvalidates(c: Config, w: World, step: Step)
    requires Resyncs(c, w, step) && !step.SetterReply?
    ensures var v := Next(c, w, step); v.s.clockDelta == 0 && v.s.syncType != Net
  {
    match step
    case Wake(r, now, draw) => KickoffReference(c, w.s, r, now, draw);
    case SteadyState(now, r, later, draw) => KickoffReference(c, InvalidateTime(w.s, now), r, later, draw);
    case DBusSetTime(arg, r0, now0, r1, now1, draw) => SetTimeAccepted(c, w.s, arg, r0, now0, r1, now1, draw);
    case DBusCanSetTime(_, _) =>
  }

  /** SetTime is accepted exactly for a sane time without a trusted reference, and then it sticks. */
  lemma SetTimeAccepted(c: Config, s: State, arg: Option<int>, r0: Clocks, now0: nat,
                        r1: Clocks, now1: nat, draw: int32)
    ensures var (t, reply) := SetTime(c, s, arg, r0, now0, r1, now1, draw);
            && (reply == Accepted <==>
                  && arg.Some? && c.IsSane(arg.value)
                  && (s.clockDelta == 0 || Desync(s.clockDelta, r0)))
            && (reply == Accepted ==>
                  t.lastTime == arg.value && t.syncType == Platform && t.clockDelta == 0 && t.pending.save)
            && (reply == BadCall <==> arg.None?)
            && (reply == Invalid <==> arg.Some? && !(c.compileDate < arg.value < 1999991337))
            && (reply != Accepted ==> t == s)
  {
    if arg.Some? {
      var s1 := Trigger(c, ForgetDelta(s, r0, now0).(lastTime := arg.value, syncType := Platform), ESave, -1);
      T.ScheduleKeepsTime(c, ForgetDelta(s1, r1, now1), KickoffDelay(s1, r1, draw));
    }
  }
}
