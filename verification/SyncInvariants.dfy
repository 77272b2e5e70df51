/** What every run keeps: attempts, wakes, children, retry credit and backoff. */
module SyncInvariants {
  import opened Settings
  import opened Daemon
  import opened Setter
  import opened World

  /** A synchronisation attempt is under way, scheduled, or has an answer waiting to be read. */
  predicate Outstanding(w: World) {
    || w.s.running
    || w.s.pending.tlsdate
    || (w.s.pending.status && w.monitor != [])
  }

  predicate ChildrenOk(c: Config, w: World) {
    && (w.s.running <==> w.s.tlsdatePid != 0)
    && w.s.tlsdatePid != c.setterPid
    && w.children.Keys == (if w.s.running then {w.s.tlsdatePid} else {})
    && (w.s.running ==> w.s.pending.timeout || w.children[w.s.tlsdatePid].killed)
  }

  predicate AttemptsOk(c: Config, w: World) {
    && 0 <= w.s.tries <= c.maxTries
    && (w.s.syncType == Net ==> w.s.tries == 0)
    && (w.s.tries > 0 ==> Outstanding(w))
    && (w.s.running && w.s.tries > 0 ==> w.s.pending.status)
    && (forall pid :: pid in w.children ==>
          && (w.children[pid].exited == Some(0) ==> w.children[pid].wrote)
          && (w.children[pid].wrote && w.s.tries > 0 ==> w.monitor != []))
  }

  predicate CreditOk(w: World) {
    w.ledger.launches == w.s.tries + w.ledger.credits
  }

  /** `wait` doubled `k` times. */
  function Doubled(wait: nat, k: nat): nat {
    if k == 0 then wait else 2 * Doubled(wait, k - 1)
  }

  /** The first exponent from `k` on at which the doubled wait reaches MAX_SANE_BACKOFF. */
  function Doublings(wait: nat, k: nat := 0): (r: nat)
    requires 1 <= wait && 1 <= Doubled(wait, k)
    ensures k <= r && Doubled(wait, r) >= MAX_SANE_BACKOFF
    ensures k < r ==> Doubled(wait, r - 1) < MAX_SANE_BACKOFF
    decreases MAX_SANE_BACKOFF - Doubled(wait, k)
  {
    if Doubled(wait, k) >= MAX_SANE_BACKOFF then k else Doublings(wait, k + 1)
  }

  /** The wait after `failures` failed exits. */
  function Backoff(wait: nat, failures: nat): nat
    requires 1 <= wait
  {
    Doubled(wait, if failures < Doublings(wait) then failures else Doublings(wait))
  }

  predicate BackoffOk(c: Config, w: World)
    requires c.Valid()
  {
    w.s.backoff == Backoff(c.waitBetweenTries, w.ledger.failures)
  }

  predicate Inv(c: Config, w: World) {
    c.Valid() && ChildrenOk(c, w) && AttemptsOk(c, w) && CreditOk(w) && BackoffOk(c, w)
  }

  // ---- backoff arithmetic ----

  function Pow2(k: nat): nat {
    if k == 0 then 1 else 2 * Pow2(k - 1)
  }

  lemma {:induction false} DoubledIsPower(wait: nat, k: nat)
    ensures Doubled(wait, k) == wait * Pow2(k)
  {
    if k > 0 { DoubledIsPower(wait, k - 1); }
  }

  lemma {:induction false} DoubledGrows(wait: nat, j: nat, k: nat)
    requires j <= k
    ensures wait <= Doubled(wait, j) <= Doubled(wait, k)
    decreases j + k
  {
    if j < k { DoubledGrows(wait, j, k - 1); }
    else if j > 0 { DoubledGrows(wait, j - 1, j - 1); }
  }

  lemma {:induction false} BackoffBounds(wait: nat, failures: nat)
    requires 1 <= wait
    ensures 1 <= Backoff(wait, failures) <= (if wait > 1198 then wait else 1198)
    ensures DoubledBackoff(Backoff(wait, failures)) == Backoff(wait, failures + 1)
  {
    var k := Doublings(wait);
    DoubledGrows(wait, k, k);
    if failures < k { DoubledGrows(wait, failures, k - 1); }
  }

  // ---- steps that only nudge the schedule ----

  /** `v` differs from `w` as after a wake, a reply or a message: no child, answer or retry is touched. */
  predicate Nudged(w: World, v: World) {
    && v.children == w.children && v.monitor == w.monitor
    && Rescheduled(w.s, v.s)
    && v.ledger == Credited(w.ledger, w.s, v.s)
  }

  /** The scheduling fields of `t` differ from those of `s` at most by one wake. */
  predicate Rescheduled(s: State, t: State) {
    && t.running == s.running && t.tlsdatePid == s.tlsdatePid && t.backoff == s.backoff
    && t.pending.timeout == s.pending.timeout && t.pending.status == s.pending.status
    && (s.pending.tlsdate ==> t.pending.tlsdate)
    && (t.syncType == Net ==> s.syncType == Net)
    && (t.tries == s.tries || 0 <= t.tries == s.tries - 1)
  }

  lemma ScheduleReschedules(c: Config, s: State, delay: int)
    ensures Rescheduled(s, Schedule(c, s, delay))
  {
  }

  lemma WakeNudges(c: Config, w: World, r: Clocks, now: nat, draw: int32)
    ensures Nudged(w, OnWake(c, w, r, now, draw))
  {
    ScheduleReschedules(c, ForgetDelta(w.s, r, now), KickoffDelay(w.s, r, draw));
  }

  lemma SteadyStateNudges(c: Config, w: World, now: nat, r: Clocks, later: nat, draw: int32)
    ensures Nudged(w, OnSteadyState(c, w, now, r, later, draw))
  {
    var s1 := InvalidateTime(w.s, now);
    ScheduleReschedules(c, ForgetDelta(s1, r, later), KickoffDelay(s1, r, draw));
  }

  lemma SetTimeReschedules(c: Config, s: State, arg: Option<int>, r0: Clocks, now0: nat,
                           r1: Clocks, now1: nat, draw: int32)
    ensures Rescheduled(s, SetTime(c, s, arg, r0, now0, r1, now1, draw).0)
  {
    if arg.Some? && c.IsSane(arg.value) {
      var s0 := ForgetDelta(s, r0, now0);
      assert Rescheduled(s, s0);
      if s0.clockDelta == 0 {
        ScheduleReschedules(c, Trigger(c, s0.(lastTime := arg.value, syncType := Platform), ESave, -1), 0);
      }
    }
  }

  lemma SaveNudges(w: World, io: SaveIo)
    ensures Nudged(w, OnSaveReady(w, io))
  {
  }

  lemma ReplyNudges(w: World, r: Clocks, now: nat)
    ensures Nudged(w, OnSetterReply(w, r, now))
    ensures Nudged(w, OnCanSetTime(w, r, now))
  {
  }

  lemma ResolverNudges(c: Config, w: World, answer: bool)
    ensures Nudged(w, OnResolverDue(c, w, answer))
  {
    var v := OnResolverDue(c, w, answer);
    if w.s.pending.resolver {
      var p := w.s.pending.(resolver := false);
      assert v.s == if answer then w.s.(pending := p.(tlsdate := true, delay := p.delay[ETlsdate := 1]))
                    else w.s.(resolving := true, pending := p);
    }
  }

  lemma AnswerNudges(c: Config, w: World)
    ensures Nudged(w, OnResolverAnswer(c, w))
  {
  }

  lemma TerminateNudges(c: Config, w: World, now: nat)
    ensures Nudged(w, OnTerminate(c, w, now))
  {
  }

  lemma ReadNudges(c: Config, w: World, o: Outcome)
    ensures Nudged(w, OnSetterReads(c, w, o))
  {
  }

  lemma NudgedInv(c: Config, w: World, v: World)
    requires Inv(c, w) && Nudged(w, v)
    ensures Inv(c, v)
  {
  }

  // ---- steps of the attempt itself ----

  lemma LaunchKeepsChildren(c: Config, w: World, fork: Option<nat>)
    requires c.Valid() && ChildrenOk(c, w)
    ensures ChildrenOk(c, OnTlsdateDue(c, w, fork))
  {
  }

  lemma LaunchKeepsAttempts(c: Config, w: World, fork: Option<nat>)
    requires c.Valid() && ChildrenOk(c, w) && AttemptsOk(c, w)
    ensures AttemptsOk(c, OnTlsdateDue(c, w, fork))
  {
  }

  lemma LaunchKeepsCredit(c: Config, w: World, fork: Option<nat>)
    requires c.Valid() && CreditOk(w)
    ensures CreditOk(OnTlsdateDue(c, w, fork))
  {
  }

  lemma LaunchKeepsBackoff(c: Config, w: World, fork: Option<nat>)
    requires c.Valid() && BackoffOk(c, w)
    ensures BackoffOk(c, OnTlsdateDue(c, w, fork))
  {
  }

  lemma LaunchInv(c: Config, w: World, fork: Option<nat>)
    requires Inv(c, w)
    ensures Inv(c, OnTlsdateDue(c, w, fork))
  {
    LaunchKeepsChildren(c, w, fork);
    LaunchKeepsAttempts(c, w, fork);
    LaunchKeepsCredit(c, w, fork);
    LaunchKeepsBackoff(c, w, fork);
  }

  lemma StatusKeepsChildren(c: Config, w: World)
    requires c.Valid() && ChildrenOk(c, w)
    ensures ChildrenOk(c, OnStatusReady(c, w))
  {
    AnswerKeepsChild(c, Fire(w.s, EStatus), if w.monitor == [] then Again else Time(w.monitor[0]));
  }

  lemma AnswerKeepsChild(c: Config, s: State, r: Response)
    requires !r.Broken?
    ensures var t := Daemon.Status(c, s, r);
            t.running == s.running && t.tlsdatePid == s.tlsdatePid && t.pending.timeout == s.pending.timeout
  {
  }

  lemma StatusKeepsAttempts(c: Config, w: World)
    requires c.Valid() && AttemptsOk(c, w)
    ensures AttemptsOk(c, OnStatusReady(c, w))
  {
  }

  lemma StatusKeepsLedger(c: Config, w: World)
    requires c.Valid() && CreditOk(w) && BackoffOk(c, w)
    ensures var v := OnStatusReady(c, w); CreditOk(v) && BackoffOk(c, v)
  {
  }

  lemma StatusInv(c: Config, w: World)
    requires Inv(c, w)
    ensures Inv(c, OnStatusReady(c, w))
  {
    StatusKeepsChildren(c, w);
    StatusKeepsAttempts(c, w);
    StatusKeepsLedger(c, w);
  }

  lemma TimeoutInv(c: Config, w: World)
    requires Inv(c, w)
    ensures Inv(c, OnTimeoutDue(w))
  {
  }

  lemma StoppedInv(c: Config, w: World, pid: nat)
    requires Inv(c, w)
    ensures Inv(c, OnChildStopped(c, w, pid))
  {
  }

  /** A failed exit re-arms E_TLSDATE exactly when its delay fits an `int`. */
  lemma RetryArmed(c: Config, s: State, pid: nat, status: int)
    requires pid == s.tlsdatePid != c.setterPid && status != 0
    ensures var t := ChildDeath(c, s, pid, status);
            t.pending.tlsdate <==> (t.backoff + if c.hasResolver then 30 else 0) % 0x1_0000_0000 < 0x8000_0000
  {
  }

  lemma ReapKeepsChildren(c: Config, w: World, pid: nat)
    requires c.Valid() && ChildrenOk(c, w) && CreditOk(w)
    ensures var v := OnReap(c, w, pid); ChildrenOk(c, v) && CreditOk(v)
  {
  }

  lemma ReapKeepsAttempts(c: Config, w: World, pid: nat)
    requires c.Valid() && ChildrenOk(c, w) && AttemptsOk(c, w)
    requires DoubledBackoff(w.s.backoff) <= INT_MAX - RESOLVER_TIMEOUT
    ensures AttemptsOk(c, OnReap(c, w, pid))
  {
    if pid in w.children && w.children[pid].exited.Some? && w.children[pid].exited.value != 0 {
      RetryArmed(c, w.s, pid, w.children[pid].exited.value);
    }
  }

  lemma ReapKeepsBackoff(c: Config, w: World, pid: nat)
    requires c.Valid() && ChildrenOk(c, w) && BackoffOk(c, w)
    ensures BackoffOk(c, OnReap(c, w, pid))
  {
    BackoffBounds(c.waitBetweenTries, w.ledger.failures);
  }

  lemma ReapInv(c: Config, w: World, pid: nat)
    requires Inv(c, w)
    ensures Inv(c, OnReap(c, w, pid))
  {
    BackoffBounds(c.waitBetweenTries, w.ledger.failures);
    BackoffBounds(c.waitBetweenTries, w.ledger.failures + 1);
    ReapKeepsChildren(c, w, pid);
    ReapKeepsAttempts(c, w, pid);
    ReapKeepsBackoff(c, w, pid);
  }

  lemma WritesInv(c: Config, w: World, pid: nat, t: nat)
    requires Inv(c, w)
    ensures Inv(c, OnChildWrites(w, pid, t))
  {
  }

  lemma ExitsInv(c: Config, w: World, pid: nat, status: int)
    requires Inv(c, w)
    ensures Inv(c, OnChildExits(w, pid, status))
  {
  }

  /** The steps after which only the schedule may have moved. */
  predicate Nudge(step: Step) {
    || step.Wake? || step.SteadyState? || step.DBusSetTime? || step.DBusCanSetTime? || step.SetterReads?
    || step.SaveReady? || step.ResolverDue? || step.ResolverAnswer? || step.Terminate? || step.SetterReply?
  }

  lemma SetTimeNudges(c: Config, w: World, arg: Option<int>, r0: Clocks, now0: nat,
                      r1: Clocks, now1: nat, draw: int32)
    ensures Nudged(w, OnSetTime(c, w, arg, r0, now0, r1, now1, draw))
  {
    SetTimeReschedules(c, w.s, arg, r0, now0, r1, now1, draw);
  }

  lemma SameNudges(w: World)
    ensures Nudged(w, w)
  {
  }

  lemma StepNudges(c: Config, w: World, step: Step)
    requires Nudge(step)
    ensures Nudged(w, Next(c, w, step))
  {
    SameNudges(w);
    match step
    case Wake(r, now, draw) => WakeNudges(c, w, r, now, draw);
    case SteadyState(now, r, later, draw) => SteadyStateNudges(c, w, now, r, later, draw);
    case DBusSetTime(arg, r0, now0, r1, now1, draw) => SetTimeNudges(c, w, arg, r0, now0, r1, now1, draw);
    case SaveReady(io) => SaveNudges(w, io);
    case ResolverDue(answer) => ResolverNudges(c, w, answer);
    case ResolverAnswer => AnswerNudges(c, w);
    case SetterReply(r, now) => ReplyNudges(w, r, now);
    case DBusCanSetTime(r, now) => ReplyNudges(w, r, now);
    case Terminate(now) => TerminateNudges(c, w, now);
    case SetterReads(o) => ReadNudges(c, w, o);
  }

  lemma StepInv(c: Config, w: World, step: Step)
    requires Inv(c, w)
    ensures Inv(c, Next(c, w, step))
  {
    match step
    case TlsdateDue(fork) => LaunchInv(c, w, fork);
    case StatusReady => StatusInv(c, w);
    case Reap(pid) => ReapInv(c, w, pid);
    case TimeoutDue => TimeoutInv(c, w);
    case ChildStopped(pid) => StoppedInv(c, w, pid);
    case ChildWrites(pid, t) => WritesInv(c, w, pid, t);
    case ChildExits(pid, status) => ExitsInv(c, w, pid, status);
    case _ =>
      StepNudges(c, w, step);
      NudgedInv(c, w, Next(c, w, step));
  }
}
