/** The privileged coprocess that sets the clock and writes the timestamp file. */
module Setter {
  import opened Settings
  import opened Timestamp
  import Daemon

  /** How the system calls of one iteration turn out; `junk` is the reply to an out-of-range time. */
  datatype Outcome = Outcome(setOk: bool, rtcOk: bool, saveOk: bool, junk: int)

  /** `clock` and `saved` list every settimeofday() and every timestamp written, in order. */
  datatype Coprocess = Coprocess(
    alive: bool,
    died: Option<int>,       // the status it died with
    clock: seq<int>,
    saved: seq<int>,
    file: seq<octet>)

  /** Why a setter did not start: the timestamp file could not be opened and was perhaps removed, or no sandbox. */
  datatype Failure = CannotOpen(removed: bool) | NoSandbox

  function FailureStatus(f: Failure): int {
    if f.CannotOpen? then Daemon.SETTER_NO_SAVE else Daemon.SETTER_NO_SBOX
  }

  /** The file is opened only to save to it. */
  predicate CanFail(c: Config, f: Failure) {
    f.CannotOpen? ==> SavesToDisk(c)
  }

  /** The coprocess when it enters its loop, or its end when it fails before. */
  function Spawn(c: Config, file: seq<octet>, failure: Option<Failure>): Coprocess {
    if failure.Some? && CanFail(c, failure.value)
    then Coprocess(false, Some(FailureStatus(failure.value)), [], [],
                   if failure.value == CannotOpen(true) then [] else file)
    else Coprocess(true, None, [], [], file)
  }

  function Magnitude(m: int): nat {
    if m < 0 then -m else m
  }

  predicate SavesToDisk(c: Config) {
    c.shouldSaveDisk && !c.dryRun
  }

  function Die(p: Coprocess, status: int): (Coprocess, int) {
    (p.(alive := false, died := Some(status)), status)
  }

  /** One message: the coprocess afterwards and its reply. */
  function Handle(c: Config, p: Coprocess, m: int, o: Outcome): (Coprocess, int) {
    var t := Magnitude(m);
    if t == 0 then Die(p, Daemon.SETTER_EXIT)
    else if !c.IsSane(t) then (p, o.junk)
    else if c.dryRun then (p, Daemon.SETTER_TIME_SET)
    else if !o.setOk then Die(p, Daemon.SETTER_SET_ERR)
    else
      var p1 := p.(clock := p.clock + [t]);
      if c.syncHwclock && !o.rtcOk then Die(p1, Daemon.SETTER_NO_RTC)
      else if m < 0 || !SavesToDisk(c) then (p1, Daemon.SETTER_TIME_SET)
      else if !o.saveOk then Die(p1, Daemon.SETTER_NO_SAVE)
      else (p1.(saved := p1.saved + [t], file := Write(p1.file, Encode(t))), Daemon.SETTER_TIME_SET)
  }

  /** The clock settings a message sequence asks for: sane magnitudes before the first 0. */
  function ClockSettings(c: Config, ms: seq<int>): seq<int> {
    if ms == [] || ms[0] == 0 then []
    else (if c.IsSane(Magnitude(ms[0])) then [Magnitude(ms[0])] else []) + ClockSettings(c, ms[1..])
  }

  /** The times a message sequence asks to save: sane positive messages before the first 0. */
  function DiskSaves(c: Config, ms: seq<int>): seq<int> {
    if ms == [] || ms[0] == 0 then []
    else (if c.IsSane(ms[0]) then [ms[0]] else []) + DiskSaves(c, ms[1..])
  }

  lemma {:induction false} SettingsAppend(c: Config, ms: seq<int>, m: int)
    requires 0 !in ms
    ensures ClockSettings(c, ms + [m]) == ClockSettings(c, ms) + ClockSettings(c, [m])
    ensures DiskSaves(c, ms + [m]) == DiskSaves(c, ms) + DiskSaves(c, [m])
  {
    if ms == [] {
      assert ms + [m] == [m];
    } else {
      assert (ms + [m])[1..] == ms[1..] + [m];
      SettingsAppend(c, ms[1..], m);
    }
  }
}
