/** Constants, build options and C arithmetic shared by the daemon modules. */
module Settings {
  datatype Option<+T> = None | Some(value: T)

  const INT_MAX: int := 0x7fff_ffff
  const INT_MIN: int := -0x8000_0000
  const TWO_32: int := 0x1_0000_0000

  type int32 = x: int | INT_MIN <= x <= INT_MAX

  const MAX_DATE: int := 1999991337
  const RESOLVER_TIMEOUT: int := 30
  const CONTINUITY_INTERVAL: int := 60 * 60 * 4
  const MAX_SANE_BACKOFF: int := 10 * 60

  /** The part of `struct opts` and of the process set-up the event handlers read. */
  datatype Config = Config(
    compileDate: nat,        // RECENT_COMPILE_DATE, fixed when the program is built
    maxTries: int,
    waitBetweenTries: int,
    subprocessWait: int,
    shouldLoadDisk: bool,
    shouldSaveDisk: bool,
    dryRun: bool,
    syncHwclock: bool,
    hasResolver: bool,       // whether an E_RESOLVER event was created
    setterPid: nat)
  {
    predicate IsSane(t: int) {
      compileDate < t < MAX_DATE
    }

    /** Non-negative waits that fit an `int`, at least one try, a build date before the last sane date. */
    predicate Valid() {
      && compileDate + 1 < MAX_DATE
      && 1 <= maxTries <= INT_MAX
      && 1 <= waitBetweenTries <= INT_MAX - RESOLVER_TIMEOUT
      && 0 <= subprocessWait <= INT_MAX
      && setterPid != 0
    }
  }

  /** Conversion to `uint32_t`. */
  function ToUint(x: int): nat {
    x % TWO_32
  }

  /** Conversion of a `uint32_t` expression to `int`: values above INT_MAX turn negative. */
  function ToInt(x: int): int32 {
    var u := ToUint(x);
    if u <= INT_MAX then u else u - TWO_32
  }

  /** `abs` on a two's complement machine: the most negative value is its own absolute value. */
  function Abs(n: int32): int32 {
    if n == INT_MIN then INT_MIN else if n < 0 then -n else n
  }

  /** C's `%`: the remainder takes the sign of the dividend. */
  function Rem(a: int, b: int): int
    requires 0 < b
  {
    if a < 0 then -((-a) % b) else a % b
  }
}
