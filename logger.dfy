/** The client's log-level gate and the persisted store holding the current level. */
module Logger {
  import opened Wrappers

  datatype LogLevel = Trace | Debug | Info | Warn | Error | Off

  /** `LEVELS`. */
  function Rank(l: LogLevel): (n: nat)
    ensures n <= 5
  {
    match l
    case Trace => 0
    case Debug => 1
    case Info => 2
    case Warn => 3
    case Error => 4
    case Off => 5
  }

  /** `shouldLog(messageLevel, currentLevel)`. */
  predicate ShouldLog(message: LogLevel, current: LogLevel) {
    Rank(message) >= Rank(current)
  }

  /** The ranks order the levels strictly, so no two levels share a rank. */
  lemma RankInjective(a: LogLevel, b: LogLevel)
    ensures Rank(a) == Rank(b) <==> a == b
  {
  }

  /** `'off'` lets no message through; `'error'` messages pass at every other level. */
  lemma OffSilencesErrorPasses(message: LogLevel, current: LogLevel)
    requires message != Off
    ensures !ShouldLog(message, Off)
    ensures current != Off ==> ShouldLog(Error, current)
  {
  }

  /** Lowering the current level never silences a message that passed. */
  lemma ShouldLogMonotone(message: LogLevel, current: LogLevel, lower: LogLevel)
    requires Rank(lower) <= Rank(current)
    ensures ShouldLog(message, current) ==> ShouldLog(message, lower)
  {
  }

  /** The level before any is persisted: `'trace'` in development, `'off'` otherwise. */
  function InitialLevel(persisted: Option<LogLevel>, dev: bool): (l: LogLevel)
    ensures persisted.Some? ==> l == persisted.value
    ensures persisted.None? ==> (l == Trace <==> dev) && (l == Off <==> !dev)
  {
    if persisted.Some? then persisted.value else if dev then Trace else Off
  }

  /** The zustand store `useLoggerStore`. */
  class LoggerStore {
    var level: LogLevel

    constructor(persisted: Option<LogLevel>, dev: bool)
      ensures level == InitialLevel(persisted, dev)
    {
      level := InitialLevel(persisted, dev);
    }

    /** `logger.trace` … `logger.error`: whether the message reaches the console. */
    method Log(message: LogLevel) returns (emitted: bool)
      requires message != Off
      ensures emitted <==> Rank(message) >= Rank(level)
    {
      emitted := ShouldLog(message, level);
    }

    /** `logger.enable(level = 'debug')`. */
    method Enable(l: LogLevel := Debug)
      modifies this
      ensures level == l
    {
      level := l;
    }

    /** `logger.disable()`: nothing is logged afterwards. */
    method Disable()
      modifies this
      ensures level == Off
      ensures forall m :: m != Off ==> !ShouldLog(m, level)
    {
      level := Off;
    }
  }
}
