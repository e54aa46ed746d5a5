/** The observable history of one service process: readiness writes, the life of
    the serve goroutine, probe rounds and the return of the supervisor, oldest
    event innermost. Supervisors are judged by predicates over this history. */
module Trace {
  import opened Wrappers

  /** A Go error value. ServerClosed stands for http.ErrServerClosed. */
  datatype Err = NoError | ServerClosed | Failure(message: string) | Wrapped(prefix: string, cause: Err)

  /** What a supervisor hands back to its caller. */
  datatype Exit =
    | Invalid
    | ServeResult(err: Err)
    | StartupTimeout(unavailable: seq<string>)

  datatype Event =
    | Ready(value: bool)
    | ParentCancelled
    | ServeStarted
    | ServeCancelled
    | ServeReturned(err: Err)
    | ResultReceived(err: Err)
    | RoundStarted(startup: bool, elapsed: int)
    | RoundFinished(failing: seq<string>)
    | ListenerServing
    | ListenerStopped
    | ListenerResultReceived
    | ShutdownBegun
    | SupervisorReturned(exit: Exit)

  datatype Log = Empty | Snoc(before: Log, last: Event)

  /** The most recent readiness write; a process that wrote nothing is not ready. */
  predicate ReadyAfter(log: Log) {
    match log
    case Empty => false
    case Snoc(before, Ready(value)) => value
    case Snoc(before, _) => ReadyAfter(before)
  }

  predicate Started(log: Log) {
    log.Snoc? && (log.last.ServeStarted? || Started(log.before))
  }

  predicate Cancelled(log: Log) {
    log.Snoc? && (log.last.ServeCancelled? || Cancelled(log.before))
  }

  predicate ParentGone(log: Log) {
    log.Snoc? && (log.last.ParentCancelled? || ParentGone(log.before))
  }

  /** Serve's result was received from a serve that had been told to stop. */
  predicate ReceivedAfterCancel(log: Log) {
    log.Snoc? && ((log.last.ResultReceived? && Cancelled(log.before)) || ReceivedAfterCancel(log.before))
  }

  /** The error serve returned, once it has. */
  function ServeOutcome(log: Log): Option<Err> {
    match log
    case Empty => None
    case Snoc(before, ServeReturned(err)) => Some(err)
    case Snoc(before, _) => ServeOutcome(before)
  }

  /** How many times serve's result was received. */
  function Receipts(log: Log): nat {
    match log
    case Empty => 0
    case Snoc(before, last) => Receipts(before) + if last.ResultReceived? then 1 else 0
  }

  /** The failing names of the most recently completed probe round. */
  function LastRound(log: Log): Option<seq<string>> {
    match log
    case Empty => None
    case Snoc(before, RoundFinished(failing)) => Some(failing)
    case Snoc(before, _) => LastRound(before)
  }

  /** How many startup rounds began. */
  function StartupRounds(log: Log): nat {
    match log
    case Empty => 0
    case Snoc(before, last) => StartupRounds(before) + if last.RoundStarted? && last.startup then 1 else 0
  }

  /** How many of them began less than `limit` after startup did. */
  function StartupRoundsWithin(log: Log, limit: int): nat {
    match log
    case Empty => 0
    case Snoc(before, last) =>
      StartupRoundsWithin(before, limit) + if last.RoundStarted? && last.startup && last.elapsed < limit then 1 else 0
  }

  /** Whenever the serve context was cancelled, readiness had been cleared or
      serve had already returned. */
  predicate CancelledOnlyWhenNotReady(log: Log) {
    match log
    case Empty => true
    case Snoc(before, last) =>
      && CancelledOnlyWhenNotReady(before)
      && (last.ServeCancelled? ==> !ReadyAfter(before) || ServeOutcome(before).Some?)
  }

  /** Once the serve context is cancelled, readiness is never raised again. */
  predicate NeverReadyAfterCancel(log: Log) {
    match log
    case Empty => true
    case Snoc(before, last) =>
      NeverReadyAfterCancel(before) && (Cancelled(before) ==> last != Ready(true))
  }

  /** Every receive got the one result serve sent, and no result was received twice. */
  predicate ReceivedOnce(log: Log) {
    match log
    case Empty => true
    case Snoc(before, last) =>
      && ReceivedOnce(before)
      && (last.ResultReceived? ==> Receipts(before) == 0 && ServeOutcome(before) == Some(last.err))
  }

  /** The supervisor returned only with serve over, its result received, readiness
      down, and an exit value that is serve's own result or a startup timeout
      naming the probes that failed last. */
  predicate ReturnedDrained(log: Log) {
    match log
    case Empty => true
    case Snoc(before, SupervisorReturned(exit)) =>
      && ReturnedDrained(before)
      && !ReadyAfter(before)
      && (!Started(before) ==> exit == Invalid)
      && (Started(before) ==>
            && ServeOutcome(before).Some?
            && Receipts(before) == 1
            && Cancelled(before)
            && ExitExplained(before, exit))
    case Snoc(before, _) => ReturnedDrained(before)
  }

  /** A drained serve without error is a clean exit only if the parent was cancelled;
      otherwise it is a startup timeout. */
  predicate ExitExplained(log: Log, exit: Exit) {
    match exit
    case Invalid => false
    case ServeResult(err) =>
      ServeOutcome(log) == Some(err) && (err == NoError && ReceivedAfterCancel(log) ==> ParentGone(log))
    case StartupTimeout(names) =>
      && names != [] && LastRound(log) == Some(names)
      && ServeOutcome(log) == Some(NoError) && ReceivedAfterCancel(log)
  }

  /** Readiness is raised only straight from a completed round without failures. */
  predicate RaisedByCleanRound(log: Log) {
    match log
    case Empty => true
    case Snoc(before, last) =>
      RaisedByCleanRound(before) && (last == Ready(true) ==> LastRound(before) == Some([]))
  }

  /** An HTTP shutdown begins only with readiness cleared and the context cancelled. */
  predicate ShutdownAfterReadinessCleared(log: Log) {
    match log
    case Empty => true
    case Snoc(before, last) =>
      && ShutdownAfterReadinessCleared(before)
      && (last.ShutdownBegun? ==> !ReadyAfter(before) && Cancelled(before) && ServeOutcome(before).None?)
  }

  predicate ListenerUp(log: Log) {
    log.Snoc? && (log.last.ListenerServing? || ListenerUp(log.before))
  }

  predicate ListenerOver(log: Log) {
    log.Snoc? && (log.last.ListenerStopped? || ListenerOver(log.before))
  }

  function ListenerReceipts(log: Log): nat {
    match log
    case Empty => 0
    case Snoc(before, last) => ListenerReceipts(before) + if last.ListenerResultReceived? then 1 else 0
  }

  /** Serve returns only after the accept loop it started has ended and its result
      has been received, and receives that result at most once. */
  predicate ListenerDrained(log: Log) {
    match log
    case Empty => true
    case Snoc(before, last) =>
      && ListenerDrained(before)
      && (last.ListenerResultReceived? ==> ListenerReceipts(before) == 0 && ListenerOver(before))
      && (last.ServeReturned? && ListenerUp(before) ==> ListenerReceipts(before) == 1)
  }
}
