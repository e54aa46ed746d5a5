/** The supervisor for processes that initialize before serving: a main goroutine
    that runs the transport and a watcher that races its completion. */
module InitializedRun {
  import opened Wrappers
  import opened Trace

  /** The caller's goroutine. */
  datatype Main =
    | Called
    | RejectedNotCleared            // context already cancelled, setReady(false) is next
    | Accepted                      // context live at the check
    | Readied                       // setReady(true) written, watcher not started
    | Calling                       // run is about to be called
    | Running
    | RunDone(err: Err)             // run returned, finished not yet closed
    | FinishedClosed(err: Err)
    | Cleared(err: Err)
    | CancelledOwn(err: Err)
    | Returned(exit: Exit)

  /** The watcher goroutine. */
  datatype Watcher = Absent | Waiting | SawCancel | WroteFalse | Gone

  datatype State = State(
    main: Main, watcher: Watcher, parentCancelled: bool, runCancelled: bool, finished: bool, log: Log)

  const START := State(Called, Absent, false, false, false, Empty)

  datatype Label =
    | CheckContext | RefuseReadiness | RaiseReadiness | StartWatcher | CallRun | RunReturns(err: Err)
    | CloseFinished | ClearReadiness | CancelRun | Return
    | WatchCancel | WatchFinished | WatcherClears | WatcherCancels
    | CancelParent

  function Write(s: State, value: bool): State {
    s.(log := Snoc(s.log, Ready(value)))
  }

  function Cancel(s: State): State {
    if s.runCancelled then s else s.(runCancelled := true, log := Snoc(s.log, ServeCancelled))
  }

  predicate Enabled(s: State, l: Label) {
    match l
    case CheckContext => s.main.Called?
    case RefuseReadiness => s.main.RejectedNotCleared?
    case RaiseReadiness => s.main.Accepted?
    case StartWatcher => s.main.Readied?
    case CallRun => s.main.Calling?
    case RunReturns(_) => s.main.Running?
    case CloseFinished => s.main.RunDone?
    case ClearReadiness => s.main.FinishedClosed?
    case CancelRun => s.main.Cleared?
    case Return => s.main.CancelledOwn?
    case WatchCancel => s.watcher.Waiting? && s.parentCancelled
    case WatchFinished => s.watcher.Waiting? && s.finished
    case WatcherClears => s.watcher.SawCancel?
    case WatcherCancels => s.watcher.WroteFalse?
    case CancelParent => true
  }

  function Apply(s: State, l: Label): State
    requires Enabled(s, l)
  {
    match l
    case CheckContext => s.(main := if s.parentCancelled then RejectedNotCleared else Accepted)
    case RefuseReadiness => Write(s, false).(main := Returned(Invalid))
    case RaiseReadiness => Write(s, true).(main := Readied)
    case StartWatcher => s.(main := Calling, watcher := Waiting)
    case CallRun => s.(main := Running, log := Snoc(s.log, ServeStarted))
    case RunReturns(err) => s.(main := RunDone(err), log := Snoc(s.log, ServeReturned(err)))
    case CloseFinished => s.(main := FinishedClosed(s.main.err), finished := true)
    case ClearReadiness => Write(s, false).(main := Cleared(s.main.err))
    case CancelRun => Cancel(s).(main := CancelledOwn(s.main.err))
    case Return => s.(main := Returned(ServeResult(s.main.err)))
    case WatchCancel => s.(watcher := SawCancel)
    case WatchFinished => s.(watcher := Gone)
    case WatcherClears => Write(s, false).(watcher := WroteFalse)
    case WatcherCancels => Cancel(s).(watcher := Gone)
    case CancelParent => s.(parentCancelled := true)
  }

  function Exec(s: State, run: seq<Label>): Option<State> {
    if run == [] then Some(s)
    else
      var n := |run| - 1;
      var prefix := Exec(s, run[..n]);
      if prefix.Some? && Enabled(prefix.value, run[n]) then Some(Apply(prefix.value, run[n])) else None
  }

  /** The readiness writes of a history, oldest first. */
  function Writes(log: Log): seq<bool> {
    match log
    case Empty => []
    case Snoc(before, Ready(value)) => Writes(before) + [value]
    case Snoc(before, _) => Writes(before)
  }

  /** One true, then only falses. */
  predicate RaisedOnce(writes: seq<bool>) {
    |writes| > 0 && writes[0] && forall i :: 0 < i < |writes| ==> !writes[i]
  }

  /** The writes so far, as an automaton for: false, or true followed by falses. */
  datatype Phase = Unwritten | Refused | Raised | Lowered | Broken

  function NextPhase(phase: Phase, value: bool): Phase {
    match phase
    case Unwritten => if value then Raised else Refused
    case Raised => if value then Broken else Lowered
    case Lowered => if value then Broken else Lowered
    case _ => Broken
  }

  function WritePhase(log: Log): Phase {
    match log
    case Empty => Unwritten
    case Snoc(before, last) => if last.Ready? then NextPhase(WritePhase(before), last.value) else WritePhase(before)
  }

  /** What a phase says about a sequence of writes. */
  predicate Describes(phase: Phase, writes: seq<bool>) {
    && (phase.Unwritten? <==> writes == [])
    && (phase.Refused? <==> writes == [false])
    && (phase.Raised? <==> writes == [true])
    && (phase.Lowered? <==> RaisedOnce(writes) && |writes| > 1)
  }

  lemma DescribesNext(phase: Phase, writes: seq<bool>, value: bool)
    requires Describes(phase, writes)
    ensures Describes(NextPhase(phase, value), writes + [value])
  {
    var longer := writes + [value];
    assert longer[|writes|] == value;
    assert forall i :: 0 <= i < |writes| ==> longer[i] == writes[i];
  }

  lemma {:induction false} PhaseMeaning(log: Log)
    ensures Describes(WritePhase(log), Writes(log))
  {
    if log.Snoc? {
      PhaseMeaning(log.before);
      if log.last.Ready? {
        DescribesNext(WritePhase(log.before), Writes(log.before), log.last.value);
      }
    }
  }

  predicate BeforeRaise(m: Main) {
    m.Called? || m.RejectedNotCleared? || m.Accepted?
  }

  /** The main goroutine has written its final false. */
  predicate PastFinalWrite(m: Main) {
    m.Cleared? || m.CancelledOwn? || (m.Returned? && m.exit.ServeResult?)
  }

  predicate BeforeRun(m: Main) {
    BeforeRaise(m) || m.Readied? || m.Calling? || m == Returned(Invalid)
  }

  predicate WritesCoherent(s: State) {
    var phase := WritePhase(s.log);
    && (BeforeRaise(s.main) ==> phase.Unwritten?)
    && (s.main == Returned(Invalid) ==> phase.Refused?)
    && (!BeforeRaise(s.main) && s.main != Returned(Invalid) ==> phase.Raised? || phase.Lowered?)
    && (PastFinalWrite(s.main) || s.watcher.WroteFalse? || s.runCancelled ==> phase.Lowered?)
    && (ReadyAfter(s.log) <==> phase.Raised?)
    && (BeforeRaise(s.main) || s.main == Returned(Invalid) || s.main.Readied? ==> s.watcher.Absent?)
    && (s.main.Returned? ==> s.main.exit.ServeResult? || s.main.exit == Invalid)
  }

  predicate RunCoherent(s: State) {
    && (Started(s.log) <==> !BeforeRun(s.main))
    && (s.main.RunDone? || s.main.FinishedClosed? || s.main.Cleared? || s.main.CancelledOwn? ==>
          ServeOutcome(s.log) == Some(s.main.err))
    && (s.main.Returned? && s.main.exit.ServeResult? ==> ServeOutcome(s.log) == Some(s.main.exit.err))
    && s.runCancelled == Cancelled(s.log)
    && CancelledOnlyWhenNotReady(s.log)
    && NeverReadyAfterCancel(s.log)
  }

  predicate Inv(s: State) {
    WritesCoherent(s) && RunCoherent(s)
  }

  /** The labels of the main goroutine; the others belong to the watcher or the caller. */
  predicate OfMain(l: Label) {
    || l.CheckContext? || l.RefuseReadiness? || l.RaiseReadiness? || l.StartWatcher? || l.CallRun?
    || l.RunReturns? || l.CloseFinished? || l.ClearReadiness? || l.CancelRun? || l.Return?
  }

  lemma {:induction false} MainKeepsWrites(s: State, l: Label)
    requires Inv(s) && Enabled(s, l) && OfMain(l)
    ensures WritesCoherent(Apply(s, l))
  {
  }

  lemma {:induction false} MainKeepsRun(s: State, l: Label)
    requires Inv(s) && Enabled(s, l) && OfMain(l)
    ensures RunCoherent(Apply(s, l))
  {
  }

  lemma {:induction false} WatcherKeeps(s: State, l: Label)
    requires Inv(s) && Enabled(s, l) && !OfMain(l)
    ensures WritesCoherent(Apply(s, l)) && RunCoherent(Apply(s, l))
  {
  }

  lemma InvStep(s: State, l: Label)
    requires Inv(s) && Enabled(s, l)
    ensures Inv(Apply(s, l))
  {
    if OfMain(l) {
      MainKeepsWrites(s, l);
      MainKeepsRun(s, l);
    } else {
      WatcherKeeps(s, l);
    }
  }

  lemma {:induction false} InvAlways(run: seq<Label>)
    requires Exec(START, run).Some?
    ensures Inv(Exec(START, run).value)
  {
    if run != [] {
      var n := |run| - 1;
      InvAlways(run[..n]);
      InvStep(Exec(START, run[..n]).value, run[n]);
    }
  }

  /** For every race of the watcher against completion: a refused call writes a single
      false and never runs; otherwise readiness is raised once and every later write is
      false, at least one of them written before the call returns; and the run context is
      never cancelled while readiness is up and run is executing. */
  lemma ReadinessProtocol(run: seq<Label>)
    requires Exec(START, run).Some?
    ensures var s := Exec(START, run).value;
            && (s.main.Returned? ==>
                  match s.main.exit
                  case Invalid => Writes(s.log) == [false] && !Started(s.log)
                  case ServeResult(err) => RaisedOnce(Writes(s.log)) && |Writes(s.log)| > 1
                      && ServeOutcome(s.log) == Some(err)
                  case StartupTimeout(_) => false)
            && (s.main.Returned? || s.runCancelled ==> !ReadyAfter(s.log))
            && CancelledOnlyWhenNotReady(s.log)
            && NeverReadyAfterCancel(s.log)
  {
    InvAlways(run);
    PhaseMeaning(Exec(START, run).value.log);
  }

  lemma Then(s: State, run: seq<Label>, l: Label)
    requires Exec(s, run).Some? && Enabled(Exec(s, run).value, l)
    ensures Exec(s, run + [l]) == Some(Apply(Exec(s, run).value, l))
  {
    assert (run + [l])[..|run|] == run;
  }

  lemma Extend(run: seq<Label>, l: Label) returns (longer: seq<Label>)
    requires Exec(START, run).Some? && Enabled(Exec(START, run).value, l)
    ensures Exec(START, longer) == Some(Apply(Exec(START, run).value, l))
  {
    Then(START, run, l);
    longer := run + [l];
  }

  lemma CancelledBeforeRun() returns (run: seq<Label>)
    ensures Exec(START, run).Some?
    ensures Exec(START, run).value.(log := Empty) == State(Calling, SawCancel, true, false, false, Empty)
  {
    run := Extend([], CheckContext);
    run := Extend(run, RaiseReadiness);
    run := Extend(run, StartWatcher);
    run := Extend(run, CancelParent);
    run := Extend(run, WatchCancel);
  }

  /** The watcher may still write false after the call has returned. */
  lemma WatcherMayWriteLate() returns (before: seq<Label>, after: seq<Label>)
    ensures Exec(START, before).Some? && Exec(START, before).value.main.Returned?
    ensures Exec(START, after).Some?
            && Exec(START, after).value.log == Snoc(Exec(START, before).value.log, Ready(false))
  {
    before := CancelledBeforeRun();
    before := Extend(before, CallRun);
    before := Extend(before, RunReturns(NoError));
    before := Extend(before, CloseFinished);
    before := Extend(before, ClearReadiness);
    before := Extend(before, CancelRun);
    before := Extend(before, Return);
    after := Extend(before, WatcherClears);
  }

  /** The watcher has neither left nor written yet. */
  predicate MayStillWrite(w: Watcher) {
    w.Waiting? || w.SawCancel?
  }

  /** A step after the call has returned: only the watcher's clear writes, and it writes false. */
  lemma StepAfterReturn(s: State, l: Label)
    requires s.main.Returned? && Enabled(s, l)
    ensures Apply(s, l).main.Returned?
    ensures Writes(Apply(s, l).log) == if l.WatcherClears? then Writes(s.log) + [false] else Writes(s.log)
    ensures MayStillWrite(Apply(s, l).watcher) <==> MayStillWrite(s.watcher) && !l.WatcherClears? && !l.WatchFinished?
    ensures l.WatcherClears? ==> MayStillWrite(s.watcher)
  {
  }

  /** After the call has returned, no continuation adds more than one write, and the one
      it may add is false. */
  lemma {:induction false} AtMostOneLateWrite(s: State, run: seq<Label>)
    requires s.main.Returned? && Exec(s, run).Some?
    ensures var t := Exec(s, run).value;
            && t.main.Returned?
            && (MayStillWrite(t.watcher) ==> MayStillWrite(s.watcher) && Writes(t.log) == Writes(s.log))
            && (Writes(t.log) == Writes(s.log) || (MayStillWrite(s.watcher)
                && Writes(t.log) == Writes(s.log) + [false]))
  {
    if run != [] {
      var n := |run| - 1;
      AtMostOneLateWrite(s, run[..n]);
      StepAfterReturn(Exec(s, run[..n]).value, run[n]);
    }
  }

  /** A late write is possible exactly while the watcher waits or has seen the cancellation
      without having written. */
  lemma LateWriteIff(s: State)
    requires s.main.Returned?
    ensures (exists run :: Exec(s, run).Some? && Writes(Exec(s, run).value.log) != Writes(s.log)) <==>
              MayStillWrite(s.watcher)
  {
    forall run | Exec(s, run).Some?
          && Writes(Exec(s, run).value.log) != Writes(s.log) ensures MayStillWrite(s.watcher) {
      AtMostOneLateWrite(s, run);
    }
    if MayStillWrite(s.watcher) {
      var run: seq<Label> := [];
      if s.watcher.Waiting? {
        Then(s, run, CancelParent);
        run := run + [CancelParent];
        Then(s, run, WatchCancel);
        run := run + [WatchCancel];
      }
      Then(s, run, WatcherClears);
      run := run + [WatcherClears];
      assert Exec(s, run).Some? && Writes(Exec(s, run).value.log) != Writes(s.log);
    }
  }
}
