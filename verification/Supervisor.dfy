/** The dependency supervisor as a step function over labels. A label names who
    moves: the supervisor, the serve goroutine, one probe goroutine, the clock or
    the parent context. A run is any sequence of enabled labels. */
module Supervisor {
  import opened Wrappers
  import opened Trace
  import opened Readiness
  import opened ProbeRound

  /** The arguments of one supervisor call. */
  datatype Config = Config(policy: Policy, probes: seq<Probe>)

  predicate Accepts(c: Config) {
    && Valid(c.policy)
    && c.probes != []
    && forall i :: 0 <= i < |c.probes| ==> c.probes[i].name != "" && c.probes[i].pings
  }

  /** Where the supervisor stands. */
  datatype Control =
    | Entry
    | NotReadyYet                                          // setReady(false) written, serve not started
    | ServeLaunched                                        // goroutine started, startup context not armed
    | StartupRound(running: seq<bool>, failed: seq<bool>)
    | StartupVerdict(names: seq<string>)
    | StartupSelect(names: seq<string>, fireAt: int)
    | StartupExpired(names: seq<string>)                   // startup context chosen
    | StartupDrain(names: seq<string>)                     // serve cancelled, waiting for its result
    | StartupJudgement(names: seq<string>, err: Err)
    | SteadySelect
    | SteadyRound(running: seq<bool>, failed: seq<bool>)
    | SteadyVerdict(names: seq<string>)
    | ParentDone                                           // parent cancellation chosen
    | ReadinessCleared
    | SteadyDrain
    | Unwinding(exit: Exit)                                // deferred cancelServe is next
    | LastWrite(exit: Exit)                                // deferred setReady(false) is next
    | Returning(exit: Exit)
    | Returned(exit: Exit)

  /** The goroutine around serve: it sends the one result into a one-slot channel. */
  datatype Server = NotStarted | Serving | Stopped(err: Err) | Sent

  datatype State = State(
    control: Control,
    server: Server,
    channel: seq<Err>,
    ready: bool,
    serveCancelled: bool,
    parentCancelled: bool,
    now: int,
    startedAt: int,
    retryDelay: Duration,
    rounds: nat,
    log: Log)

  function Initial(now: int): State {
    State(Entry, NotStarted, [], false, false, false, now, now, 0, 0, Empty)
  }

  /** The supervisor's own moves: opening, probing until
      ready, probing while ready, choosing to stop, leaving. */
  datatype Opening = Reject | ClearReadiness | LaunchServe | ArmStartup

  datatype Starting = JoinStartup | RaiseReadiness | ArmRetryTimer | TakeRetryTimer

  datatype Watching = TakeTick | JoinSteady | WriteVerdict

  datatype Stopping = TakeStartupDone | CancelExpired | TakeParentDone | ClearForDrain | CancelSteady

  datatype Leaving = TakeResult | WaitExpired | Judge | WaitSteady | DeferredCancel | DeferredClear | Return

  /** What happens around it. */
  datatype Happening =
    | FinishProbe(index: nat, failed: bool)
    | ServeReturns(err: Err)
    | SendResult
    | CancelParent
    | Advance(elapsed: nat)
    | ServeReports(event: Event)

  datatype Label =
    | Open(opening: Opening) | Start(starting: Starting) | Watch(watching: Watching)
    | Stop(stopping: Stopping) | Leave(leaving: Leaving) | Other(happening: Happening)

  /** Events a serve implementation may add to the history on its own. */
  predicate ServeEvent(e: Event) {
    e.ListenerServing? || e.ListenerStopped? || e.ListenerResultReceived? || e.ShutdownBegun?
  }

  function Write(s: State, value: bool): State {
    s.(ready := value, log := Snoc(s.log, Ready(value)))
  }

  /** A context cancel function: only its first call is an event. */
  function Cancel(s: State): State {
    if s.serveCancelled then s else s.(serveCancelled := true, log := Snoc(s.log, ServeCancelled))
  }

  function Receive(s: State): State
    requires s.channel != []
  {
    s.(channel := [], log := Snoc(s.log, ResultReceived(s.channel[0])))
  }

  function FreshRound(c: Config, flag: bool): seq<bool> {
    seq(|c.probes|, i => flag)
  }

  function BeginStartupRound(c: Config, s: State): State {
    s.(control := StartupRound(FreshRound(c, true), FreshRound(c, false)),
       rounds := s.rounds + 1,
       log := Snoc(s.log, RoundStarted(true, s.now - s.startedAt)))
  }

  /** wait.Wait returns: every probe goroutine of the round is done. */
  predicate AllDone(c: Config, p: Control)
    requires InRound(p)
  {
    true !in p.running && |p.failed| == |c.probes|
  }

  predicate InRound(p: Control) {
    p.StartupRound? || p.SteadyRound?
  }

  predicate StartupDone(c: Config, s: State) {
    s.parentCancelled || s.now >= s.startedAt + c.policy.startupTimeout
  }

  predicate CanOpen(c: Config, s: State, m: Opening) {
    match m
    case Reject => s.control.Entry? && !Accepts(c)
    case ClearReadiness => s.control.Entry? && Accepts(c)
    case LaunchServe => s.control.NotReadyYet?
    case ArmStartup => s.control.ServeLaunched?
  }

  predicate CanStart(c: Config, s: State, m: Starting) {
    match m
    case JoinStartup => s.control.StartupRound? && AllDone(c, s.control)
    case RaiseReadiness => s.control.StartupVerdict? && s.control.names == []
    case ArmRetryTimer => s.control.StartupVerdict? && s.control.names != []
    case TakeRetryTimer => s.control.StartupSelect? && s.now >= s.control.fireAt
  }

  predicate CanWatch(c: Config, s: State, m: Watching) {
    match m
    case TakeTick => s.control.SteadySelect?
    case JoinSteady => s.control.SteadyRound? && AllDone(c, s.control)
    case WriteVerdict => s.control.SteadyVerdict?
  }

  predicate CanStop(c: Config, s: State, m: Stopping) {
    match m
    case TakeStartupDone => s.control.StartupSelect? && StartupDone(c, s)
    case CancelExpired => s.control.StartupExpired?
    case TakeParentDone => s.control.SteadySelect? && s.parentCancelled
    case ClearForDrain => s.control.ParentDone?
    case CancelSteady => s.control.ReadinessCleared?
  }

  predicate CanLeave(s: State, m: Leaving) {
    match m
    case TakeResult => (s.control.StartupSelect? || s.control.SteadySelect?) && s.channel != []
    case WaitExpired => s.control.StartupDrain? && s.channel != []
    case Judge => s.control.StartupJudgement?
    case WaitSteady => s.control.SteadyDrain? && s.channel != []
    case DeferredCancel => s.control.Unwinding?
    case DeferredClear => s.control.LastWrite?
    case Return => s.control.Returning?
  }

  predicate CanHappen(s: State, h: Happening) {
    match h
    case FinishProbe(i, _) =>
      InRound(s.control) && i < |s.control.failed| && i < |s.control.running| && s.control.running[i]
    case ServeReturns(_) => s.server.Serving?
    case SendResult => s.server.Stopped? && |s.channel| < 1
    case CancelParent => true
    case Advance(_) => true
    case ServeReports(e) => ServeEvent(e) && (e.ShutdownBegun? ==> s.server.Serving? && s.serveCancelled)
  }

  /** A move of the supervisor adds at most one event, never one of serve's own, and
      never revives the serve context. */
  predicate OwnStep(s: State, t: State) {
    && (t.log == s.log
        || (t.log.Snoc? && t.log.before == s.log && !ServeEvent(t.log.last) && !t.log.last.ServeReturned?))
    && (s.serveCancelled ==> t.serveCancelled)
  }

  function Opened(c: Config, s: State, m: Opening): (t: State)
    requires CanOpen(c, s, m)
    ensures OwnStep(s, t)
    ensures m != LaunchServe ==> t.server == s.server
  {
    match m
    case Reject => s.(control := Returned(Invalid), log := Snoc(s.log, SupervisorReturned(Invalid)))
    case ClearReadiness => Write(s, false).(control := NotReadyYet)
    case LaunchServe => s.(control := ServeLaunched, server := Serving, log := Snoc(s.log, ServeStarted))
    case ArmStartup => BeginStartupRound(c, s.(startedAt := s.now, retryDelay := c.policy.retryMinimum))
  }

  function Advanced(c: Config, s: State, m: Starting): (t: State)
    requires CanStart(c, s, m)
    ensures OwnStep(s, t)
    ensures t.server == s.server
  {
    match m
    case JoinStartup =>
      var names := FailingNames(c.probes, s.control.failed);
      s.(control := StartupVerdict(names), log := Snoc(s.log, RoundFinished(names)))
    case RaiseReadiness => Write(s, true).(control := SteadySelect)
    case ArmRetryTimer => s.(control := StartupSelect(s.control.names, s.now + s.retryDelay))
    case TakeRetryTimer => BeginStartupRound(c, s.(retryDelay := NextDelay(c.policy, s.retryDelay)))
  }

  function Watched(c: Config, s: State, m: Watching): (t: State)
    requires CanWatch(c, s, m)
    ensures OwnStep(s, t)
    ensures t.server == s.server
  {
    match m
    case TakeTick => s.(control := SteadyRound(FreshRound(c, true), FreshRound(c, false)),
                        log := Snoc(s.log, RoundStarted(false, s.now - s.startedAt)))
    case JoinSteady =>
      var names := FailingNames(c.probes, s.control.failed);
      s.(control := SteadyVerdict(names), log := Snoc(s.log, RoundFinished(names)))
    case WriteVerdict => Write(s, s.control.names == []).(control := SteadySelect)
  }

  function Halted(c: Config, s: State, m: Stopping): (t: State)
    requires CanStop(c, s, m)
    ensures OwnStep(s, t)
    ensures t.server == s.server
  {
    match m
    case TakeStartupDone => s.(control := StartupExpired(s.control.names))
    case CancelExpired => Cancel(s).(control := StartupDrain(s.control.names))
    case TakeParentDone => s.(control := ParentDone)
    case ClearForDrain => Write(s, false).(control := ReadinessCleared)
    case CancelSteady => Cancel(s).(control := SteadyDrain)
  }

  function Left(s: State, m: Leaving): (t: State)
    requires CanLeave(s, m)
    ensures OwnStep(s, t)
    ensures t.server == s.server
  {
    match m
    case TakeResult => Receive(s).(control := Unwinding(ServeResult(s.channel[0])))
    case WaitExpired => Receive(s).(control := StartupJudgement(s.control.names, s.channel[0]))
    case Judge =>
      s.(control := Unwinding(if s.parentCancelled || s.control.err != NoError then ServeResult(s.control.err)
                              else StartupTimeout(s.control.names)))
    case WaitSteady => Receive(s).(control := Unwinding(ServeResult(s.channel[0])))
    case DeferredCancel => Cancel(s).(control := LastWrite(s.control.exit))
    case DeferredClear => Write(s, false).(control := Returning(s.control.exit))
    case Return => s.(control := Returned(s.control.exit), log := Snoc(s.log, SupervisorReturned(s.control.exit)))
  }

  function Happened(s: State, h: Happening): State
    requires CanHappen(s, h)
  {
    match h
    case FinishProbe(i, failed) =>
      var p := s.control;
      s.(control := if p.StartupRound? then StartupRound(p.running[i := false], p.failed[i := failed])
                    else SteadyRound(p.running[i := false], p.failed[i := failed]))
    case ServeReturns(err) => s.(server := Stopped(err), log := Snoc(s.log, ServeReturned(err)))
    case SendResult => s.(server := Sent, channel := s.channel + [s.server.err])
    case CancelParent =>
      if s.parentCancelled then s else s.(parentCancelled := true, log := Snoc(s.log, ParentCancelled))
    case Advance(elapsed) => s.(now := s.now + elapsed)
    case ServeReports(e) => s.(log := Snoc(s.log, e))
  }

  predicate Enabled(c: Config, s: State, l: Label) {
    match l
    case Open(m) => CanOpen(c, s, m)
    case Start(m) => CanStart(c, s, m)
    case Watch(m) => CanWatch(c, s, m)
    case Stop(m) => CanStop(c, s, m)
    case Leave(m) => CanLeave(s, m)
    case Other(h) => CanHappen(s, h)
  }

  function Apply(c: Config, s: State, l: Label): State
    requires Enabled(c, s, l)
  {
    match l
    case Open(m) => Opened(c, s, m)
    case Start(m) => Advanced(c, s, m)
    case Watch(m) => Watched(c, s, m)
    case Stop(m) => Halted(c, s, m)
    case Leave(m) => Left(s, m)
    case Other(h) => Happened(s, h)
  }

  /** The state after a run; None when some label was not enabled. */
  function Exec(c: Config, s: State, run: seq<Label>): Option<State> {
    if run == [] then Some(s)
    else
      var n := |run| - 1;
      var prefix := Exec(c, s, run[..n]);
      if prefix.Some? && Enabled(c, prefix.value, run[n]) then Some(Apply(c, prefix.value, run[n])) else None
  }

  // ---- the invariant ------------------------------------------------------

  /** Nothing of serve's result has been received yet. */
  predicate Awaiting(p: Control) {
    !p.StartupJudgement? && !p.Unwinding? && !p.LastWrite? && !p.Returning? && !p.Returned?
  }

  predicate IsLeaving(p: Control) {
    p.Unwinding? || p.LastWrite? || p.Returning?
  }

  predicate BeforeServe(p: Control) {
    p.Entry? || p.NotReadyYet? || p == Returned(Invalid)
  }

  predicate NoResultTaken(s: State) {
    Receipts(s.log) == 0
  }

  /** The serve goroutine, its channel and the history agree. */
  predicate ServeCoherent(s: State) {
    && (s.server.NotStarted? <==> BeforeServe(s.control))
    && (Started(s.log) <==> !s.server.NotStarted?)
    && (s.server.NotStarted? || s.server.Serving? ==> ServeOutcome(s.log).None? && s.channel == [] && NoResultTaken(s))
    && (s.server.Stopped? ==> ServeOutcome(s.log) == Some(s.server.err) && s.channel == [] && NoResultTaken(s))
    && (s.server.Sent? ==> ServeOutcome(s.log).Some? && |s.channel| + Receipts(s.log) == 1)
    && (s.channel != [] ==> ServeOutcome(s.log) == Some(s.channel[0]))
    && (Awaiting(s.control) ==> NoResultTaken(s))
    && (IsLeaving(s.control) ==> s.control.exit != Invalid)
    && (!Awaiting(s.control) && !s.server.NotStarted? ==> Receipts(s.log) == 1)
    && ReceivedOnce(s.log)
  }

  /** Control points at which readiness is down. */
  predicate DownAt(p: Control) {
    && !p.SteadySelect? && !p.SteadyRound? && !p.SteadyVerdict? && !p.ParentDone?
    && !p.Unwinding? && !p.LastWrite?
  }

  /** Control points at which the serve context may already be cancelled. */
  predicate CancelledAt(p: Control) {
    || p.StartupDrain? || p.StartupJudgement? || p.SteadyDrain?
    || p.Unwinding? || p.LastWrite? || p.Returning? || p.Returned?
  }

  /** Control points that are reached only through a cancel call. */
  predicate MustBeCancelledAt(p: Control) {
    p.LastWrite? || p.Returning? || p.StartupDrain? || p.SteadyDrain? || p.StartupJudgement?
  }

  predicate ReadinessCoherent(s: State) {
    && s.ready == ReadyAfter(s.log)
    && s.serveCancelled == Cancelled(s.log)
    && (DownAt(s.control) ==> !s.ready)
    && (s.serveCancelled ==> CancelledAt(s.control))
    && (MustBeCancelledAt(s.control) ==> s.serveCancelled)
    && (s.serveCancelled ==> !s.ready || ServeOutcome(s.log).Some?)
    && CancelledOnlyWhenNotReady(s.log)
    && NeverReadyAfterCancel(s.log)
    && ShutdownAfterReadinessCleared(s.log)
  }

  predicate AfterFailedStartupRound(p: Control) {
    p.StartupSelect? || p.StartupExpired? || p.StartupDrain? || p.StartupJudgement?
  }

  /** What the last completed round says at each control point. */
  predicate RoundCoherent(s: State) {
    && RaisedByCleanRound(s.log)
    && (s.control.StartupVerdict? || s.control.SteadyVerdict? ==> LastRound(s.log) == Some(s.control.names))
    && (s.control.SteadySelect? || s.control.SteadyRound? ==>
          LastRound(s.log).Some? && s.ready == (LastRound(s.log) == Some([])))
    && (AfterFailedStartupRound(s.control) ==> s.control.names != [] && LastRound(s.log) == Some(s.control.names))
    && (s.ready && !s.control.SteadyVerdict? ==> LastRound(s.log) == Some([]))
  }

  predicate ExitCoherent(s: State) {
    && s.parentCancelled == ParentGone(s.log)
    && (s.control.ParentDone? || s.control.ReadinessCleared? || s.control.SteadyDrain? ==> s.parentCancelled)
    && (s.control.StartupJudgement? ==> ServeOutcome(s.log) == Some(s.control.err) && ReceivedAfterCancel(s.log))
    && (Receipts(s.log) == 0 ==> !ReceivedAfterCancel(s.log))
    && (IsLeaving(s.control) ==> ExitExplained(s.log, s.control.exit))
    && ReturnedDrained(s.log)
  }

  predicate Inv(s: State) {
    ServeCoherent(s) && ReadinessCoherent(s) && RoundCoherent(s) && ExitCoherent(s)
  }

  lemma {:induction false} OpeningKeepsServe(c: Config, s: State, m: Opening)
    requires Inv(s) && CanOpen(c, s, m)
    ensures ServeCoherent(Opened(c, s, m))
  {
  }

  lemma {:induction false} OpeningKeepsOutcome(c: Config, s: State, m: Opening)
    requires Inv(s) && CanOpen(c, s, m)
    ensures RoundCoherent(Opened(c, s, m)) && ExitCoherent(Opened(c, s, m))
  {
  }

  lemma {:induction false} OpeningKeepsReadiness(c: Config, s: State, m: Opening)
    requires Inv(s) && CanOpen(c, s, m)
    ensures ReadinessCoherent(Opened(c, s, m))
  {
  }

  lemma {:induction false} StartingKeepsServe(c: Config, s: State, m: Starting)
    requires Inv(s) && CanStart(c, s, m)
    ensures ServeCoherent(Advanced(c, s, m))
  {
  }

  lemma {:induction false} WatchingKeepsServe(c: Config, s: State, m: Watching)
    requires Inv(s) && CanWatch(c, s, m)
    ensures ServeCoherent(Watched(c, s, m))
  {
  }

  lemma {:induction false} StartingKeepsOutcome(c: Config, s: State, m: Starting)
    requires Inv(s) && CanStart(c, s, m)
    ensures RoundCoherent(Advanced(c, s, m)) && ExitCoherent(Advanced(c, s, m))
  {
  }

  lemma {:induction false} WatchingKeepsOutcome(c: Config, s: State, m: Watching)
    requires Inv(s) && CanWatch(c, s, m)
    ensures RoundCoherent(Watched(c, s, m)) && ExitCoherent(Watched(c, s, m))
  {
  }

  lemma {:induction false} StartingKeepsReadiness(c: Config, s: State, m: Starting)
    requires Inv(s) && CanStart(c, s, m)
    ensures ReadinessCoherent(Advanced(c, s, m))
  {
  }

  lemma {:induction false} WatchingKeepsReadiness(c: Config, s: State, m: Watching)
    requires Inv(s) && CanWatch(c, s, m)
    ensures ReadinessCoherent(Watched(c, s, m))
  {
  }

  lemma {:induction false} StoppingKeepsServe(c: Config, s: State, m: Stopping)
    requires Inv(s) && CanStop(c, s, m)
    ensures ServeCoherent(Halted(c, s, m))
  {
  }

  lemma {:induction false} StoppingKeepsOutcome(c: Config, s: State, m: Stopping)
    requires Inv(s) && CanStop(c, s, m)
    ensures RoundCoherent(Halted(c, s, m)) && ExitCoherent(Halted(c, s, m))
  {
  }

  lemma {:induction false} StoppingKeepsReadiness(c: Config, s: State, m: Stopping)
    requires Inv(s) && CanStop(c, s, m)
    ensures ReadinessCoherent(Halted(c, s, m))
  {
  }

  lemma {:induction false} LeavingKeepsServe(s: State, m: Leaving)
    requires Inv(s) && CanLeave(s, m)
    ensures ServeCoherent(Left(s, m))
  {
  }

  lemma {:induction false} LeavingKeepsOutcome(s: State, m: Leaving)
    requires Inv(s) && CanLeave(s, m)
    ensures RoundCoherent(Left(s, m)) && ExitCoherent(Left(s, m))
  {
  }

  lemma {:induction false} LeavingKeepsReadiness(s: State, m: Leaving)
    requires Inv(s) && CanLeave(s, m)
    ensures ReadinessCoherent(Left(s, m))
  {
  }

  lemma {:induction false} HappeningKeepsServe(s: State, h: Happening)
    requires Inv(s) && CanHappen(s, h)
    ensures ServeCoherent(Happened(s, h))
  {
  }

  lemma {:induction false} HappeningKeepsRound(s: State, h: Happening)
    requires Inv(s) && CanHappen(s, h)
    ensures RoundCoherent(Happened(s, h))
  {
  }

  lemma {:induction false} HappeningKeepsExit(s: State, h: Happening)
    requires Inv(s) && CanHappen(s, h)
    ensures ExitCoherent(Happened(s, h))
  {
  }

  lemma {:induction false} HappeningKeepsReadiness(s: State, h: Happening)
    requires Inv(s) && CanHappen(s, h)
    ensures ReadinessCoherent(Happened(s, h))
  {
  }

  lemma {:induction false} InvStep(c: Config, s: State, l: Label)
    requires Inv(s) && Enabled(c, s, l)
    ensures Inv(Apply(c, s, l))
  {
    match l
    case Open(m) => OpeningKeepsServe(c, s, m); OpeningKeepsReadiness(c, s, m); OpeningKeepsOutcome(c, s, m);
    case Start(m) => StartingKeepsServe(c, s, m); StartingKeepsReadiness(c, s, m); StartingKeepsOutcome(c, s, m);
    case Watch(m) => WatchingKeepsServe(c, s, m); WatchingKeepsReadiness(c, s, m); WatchingKeepsOutcome(c, s, m);
    case Stop(m) => StoppingKeepsServe(c, s, m); StoppingKeepsReadiness(c, s, m); StoppingKeepsOutcome(c, s, m);
    case Leave(m) => LeavingKeepsServe(s, m); LeavingKeepsReadiness(s, m); LeavingKeepsOutcome(s, m);
    case Other(h) =>
      HappeningKeepsServe(s, h);
      HappeningKeepsReadiness(s, h);
      HappeningKeepsRound(s, h);
      HappeningKeepsExit(s, h);
  }

  lemma {:induction false} InvAlways(c: Config, now: int, run: seq<Label>)
    requires Exec(c, Initial(now), run).Some?
    ensures Inv(Exec(c, Initial(now), run).value)
  {
    if run != [] {
      var n := |run| - 1;
      InvAlways(c, now, run[..n]);
      var s := Exec(c, Initial(now), run[..n]).value;
      InvStep(c, s, run[n]);
    }
  }

  // ---- every run ------------------------------------------------------------

  /** On every interleaving, serve's context is cancelled only with readiness down
      or serve already over, and readiness is never raised afterwards. */
  lemma NeverCancelledWhileReady(c: Config, now: int, run: seq<Label>)
    requires Exec(c, Initial(now), run).Some?
    ensures var s := Exec(c, Initial(now), run).value;
            && CancelledOnlyWhenNotReady(s.log)
            && NeverReadyAfterCancel(s.log)
            && (s.serveCancelled && s.server.Serving? ==> !s.ready)
  {
    InvAlways(c, now, run);
  }

  /** Every return happens with serve over, its one result received once, readiness
      written false last, and nothing left in the channel or in the goroutine. */
  lemma ReturnsOnlyDrained(c: Config, now: int, run: seq<Label>)
    requires Exec(c, Initial(now), run).Some?
    ensures var s := Exec(c, Initial(now), run).value;
            && ReturnedDrained(s.log)
            && ReceivedOnce(s.log)
            && (s.control.Returned? && Started(s.log) ==>
                  s.server.Sent? && s.channel == [] && Receipts(s.log) == 1 && !s.ready)
            && (s.control.Returned? && !Started(s.log) ==> s.control.exit == Invalid && s.channel == [])
  {
    InvAlways(c, now, run);
  }

  /** Readiness disagrees with the last completed round only between the end of a
      failed steady round and the readiness write that is the supervisor's next move. */
  lemma ReadyUnlessVerdictPending(c: Config, now: int, run: seq<Label>)
    requires Exec(c, Initial(now), run).Some?
    ensures var s := Exec(c, Initial(now), run).value;
            && RaisedByCleanRound(s.log)
            && (s.control.SteadySelect? ==> s.ready == (LastRound(s.log) == Some([])))
            && (s.ready && LastRound(s.log) != Some([]) <==>
                  s.ready && s.control.SteadyVerdict? && s.control.names != [])
            && (s.control.SteadyVerdict? && s.control.names != [] ==>
                  CanWatch(c, s, WriteVerdict) && !Watched(c, s, WriteVerdict).ready)
  {
    InvAlways(c, now, run);
  }

  /** A run extended by one enabled label. */
  lemma ExecSnoc(c: Config, s: State, run: seq<Label>, l: Label)
    requires Exec(c, s, run).Some? && Enabled(c, Exec(c, s, run).value, l)
    ensures Exec(c, s, run + [l]) == Some(Apply(c, Exec(c, s, run).value, l))
  {
    assert (run + [l])[..|run|] == run;
  }

  const POSTGRES_ONLY: Config :=
    Config(Policy(60 * SECOND, 3 * SECOND, 5 * SECOND, 100 * MILLISECOND, 2 * SECOND),
           [Probe("postgresql", true, false)])

  /** A healthy startup: one round, one probe, no failure. */
  lemma HealthyStartup() returns (run: seq<Label>)
    ensures Exec(POSTGRES_ONLY, Initial(0), run).Some?
    ensures Exec(POSTGRES_ONLY, Initial(0), run).value.control == SteadySelect
    ensures Exec(POSTGRES_ONLY, Initial(0), run).value.ready
  {
    var c := POSTGRES_ONLY;
    assert FailingNames(c.probes, [false]) == [] by {
      NoNamesIffAllSucceeded(c.probes, [false]);
    }
    assert FreshRound(c, true) == [true] && FreshRound(c, false) == [false];
    run := Extend(c, [], Open(ClearReadiness));
    run := Extend(c, run, Open(LaunchServe));
    run := Extend(c, run, Open(ArmStartup));
    run := Extend(c, run, Other(FinishProbe(0, false)));
    run := Extend(c, run, Start(JoinStartup));
    run := Extend(c, run, Start(RaiseReadiness));
  }

  lemma Extend(c: Config, run: seq<Label>, l: Label) returns (longer: seq<Label>)
    requires Exec(c, Initial(0), run).Some? && Enabled(c, Exec(c, Initial(0), run).value, l)
    ensures Exec(c, Initial(0), longer) == Some(Apply(c, Exec(c, Initial(0), run).value, l))
  {
    longer := run + [l];
    ExecSnoc(c, Initial(0), run, l);
  }

  lemma FailingTick(run: seq<Label>) returns (longer: seq<Label>)
    requires Exec(POSTGRES_ONLY, Initial(0), run).Some?
    requires Exec(POSTGRES_ONLY, Initial(0), run).value.control == SteadySelect
    ensures Exec(POSTGRES_ONLY, Initial(0), longer).Some?
    ensures Exec(POSTGRES_ONLY, Initial(0), longer).value.control == SteadyRound([false], [true])
    ensures Exec(POSTGRES_ONLY, Initial(0), longer).value.ready == Exec(POSTGRES_ONLY, Initial(0), run).value.ready
  {
    assert FreshRound(POSTGRES_ONLY, true) == [true] && FreshRound(POSTGRES_ONLY, false) == [false];
    longer := Extend(POSTGRES_ONLY, run, Watch(TakeTick));
    longer := Extend(POSTGRES_ONLY, longer, Other(FinishProbe(0, true)));
  }

  /** That gap is reachable: one probe, healthy at startup, failing at the first tick. */
  lemma VerdictGapReachable() returns (run: seq<Label>)
    ensures Exec(POSTGRES_ONLY, Initial(0), run).Some?
    ensures Exec(POSTGRES_ONLY, Initial(0), run).value.ready
    ensures LastRound(Exec(POSTGRES_ONLY, Initial(0), run).value.log) == Some(["postgresql"])
  {
    run := HealthyStartup();
    run := FailingTick(run);
    assert FailingNames(POSTGRES_ONLY.probes, [true]) == ["postgresql"] by {
      assert FailingIndices([true][..0]) == [];
      assert FailingIndices([true]) == [0];
    }
    run := Extend(POSTGRES_ONLY, run, Watch(JoinSteady));
  }

  // ---- progress --------------------------------------------------------------

  predicate RoundShaped(c: Config, s: State) {
    && (InRound(s.control) ==> |s.control.running| == |s.control.failed| == |c.probes|)
    && (s.control.Entry? || s.control == Returned(Invalid) || Accepts(c))
  }

  lemma ShapedOpening(c: Config, s: State, m: Opening)
    requires RoundShaped(c, s) && CanOpen(c, s, m)
    ensures RoundShaped(c, Opened(c, s, m))
  {
  }

  lemma ShapedStarting(c: Config, s: State, m: Starting)
    requires RoundShaped(c, s) && CanStart(c, s, m)
    ensures RoundShaped(c, Advanced(c, s, m))
  {
  }

  lemma ShapedWatching(c: Config, s: State, m: Watching)
    requires RoundShaped(c, s) && CanWatch(c, s, m)
    ensures RoundShaped(c, Watched(c, s, m))
  {
  }

  lemma ShapedStopping(c: Config, s: State, m: Stopping)
    requires RoundShaped(c, s) && CanStop(c, s, m)
    ensures RoundShaped(c, Halted(c, s, m))
  {
  }

  lemma ShapedLeaving(c: Config, s: State, m: Leaving)
    requires RoundShaped(c, s) && CanLeave(s, m)
    ensures RoundShaped(c, Left(s, m))
  {
  }

  lemma ShapedHappening(c: Config, s: State, h: Happening)
    requires RoundShaped(c, s) && CanHappen(s, h)
    ensures RoundShaped(c, Happened(s, h))
  {
  }

  lemma RoundShapedStep(c: Config, s: State, l: Label)
    requires RoundShaped(c, s) && Enabled(c, s, l)
    ensures RoundShaped(c, Apply(c, s, l))
  {
    match l
    case Open(m) => ShapedOpening(c, s, m);
    case Start(m) => ShapedStarting(c, s, m);
    case Watch(m) => ShapedWatching(c, s, m);
    case Stop(m) => ShapedStopping(c, s, m);
    case Leave(m) => ShapedLeaving(c, s, m);
    case Other(h) => ShapedHappening(c, s, h);
  }

  lemma {:induction false} RoundShapedAlways(c: Config, now: int, run: seq<Label>)
    requires Exec(c, Initial(now), run).Some?
    ensures RoundShaped(c, Exec(c, Initial(now), run).value)
  {
    if run != [] {
      var n := |run| - 1;
      RoundShapedAlways(c, now, run[..n]);
      RoundShapedStep(c, Exec(c, Initial(now), run[..n]).value, run[n]);
    }
  }

  /** The supervisor itself can move. */
  ghost predicate CanAct(c: Config, s: State) {
    || (exists m :: CanOpen(c, s, m))
    || (exists m :: CanStart(c, s, m))
    || (exists m :: CanWatch(c, s, m))
    || (exists m :: CanStop(c, s, m))
    || (exists m :: CanLeave(s, m))
  }

  /** The supervisor is never stuck: until it returns it can act, or it waits for a
      probe that is still running, for the retry timer, or for the result of a serve
      whose context is already cancelled and which has not been received. */
  lemma NeverStuck(c: Config, now: int, run: seq<Label>)
    requires Exec(c, Initial(now), run).Some?
    ensures var s := Exec(c, Initial(now), run).value;
            || s.control.Returned?
            || CanAct(c, s)
            || (InRound(s.control) && exists i: nat :: CanHappen(s, FinishProbe(i, false)))
            || s.control.StartupSelect?
            || (s.serveCancelled && !s.ready && Receipts(s.log) == 0 && (s.server.Serving? || CanHappen(s, SendResult)))
  {
    InvAlways(c, now, run);
    RoundShapedAlways(c, now, run);
    var s := Exec(c, Initial(now), run).value;
    match s.control
    case Entry => assert CanOpen(c, s, Reject) || CanOpen(c, s, ClearReadiness);
    case NotReadyYet => assert CanOpen(c, s, LaunchServe);
    case ServeLaunched => assert CanOpen(c, s, ArmStartup);
    case StartupRound(_, _) => RoundCanEnd(c, s);
    case SteadyRound(_, _) => RoundCanEnd(c, s);
    case StartupVerdict(_) => assert CanStart(c, s, RaiseReadiness) || CanStart(c, s, ArmRetryTimer);
    case SteadyVerdict(_) => assert CanWatch(c, s, WriteVerdict);
    case StartupSelect(_, _) =>
    case StartupExpired(_) => assert CanStop(c, s, CancelExpired);
    case StartupDrain(_) => assert s.channel != [] ==> CanLeave(s, WaitExpired);
    case StartupJudgement(_, _) => assert CanLeave(s, Judge);
    case SteadySelect => assert CanWatch(c, s, TakeTick);
    case ParentDone => assert CanStop(c, s, ClearForDrain);
    case ReadinessCleared => assert CanStop(c, s, CancelSteady);
    case SteadyDrain => assert s.channel != [] ==> CanLeave(s, WaitSteady);
    case Unwinding(_) => assert CanLeave(s, DeferredCancel);
    case LastWrite(_) => assert CanLeave(s, DeferredClear);
    case Returning(_) => assert CanLeave(s, Return);
    case Returned(_) =>
  }

  lemma RoundCanEnd(c: Config, s: State)
    requires InRound(s.control) && RoundShaped(c, s)
    ensures CanStart(c, s, JoinStartup) || CanWatch(c, s, JoinSteady)
          || exists i: nat :: CanHappen(s, FinishProbe(i, false))
  {
    if true in s.control.running {
      var i: nat :| i < |s.control.running| && s.control.running[i];
      assert CanHappen(s, FinishProbe(i, false));
    }
  }

  // ---- what a round reports ---------------------------------------------------

  /** A round that has just begun. */
  predicate Fresh(c: Config, p: Control) {
    InRound(p) && p.running == FreshRound(c, true) && p.failed == FreshRound(c, false)
  }

  /** Labels from the start of a round up to its join: the probes finish in any order, each
      with its own outcome, among whatever else happens around the supervisor. */
  predicate RoundOf(run: seq<Label>, outcomes: seq<Err>) {
    forall k :: 0 <= k < |run| ==> RoundLabel(run[k], outcomes)
  }

  predicate RoundLabel(l: Label, outcomes: seq<Err>) {
    && l.Other?
    && (l.happening.FinishProbe? ==>
          l.happening.index < |outcomes| && l.happening.failed == (outcomes[l.happening.index] != NoError))
  }

  /** The finished probes have stored their outcomes, the others nothing yet. */
  predicate Stored(p: Control, outcomes: seq<Err>) {
    && InRound(p) && |p.running| == |p.failed| == |outcomes|
    && forall i :: 0 <= i < |outcomes| ==> p.failed[i] == (!p.running[i] && outcomes[i] != NoError)
  }

  lemma StoredStep(s: State, h: Happening, outcomes: seq<Err>)
    requires Stored(s.control, outcomes) && RoundLabel(Other(h), outcomes) && CanHappen(s, h)
    ensures Stored(Happened(s, h).control, outcomes)
    ensures Happened(s, h).control.StartupRound? == s.control.StartupRound?
  {
  }

  lemma {:induction false} RoundStores(c: Config, s: State, run: seq<Label>, outcomes: seq<Err>)
    requires Fresh(c, s.control) && |outcomes| == |c.probes| && RoundOf(run, outcomes) && Exec(c, s, run).Some?
    ensures var t := Exec(c, s, run).value;
            Stored(t.control, outcomes) && t.control.StartupRound? == s.control.StartupRound?
  {
    if run != [] {
      var n := |run| - 1;
      RoundStores(c, s, run[..n], outcomes);
      assert RoundLabel(run[n], outcomes);
      StoredStep(Exec(c, s, run[..n]).value, run[n].happening, outcomes);
    }
  }

  /** Whatever order its probes finish in, a round of the supervisor that can be joined is
      joined with exactly the names that ProbeRound.RunProbes returns for the same outcomes. */
  lemma RoundReports(c: Config, s: State, run: seq<Label>, outcomes: seq<Err>)
    requires Fresh(c, s.control) && |outcomes| == |c.probes| && RoundOf(run, outcomes) && Exec(c, s, run).Some?
    requires var p := Exec(c, s, run).value.control; InRound(p) && AllDone(c, p)
    ensures var t, names := Exec(c, s, run).value, FailingNames(c.probes, FailedOf(outcomes));
            if s.control.StartupRound? then CanStart(c, t, JoinStartup)
                && Advanced(c, t, JoinStartup).control == StartupVerdict(names)
            else CanWatch(c, t, JoinSteady) && Watched(c, t, JoinSteady).control == SteadyVerdict(names)
  {
    RoundStores(c, s, run, outcomes);
    var p := Exec(c, s, run).value.control;
    assert p.failed == FailedOf(outcomes) by {
      assert forall i :: 0 <= i < |p.running| ==> p.running[i] in p.running;
    }
  }

  // ---- startup timing --------------------------------------------------------

  predicate InStartup(p: Control) {
    p.StartupRound? || p.StartupVerdict? || p.StartupSelect?
  }

  /** Every startup round began after all the earlier retry delays had passed. */
  predicate Spaced(p: Policy, log: Log) {
    match log
    case Empty => true
    case Snoc(before, last) =>
      && Spaced(p, before)
      && (last.RoundStarted? && last.startup ==> Waited(p, StartupRounds(before)) <= last.elapsed)
  }

  predicate Timed(c: Config, s: State, most: int)
    requires Accepts(c)
  {
    && s.rounds == StartupRounds(s.log)
    && (s.control.Entry? || s.control.NotReadyYet? || s.control.ServeLaunched? ==> s.rounds == 0)
    && (InStartup(s.control) ==>
          && s.rounds > 0
          && s.retryDelay == Delay(c.policy, s.rounds - 1)
          && Waited(c.policy, s.rounds - 1) <= s.now - s.startedAt)
    && (s.control.StartupSelect? ==> Waited(c.policy, s.rounds) <= s.control.fireAt - s.startedAt)
    && Spaced(c.policy, s.log)
    && StartupRoundsWithin(s.log, c.policy.startupTimeout) <= s.rounds
    && StartupRoundsWithin(s.log, c.policy.startupTimeout) <= most
  }

  /** Rounds that can begin before the startup deadline. */
  function MostRounds(p: Policy): int
    requires p.retryMinimum > 0
  {
    1 + (p.startupTimeout - 1) / p.retryMinimum
  }

  lemma {:induction false} TimedRetry(c: Config, s: State, most: int)
    requires Accepts(c) && c.policy.retryMaximum < TWO_62
    requires Timed(c, s, most) && CanStart(c, s, TakeRetryTimer) && MostRounds(c.policy) <= most
    ensures Timed(c, Advanced(c, s, TakeRetryTimer), most)
  {
    if s.now - s.startedAt < c.policy.startupTimeout {
      AttemptBound(c.policy, s.rounds, s.now - s.startedAt);
    }
  }

  lemma {:induction false} TimedStarting(c: Config, s: State, m: Starting, most: int)
    requires Accepts(c) && c.policy.retryMaximum < TWO_62
    requires Timed(c, s, most) && CanStart(c, s, m) && MostRounds(c.policy) <= most
    ensures Timed(c, Advanced(c, s, m), most)
  {
    if m == TakeRetryTimer {
      TimedRetry(c, s, most);
    }
  }

  lemma {:induction false} TimedWatching(c: Config, s: State, m: Watching, most: int)
    requires Accepts(c) && Timed(c, s, most) && CanWatch(c, s, m)
    ensures Timed(c, Watched(c, s, m), most)
  {
  }

  lemma {:induction false} TimedOpening(c: Config, s: State, m: Opening, most: int)
    requires Accepts(c) && Timed(c, s, most) && CanOpen(c, s, m)
    requires 1 <= most
    ensures Timed(c, Opened(c, s, m), most)
  {
  }

  lemma {:induction false} TimedStopping(c: Config, s: State, m: Stopping, most: int)
    requires Accepts(c) && Timed(c, s, most) && CanStop(c, s, m)
    ensures Timed(c, Halted(c, s, m), most)
  {
  }

  lemma {:induction false} TimedLeaving(c: Config, s: State, m: Leaving, most: int)
    requires Accepts(c) && Timed(c, s, most) && CanLeave(s, m)
    ensures Timed(c, Left(s, m), most)
  {
  }

  lemma {:induction false} TimedHappening(c: Config, s: State, h: Happening, most: int)
    requires Accepts(c) && Timed(c, s, most) && CanHappen(s, h)
    ensures Timed(c, Happened(s, h), most)
  {
  }

  lemma TimedStep(c: Config, s: State, l: Label, most: int)
    requires Accepts(c) && c.policy.retryMaximum < TWO_62 && MostRounds(c.policy) <= most && 1 <= most
    requires Timed(c, s, most) && Enabled(c, s, l)
    ensures Timed(c, Apply(c, s, l), most)
  {
    match l
    case Open(m) => TimedOpening(c, s, m, most);
    case Start(m) => TimedStarting(c, s, m, most);
    case Watch(m) => TimedWatching(c, s, m, most);
    case Stop(m) => TimedStopping(c, s, m, most);
    case Leave(m) => TimedLeaving(c, s, m, most);
    case Other(h) => TimedHappening(c, s, h, most);
  }

  lemma {:induction false} TimedAlways(c: Config, now: int, run: seq<Label>, most: int)
    requires Accepts(c) && c.policy.retryMaximum < TWO_62 && MostRounds(c.policy) <= most && 1 <= most
    requires Exec(c, Initial(now), run).Some?
    ensures Timed(c, Exec(c, Initial(now), run).value, most)
  {
    if run != [] {
      var n := |run| - 1;
      TimedAlways(c, now, run[..n], most);
      TimedStep(c, Exec(c, Initial(now), run[..n]).value, run[n], most);
    }
  }

  /** Under every parsed configuration, the k-th startup round waits for the k
      capped exponential delays before it, and at most 1 + (timeout - 1) / minimum
      rounds begin before the startup deadline. */
  lemma StartupRoundsAreBounded(settings: Settings, probes: seq<Probe>, now: int, run: seq<Label>)
    requires ParsePolicy(settings).Ok?
    requires Accepts(Config(ParsePolicy(settings).value, probes))
    requires Exec(Config(ParsePolicy(settings).value, probes), Initial(now), run).Some?
    ensures var p := ParsePolicy(settings).value;
            var log := Exec(Config(p, probes), Initial(now), run).value.log;
            && Spaced(p, log)
            && StartupRoundsWithin(log, p.startupTimeout) <= 1 + (p.startupTimeout - 1) / p.retryMinimum
  {
    var p := ParsePolicy(settings).value;
    DivBound(0, p.retryMinimum, p.startupTimeout - 1);
    TimedAlways(Config(p, probes), now, run, MostRounds(p));
  }
}
