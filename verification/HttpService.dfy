/** The operational HTTP server as the serve function of the dependency supervisor.
    Both machines write one history; the supervisor's moves and the server's moves
    interleave freely. */
module HttpService {
  import opened Wrappers
  import opened Trace
  import Supervisor

  /** Where Server.Run and Server.Serve stand. */
  datatype Control =
    | NotCalled
    | Listening                        // net.Listen
    | Selecting                        // select on the accept loop's result and ctx.Done
    | ShuttingDown                     // inside http.Server.Shutdown
    | Closing(cause: Err)              // Shutdown failed, Close is next
    | DrainingAfter(cause: Err)        // waiting for the result, then reporting cause
    | Draining                         // waiting for the result after a clean Shutdown
    | Finished(err: Err)
    | Returned

  /** The accept-loop goroutine around http.Server.Serve. */
  datatype Acceptor = Off | Accepting | Ended(err: Err) | Delivered

  datatype State = State(control: Control, acceptor: Acceptor, channel: seq<Err>)

  datatype System = System(run: Supervisor.State, http: State)

  function Initial(now: int): System {
    System(Supervisor.Initial(now), State(NotCalled, Off, []))
  }

  datatype Move =
    | ListenFails(message: string)
    | ListenSucceeds
    | AcceptLoopEnds(err: Err)
    | AcceptLoopSends
    | TakeResult
    | TakeDone
    | ShutdownReturns(err: Err)
    | Close
    | Drain
    | Return

  datatype Label = Supervise(own: Supervisor.Label) | Serve(move: Move)

  /** errors.Is(err, http.ErrServerClosed) */
  predicate IsServerClosed(err: Err) {
    err.ServerClosed? || (err.Wrapped? && IsServerClosed(err.cause))
  }

  const SERVE_PREFIX := "serve operational HTTP"
  const SHUTDOWN_PREFIX := "shut down operational HTTP"
  const LISTEN_PREFIX := "listen on operational HTTP address"

  /** Whether the server can make move m when its context is cancelled or not. */
  predicate CanServe(http: State, cancelled: bool, m: Move) {
    match m
    case ListenFails(_) => http.control.Listening?
    case ListenSucceeds => http.control.Listening?
    case AcceptLoopEnds(_) => http.acceptor.Accepting?
    case AcceptLoopSends => http.acceptor.Ended? && |http.channel| < 1
    case TakeResult => http.control.Selecting? && http.channel != []
    case TakeDone => http.control.Selecting? && cancelled
    case ShutdownReturns(_) => http.control.ShuttingDown?
    case Close => http.control.Closing?
    case Drain => (http.control.Draining? || http.control.DrainingAfter?) && http.channel != []
    case Return => http.control.Finished?
  }

  /** What Serve returns after draining err. */
  function DrainedError(control: Control, err: Err): Err
    requires control.Draining? || control.DrainingAfter?
  {
    if control.DrainingAfter? then Wrapped(SHUTDOWN_PREFIX, control.cause)
    else if err != NoError && !IsServerClosed(err) then Wrapped(SERVE_PREFIX, err)
    else NoError
  }

  function Served(http: State, m: Move): State
    requires CanServe(http, true, m)
  {
    match m
    case ListenFails(message) => http.(control := Finished(Wrapped(LISTEN_PREFIX, Failure(message))))
    case ListenSucceeds => http.(control := Selecting, acceptor := Accepting)
    case AcceptLoopEnds(err) => http.(acceptor := Ended(err))
    case AcceptLoopSends => http.(acceptor := Delivered, channel := http.channel + [http.acceptor.err])
    case TakeResult =>
      var err := http.channel[0];
      http.(control := Finished(if IsServerClosed(err) then NoError else Wrapped(SERVE_PREFIX, err)), channel := [])
    case TakeDone => http.(control := ShuttingDown)
    case ShutdownReturns(err) => http.(control := if err == NoError then Draining else Closing(err))
    case Close => http.(control := DrainingAfter(http.control.cause))
    case Drain => http.(control := Finished(DrainedError(http.control, http.channel[0])), channel := [])
    case Return => http.(control := Returned)
  }

  /** The supervisor's view of a server move: nothing, an event, or serve's return. */
  function Seen(s: System, m: Move): seq<Supervisor.Label>
    requires CanServe(s.http, s.run.serveCancelled, m)
  {
    match m
    case ListenFails(_) => []
    case ListenSucceeds => [Supervisor.Other(Supervisor.ServeReports(ListenerServing))]
    case AcceptLoopEnds(_) => [Supervisor.Other(Supervisor.ServeReports(ListenerStopped))]
    case AcceptLoopSends => []
    case TakeResult => [Supervisor.Other(Supervisor.ServeReports(ListenerResultReceived))]
    case TakeDone => [Supervisor.Other(Supervisor.ServeReports(ShutdownBegun))]
    case ShutdownReturns(_) => []
    case Close => []
    case Drain => [Supervisor.Other(Supervisor.ServeReports(ListenerResultReceived))]
    case Return => [Supervisor.Other(Supervisor.ServeReturns(s.http.control.err))]
  }

  /** Supervisor labels that belong to the server are not available on their own. */
  predicate OwnedByServer(l: Supervisor.Label) {
    l.Other? && (l.happening.ServeReturns? || l.happening.ServeReports?)
  }

  predicate Enabled(c: Supervisor.Config, s: System, l: Label) {
    match l
    case Supervise(own) => !OwnedByServer(own) && Supervisor.Enabled(c, s.run, own)
    case Serve(m) =>
      CanServe(s.http, s.run.serveCancelled, m) && (Seen(s, m) != [] ==> Supervisor.Enabled(c, s.run, Seen(s, m)[0]))
  }

  function Apply(c: Supervisor.Config, s: System, l: Label): System
    requires Enabled(c, s, l)
  {
    match l
    case Supervise(own) =>
      System(Supervisor.Apply(c, s.run, own),
             if own == Supervisor.Open(Supervisor.LaunchServe) then s.http.(control := Listening) else s.http)
    case Serve(m) =>
      System(if Seen(s, m) == [] then s.run else Supervisor.Apply(c, s.run, Seen(s, m)[0]), Served(s.http, m))
  }

  function Exec(c: Supervisor.Config, s: System, run: seq<Label>): Option<System> {
    if run == [] then Some(s)
    else
      var n := |run| - 1;
      var prefix := Exec(c, s, run[..n]);
      if prefix.Some? && Enabled(c, prefix.value, run[n]) then Some(Apply(c, prefix.value, run[n])) else None
  }

  /** Every run of the composed system is, for the supervisor, one of its own runs. */
  lemma {:induction false} RefinesSupervisor(c: Supervisor.Config, now: int, run: seq<Label>)
    returns (own: seq<Supervisor.Label>)
    requires Exec(c, Initial(now), run).Some?
    ensures Supervisor.Exec(c, Supervisor.Initial(now), own) == Some(Exec(c, Initial(now), run).value.run)
  {
    if run == [] {
      own := [];
    } else {
      var n := |run| - 1;
      own := RefinesSupervisor(c, now, run[..n]);
      var s := Exec(c, Initial(now), run[..n]).value;
      var step := match run[n] case Supervise(l) => [l] case Serve(m) => Seen(s, m);
      if step != [] {
        Supervisor.ExecSnoc(c, Supervisor.Initial(now), own, step[0]);
        own := own + [step[0]];
      }
    }
  }

  // ---- the server's own discipline ------------------------------------------

  predicate Working(p: Control) {
    !p.NotCalled? && !p.Returned?
  }

  /** Control points at which the accept loop's result is still to be received. */
  predicate Owed(p: Control) {
    p.Selecting? || p.ShuttingDown? || p.Closing? || p.DrainingAfter? || p.Draining?
  }

  /** Control points reached only after the serve context was cancelled. */
  predicate Ordered(p: Control) {
    p.ShuttingDown? || p.Closing? || p.DrainingAfter? || p.Draining?
  }

  predicate Coherent(s: System) {
    && (s.http.control.NotCalled? <==> s.run.server.NotStarted?)
    && (Working(s.http.control) <==> s.run.server.Serving?)
    && (ListenerUp(s.run.log) <==> !s.http.acceptor.Off?)
    && (ListenerOver(s.run.log) <==> s.http.acceptor.Ended? || s.http.acceptor.Delivered?)
    && (s.http.control.NotCalled? || s.http.control.Listening? ==> s.http.acceptor.Off?)
    && (Owed(s.http.control) ==> !s.http.acceptor.Off? && ListenerReceipts(s.run.log) == 0)
    && (!Owed(s.http.control) && !s.http.acceptor.Off? ==> ListenerReceipts(s.run.log) == 1)
    && (s.http.acceptor.Off? ==> ListenerReceipts(s.run.log) == 0)
    && (|s.http.channel| + ListenerReceipts(s.run.log) == if s.http.acceptor.Delivered? then 1 else 0)
    && (Ordered(s.http.control) ==> s.run.serveCancelled)
    && ListenerDrained(s.run.log)
  }

  /** What a supervisor label other than launching serve leaves alone. */
  lemma {:induction false} SupervisorFrame(c: Supervisor.Config, r: Supervisor.State, l: Supervisor.Label)
    requires Supervisor.Enabled(c, r, l) && !OwnedByServer(l) && l != Supervisor.Open(Supervisor.LaunchServe)
    ensures var t := Supervisor.Apply(c, r, l);
            && (t.server.NotStarted? <==> r.server.NotStarted?) && (t.server.Serving? <==> r.server.Serving?)
            && (r.serveCancelled ==> t.serveCancelled)
            && (ListenerDrained(t.log) <==> ListenerDrained(r.log))
            && SameListener(t.log, r.log)
  {
  }

  predicate SameListener(a: Log, b: Log) {
    && (ListenerUp(a) <==> ListenerUp(b))
    && (ListenerOver(a) <==> ListenerOver(b))
    && ListenerReceipts(a) == ListenerReceipts(b)
  }

  lemma {:induction false} CoherentUnderSupervisor(c: Supervisor.Config, s: System, l: Supervisor.Label)
    requires Coherent(s) && Enabled(c, s, Supervise(l))
    requires l == Supervisor.Open(Supervisor.LaunchServe) ==> s.run.server.NotStarted?
    ensures Coherent(Apply(c, s, Supervise(l)))
  {
    if l != Supervisor.Open(Supervisor.LaunchServe) {
      SupervisorFrame(c, s.run, l);
    }
  }

  lemma {:induction false} CoherentUnderAcceptLoop(c: Supervisor.Config, s: System, m: Move)
    requires Coherent(s) && Enabled(c, s, Serve(m)) && (m.AcceptLoopEnds? || m.AcceptLoopSends?)
    ensures Coherent(Apply(c, s, Serve(m)))
  {
  }

  lemma {:induction false} CoherentUnderSelect(c: Supervisor.Config, s: System, m: Move)
    requires Coherent(s) && Enabled(c, s, Serve(m))
    requires m.ListenFails? || m.ListenSucceeds? || m.TakeResult? || m.TakeDone?
    ensures Coherent(Apply(c, s, Serve(m)))
  {
  }

  lemma {:induction false} CoherentUnderShutdown(c: Supervisor.Config, s: System, m: Move)
    requires Coherent(s) && Enabled(c, s, Serve(m))
    requires m.ShutdownReturns? || m.Close? || m.Drain? || m.Return?
    ensures Coherent(Apply(c, s, Serve(m)))
  {
  }

  lemma CoherentUnderServer(c: Supervisor.Config, s: System, m: Move)
    requires Coherent(s) && Enabled(c, s, Serve(m))
    ensures Coherent(Apply(c, s, Serve(m)))
  {
    if m.AcceptLoopEnds? || m.AcceptLoopSends? {
      CoherentUnderAcceptLoop(c, s, m);
    } else if m.ShutdownReturns? || m.Close? || m.Drain? || m.Return? {
      CoherentUnderShutdown(c, s, m);
    } else {
      CoherentUnderSelect(c, s, m);
    }
  }

  lemma {:induction false} CoherentAlways(c: Supervisor.Config, now: int, run: seq<Label>)
    requires Exec(c, Initial(now), run).Some?
    ensures Coherent(Exec(c, Initial(now), run).value)
    ensures Supervisor.Inv(Exec(c, Initial(now), run).value.run)
  {
    var own := RefinesSupervisor(c, now, run);
    Supervisor.InvAlways(c, now, own);
    if run != [] {
      var n := |run| - 1;
      CoherentAlways(c, now, run[..n]);
      var s := Exec(c, Initial(now), run[..n]).value;
      match run[n]
      case Supervise(l) => CoherentUnderSupervisor(c, s, l);
      case Serve(m) => CoherentUnderServer(c, s, m);
    }
  }

  /** A server move is never refused by the supervisor's side. */
  lemma ServerMovesFreely(c: Supervisor.Config, now: int, run: seq<Label>, m: Move)
    requires Exec(c, Initial(now), run).Some?
    requires var s := Exec(c, Initial(now), run).value; CanServe(s.http, s.run.serveCancelled, m)
    ensures Enabled(c, Exec(c, Initial(now), run).value, Serve(m))
  {
    CoherentAlways(c, now, run);
  }

  /** The move that a working server waits for, if the supervisor's side does not delay it. */
  function NextMove(http: State): Move {
    match http.control
    case Listening => ListenSucceeds
    case ShuttingDown => ShutdownReturns(NoError)
    case Closing(_) => Close
    case Finished(_) => Return
    case _ =>
      if http.acceptor.Accepting? then AcceptLoopEnds(NoError)
      else if http.acceptor.Ended? then AcceptLoopSends
      else if http.control.Selecting? then TakeResult
      else Drain
  }

  /** Between its call and its return serve is never stuck: the server or its accept loop
      has a move, whatever the supervisor does. */
  lemma ServerNeverStuck(c: Supervisor.Config, now: int, run: seq<Label>)
    requires Exec(c, Initial(now), run).Some? && Working(Exec(c, Initial(now), run).value.http.control)
    ensures var s := Exec(c, Initial(now), run).value; Enabled(c, s, Serve(NextMove(s.http)))
  {
    CoherentAlways(c, now, run);
    var s := Exec(c, Initial(now), run).value;
    assert CanServe(s.http, s.run.serveCancelled, NextMove(s.http));
    ServerMovesFreely(c, now, run, NextMove(s.http));
  }

  /** A label that takes the service on: a move of the supervisor or of the server, the end
      of a probe, or the sending of serve's result; not time passing, nor a cancellation. */
  predicate TakesOn(l: Label) {
    l.Supervise? ==> !l.own.Other? || l.own.happening.FinishProbe? || l.own.happening.SendResult?
  }

  /** The supervisor waits for the retry timer. */
  predicate Resting(r: Supervisor.State) {
    r.control.StartupSelect? && r.now < r.control.fireAt
  }

  /** The composed service is never stuck: until the supervisor returns, some label takes it
      on, unless it only waits for the retry timer. */
  lemma NeverStuck(c: Supervisor.Config, now: int, run: seq<Label>) returns (l: Label)
    requires Exec(c, Initial(now), run).Some?
    ensures var s := Exec(c, Initial(now), run).value;
            s.run.control.Returned? || Resting(s.run) || (TakesOn(l) && Enabled(c, s, l))
  {
    var s := Exec(c, Initial(now), run).value;
    var own := RefinesSupervisor(c, now, run);
    Supervisor.NeverStuck(c, now, own);
    CoherentAlways(c, now, run);
    if Supervisor.CanAct(c, s.run) {
      l := SupervisorActs(c, s);
    } else if s.run.server.Serving? {
      ServerNeverStuck(c, now, run);
      l := Serve(NextMove(s.http));
    } else if Supervisor.CanHappen(s.run, Supervisor.SendResult) {
      l := Supervise(Supervisor.Other(Supervisor.SendResult));
    } else if s.run.control.StartupSelect? {
      l := Supervise(Supervisor.Start(Supervisor.TakeRetryTimer));
    } else if !s.run.control.Returned? {
      var i: nat :| Supervisor.CanHappen(s.run, Supervisor.FinishProbe(i, false));
      l := Supervise(Supervisor.Other(Supervisor.FinishProbe(i, false)));
    } else {
      l := Serve(Return);
    }
  }

  lemma SupervisorActs(c: Supervisor.Config, s: System) returns (l: Label)
    requires Supervisor.CanAct(c, s.run)
    ensures TakesOn(l) && Enabled(c, s, l)
  {
    if m :| Supervisor.CanOpen(c, s.run, m) {
      l := Supervise(Supervisor.Open(m));
    } else if m :| Supervisor.CanStart(c, s.run, m) {
      l := Supervise(Supervisor.Start(m));
    } else if m :| Supervisor.CanWatch(c, s.run, m) {
      l := Supervise(Supervisor.Watch(m));
    } else if m :| Supervisor.CanStop(c, s.run, m) {
      l := Supervise(Supervisor.Stop(m));
    } else {
      var m :| Supervisor.CanLeave(s.run, m);
      l := Supervise(Supervisor.Leave(m));
    }
  }

  /** On every interleaving of the composed service: readiness is cleared before the
      HTTP shutdown begins; the accept loop's result is received exactly once before
      serve returns; and the supervisor returns only after serve and accept loop. */
  lemma ShutdownOrder(c: Supervisor.Config, now: int, run: seq<Label>)
    requires Exec(c, Initial(now), run).Some?
    ensures var s := Exec(c, Initial(now), run).value;
            && ShutdownAfterReadinessCleared(s.run.log)
            && ListenerDrained(s.run.log)
            && ReturnedDrained(s.run.log)
            && (Ordered(s.http.control) ==> !s.run.ready)
            && (s.run.control.Returned? && Started(s.run.log) ==>
                  && s.http.control.Returned?
                  && (s.http.acceptor.Off? || s.http.acceptor.Delivered?)
                  && s.http.channel == []
                  && s.run.server.Sent?)
  {
    CoherentAlways(c, now, run);
  }
}
