/**
 Starting and stopping the impersonation proxy server. One worker runs the controller's syncs; each
 start makes a stop channel and an error channel (buffered, one slot), stores them in two fields and
 launches a goroutine. The goroutine reads the fields only when it gets to run, and Go does not say
 whether it reads the error channel field before or after the server has run.

 The n-th start owns stop channel n, error channel n and goroutine n. Closing a channel twice, sending
 on a closed channel and using a missing channel are faults.
 */
module Impersonator {
  import opened Options

  /** An error channel: what is in its buffer, and whether it was closed. */
  datatype ErrorCh = ErrorCh(full: bool, closed: bool)

  datatype Goroutine =
    | Born
    | Serving(stop: nat, early: Option<nat>)  // the server runs; the error channel may have been read already
    | Returned(early: Option<nat>)
    | Sending(to: nat)
    | Done

  /** Where the sync worker is: `close` is the parameter of ensureImpersonatorIsStopped. */
  datatype Worker =
    | Idle
    | ServerDied               // received an error from a server that stopped by itself
    | Stopping(close: bool)    // about to close the stop channel
    | Receiving(close: bool)   // about to receive from the error channel, possibly blocked
    | Closing(close: bool)     // about to close the error channel, if asked to
    | Clearing                 // about to forget both channels

  datatype State = State(
    stopClosed: map<nat, bool>,
    errorChs: map<nat, ErrorCh>,
    goroutines: map<nat, Goroutine>,
    serverStopCh: Option<nat>,
    errorCh: Option<nat>,
    worker: Worker,
    starts: nat,
    fault: bool)

  datatype Action =
    | EnsureStarted
    | EnsureStopped
    | WorkerStep
    | GoroutineStep(g: nat, readEarly: bool)

  function Init(): State {
    State(map[], map[], map[], None, None, Idle, 0, false)
  }

  function Fault(s: State): State {
    s.(fault := true)
  }

  function CloseStop(s: State): State {
    if s.serverStopCh == None || s.serverStopCh.value !in s.stopClosed || s.stopClosed[s.serverStopCh.value] then Fault(s)
    else s.(stopClosed := s.stopClosed[s.serverStopCh.value := true])
  }

  function CloseError(s: State): State {
    if s.errorCh == None || s.errorCh.value !in s.errorChs || s.errorChs[s.errorCh.value].closed then Fault(s)
    else s.(errorChs := s.errorChs[s.errorCh.value := s.errorChs[s.errorCh.value].(closed := true)])
  }

  function Start(s: State): State {
    s.(stopClosed := s.stopClosed[s.starts := false],
       errorChs := s.errorChs[s.starts := ErrorCh(false, false)],
       goroutines := s.goroutines[s.starts := Born],
       serverStopCh := Some(s.starts),
       errorCh := Some(s.starts),
       starts := s.starts + 1)
  }

  /** The select with a default: a value in the buffer, or a closed channel, would be received. */
  predicate CanReceive(s: State) {
    s.errorCh.Some? && s.errorCh.value in s.errorChs && (s.errorChs[s.errorCh.value].full || s.errorChs[s.errorCh.value].closed)
  }

  function Receive(s: State): State
    requires CanReceive(s)
  {
    s.(errorChs := s.errorChs[s.errorCh.value := s.errorChs[s.errorCh.value].(full := false)])
  }

  function WorkerStepFrom(s: State): State {
    match s.worker
    case Idle => s
    case ServerDied => CloseError(s).(worker := Stopping(false))
    case Stopping(close) => CloseStop(s).(worker := Receiving(close))
    case Receiving(close) => if CanReceive(s) then Receive(s).(worker := Closing(close)) else s
    case Closing(close) => (if close then CloseError(s) else s).(worker := Clearing)
    case Clearing => s.(serverStopCh := None, errorCh := None, worker := Idle)
  }

  function Go(s: State, g: nat, goroutine: Goroutine): State {
    s.(goroutines := s.goroutines[g := goroutine])
  }

  function GoroutineStepFrom(s: State, g: nat, readEarly: bool): State
    requires g in s.goroutines
  {
    match s.goroutines[g]
    case Born =>
      if s.serverStopCh == None then Fault(s)
      else Go(s, g, Serving(s.serverStopCh.value, if readEarly then s.errorCh else None))
    case Serving(_, early) => Go(s, g, Returned(early))
    case Returned(early) =>
      if early.Some? then Go(s, g, Sending(early.value))
      else if s.errorCh == None then Fault(s)
      else Go(s, g, Sending(s.errorCh.value))
    case Sending(to) =>
      if to !in s.errorChs || s.errorChs[to].closed then Fault(s)
      else if s.errorChs[to].full then s
      else Go(s.(errorChs := s.errorChs[to := s.errorChs[to].(full := true)]), g, Done)
    case Done => s
  }

  function Perform(s: State, action: Action): State {
    match action
    case EnsureStarted =>
      if s.worker != Idle then s
      else if s.serverStopCh == None then Start(s)
      else if CanReceive(s) then Receive(s).(worker := ServerDied)
      else s
    case EnsureStopped =>
      if s.worker != Idle || s.serverStopCh == None then s else s.(worker := Stopping(true))
    case WorkerStep => WorkerStepFrom(s)
    case GoroutineStep(g, readEarly) => if g in s.goroutines then GoroutineStepFrom(s, g, readEarly) else s
  }

  function Run(actions: seq<Action>): State {
    if actions == [] then Init()
    else Perform(Run(actions[..|actions| - 1]), actions[|actions| - 1])
  }

  // What every interleaving keeps.

  /** A goroutine only ever holds the channels of its own start. */
  ghost predicate OwnChannels(g: nat, goroutine: Goroutine) {
    match goroutine
    case Born => true
    case Serving(stop, early) => stop == g && (early.Some? ==> early.value == g)
    case Returned(early) => early.Some? ==> early.value == g
    case Sending(to) => to == g
    case Done => true
  }

  /** The channels of the current start, n, at each place of the worker. */
  ghost predicate ChannelsOk(s: State, n: nat)
    requires n in s.stopClosed && n in s.errorChs && n in s.goroutines
  {
    var stopped, ch, finished := s.stopClosed[n], s.errorChs[n], s.goroutines[n] == Done;
    match s.worker
    case Idle => !stopped && !ch.closed && (ch.full <==> finished)
    case ServerDied => !stopped && !ch.closed && !ch.full && finished
    case Stopping(true) => !stopped && !ch.closed && (ch.full <==> finished)
    case Stopping(false) => !stopped && ch.closed && !ch.full && finished
    case Receiving(true) => stopped && !ch.closed && (ch.full <==> finished)
    case Receiving(false) => stopped && ch.closed && !ch.full && finished
    case Closing(true) => stopped && !ch.closed && !ch.full && finished
    case Closing(false) => stopped && ch.closed && !ch.full && finished
    case Clearing => finished
  }

  ghost predicate Inv(s: State) {
    && !s.fault
    && s.serverStopCh == s.errorCh
    && (forall g <- s.goroutines :: g < s.starts && OwnChannels(g, s.goroutines[g]))
    && (forall g <- s.goroutines :: s.goroutines[g] != Done ==> s.errorCh == Some(g))
    && (s.errorCh == None ==> s.worker == Idle)
    && (s.errorCh.Some? ==>
          var n := s.errorCh.value;
          n in s.stopClosed && n in s.errorChs && n in s.goroutines && ChannelsOk(s, n))
  }

  lemma WorkerKeeps(s: State)
    requires Inv(s)
    ensures Inv(WorkerStepFrom(s))
  {
  }

  lemma GoroutineKeeps(s: State, g: nat, readEarly: bool)
    requires Inv(s) && g in s.goroutines
    ensures Inv(GoroutineStepFrom(s, g, readEarly))
  {
  }

  lemma PerformKeeps(s: State, action: Action)
    requires Inv(s)
    ensures Inv(Perform(s, action))
  {
    match action {
      case WorkerStep => WorkerKeeps(s);
      case GoroutineStep(g, readEarly) => if g in s.goroutines { GoroutineKeeps(s, g, readEarly); }
      case _ =>
    }
  }

  lemma {:induction false} RunKeeps(actions: seq<Action>)
    ensures Inv(Run(actions))
  {
    if actions != [] {
      RunKeeps(actions[..|actions| - 1]);
      PerformKeeps(Run(actions[..|actions| - 1]), actions[|actions| - 1]);
    }
  }

  /** No channel is closed twice, sent on after close, or used while missing. */
  lemma NoFaults(actions: seq<Action>)
    ensures !Run(actions).fault
  {
    RunKeeps(actions);
  }

  /** At most one server is up, and it listens to the stop channel and reports to the error channel of its own start. */
  lemma OneServerWithItsOwnChannels(actions: seq<Action>, g: nat, h: nat)
    requires var s := Run(actions);
      g in s.goroutines && h in s.goroutines && s.goroutines[g] != Done && s.goroutines[h] != Done
    ensures g == h
    ensures var s := Run(actions);
      && s.serverStopCh == s.errorCh == Some(g)
      && OwnChannels(g, s.goroutines[g])
  {
    RunKeeps(actions);
  }

  /** How many steps a goroutine has left. */
  function Left(goroutine: Goroutine): nat {
    match goroutine case Born => 4 case Serving(_, _) => 3 case Returned(_) => 2 case Sending(_) => 1 case Done => 0
  }

  ghost predicate Blocked(s: State) {
    s.worker.Receiving? && !CanReceive(s)
  }

  /**
   Stopping does not deadlock: while the worker waits, the goroutine it waits for exists, was told to
   stop, and with each of its steps comes closer to sending; once it has none left the worker is free.
   Nothing else can happen meanwhile. (The server's returning once told to stop is a step of it.)
   */
  lemma StoppingDoesNotDeadlock(actions: seq<Action>, action: Action)
    requires Blocked(Run(actions))
    ensures var s := Run(actions);
      && s.errorCh.Some?
      && var g := s.errorCh.value;
      && g in s.goroutines && g in s.stopClosed && s.stopClosed[g]
      && Left(s.goroutines[g]) > 0
      && var t := Perform(s, action);
      && g in t.goroutines && t.errorCh == s.errorCh
      && Left(t.goroutines[g]) == Left(s.goroutines[g]) - (if action.GoroutineStep? && action.g == g then 1 else 0)
      && (Left(t.goroutines[g]) == 0 ==> !Blocked(t))
  {
    RunKeeps(actions);
    PerformKeeps(Run(actions), action);
  }

  /** A server that died by itself is noticed by the next sync that wants it running, and then started anew. */
  lemma DeadServerIsRestarted(actions: seq<Action>)
    requires var s := Run(actions);
      s.worker == Idle && s.serverStopCh.Some? && s.serverStopCh.value in s.goroutines && s.goroutines[s.serverStopCh.value] == Done
    ensures var s := Run(actions);
      var t := WorkerStepFrom(WorkerStepFrom(WorkerStepFrom(WorkerStepFrom(WorkerStepFrom(Perform(s, EnsureStarted))))));
      && t.worker == Idle && t.serverStopCh == None && !t.fault
      && Perform(t, EnsureStarted).serverStopCh == Some(s.starts)
  {
    RunKeeps(actions);
    var s := Run(actions);
    var s1 := Perform(s, EnsureStarted);
    PerformKeeps(s, EnsureStarted);
    assert s1.worker == ServerDied;
    var s2 := WorkerStepFrom(s1);
    PerformKeeps(s1, WorkerStep);
    assert s2.worker == Stopping(false) && s2.starts == s.starts;
    var s3 := WorkerStepFrom(s2);
    PerformKeeps(s2, WorkerStep);
    assert s3.worker == Receiving(false) && s3.starts == s.starts;
    var s4 := WorkerStepFrom(s3);
    PerformKeeps(s3, WorkerStep);
    assert s4.worker == Closing(false) && s4.starts == s.starts;
  }

  /** The goroutine's next `n` steps. */
  function GoOn(s: State, g: nat, n: nat): State
    decreases n
  {
    if n == 0 then s else GoOn(Perform(s, GoroutineStep(g, true)), g, n - 1)
  }

  /** While the worker waits in the middle of stopping, the goroutine's own steps bring it to its end. */
  lemma {:induction false} GoroutineFinishes(s: State, g: nat, n: nat)
    requires Inv(s) && s.worker == Receiving(true) && s.errorCh == Some(g) && n == Left(s.goroutines[g])
    ensures var t := GoOn(s, g, n);
      && Inv(t) && t.worker == Receiving(true) && t.errorCh == Some(g) && t.goroutines[g] == Done
      && t.stopClosed == s.stopClosed && t.starts == s.starts
    decreases n
  {
    if n > 0 {
      var t := Perform(s, GoroutineStep(g, true));
      GoroutineKeeps(s, g, true);
      assert Left(t.goroutines[g]) == n - 1 && t.worker == s.worker && t.errorCh == s.errorCh && t.stopClosed == s.stopClosed && t.starts == s.starts;
      GoroutineFinishes(t, g, n - 1);
    }
  }

  /** All there is to stopping: the worker closes the stop channel, the server comes to its end, the worker takes its error and clears up. */
  function PlayStop(s: State, g: nat): State
    requires g in s.goroutines
  {
    var told := Perform(Perform(s, EnsureStopped), WorkerStep);
    var finished := GoOn(told, g, Left(s.goroutines[g]));
    Perform(Perform(Perform(finished, WorkerStep), WorkerStep), WorkerStep)
  }

  /** Stopping stops: whatever state the server is in, it ends, its channels are closed, and the controller forgets them. */
  lemma StoppingStops(actions: seq<Action>, g: nat)
    requires Run(actions).worker == Idle && Run(actions).serverStopCh == Some(g)
    ensures g in Run(actions).goroutines
    ensures var t := PlayStop(Run(actions), g);
      && t.worker == Idle && t.serverStopCh == None && t.errorCh == None && !t.fault
      && g in t.stopClosed && t.stopClosed[g]
      && g in t.goroutines && t.goroutines[g] == Done
      && g in t.errorChs && t.errorChs[g] == ErrorCh(false, true)
  {
    RunKeeps(actions);
    var s := Run(actions);
    var s1 := Perform(s, EnsureStopped);
    assert s1 == s.(worker := Stopping(true));
    PerformKeeps(s, EnsureStopped);
    var s2 := Perform(s1, WorkerStep);
    WorkerKeeps(s1);
    assert s2.worker == Receiving(true) && s2.goroutines == s.goroutines && s2.errorCh == Some(g) && s2.stopClosed[g];
    GoroutineFinishes(s2, g, Left(s.goroutines[g]));
    var s3 := GoOn(s2, g, Left(s.goroutines[g]));
    var s4 := Perform(s3, WorkerStep);
    WorkerKeeps(s3);
    assert s4.worker == Closing(true) && s4.goroutines[g] == Done && s4.stopClosed == s3.stopClosed;
    var s5 := Perform(s4, WorkerStep);
    WorkerKeeps(s4);
    assert s5.worker == Clearing && s5.errorChs[g] == ErrorCh(false, true);
  }

  /** A sync that wants the proxy stopped can find itself waiting for a server that is still serving. */
  lemma WorkerCanBeBlocked()
    ensures Blocked(Run([EnsureStarted, GoroutineStep(0, true), EnsureStopped, WorkerStep]))
  {
    var a1, a2, a3 := [EnsureStarted], [EnsureStarted, GoroutineStep(0, true)], [EnsureStarted, GoroutineStep(0, true), EnsureStopped];
    var a4 := [EnsureStarted, GoroutineStep(0, true), EnsureStopped, WorkerStep];
    assert a4[..3] == a3 && a3[..2] == a2 && a2[..1] == a1 && a1[..0] == [];
    var s1 := Run(a1);
    assert s1 == Start(Init());
    var s2 := Run(a2);
    assert s2 == Perform(s1, GoroutineStep(0, true)) && s2.goroutines[0].Serving?;
    var s3 := Run(a3);
    assert s3 == s2.(worker := Stopping(true));
    assert Run(a4) == Perform(s3, WorkerStep);
  }
}
