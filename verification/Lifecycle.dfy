/**
 Starting and stopping the API server (internal/api/server.go): any number of
 Start and Stop calls at once, one atomic step per mutex section, channel
 operation or call into the network.
 */
module Lifecycle {
  import opened Text

  datatype Phase = New | Starting | Running | Stopping | Stopped

  /** A channel that is only ever closed. */
  datatype Chan = Absent | Open | Closed

  /** A Go error; `None` is nil. */
  type Error = Option<string>

  datatype StartResult = Serving | AlreadyStarted | ServerStopped | ListenFailed(reason: string)

  /** The fields the mutex guards. */
  datatype Shared = Shared(
    phase: Phase, ready: Chan, stopDone: Chan, stopErr: Error, httpServer: Option<nat>, listener: Option<nat>)

  // ---- the mutex sections -------------------------------------------------

  /** What Stop finds when it takes the mutex. */
  datatype Entry = Answer(err: Error) | Wait | FinishNow | ShutDown(server: Option<nat>, ln: Option<nat>)

  function WithChannels(sh: Shared): Shared {
    sh.(ready := if sh.ready == Absent then Open else sh.ready,
        stopDone := if sh.stopDone == Absent then Open else sh.stopDone)
  }

  /** The first section of Start; `None` lets the call through. */
  function Gate(before: Shared): (Shared, Option<StartResult>) {
    var sh := WithChannels(before);
    match sh.phase
    case New => (sh.(phase := Starting), None)
    case Stopping => (sh, Some(ServerStopped))
    case Stopped => (sh, Some(ServerStopped))
    case _ => (sh, Some(AlreadyStarted))
  }

  /** The second section of Start: whether the server was published. */
  function Publication(sh: Shared, server: nat, ln: nat): (Shared, bool) {
    if sh.phase == Stopping then (sh, false)
    else (sh.(phase := Running, ready := Closed, httpServer := Some(server), listener := Some(ln)), true)
  }

  function Finished(sh: Shared, err: Error): Shared {
    sh.(phase := Stopped, stopErr := err, stopDone := Closed)
  }

  /** The first section of Stop. */
  function StopEntry(before: Shared): (Shared, Entry) {
    var sh := WithChannels(before);
    match sh.phase
    case Stopped => (sh, Answer(sh.stopErr))
    case Stopping => (sh, Wait)
    case New => (sh.(phase := Stopping), FinishNow)
    case Starting => (sh.(phase := Stopping), Wait)
    case Running => (sh.(phase := Stopping), ShutDown(sh.httpServer, sh.listener))
  }

  function Cleared(sh: Shared): Shared {
    sh.(httpServer := None, listener := None)
  }

  /** The server object; each method is one mutex section. */
  class Server {
    var lifecycleState: Phase
    var ready: Chan
    var stopDone: Chan
    var stopErr: Error
    var httpServer: Option<nat>
    var listener: Option<nat>

    function View(): Shared
      reads this
    {
      Shared(lifecycleState, ready, stopDone, stopErr, httpServer, listener)
    }

    constructor ()
      ensures View() == INITIAL.shared
    {
      lifecycleState, ready, stopDone := New, Absent, Absent;
      stopErr, httpServer, listener := None, None, None;
    }

    method InitLifecycle()
      modifies this
      ensures View() == WithChannels(old(View()))
    {
      if ready == Absent {
        ready := Open;
      }
      if stopDone == Absent {
        stopDone := Open;
      }
    }

    method EnterStart() returns (refused: Option<StartResult>)
      modifies this
      ensures (View(), refused) == Gate(old(View()))
    {
      InitLifecycle();
      if lifecycleState != New {
        var err := AlreadyStarted;
        if lifecycleState == Stopping || lifecycleState == Stopped {
          err := ServerStopped;
        }
        return Some(err);
      }
      lifecycleState := Starting;
      return None;
    }

    /** Closing `ready` needs it open. */
    method Publish(server: nat, ln: nat) returns (published: bool)
      requires lifecycleState != Stopping ==> ready == Open
      modifies this
      ensures (View(), published) == Publication(old(View()), server, ln)
    {
      if lifecycleState == Stopping {
        return false;
      }
      httpServer := Some(server);
      listener := Some(ln);
      lifecycleState := Running;
      ready := Closed;
      return true;
    }

    /** Closing `stopDone` needs it open. */
    method FinishStop(err: Error)
      requires stopDone == Open
      modifies this
      ensures View() == Finished(old(View()), err)
    {
      stopErr := err;
      lifecycleState := Stopped;
      stopDone := Closed;
    }

    method EnterStop() returns (entry: Entry)
      modifies this
      ensures (View(), entry) == StopEntry(old(View()))
    {
      InitLifecycle();
      match lifecycleState {
        case Stopped =>
          return Answer(stopErr);
        case Stopping =>
          return Wait;
        case New =>
          lifecycleState := Stopping;
          return FinishNow;
        case Starting =>
          lifecycleState := Stopping;
          return Wait;
        case Running =>
          lifecycleState := Stopping;
          return ShutDown(httpServer, listener);
      }
    }

    method ClearServer()
      modifies this
      ensures View() == Cleared(old(View()))
    {
      httpServer := None;
      listener := None;
    }
  }

  // ---- the calls and their steps ------------------------------------------

  /** Where a call stands. */
  datatype Call =
    | Listening                                    // Start, past the gate
    | Publishing(ln: nat)                          // Start, holding its listener
    | Discarding(ln: nat)                          // Start, overtaken by a Stop
    | Failing(result: StartResult)                 // Start, about to call finishStop
    | StartReturned(result: StartResult)
    | Waiting                                      // Stop, blocked on stopDone
    | Woken                                        // Stop, about to read stopErr
    | ShuttingDown(server: nat, held: Option<nat>) // Stop, about to call Shutdown
    | Closing(held: Option<nat>, err: Error)       // Stop, about to close the listener
    | Clearing(err: Error)                         // Stop, about to clear the fields
    | Finishing(err: Error)                        // Stop, about to call finishStop
    | StopReturned(err: Error)

  /** `open` is the listeners still accepting; `panicked` is a nil dereference or a bad close. */
  datatype State = State(shared: Shared, calls: map<nat, Call>, open: set<nat>, panicked: bool)

  const INITIAL := State(Shared(New, Absent, Absent, None, None, None), map[], {}, false)

  datatype CloseResult = CloseFine | CloseAgain | CloseFailed(reason: string)

  datatype Action =
    | StartCalled(id: nat)
    | StopCalled(id: nat)
    | ReadyCalled
    | Listened(id: nat, ln: nat)
    | ListenRefused(id: nat, reason: string)
    | Published(id: nat, server: nat)
    | Discarded(id: nat)
    | StartFailed(id: nat)
    | Woke(id: nat)
    | ReadResult(id: nat)
    | ShutdownReturned(id: nat, err: Error, closed: bool)
    | ListenerClosed(id: nat, result: CloseResult)
    | FieldsCleared(id: nat)
    | StopFinished(id: nat)
    | ServeExited(ln: nat)                         // Serve closes its listener on the way out

  function Moved(s: State, id: nat, c: Call): State {
    s.(calls := s.calls[id := c])
  }

  /** finishStop, which closes a channel that must be open. */
  function FinishStep(s: State, id: nat, err: Error, c: Call): State {
    Moved(s, id, c).(shared := Finished(s.shared, err), panicked := s.panicked || s.shared.stopDone != Open)
  }

  function PublishStep(s: State, id: nat, ln: nat, server: nat): State {
    var (sh, published) := Publication(s.shared, server, ln);
    Moved(s, id, if published then StartReturned(Serving) else Discarding(ln))
      .(shared := sh, panicked := s.panicked || (published && s.shared.ready != Open))
  }

  function StartStep(s: State, id: nat): State {
    var (sh, refused) := Gate(s.shared);
    Moved(s, id, if refused.Some? then StartReturned(refused.value) else Listening).(shared := sh)
  }

  function StopStep(s: State, id: nat): State {
    var (sh, entry) := StopEntry(s.shared);
    match entry
    case Answer(err) => Moved(s, id, StopReturned(err)).(shared := sh)
    case Wait => Moved(s, id, Waiting).(shared := sh)
    case FinishNow => Moved(s, id, Finishing(None)).(shared := sh)
    case ShutDown(Some(server), ln) => Moved(s, id, ShuttingDown(server, ln)).(shared := sh)
    case ShutDown(None, _) => Moved(s, id, Waiting).(shared := sh, panicked := true)
  }

  function CloseError(err: Error, result: CloseResult): Error {
    if err == None && result.CloseFailed? then Some(result.reason) else err
  }

  /** One step of one call, or `None` where the call cannot take it. */
  function Step(s: State, a: Action): Option<State> {
    match a
    case StartCalled(id) => if id in s.calls then None else Some(StartStep(s, id))
    case StopCalled(id) => if id in s.calls then None else Some(StopStep(s, id))
    case ReadyCalled => Some(s.(shared := WithChannels(s.shared)))
    case ServeExited(ln) => Some(s.(open := s.open - {ln}))
    case _ => if a.id !in s.calls then None else CallStep(s, a, a.id, s.calls[a.id])
  }

  function CallStep(s: State, a: Action, id: nat, c: Call): Option<State> {
    match (a, c)
    case (Listened(_, ln), Listening) => Some(Moved(s, id, Publishing(ln)).(open := s.open + {ln}))
    case (ListenRefused(_, reason), Listening) => Some(Moved(s, id, Failing(ListenFailed(reason))))
    case (Published(_, server), Publishing(ln)) => Some(PublishStep(s, id, ln, server))
    case (Discarded(_), Discarding(ln)) => Some(Moved(s, id, Failing(ServerStopped)).(open := s.open - {ln}))
    case (StartFailed(_), Failing(result)) => Some(FinishStep(s, id, None, StartReturned(result)))
    case (Woke(_), Waiting) => if s.shared.stopDone == Closed then Some(Moved(s, id, Woken)) else None
    case (ReadResult(_), Woken) => Some(Moved(s, id, StopReturned(s.shared.stopErr)))
    case (ShutdownReturned(_, err, closed), ShuttingDown(_, held)) =>
      Some(Moved(s, id, Closing(held, err)).(open := if closed then s.open - Holding(c) else s.open))
    case (ListenerClosed(_, result), Closing(held, err)) =>
      Some(Moved(s, id, Clearing(if held.Some? then CloseError(err, result) else err)).(open := s.open - Holding(c)))
    case (FieldsCleared(_), Clearing(err)) => Some(Moved(s, id, Finishing(err)).(shared := Cleared(s.shared)))
    case (StopFinished(_), Finishing(err)) => Some(FinishStep(s, id, err, StopReturned(err)))
    case _ => None
  }

  /** The listener a call is responsible for. */
  function Holding(c: Call): set<nat> {
    match c
    case Publishing(ln) => {ln}
    case Discarding(ln) => {ln}
    case ShuttingDown(_, Some(ln)) => {ln}
    case Closing(Some(ln), _) => {ln}
    case _ => {}
  }

  ghost predicate IsRun(states: seq<State>, actions: seq<Action>) {
    && |states| == |actions| + 1 && states[0] == INITIAL
    && forall i :: 0 <= i < |actions| ==> Step(states[i], actions[i]) == Some(states[i + 1])
  }

  // ---- the invariant ------------------------------------------------------

  /** The call still has to call finishStop, or to publish. */
  predicate Owes(c: Call) {
    c.Listening? || c.Publishing? || c.Discarding? || c.Failing? || c.ShuttingDown? || c.Closing? || c.Clearing?
    || c.Finishing?
  }

  ghost predicate Quiet(s: State) {
    forall i :: i in s.calls ==> !Owes(s.calls[i])
  }

  /** Exactly one call owes. */
  ghost predicate Alone(s: State, o: nat) {
    o in s.calls && Owes(s.calls[o]) && forall i :: i in s.calls && Owes(s.calls[i]) ==> i == o
  }

  /** What the channels say of the phase. */
  predicate Channels(sh: Shared) {
    && (sh.phase != New ==> sh.ready != Absent && sh.stopDone != Absent)
    && (sh.ready == Closed ==> sh.phase.Running? || sh.phase.Stopping? || sh.phase.Stopped?)
    && (sh.stopDone == Closed <==> sh.phase == Stopped)
    && (sh.phase == Running ==> sh.httpServer.Some? && sh.listener.Some?)
  }

  /** What a call's position says of the shared fields. */
  predicate Fits(sh: Shared, c: Call) {
    && (c.Waiting? ==> sh.phase.Stopping? || sh.phase.Stopped?)
    && (c.Woken? ==> sh.phase == Stopped)
    && (c.StopReturned? ==> sh.phase == Stopped && c.err == sh.stopErr)
    && (c == StartReturned(Serving) ==> sh.ready == Closed)
    && (c.Failing? ==> c.result != Serving)
    && (c.ShuttingDown? || c.Closing? || c.Clearing? || c.Finishing? || c.Discarding? ==> sh.phase == Stopping)
  }

  ghost predicate Owned(s: State) {
    if s.shared.phase.Starting? || s.shared.phase.Stopping? then exists o :: Alone(s, o) else Quiet(s)
  }

  /** Every open listener has someone who will close it. */
  ghost predicate Covered(s: State, ln: nat) {
    || (s.shared.phase == Running && s.shared.listener == Some(ln))
    || exists i :: i in s.calls && ln in Holding(s.calls[i])
  }

  ghost predicate Inv(s: State) {
    && !s.panicked && Channels(s.shared) && Owned(s)
    && (forall i :: i in s.calls ==> Fits(s.shared, s.calls[i]))
    && (forall ln :: ln in s.open ==> Covered(s, ln))
  }

  lemma {:induction false} OwnerStays(s: State, a: Action, t: State, o: nat)
    requires Inv(s) && Step(s, a) == Some(t) && Alone(s, o)
    ensures if t.shared.phase.Starting? || t.shared.phase.Stopping? then Alone(t, o) else Quiet(t)
  {}

  lemma {:induction false} OwnerComes(s: State, a: Action, t: State)
    requires Inv(s) && Step(s, a) == Some(t) && Quiet(s)
    ensures if t.shared.phase.Starting? || t.shared.phase.Stopping?
            then !a.ReadyCalled? && !a.ServeExited? && Alone(t, a.id)
            else Quiet(t)
  {}

  lemma {:induction false} StepKeepsOwner(s: State, a: Action, t: State)
    requires Inv(s) && Step(s, a) == Some(t)
    ensures Owned(t)
  {
    if s.shared.phase.Starting? || s.shared.phase.Stopping? {
      var o :| Alone(s, o);
      OwnerStays(s, a, t, o);
    } else {
      OwnerComes(s, a, t);
    }
  }

  lemma {:induction false} StepKeepsCover(s: State, a: Action, t: State, ln: nat)
    requires Inv(s) && Step(s, a) == Some(t) && ln in t.open
    ensures Covered(t, ln)
  {
    if a.StopCalled? || a.Listened? || a.ShutdownReturned? {
      assert a.id in t.calls;
    }
    if ln in s.open {
      assert Covered(s, ln);
      if i :| i in s.calls && ln in Holding(s.calls[i]) {
        assert i in t.calls;
      }
    }
  }

  lemma {:induction false} StepKeepsFit(s: State, a: Action, t: State, i: nat)
    requires Inv(s) && Step(s, a) == Some(t) && i in t.calls
    ensures Fits(t.shared, t.calls[i])
  {
    if i !in s.calls {
      NewCallFits(s, a, t, i);
    } else if By(a, i) {
      assert Fits(s.shared, s.calls[i]);
      if !s.shared.phase.Starting? && !s.shared.phase.Stopping? {
        assert !Owes(s.calls[i]);
      }
      MoverFits(s, a, t, i);
    } else {
      assert Fits(s.shared, s.calls[i]);
      if s.shared.phase.Starting? || s.shared.phase.Stopping? {
        var o :| Alone(s, o);
        OtherFits(s, a, t, i, o);
      } else {
        assert Quiet(s);
        QuietFits(s, a, t, i);
      }
    }
  }

  lemma {:induction false} NewCallFits(s: State, a: Action, t: State, i: nat)
    requires Channels(s.shared) && Step(s, a) == Some(t) && i !in s.calls && i in t.calls
    ensures Fits(t.shared, t.calls[i])
  {}

  /** The call that moves. */
  lemma {:induction false} MoverFits(s: State, a: Action, t: State, i: nat)
    requires Channels(s.shared) && Step(s, a) == Some(t) && By(a, i) && i in s.calls && Fits(s.shared, s.calls[i])
    requires Owes(s.calls[i]) ==> s.shared.phase.Starting? || s.shared.phase.Stopping?
    ensures i in t.calls && Fits(t.shared, t.calls[i])
  {}

  /** The others, while one call owes. */
  lemma {:induction false} OtherFits(s: State, a: Action, t: State, i: nat, o: nat)
    requires Channels(s.shared) && Step(s, a) == Some(t) && !By(a, i) && i in s.calls && Fits(s.shared, s.calls[i])
    requires Alone(s, o) && (s.shared.phase.Starting? || s.shared.phase.Stopping?)
    ensures i in t.calls && Fits(t.shared, t.calls[i])
  {
    assert Owes(s.calls[i]) ==> i == o;
  }

  /** And while none does. */
  lemma {:induction false} QuietFits(s: State, a: Action, t: State, i: nat)
    requires Channels(s.shared) && Step(s, a) == Some(t) && !By(a, i) && i in s.calls && Fits(s.shared, s.calls[i])
    requires Quiet(s) && !s.shared.phase.Starting? && !s.shared.phase.Stopping?
    ensures i in t.calls && Fits(t.shared, t.calls[i])
  {}

  lemma {:induction false} StepKeepsChannels(s: State, a: Action, t: State)
    requires Inv(s) && Step(s, a) == Some(t)
    ensures !t.panicked && Channels(t.shared)
  {}

  /** Each step keeps the invariant. */
  lemma {:induction false} StepKeeps(s: State, a: Action, t: State)
    requires Inv(s) && Step(s, a) == Some(t)
    ensures Inv(t)
  {
    StepKeepsChannels(s, a, t);
    StepKeepsOwner(s, a, t);
    forall i | i in t.calls {
      StepKeepsFit(s, a, t, i);
    }
    forall ln | ln in t.open {
      StepKeepsCover(s, a, t, ln);
    }
  }

  lemma {:induction false} RunKeeps(states: seq<State>, actions: seq<Action>, i: nat)
    requires IsRun(states, actions) && i <= |actions|
    ensures Inv(states[i])
  {
    if i > 0 {
      RunKeeps(states, actions, i - 1);
      StepKeeps(states[i - 1], actions[i - 1], states[i]);
    }
  }

  // ---- whole runs ---------------------------------------------------------

  /**
   In every state of every run: nothing has panicked, so neither channel was
   closed twice or before it was made; Stopped is exactly "stopDone is closed";
   and once Stopped no listener is open and nobody owes anything.
   */
  lemma {:induction false} RunIsSafe(states: seq<State>, actions: seq<Action>, i: nat)
    requires IsRun(states, actions) && i <= |actions|
    ensures !states[i].panicked
    ensures states[i].shared.phase == Stopped <==> states[i].shared.stopDone == Closed
    ensures states[i].shared.phase == Stopped ==> states[i].open == {} && Quiet(states[i])
  {
    var s := states[i];
    RunKeeps(states, actions, i);
    if s.shared.phase == Stopped {
      assert forall i :: i in s.calls ==> Holding(s.calls[i]) == {};
      assert forall ln :: !Covered(s, ln);
    }
  }

  function Rank(p: Phase): nat {
    match p
    case New => 0
    case Starting => 1
    case Running => 2
    case Stopping => 3
    case Stopped => 4
  }

  /** The phase only moves forward, the channels only close, and the result of stopping is final. */
  ghost predicate Later(s: Shared, t: Shared) {
    && Rank(s.phase) <= Rank(t.phase)
    && (s.ready == Closed ==> t.ready == Closed) && (s.stopDone == Closed ==> t.stopDone == Closed)
    && (s.phase == Stopped ==> t.stopErr == s.stopErr)
  }

  lemma {:induction false} StepIsLater(s: State, a: Action, t: State)
    requires Inv(s) && Step(s, a) == Some(t)
    ensures Later(s.shared, t.shared)
  {}

  lemma {:induction false} OnlyForward(states: seq<State>, actions: seq<Action>, i: nat, j: nat)
    requires IsRun(states, actions) && i <= j <= |actions|
    ensures Later(states[i].shared, states[j].shared)
  {
    if i < j {
      OnlyForward(states, actions, i, j - 1);
      RunKeeps(states, actions, j - 1);
      StepIsLater(states[j - 1], actions[j - 1], states[j]);
    }
  }

  /** The i-th step let a Start through the gate. */
  predicate Passes(s: State, a: Action) {
    a.StartCalled? && Gate(s.shared).1 == None
  }

  /** At most one Start ever passes the gate. */
  lemma {:induction false} OneStartPasses(states: seq<State>, actions: seq<Action>, i: nat, j: nat)
    requires IsRun(states, actions) && i < |actions| && j < |actions|
    requires Passes(states[i], actions[i]) && Passes(states[j], actions[j])
    ensures i == j
  {
    if i < j {
      OnlyForward(states, actions, i + 1, j);
    } else if j < i {
      OnlyForward(states, actions, j + 1, i);
    }
  }

  /** Each channel is closed by at most one step of a run. */
  lemma {:induction false} ClosedOnce(states: seq<State>, actions: seq<Action>, i: nat, j: nat)
    requires IsRun(states, actions) && i < j < |actions|
    ensures Finishes(actions[i]) ==> !Finishes(actions[j])
    ensures Publishes(states[i], actions[i]) ==> !Publishes(states[j], actions[j])
  {
    OnlyForward(states, actions, i + 1, j);
    StepSaysSo(states[i], actions[i], states[i + 1]) by {
      RunKeeps(states, actions, i);
    }
    StepSaysSo(states[j], actions[j], states[j + 1]) by {
      RunKeeps(states, actions, j);
    }
  }

  /** A step that closes a channel finds it open and leaves it closed. */
  lemma {:induction false} StepSaysSo(s: State, a: Action, t: State)
    requires Inv(s) && Step(s, a) == Some(t)
    ensures Finishes(a) ==> s.shared.stopDone == Open && t.shared.stopDone == Closed
    ensures Publishes(s, a) ==> s.shared.ready == Open && t.shared.ready == Closed
  {
    StepKeepsChannels(s, a, t);
  }

  /** The step closes `stopDone`. */
  predicate Finishes(a: Action) {
    a.StartFailed? || a.StopFinished?
  }

  /** The step closes `ready`. */
  predicate Publishes(s: State, a: Action) {
    a.Published? && s.shared.phase != Stopping
  }

  /** Every Stop of a run that has returned got the same result, the stored one. */
  lemma {:induction false} StopsAgree(states: seq<State>, actions: seq<Action>, i: nat, j: nat, a: nat, b: nat)
    requires IsRun(states, actions) && i <= j <= |actions|
    requires a in states[i].calls && states[i].calls[a].StopReturned?
    requires b in states[j].calls && states[j].calls[b].StopReturned?
    ensures states[i].calls[a].err == states[j].calls[b].err == states[j].shared.stopErr
  {
    RunKeeps(states, actions, i);
    RunKeeps(states, actions, j);
    OnlyForward(states, actions, i, j);
    assert Fits(states[i].shared, states[i].calls[a]);
    assert Fits(states[j].shared, states[j].calls[b]);
  }

  // ---- nobody waits for ever ----------------------------------------------

  /** While a Stop waits, exactly one other call owes finishStop; when none does, the wait is over. */
  lemma {:induction false} WaitIsOwed(states: seq<State>, actions: seq<Action>, i: nat, w: nat) returns (o: nat)
    requires IsRun(states, actions) && i <= |actions|
    requires w in states[i].calls && states[i].calls[w].Waiting? && states[i].shared.stopDone != Closed
    ensures states[i].shared.phase == Stopping && Alone(states[i], o) && o != w
  {
    RunKeeps(states, actions, i);
    assert Fits(states[i].shared, states[i].calls[w]);
    o :| Alone(states[i], o);
  }

  /** How many of its own steps a call takes, at most, until finishStop has run. */
  function Debt(c: Call): nat {
    match c
    case Listening => 4
    case Publishing(_) => 3
    case Discarding(_) => 2
    case Failing(_) => 1
    case ShuttingDown(_, _) => 4
    case Closing(_, _) => 3
    case Clearing(_) => 2
    case Finishing(_) => 1
    case _ => 0
  }

  /** The actions of one call. */
  predicate By(a: Action, o: nat) {
    !a.ReadyCalled? && !a.ServeExited? && a.id == o
  }

  /** The action the owing call can take next, whatever the others do. */
  function NextOf(o: nat, c: Call): Action
    requires Owes(c)
  {
    match c
    case Listening => ListenRefused(o, "")
    case Publishing(_) => Published(o, 0)
    case Discarding(_) => Discarded(o)
    case Failing(_) => StartFailed(o)
    case ShuttingDown(_, _) => ShutdownReturned(o, None, false)
    case Closing(_, _) => ListenerClosed(o, CloseFine)
    case Clearing(_) => FieldsCleared(o)
    case Finishing(_) => StopFinished(o)
  }

  /** The call that owes is never blocked. */
  lemma {:induction false} OwnerCanMove(s: State, o: nat)
    requires Inv(s) && Alone(s, o)
    ensures By(NextOf(o, s.calls[o]), o) && Step(s, NextOf(o, s.calls[o])).Some?
  {}

  /** One step while stopping: the owner's own steps reduce its debt, the others leave it alone. */
  lemma {:induction false} DebtStep(s: State, a: Action, t: State, o: nat)
    requires Inv(s) && Step(s, a) == Some(t) && s.shared.phase == Stopping && Alone(s, o)
    ensures t.shared.phase == Stopped ||
            (t.shared.phase == Stopping && Alone(t, o)
             && Debt(t.calls[o]) + (if By(a, o) then 1 else 0) <= Debt(s.calls[o]))
  {}

  /** The steps a call takes in part of a run. */
  ghost function StepsOf(actions: seq<Action>, o: nat): nat {
    if actions == [] then 0 else StepsOf(actions[..|actions| - 1], o) + if By(actions[|actions| - 1], o) then 1 else 0
  }

  lemma {:induction false} StepsOfMore(actions: seq<Action>, i: nat, j: nat, o: nat)
    requires i < j <= |actions|
    ensures StepsOf(actions[i..j], o) == StepsOf(actions[i..j - 1], o) + if By(actions[j - 1], o) then 1 else 0
  {
    assert actions[i..j][..j - 1 - i] == actions[i..j - 1];
  }

  lemma {:induction false} DebtFalls(states: seq<State>, actions: seq<Action>, i: nat, j: nat, o: nat)
    requires IsRun(states, actions) && i <= j <= |actions|
    requires states[i].shared.phase == Stopping && Alone(states[i], o)
    ensures states[j].shared.phase == Stopped ||
            (states[j].shared.phase == Stopping && Alone(states[j], o)
             && Debt(states[j].calls[o]) + StepsOf(actions[i..j], o) <= Debt(states[i].calls[o]))
  {
    if i < j {
      DebtFalls(states, actions, i, j - 1, o);
      RunKeeps(states, actions, j - 1);
      StepsOfMore(actions, i, j, o);
      if states[j - 1].shared.phase == Stopped {
        OnlyForward(states, actions, j - 1, j);
      } else {
        DebtStep(states[j - 1], actions[j - 1], states[j], o);
      }
    }
  }

  /**
   Once a Stop waits, four steps of the one call that owes, wherever they fall among
   the steps of the others, end the wait: stopDone is closed and the waiting call can go on.
   */
  lemma {:induction false} WaitEnds(states: seq<State>, actions: seq<Action>, i: nat, j: nat, w: nat, o: nat)
    requires IsRun(states, actions) && i <= j <= |actions|
    requires w in states[i].calls && states[i].calls[w].Waiting?
    requires states[i].shared.stopDone != Closed && Alone(states[i], o)
    requires StepsOf(actions[i..j], o) >= 4
    ensures states[j].shared.stopDone == Closed
    ensures w in states[j].calls && (states[j].calls[w].Waiting? ==> Step(states[j], Woke(w)).Some?)
  {
    var o' := WaitIsOwed(states, actions, i, w);
    DebtFalls(states, actions, i, j, o);
    RunKeeps(states, actions, j);
    CallsStay(states, actions, i, j, w);
  }

  lemma {:induction false} CallsStay(states: seq<State>, actions: seq<Action>, i: nat, j: nat, id: nat)
    requires IsRun(states, actions) && i <= j <= |actions| && id in states[i].calls
    ensures id in states[j].calls
  {
    if i < j {
      CallsStay(states, actions, i, j - 1, id);
    }
  }
}
