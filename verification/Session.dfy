/**
 The session state machine (internal/auth/session_state_machine.go): valid
 transitions, lockout after repeated failures and a bounded history. Each call is
 given the clock, in nanoseconds.
 */
module Session {
  import opened Text

  datatype Status = Fresh | Authenticating | Authenticated | Failed | Locked | Expired | Invalidated

  predicate IsTerminal(s: Status) {
    s == Expired || s == Invalidated
  }

  predicate IsValidTransition(s: Status, to: Status) {
    match s
    case Fresh => to == Authenticating || IsTerminal(to)
    case Authenticating => to == Authenticated || to == Failed || to == Locked || IsTerminal(to)
    case Authenticated => IsTerminal(to)
    case Failed => to == Authenticating || to == Locked || IsTerminal(to)
    case Locked => IsTerminal(to)
    case _ => false
  }

  datatype Config = Config(maxAge: int, maxFailures: int, lockout: int)

  datatype Move = Move(from: Status, to: Status, at: int, reason: string)

  datatype State = State(
    status: Status, previous: Status, history: seq<Move>, expiresAt: int,
    failures: int, lockedUntil: Option<int>, username: string)

  datatype Refusal = SessionExpired | Terminal | InvalidMove | LockedOut | NoUsername | TooFewFailures

  // ---- one transition -----------------------------------------------------

  /** recordTransition: add, and drop the oldest over the limit. */
  function Recorded(history: seq<Move>, m: Move, maxFailures: int): seq<Move> {
    var more := history + [m];
    if |more| > maxFailures * 2 then more[1..] else more
  }

  predicate IsLockedOut(s: State, now: int) {
    s.lockedUntil.Some? && now < s.lockedUntil.value
  }

  /** Why a transition is refused, checked in this order. */
  function Refused(cfg: Config, s: State, to: Status, now: int): Option<Refusal> {
    if now > s.expiresAt then Some(SessionExpired)
    else if IsTerminal(s.status) then Some(Terminal)
    else if !IsValidTransition(s.status, to) then Some(InvalidMove)
    else if IsLockedOut(s, now) && !IsTerminal(to) then Some(LockedOut)
    else if to == Authenticated && s.username == "" then Some(NoUsername)
    else if to == Locked && s.failures < cfg.maxFailures then Some(TooFewFailures)
    else None
  }

  /** handleStateTransition. */
  function Handled(cfg: Config, s: State, to: Status, now: int): State {
    match to
    case Failed =>
      var n := s.failures + 1;
      s.(failures := n, lockedUntil := if n >= cfg.maxFailures then Some(now + cfg.lockout) else s.lockedUntil)
    case Authenticated => s.(failures := 0, lockedUntil := None)
    case _ => s
  }

  function Moved(cfg: Config, s: State, to: Status, reason: string, now: int): State {
    if Refused(cfg, s, to, now).Some? then s
    else
      var recorded := s.(history := Recorded(s.history, Move(s.status, to, now, reason), cfg.maxFailures));
      Handled(cfg, recorded.(previous := s.status, status := to), to, now)
  }

  /** The record of a session's creation. */
  function Birth(now: int): Move {
    Move(Fresh, Fresh, now, "session_created")
  }

  function Created(cfg: Config, now: int): State {
    State(Fresh, Fresh, Recorded([], Birth(now), cfg.maxFailures), now + cfg.maxAge, 0, None, "")
  }

  /** SetUsername works while authenticating or authenticated. */
  function Named(s: State, name: string): State {
    if s.status == Authenticating || s.status == Authenticated then s.(username := name) else s
  }

  function Extended(s: State, duration: int, now: int): State {
    if IsTerminal(s.status) then s else s.(expiresAt := now + duration)
  }

  class Machine {
    const cfg: Config
    var status: Status
    var previous: Status
    var history: seq<Move>
    var expiresAt: int
    var failures: int
    var lockedUntil: Option<int>
    var username: string

    function View(): State
      reads this
    {
      State(status, previous, history, expiresAt, failures, lockedUntil, username)
    }

    constructor (cfg: Config, now: int)
      ensures this.cfg == cfg && View() == Created(cfg, now)
    {
      this.cfg := cfg;
      status, previous, history := Fresh, Fresh, [];
      expiresAt, failures, lockedUntil, username := now + cfg.maxAge, 0, None, "";
      new;
      RecordTransition(Fresh, "session_created", now);
    }

    method RecordTransition(to: Status, reason: string, now: int)
      modifies this`history
      ensures history == Recorded(old(history), Move(status, to, now, reason), cfg.maxFailures)
    {
      history := history + [Move(status, to, now, reason)];
      if |history| > cfg.maxFailures * 2 {
        history := history[1..];
      }
    }

    method Validate(to: Status) returns (refusal: Option<Refusal>)
      ensures refusal == if to == Authenticated && username == "" then Some(NoUsername)
                         else if to == Locked && failures < cfg.maxFailures then Some(TooFewFailures) else None
    {
      match to {
        case Authenticated =>
          if username == "" {
            return Some(NoUsername);
          }
        case Locked =>
          if failures < cfg.maxFailures {
            return Some(TooFewFailures);
          }
        case _ =>
      }
      return None;
    }

    method Handle(to: Status, now: int)
      modifies this`failures, this`lockedUntil
      ensures View() == Handled(cfg, old(View()), to, now)
    {
      match to {
        case Failed =>
          failures := failures + 1;
          if failures >= cfg.maxFailures {
            lockedUntil := Some(now + cfg.lockout);
          }
        case Authenticated =>
          failures := 0;
          lockedUntil := None;
        case _ =>
      }
    }

    method TransitionTo(to: Status, reason: string, now: int) returns (refusal: Option<Refusal>)
      modifies this
      ensures refusal == Refused(cfg, old(View()), to, now)
      ensures View() == Moved(cfg, old(View()), to, reason, now)
    {
      if now > expiresAt {
        return Some(SessionExpired);
      }
      if status == Expired || status == Invalidated {
        return Some(Terminal);
      }
      if !IsValidTransition(status, to) {
        return Some(InvalidMove);
      }
      if IsLockedOut(View(), now) {
        if to != Expired && to != Invalidated {
          return Some(LockedOut);
        }
      }
      refusal := Validate(to);
      if refusal.Some? {
        return;
      }
      RecordTransition(to, reason, now);
      previous := status;
      status := to;
      Handle(to, now);
    }

    method SetUsername(name: string) returns (ok: bool)
      modifies this`username
      ensures View() == Named(old(View()), name)
      ensures ok <==> status == Authenticating || status == Authenticated
    {
      if status != Authenticating && status != Authenticated {
        return false;
      }
      username := name;
      return true;
    }

    method ExtendExpiration(duration: int, now: int) returns (ok: bool)
      modifies this`expiresAt
      ensures View() == Extended(old(View()), duration, now)
      ensures ok <==> !IsTerminal(status)
    {
      if status == Expired || status == Invalidated {
        return false;
      }
      expiresAt := now + duration;
      return true;
    }
  }

  // ---- whole runs ---------------------------------------------------------

  datatype Event =
    | Transition(to: Status, reason: string, at: int)
    | SetName(name: string)
    | Extend(duration: int, at: int)

  function Apply(cfg: Config, s: State, e: Event): State {
    match e
    case Transition(to, reason, at) => Moved(cfg, s, to, reason, at)
    case SetName(name) => Named(s, name)
    case Extend(duration, at) => Extended(s, duration, at)
  }

  function After(cfg: Config, start: int, events: seq<Event>): State {
    if events == [] then Created(cfg, start)
    else Apply(cfg, After(cfg, start, events[..|events| - 1]), events[|events| - 1])
  }

  /** The transition an event makes, if it is accepted. */
  function Made(cfg: Config, s: State, e: Event): seq<Move> {
    if e.Transition? && Refused(cfg, s, e.to, e.at).None? then [Move(s.status, e.to, e.at, e.reason)] else []
  }

  /** Every transition of a run, with the record of its creation. */
  function Trace(cfg: Config, start: int, events: seq<Event>): (r: seq<Move>)
    ensures |r| >= 1
  {
    if events == [] then [Birth(start)]
    else
      var before := events[..|events| - 1];
      Trace(cfg, start, before) + Made(cfg, After(cfg, start, before), events[|events| - 1])
  }

  /** The last transitions of a trace. */
  function LastOf(trace: seq<Move>, n: int): seq<Move> {
    if |trace| <= n then trace else if n <= 0 then [] else trace[|trace| - n..]
  }

  ghost predicate Linked(trace: seq<Move>) {
    forall i :: 0 <= i && i + 1 < |trace| ==> trace[i].to == trace[i + 1].from
  }

  lemma {:induction false} RecordedIsLast(trace: seq<Move>, m: Move, maxFailures: int)
    ensures Recorded(LastOf(trace, maxFailures * 2), m, maxFailures) == LastOf(trace + [m], maxFailures * 2)
  {
    var n := maxFailures * 2;
    var more := LastOf(trace, n) + [m];
    if n <= 0 {
      assert more[1..] == [];
    } else if |trace| >= n {
      assert LastOf(trace, n) == trace[|trace| - n..];
      assert more[1..] == (trace + [m])[|trace| + 1 - n..];
    }
  }

  lemma {:induction false} StepIsLast(cfg: Config, s: State, trace: seq<Move>, e: Event)
    requires s.history == LastOf(trace, cfg.maxFailures * 2)
    ensures Apply(cfg, s, e).history == LastOf(trace + Made(cfg, s, e), cfg.maxFailures * 2)
  {
    if Made(cfg, s, e) != [] {
      RecordedIsLast(trace, Move(s.status, e.to, e.at, e.reason), cfg.maxFailures);
    } else {
      assert trace + [] == trace;
    }
  }

  /** The stored history is the last 2*maxFailures transitions of the whole trace, all of it while it is shorter. */
  lemma {:induction false} HistoryIsLast(cfg: Config, start: int, events: seq<Event>)
    ensures After(cfg, start, events).history == LastOf(Trace(cfg, start, events), cfg.maxFailures * 2)
  {
    if events == [] {
      var none: seq<Move> := [];
      RecordedIsLast(none, Birth(start), cfg.maxFailures);
      assert none + [Birth(start)] == [Birth(start)] && LastOf(none, cfg.maxFailures * 2) == none;
    } else {
      var before := events[..|events| - 1];
      HistoryIsLast(cfg, start, before);
      StepIsLast(cfg, After(cfg, start, before), Trace(cfg, start, before), events[|events| - 1]);
    }
  }

  // ---- the invariant ------------------------------------------------------

  /** The failures of a trace. */
  function Failures(trace: seq<Move>): seq<int> {
    if trace == [] then []
    else Failures(trace[..|trace| - 1]) + if trace[|trace| - 1].to == Failed then [trace[|trace| - 1].at] else []
  }

  ghost predicate Authenticates(trace: seq<Move>) {
    exists i :: 0 <= i < |trace| && trace[i].to == Authenticated
  }

  /** What a state says of the trace that led to it. */
  ghost predicate Agrees(cfg: Config, s: State, trace: seq<Move>) {
    && trace != [] && trace[|trace| - 1].to == s.status && Linked(trace)
    && (Authenticates(trace) ==> s.status == Authenticated || IsTerminal(s.status))
    && (!Authenticates(trace) ==> s.failures == |Failures(trace)|)
    && (!Authenticates(trace) && s.failures >= 1 && s.failures >= cfg.maxFailures ==>
          s.lockedUntil == Some(Failures(trace)[|Failures(trace)| - 1] + cfg.lockout))
  }

  lemma {:induction false} FailuresMore(trace: seq<Move>, m: Move)
    ensures Failures(trace + [m]) == Failures(trace) + if m.to == Failed then [m.at] else []
  {
    assert (trace + [m])[..|trace|] == trace;
  }

  lemma {:induction false} AuthenticatesMore(trace: seq<Move>, m: Move)
    ensures Authenticates(trace + [m]) <==> Authenticates(trace) || m.to == Authenticated
  {
    assert (trace + [m])[|trace|] == m;
    if i :| 0 <= i < |trace| && trace[i].to == Authenticated {
      assert (trace + [m])[i].to == Authenticated;
    }
  }

  lemma {:induction false} MoveAgrees(cfg: Config, s: State, trace: seq<Move>, to: Status, reason: string, now: int)
    requires Agrees(cfg, s, trace) && Refused(cfg, s, to, now).None?
    ensures Agrees(cfg, Moved(cfg, s, to, reason, now), trace + [Move(s.status, to, now, reason)])
  {
    var m := Move(s.status, to, now, reason);
    FailuresMore(trace, m);
    AuthenticatesMore(trace, m);
  }

  lemma {:induction false} StepAgrees(cfg: Config, s: State, trace: seq<Move>, e: Event)
    requires Agrees(cfg, s, trace)
    ensures Agrees(cfg, Apply(cfg, s, e), trace + Made(cfg, s, e))
  {
    if Made(cfg, s, e) != [] {
      MoveAgrees(cfg, s, trace, e.to, e.reason, e.at);
    } else {
      assert trace + [] == trace;
    }
  }

  lemma {:induction false} BirthAgrees(cfg: Config, start: int)
    ensures Agrees(cfg, Created(cfg, start), [Birth(start)]) && Failures([Birth(start)]) == []
  {
    var none: seq<Move> := [];
    assert none + [Birth(start)] == [Birth(start)];
    FailuresMore(none, Birth(start));
    AuthenticatesMore(none, Birth(start));
  }

  lemma {:induction false} RunAgrees(cfg: Config, start: int, events: seq<Event>)
    ensures Agrees(cfg, After(cfg, start, events), Trace(cfg, start, events))
  {
    if events == [] {
      BirthAgrees(cfg, start);
    } else {
      var before := events[..|events| - 1];
      RunAgrees(cfg, start, before);
      StepAgrees(cfg, After(cfg, start, before), Trace(cfg, start, before), events[|events| - 1]);
    }
  }

  // ---- the theorems -------------------------------------------------------

  /** From the maxFailures-th on, consecutive failures are at least the lockout apart. */
  ghost predicate Spaced(cfg: Config, times: seq<int>) {
    forall i :: 0 <= i && i + 1 < |times| && i + 1 >= cfg.maxFailures ==> times[i + 1] - times[i] >= cfg.lockout
  }

  lemma {:induction false} StepSpaced(cfg: Config, s: State, trace: seq<Move>, e: Event)
    requires Agrees(cfg, s, trace) && Spaced(cfg, Failures(trace))
    ensures Spaced(cfg, Failures(trace + Made(cfg, s, e)))
  {
    if Made(cfg, s, e) != [] {
      FailuresMore(trace, Move(s.status, e.to, e.at, e.reason));
    } else {
      assert trace + [] == trace;
    }
  }

  lemma {:induction false} RunSpaced(cfg: Config, start: int, events: seq<Event>)
    ensures Spaced(cfg, Failures(Trace(cfg, start, events)))
  {
    if events == [] {
      BirthAgrees(cfg, start);
    } else {
      var before := events[..|events| - 1];
      RunAgrees(cfg, start, before);
      RunSpaced(cfg, start, before);
      StepSpaced(cfg, After(cfg, start, before), Trace(cfg, start, before), events[|events| - 1]);
    }
  }

  /** From the maxFailures-th failure of a run on, consecutive failures are at least the lockout apart. */
  lemma {:induction false} FailuresAreSpaced(cfg: Config, start: int, events: seq<Event>, i: nat)
    requires i + 1 < |Failures(Trace(cfg, start, events))| && i + 1 >= cfg.maxFailures
    ensures Failures(Trace(cfg, start, events))[i + 1] - Failures(Trace(cfg, start, events))[i] >= cfg.lockout
  {
    RunSpaced(cfg, start, events);
  }

  /** Authenticated is entered at most once in a run. */
  lemma {:induction false} AuthenticatedOnce(cfg: Config, start: int, events: seq<Event>, i: nat, j: nat)
    requires i < j < |Trace(cfg, start, events)| && Trace(cfg, start, events)[i].to == Authenticated
    ensures Trace(cfg, start, events)[j].to != Authenticated
  {
    if events != [] {
      var before, e := events[..|events| - 1], events[|events| - 1];
      var trace := Trace(cfg, start, before);
      RunAgrees(cfg, start, before);
      if j < |trace| {
        AuthenticatedOnce(cfg, start, before, i, j);
      } else {
        assert trace[i].to == Authenticated;
        assert Authenticates(trace);
      }
    }
  }

  /** It is entered only with a username. */
  lemma {:induction false} EntryNeedsName(cfg: Config, start: int, events: seq<Event>, i: nat)
    requires i < |events| && After(cfg, start, events[..i]).status != Authenticated
    requires After(cfg, start, events[..i + 1]).status == Authenticated
    ensures events[i].Transition? && events[i].to == Authenticated && After(cfg, start, events[..i]).username != ""
  {
    assert events[..i + 1][..i] == events[..i];
  }

  /** A state that ends the session is never left, and nothing more is recorded. */
  lemma {:induction false} TerminalIsFinal(cfg: Config, start: int, events: seq<Event>, more: seq<Event>)
    requires IsTerminal(After(cfg, start, events).status)
    ensures After(cfg, start, events + more).status == After(cfg, start, events).status
    ensures Trace(cfg, start, events + more) == Trace(cfg, start, events)
  {
    if more == [] {
      assert events + more == events;
    } else {
      var n := |more| - 1;
      TerminalIsFinal(cfg, start, events, more[..n]);
      assert (events + more)[..|events + more| - 1] == events + more[..n];
    }
  }

  /** Locked is entered only after maxFailures failures. */
  lemma {:induction false} LockedNeedsFailures(cfg: Config, start: int, events: seq<Event>, i: nat)
    requires i < |events| && After(cfg, start, events[..i]).status != Locked
    requires After(cfg, start, events[..i + 1]).status == Locked
    ensures |Failures(Trace(cfg, start, events[..i]))| >= cfg.maxFailures
  {
    assert events[..i + 1][..i] == events[..i];
    RunAgrees(cfg, start, events[..i]);
  }

  lemma {:induction false} LastIsLinked(trace: seq<Move>, n: int)
    requires trace != [] && Linked(trace)
    ensures Linked(LastOf(trace, n))
            && (LastOf(trace, n) != [] ==> LastOf(trace, n)[|LastOf(trace, n)| - 1] == trace[|trace| - 1])
  {
    if 0 < n < |trace| {
      var k, last := |trace| - n, LastOf(trace, n);
      forall i | 0 <= i && i + 1 < |last|
        ensures last[i].to == last[i + 1].from
      {
        assert trace[k + i].to == trace[k + i + 1].from;
      }
    }
  }

  /**
   The stored history is linked: each transition starts where the one before it ended, and
   the last leads to the present state.
   */
  lemma {:induction false} HistoryIsLinked(cfg: Config, start: int, events: seq<Event>)
    ensures var s := After(cfg, start, events);
            Linked(s.history) && (s.history != [] ==> s.history[|s.history| - 1].to == s.status)
  {
    HistoryIsLast(cfg, start, events);
    RunAgrees(cfg, start, events);
    LastIsLinked(Trace(cfg, start, events), cfg.maxFailures * 2);
  }
}
