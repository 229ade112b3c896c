/**
 Whether a running campaign is being sent (internal/campaign/runner.go): Start marks
 it Running before it registers a run, and Pause and Cancel stop whatever run is
 registered when they get to it.
 */
module CampaignDrive {
  import opened Text
  import opened Campaigns

  /** A Start has marked the campaign and not yet registered its run. */
  ghost predicate Awaited(s: State, id: nat) {
    exists call :: call in s.calls && s.calls[call] == Registering(id)
  }

  /** The campaign is Running, no goroutine is in its loop, and no Start is about to begin one. */
  ghost predicate Stuck(s: State, id: nat) {
    id in s.campaigns && s.campaigns[id].status == Running && !AnyLive(s, id) && !Awaited(s, id)
  }

  // ---- exactly how it begins ----------------------------------------------

  /** The last pending Start finds a registration whose goroutine has left its loop. */
  ghost predicate RefusedLast(s: State, a: Action, id: nat) {
    && a.RunRegistered? && a.call in s.calls && s.calls[a.call] == Registering(id)
    && id in s.registry.runs && !AnyLive(s, id)
    && forall call :: call in s.calls && call != a.call ==> s.calls[call] != Registering(id)
  }

  /** The last goroutine gives up because it was cancelled, with no Start pending. */
  ghost predicate GivesUpLast(s: State, a: Action, id: nat) {
    && a.GaveUp? && a.g < |s.runs| && s.runs[a.g].id == id && !Awaited(s, id)
    && forall g :: 0 <= g < |s.runs| && g != a.g && s.runs[g].id == id ==> !Live(s.runs[g].spot)
  }

  /** What a goroutine's step does to which goroutines are live. */
  lemma {:induction false} LiveAfterRun(s: State, a: Action, g: nat, t: State, id: nat)
    requires g < |s.runs| && RunStep(s, a, g, s.runs[g]) == Some(t)
    ensures |t.runs| == |s.runs|
    ensures AnyLive(t, id) <==>
            (exists h :: 0 <= h < |s.runs| && h != g && s.runs[h].id == id && Live(s.runs[h].spot))
            || (s.runs[g].id == id && Live(t.runs[g].spot))
  {
    RunStepIs(s, a, g, t);
    assert forall h :: 0 <= h < |s.runs| && h != g ==> t.runs[h] == s.runs[h];
    if h :| 0 <= h < |t.runs| && t.runs[h].id == id && Live(t.runs[h].spot) {
      assert h != g ==> t.runs[h] == s.runs[h];
    }
    if h :| 0 <= h < |s.runs| && h != g && s.runs[h].id == id && Live(s.runs[h].spot) {
      assert t.runs[h] == s.runs[h];
    }
    assert t.runs[g].id == s.runs[g].id;
  }

  lemma {:induction false} RunStepSticks(s: State, a: Action, g: nat, t: State, id: nat)
    requires g < |s.runs| && RunStep(s, a, g, s.runs[g]) == Some(t) && g == RunOf(a) && id in s.campaigns
             && !Stuck(s, id)
    ensures Stuck(t, id) <==> s.campaigns[id].status == Running && GivesUpLast(s, a, id)
  {
    LiveAfterRun(s, a, g, t, id);
    RunStepIs(s, a, g, t);
    LeavesLoop(s, a, g, t);
    assert Awaited(t, id) <==> Awaited(s, id);
  }

  function RunOf(a: Action): int {
    match a
    case Chose(g) => g
    case Checked(g, _) => g
    case SkipCounted(g) => g
    case Ticked(g) => g
    case GaveUp(g) => g
    case Handed(g, _) => g
    case SendCounted(g) => g
    case Finished(g) => g
    case _ => -1
  }

  /** A goroutine leaves its loop of a running campaign only by giving up. */
  lemma {:induction false} LeavesLoop(s: State, a: Action, g: nat, t: State)
    requires g < |s.runs| && g == RunOf(a) && RunStep(s, a, g, s.runs[g]) == Some(t)
    ensures |t.runs| == |s.runs| && t.campaigns.Keys == s.campaigns.Keys
    ensures Live(t.runs[g].spot) ==> Live(s.runs[g].spot)
    ensures var id := s.runs[g].id;
            id in t.campaigns
            && (Live(s.runs[g].spot) && !Live(t.runs[g].spot) && t.campaigns[id].status == Running ==> a.GaveUp?)
    ensures a.GaveUp? ==>
              Live(s.runs[g].spot) && !Live(t.runs[g].spot) && t.campaigns == s.campaigns && s.runs[g].cancelled
    ensures forall id :: id in s.campaigns ==>
              (t.campaigns[id].status == Running <==> s.campaigns[id].status == Running && !Completes(s, a, id))
  {}

  /** The step completes the campaign. */
  predicate Completes(s: State, a: Action, id: nat) {
    && a.Chose? && a.g < |s.runs| && s.runs[a.g].id == id && s.runs[a.g].spot == Looping
    && id in s.campaigns && s.campaigns[id].status == Running && Progress(s.campaigns[id]) >= s.campaigns[id].total
  }

  lemma {:induction false} CallStepSticks(s: State, a: Action, t: State, id: nat)
    requires Step(s, a) == Some(t) && RunOf(a) == -1 && !a.RunRegistered? && id in s.campaigns && !Stuck(s, id)
    ensures !Stuck(t, id)
  {
    CallsMoveNothing(s, a, t);
    if AnyLive(s, id) {
      var g :| 0 <= g < |s.runs| && s.runs[g].id == id && Live(s.runs[g].spot);
      assert t.runs[g].id == id && Live(t.runs[g].spot);
    }
    if call :| call in s.calls && s.calls[call] == Registering(id) {
      assert call in t.calls && t.calls[call] == Registering(id);
    }
    if a.StartCalled? && a.id == id && CanStart(s.campaigns[id]) && a.valid {
      assert t.calls[a.call] == Registering(id);
    }
  }

  lemma {:induction false} RegisterSticks(s: State, a: Action, t: State, id: nat)
    requires Step(s, a) == Some(t) && a.RunRegistered? && id in s.campaigns && !Stuck(s, id)
    ensures Stuck(t, id) <==> s.campaigns[id].status == Running && RefusedLast(s, a, id)
  {
    var of := s.calls[a.call].id;
    assert t == RegisterStep(s, a.call, of);
    assert forall g :: 0 <= g < |s.runs| ==> t.runs[g] == s.runs[g];
    assert forall call :: call in s.calls && call != a.call ==> t.calls[call] == s.calls[call];
    if AnyLive(s, id) {
      var g :| 0 <= g < |s.runs| && s.runs[g].id == id && Live(s.runs[g].spot);
      assert t.runs[g] == s.runs[g];
    }
    if of == id && id !in s.registry.runs {
      assert t.runs[|s.runs|].id == id && Live(t.runs[|s.runs|].spot);
    }
    if call :| call in s.calls && call != a.call && s.calls[call] == Registering(id) {
      assert t.calls[call] == Registering(id);
    }
  }

  /** A campaign gets stuck at exactly two kinds of steps. */
  lemma {:induction false} StuckBeginsIff(s: State, a: Action, t: State, id: nat)
    requires Step(s, a) == Some(t) && id in s.campaigns && !Stuck(s, id)
    ensures Stuck(t, id) <==> s.campaigns[id].status == Running && (RefusedLast(s, a, id) || GivesUpLast(s, a, id))
  {
    if RunOf(a) >= 0 {
      RunStepSticks(s, a, a.g, t, id);
    } else if a.RunRegistered? {
      RegisterSticks(s, a, t, id);
    } else {
      CallStepSticks(s, a, t, id);
    }
  }

  // ---- it lasts -----------------------------------------------------------

  /** The action is a Pause or Cancel of the campaign. */
  predicate Ends(a: Action, id: nat) {
    (a.PauseCalled? || a.CancelCalled?) && a.id == id
  }

  lemma {:induction false} StuckStep(s: State, a: Action, t: State, id: nat)
    requires Stuck(s, id) && Step(s, a) == Some(t) && !Ends(a, id)
    ensures Stuck(t, id) && t.campaigns[id] == s.campaigns[id]
  {
    if RunOf(a) >= 0 {
      LiveAfterRun(s, a, a.g, t, id);
      RunStepIs(s, a, a.g, t);
      NoneComesAlive(s, a, a.g, t);
      assert s.runs[a.g].id == id ==> !Live(s.runs[a.g].spot);
    } else if a.RunRegistered? {
      assert s.calls[a.call].id != id;
    } else {
      CallsMoveNothing(s, a, t);
    }
  }

  /** A stuck campaign stays as it is, sending nothing, until it is paused or cancelled; starting it is refused. */
  lemma {:induction false} StuckLasts(states: seq<State>, actions: seq<Action>, i: nat, j: nat, id: nat)
    requires IsRun(states, actions) && i <= j <= |actions| && Stuck(states[i], id)
    requires forall k :: i <= k < j ==> !Ends(actions[k], id)
    ensures Stuck(states[j], id) && states[j].campaigns[id] == states[i].campaigns[id]
            && !CanStart(states[j].campaigns[id])
  {
    if i < j {
      StuckLasts(states, actions, i, j - 1, id);
      assert !Ends(actions[j - 1], id);
      StuckStep(states[j - 1], actions[j - 1], states[j], id);
    }
  }

  // ---- how it is avoided --------------------------------------------------

  /** A Start that is accepted finds no registration of its campaign and no call still on its way to one. */
  ghost predicate IsTidy(s: State, a: Action) {
    a.StartCalled? && a.id in s.campaigns && CanStart(s.campaigns[a.id]) && a.valid ==>
      a.id !in s.registry.runs && NoStop(s, a.id) && !Awaited(s, a.id)
  }

  /** No Pause or Cancel of the campaign is still about to stop its run. */
  ghost predicate NoStop(s: State, id: nat) {
    forall call :: call in s.calls ==> s.calls[call] != Stopping(id)
  }

  /** A registered run is neither cancelled nor about to be. */
  ghost predicate Spared(s: State) {
    && Tokens(s)
    && (forall call :: call in s.calls && s.calls[call].Cancelling? ==>
          && s.calls[call].token <= |s.runs|
          && forall id :: id in s.registry.runs ==> s.registry.runs[id] != s.calls[call].token)
    && (forall g :: 0 <= g < |s.runs| && s.runs[g].cancelled ==>
          forall id :: id in s.registry.runs ==> s.registry.runs[id] != g + 1)
  }

  /** The campaign's registered run is in its loop, or a Start is about to register one. */
  ghost predicate Driven(s: State, id: nat)
    requires Tokens(s)
  {
    NoStop(s, id) && if id in s.registry.runs then Live(s.runs[s.registry.runs[id] - 1].spot) else Awaited(s, id)
  }

  ghost predicate AllDriven(s: State) {
    Spared(s) && forall id :: id in s.campaigns && s.campaigns[id].status == Running ==> Driven(s, id)
  }

  lemma {:induction false} DrivenIsNotStuck(s: State, id: nat)
    requires AllDriven(s)
    ensures !Stuck(s, id)
  {
    if id in s.campaigns && s.campaigns[id].status == Running && id in s.registry.runs {
      var g := s.registry.runs[id] - 1;
      assert Driven(s, id);
      assert s.runs[g].id == id && Live(s.runs[g].spot);
    }
  }

  lemma {:induction false} RunSpares(s: State, a: Action, g: nat, t: State)
    requires Spared(s) && g < |s.runs| && RunStep(s, a, g, s.runs[g]) == Some(t)
    ensures Spared(t)
  {
    RunStepKeepsTokens(s, a, g, t);
    RunStepIs(s, a, g, t);
  }

  lemma {:induction false} RegisterSpares(s: State, call: nat, id: nat)
    requires Spared(s)
    ensures Spared(RegisterStep(s, call, id))
  {
    RegisterKeepsTokens(s, call, id);
  }

  lemma {:induction false} UnregisterSpares(s: State, call: nat, id: nat)
    requires Spared(s)
    ensures Spared(UnregisterStep(s, call, id))
  {
    UnregisterKeepsTokens(s, call, id);
    var t := UnregisterStep(s, call, id);
    if id in s.registry.runs {
      forall other | other in t.registry.runs
        ensures t.registry.runs[other] != s.registry.runs[id]
      {
        assert s.runs[s.registry.runs[other] - 1].id == other;
      }
    }
  }

  lemma {:induction false} CancelSpares(s: State, call: nat, token: nat)
    requires Spared(s) && call in s.calls && s.calls[call] == Cancelling(token)
    ensures Spared(s.(runs := CancelRuns(s.runs, token), calls := s.calls[call := Returned]))
  {
    CancelKeepsTokens(s, s.(runs := CancelRuns(s.runs, token), calls := s.calls[call := Returned]), token);
  }

  lemma {:induction false} EnterSpares(s: State, call: nat, id: nat, c: Option<Campaign>, next: Call)
    requires Spared(s) && call !in s.calls && !next.Cancelling?
    ensures Spared(Entered(s, call, id, c, next))
  {}

  lemma {:induction false} StepSpares(s: State, a: Action, t: State)
    requires Spared(s) && Step(s, a) == Some(t)
    ensures Spared(t)
  {
    match a
    case StartCalled(call, id, valid) =>
      EnterSpares(s, call, id, StartSection(s.campaigns[id], valid), Registering(id));
    case PauseCalled(call, id) => EnterSpares(s, call, id, PauseSection(s.campaigns[id]), Stopping(id));
    case CancelCalled(call, id) => EnterSpares(s, call, id, CancelSection(s.campaigns[id]), Stopping(id));
    case RunRegistered(call) => RegisterSpares(s, call, s.calls[call].id);
    case RunUnregistered(call) => UnregisterSpares(s, call, s.calls[call].id);
    case RunCancelled(call) => CancelSpares(s, call, s.calls[call].token);
    case _ => RunSpares(s, a, a.g, t);
  }

  lemma {:induction false} RunDrives(s: State, a: Action, g: nat, t: State, id: nat)
    requires Spared(s) && g < |s.runs| && g == RunOf(a) && RunStep(s, a, g, s.runs[g]) == Some(t) && Tokens(t)
    requires id in s.campaigns && t.campaigns.Keys == s.campaigns.Keys && t.campaigns[id].status == Running
    requires s.campaigns[id].status == Running ==> Driven(s, id)
    ensures Driven(t, id)
  {
    LeavesLoop(s, a, g, t);
    if id in s.registry.runs {
      RegisteredStays(s, a, g, t, id);
    } else {
      RunStepIs(s, a, g, t);
      assert Awaited(s, id);
    }
    assert t.calls == s.calls by {
      RunStepIs(s, a, g, t);
    }
    assert NoStop(t, id);
  }

  /** The registered run of a running campaign stays in its loop and registered. */
  lemma {:induction false} RegisteredStays(s: State, a: Action, g: nat, t: State, id: nat)
    requires Spared(s) && g < |s.runs| && g == RunOf(a) && RunStep(s, a, g, s.runs[g]) == Some(t)
    requires id in s.registry.runs && id in t.campaigns && t.campaigns[id].status == Running
    requires Live(s.runs[s.registry.runs[id] - 1].spot)
    ensures id in t.registry.runs && t.registry.runs[id] == s.registry.runs[id]
    ensures |t.runs| == |s.runs| && Live(t.runs[s.registry.runs[id] - 1].spot)
  {
    RunStepIs(s, a, g, t);
    LeavesLoop(s, a, g, t);
    var h := s.registry.runs[id] - 1;
    assert h != g ==> t.runs[h] == s.runs[h];
    assert a.GaveUp? ==> h != g;
  }

  /** A call's step leaves what drives a campaign alone, but for the calls it moves. */
  lemma {:induction false} SameDrive(s: State, t: State, call: nat, id: nat)
    requires Tokens(s) && Tokens(t) && Driven(s, id) && s.registry == t.registry && |t.runs| == |s.runs|
    requires forall g :: 0 <= g < |s.runs| ==> t.runs[g].spot == s.runs[g].spot
    requires forall c :: c in s.calls && c != call ==> c in t.calls && t.calls[c] == s.calls[c]
    requires forall c :: c in t.calls && c != call ==> c in s.calls
    requires call in s.calls ==> s.calls[call] != Registering(id)
    requires call in t.calls ==> t.calls[call] != Stopping(id)
    ensures Driven(t, id)
  {
    if c :| c in s.calls && s.calls[c] == Registering(id) {
      assert c in t.calls && t.calls[c] == Registering(id);
    }
  }

  lemma {:induction false} EnterDrives(s: State, a: Action, t: State, id: nat)
    requires AllDriven(s) && Step(s, a) == Some(t) && (a.StartCalled? || a.PauseCalled? || a.CancelCalled?) && Tokens(t)
    requires IsTidy(s, a) && id in s.campaigns && t.campaigns[id].status == Running
    ensures Driven(t, id)
  {
    if s.campaigns[id].status == Running {
      SameDrive(s, t, a.call, id);
    } else {
      assert t.calls[a.call] == Registering(id);
      assert NoStop(s, id);
    }
  }

  lemma {:induction false} RegisterDrives(s: State, call: nat, of: nat, id: nat)
    requires Spared(s) && Driven(s, id) && call in s.calls && s.calls[call] == Registering(of)
             && Tokens(RegisterStep(s, call, of))
    ensures Driven(RegisterStep(s, call, of), id)
  {
    var t := RegisterStep(s, call, of);
    assert NoStop(t, id);
    if of != id && id !in s.registry.runs {
      var c :| c in s.calls && s.calls[c] == Registering(id);
      assert t.calls[c] == Registering(id);
    }
  }

  lemma {:induction false} UnregisterDrives(s: State, call: nat, of: nat, id: nat)
    requires Spared(s) && Driven(s, id) && call in s.calls && s.calls[call] == Stopping(of)
             && Tokens(UnregisterStep(s, call, of))
    ensures Driven(UnregisterStep(s, call, of), id)
  {
    var t := UnregisterStep(s, call, of);
    assert of != id;
    assert NoStop(t, id);
    if id !in s.registry.runs {
      var c :| c in s.calls && s.calls[c] == Registering(id);
      assert t.calls[c] == Registering(id);
    }
  }

  lemma {:induction false} CallDrives(s: State, a: Action, t: State, id: nat)
    requires AllDriven(s) && Step(s, a) == Some(t) && RunOf(a) == -1 && Tokens(t) && IsTidy(s, a)
    requires id in s.campaigns && id in t.campaigns && t.campaigns[id].status == Running
    ensures Driven(t, id)
  {
    if a.StartCalled? || a.PauseCalled? || a.CancelCalled? {
      EnterDrives(s, a, t, id);
    } else {
      assert Driven(s, id);
      if a.RunRegistered? {
        RegisterDrives(s, a.call, s.calls[a.call].id, id);
      } else if a.RunUnregistered? {
        UnregisterDrives(s, a.call, s.calls[a.call].id, id);
      } else {
        SameDrive(s, t, a.call, id);
      }
    }
  }

  lemma {:induction false} StepDrives(s: State, a: Action, t: State)
    requires AllDriven(s) && Step(s, a) == Some(t) && IsTidy(s, a)
    ensures AllDriven(t)
  {
    StepSpares(s, a, t);
    forall id | id in t.campaigns && t.campaigns[id].status == Running
      ensures Driven(t, id)
    {
      StepAddsNone(s, a, t, id);
      if RunOf(a) >= 0 {
        LeavesLoop(s, a, a.g, t);
        assert s.campaigns[id].status == Running ==> Driven(s, id);
        RunDrives(s, a, a.g, t, id);
      } else {
        CallDrives(s, a, t, id);
      }
    }
  }

  lemma {:induction false} TidyIsDriven(states: seq<State>, actions: seq<Action>, i: nat)
    requires IsRun(states, actions) && i <= |actions|
    requires forall k :: 0 <= k < |actions| ==> IsTidy(states[k], actions[k])
    ensures AllDriven(states[i])
  {
    if i > 0 {
      TidyIsDriven(states, actions, i - 1);
      assert IsTidy(states[i - 1], actions[i - 1]);
      StepDrives(states[i - 1], actions[i - 1], states[i]);
    }
  }

  /**
   Where each Start comes only after the earlier calls on its campaign have returned and
   its last run has given up its registration, a running campaign is always being sent.
   */
  lemma {:induction false} NeverStuck(states: seq<State>, actions: seq<Action>, i: nat, id: nat)
    requires IsRun(states, actions) && i <= |actions|
    requires forall k :: 0 <= k < |actions| ==> IsTidy(states[k], actions[k])
    ensures !Stuck(states[i], id)
  {
    TidyIsDriven(states, actions, i);
    DrivenIsNotStuck(states[i], id);
  }

  // ---- a run that gets stuck ----------------------------------------------

  /** Started, paused, and seen paused by its goroutine, which has not yet given up its registration. */
  lemma {:induction false} PausedButRegistered(s: State, id: nat, c0: nat, c1: nat) returns (t: State)
    requires id in s.campaigns && s.campaigns[id].status == Draft && id !in s.registry.runs
    requires s.runs == [] && s.calls == map[] && c0 != c1
    ensures LeadsTo(s, t)
    ensures id in t.campaigns && t.campaigns[id].status == Paused && id in t.registry.runs
    ensures |t.runs| == 1 && t.runs[0].spot == Ending
    ensures t.calls == map[c0 := Returned, c1 := Stopping(id)]
  {
    var a1, t1 := Started(s, c0, id);
    var t2 := Entered(t1, c1, id, PauseSection(t1.campaigns[id]), Stopping(id));
    t := ChooseStep(t2, 0, id);
    var a2 := TwoSteps(t1, PauseCalled(c1, id), t2, Chose(0), t);
    LeadsOn(s, t1, t);
    assert t.calls == map[c0 := Returned, c1 := Stopping(id)];
  }

  /** Started again at this moment, the campaign is Running and its run refused; */
  lemma {:induction false} Refused(s: State, id: nat, call: nat) returns (t: State)
    requires id in s.campaigns && s.campaigns[id].status == Paused && id in s.registry.runs && call !in s.calls
    ensures LeadsTo(s, t)
    ensures id in t.campaigns && t.campaigns[id].status == Running && t.registry == s.registry && t.runs == s.runs
    ensures t.calls == s.calls[call := Returned]
  {
    var t1 := Entered(s, call, id, StartSection(s.campaigns[id], true), Registering(id));
    t := RegisterStep(t1, call, id);
    var actions := TwoSteps(s, StartCalled(call, id, true), t1, RunRegistered(call), t);
    assert t.calls == s.calls[call := Returned];
  }

  /** then the pause finishes. */
  lemma {:induction false} PauseFinishes(s: State, id: nat, call: nat) returns (t: State)
    requires id in s.registry.runs && call in s.calls && s.calls[call] == Stopping(id)
    ensures LeadsTo(s, t)
    ensures t.campaigns == s.campaigns && |t.runs| == |s.runs| && t.calls == s.calls[call := Returned]
    ensures forall g :: 0 <= g < |s.runs| ==> t.runs[g].spot == s.runs[g].spot
  {
    var t1, token := UnregisterStep(s, call, id), s.registry.runs[id];
    t := t1.(runs := CancelRuns(t1.runs, token), calls := t1.calls[call := Returned]);
    var actions := TwoSteps(s, RunUnregistered(call), t1, RunCancelled(call), t);
    assert t.calls == s.calls[call := Returned];
  }

  /** Start, Pause, Start: every call has returned, the campaign says Running, and nothing will ever send it. */
  lemma {:induction false} RestartSticks(s: State, id: nat, c0: nat, c1: nat, c2: nat)
    returns (states: seq<State>, actions: seq<Action>)
    requires Initial(s) && id in s.campaigns && c0 != c1 && c1 != c2 && c0 != c2
    ensures IsRun(states, actions) && states[0] == s && Stuck(states[|actions|], id)
    ensures forall call :: call in states[|actions|].calls ==> states[|actions|].calls[call] == Returned
  {
    var t1 := PausedButRegistered(s, id, c0, c1);
    var t2 := Refused(t1, id, c2);
    LeadsOn(s, t1, t2);
    var t3 := PauseFinishes(t2, id, c1);
    LeadsOn(s, t2, t3);
    NothingLeft(t3, id);
    states, actions := LeadsByRun(s, t3);
  }

  lemma {:induction false} NothingLeft(s: State, id: nat)
    requires id in s.campaigns && s.campaigns[id].status == Running && |s.runs| == 1 && s.runs[0].spot == Ending
    requires forall call :: call in s.calls ==> s.calls[call] == Returned
    ensures Stuck(s, id)
  {}
}
