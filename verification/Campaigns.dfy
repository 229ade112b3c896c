/**
 Sending campaigns (internal/campaign/runner.go, campaign.go): any number of Start,
 Pause and Cancel calls and sending goroutines at once, one atomic step per mutex
 section or call into the queue. Campaigns are numbered; a recipient is its
 position in the campaign's list.
 */
module Campaigns {
  import opened Text

  datatype Status = Draft | Running | Paused | Completed | Cancelled

  /** `attempted` only records which recipients were handed to the queue or skipped. */
  datatype Campaign = Campaign(status: Status, total: nat, sent: nat, failed: nat, skipped: nat, attempted: seq<nat>)

  function Progress(c: Campaign): nat {
    c.sent + c.failed + c.skipped
  }

  predicate CanStart(c: Campaign) {
    c.status == Draft || c.status == Paused
  }

  function Remaining(c: Campaign): nat {
    if Progress(c) > c.total then 0 else c.total - Progress(c)
  }

  // ---- the sections under the campaign's mutex ----------------------------

  /** Start, given whether the campaign is valid; `None` is refused. */
  function StartSection(c: Campaign, valid: bool): Option<Campaign> {
    if CanStart(c) && valid then Some(c.(status := Running)) else None
  }

  function PauseSection(c: Campaign): Option<Campaign> {
    if c.status == Running then Some(c.(status := Paused)) else None
  }

  function CancelSection(c: Campaign): Option<Campaign> {
    if c.status == Completed || c.status == Cancelled then None else Some(c.(status := Cancelled))
  }

  /** The top of the sending loop: the next recipient, or the end of the run. */
  function ChooseSection(c: Campaign): (Campaign, Option<nat>) {
    var index := Progress(c);
    if c.status != Running || index >= c.total then
      (if index >= c.total && c.status == Running then c.(status := Completed) else c, None)
    else (c, Some(index))
  }

  datatype Outcome = Sent | Failed | Skipped

  function Counted(c: Campaign, o: Outcome): Campaign {
    match o
    case Sent => c.(sent := c.sent + 1)
    case Failed => c.(failed := c.failed + 1)
    case Skipped => c.(skipped := c.skipped + 1)
  }

  // ---- the sections under the runner's mutex ------------------------------

  /** The registered run of each campaign, by its token. */
  datatype Registry = Registry(runs: map<nat, nat>, nextToken: nat)

  function Registered(r: Registry, id: nat): (Registry, Option<nat>) {
    if id in r.runs then (r, None)
    else (Registry(r.runs[id := r.nextToken + 1], r.nextToken + 1), Some(r.nextToken + 1))
  }

  function Unregistered(r: Registry, id: nat): Registry {
    r.(runs := r.runs - {id})
  }

  function FinishSection(r: Registry, id: nat, token: nat): Registry {
    if id in r.runs && r.runs[id] == token then r.(runs := r.runs - {id}) else r
  }

  class Runner {
    var runs: map<nat, nat>
    var nextToken: nat

    function View(): Registry
      reads this
    {
      Registry(runs, nextToken)
    }

    constructor ()
      ensures View() == Registry(map[], 0)
    {
      runs, nextToken := map[], 0;
    }

    method Register(id: nat) returns (token: Option<nat>)
      modifies this
      ensures (View(), token) == Registered(old(View()), id)
    {
      if id in runs {
        return None;
      }
      nextToken := nextToken + 1;
      runs := runs[id := nextToken];
      return Some(nextToken);
    }

    method Stop(id: nat) returns (token: Option<nat>)
      modifies this
      ensures View() == Unregistered(old(View()), id)
      ensures token == if id in old(runs) then Some(old(runs)[id]) else None
    {
      token := if id in runs then Some(runs[id]) else None;
      runs := runs - {id};
    }

    method Finish(id: nat, token: nat)
      modifies this
      ensures View() == FinishSection(old(View()), id, token)
    {
      if id in runs && runs[id] == token {
        runs := runs - {id};
      }
    }
  }

  class SharedCampaign {
    var status: Status
    var sent: nat
    var failed: nat
    var skipped: nat
    const total: nat
    ghost var attempted: seq<nat>

    ghost function View(): Campaign
      reads this
    {
      Campaign(status, total, sent, failed, skipped, attempted)
    }

    constructor (total: nat)
      ensures View() == Campaign(Draft, total, 0, 0, 0, [])
    {
      status, sent, failed, skipped, this.total, attempted := Draft, 0, 0, 0, total, [];
    }

    method BeginStart(valid: bool) returns (ok: bool)
      modifies this
      ensures ok == StartSection(old(View()), valid).Some?
      ensures View() == if ok then StartSection(old(View()), valid).value else old(View())
    {
      if status != Draft && status != Paused {
        return false;
      }
      if !valid {
        return false;
      }
      status := Running;
      return true;
    }

    method BeginPause() returns (ok: bool)
      modifies this
      ensures ok == PauseSection(old(View())).Some?
      ensures View() == if ok then PauseSection(old(View())).value else old(View())
    {
      if status != Running {
        return false;
      }
      status := Paused;
      return true;
    }

    method BeginCancel() returns (ok: bool)
      modifies this
      ensures ok == CancelSection(old(View())).Some?
      ensures View() == if ok then CancelSection(old(View())).value else old(View())
    {
      if status == Completed || status == Cancelled {
        return false;
      }
      status := Cancelled;
      return true;
    }

    method Choose() returns (index: Option<nat>)
      modifies this
      ensures (View(), index) == ChooseSection(old(View()))
    {
      var next := sent + failed + skipped;
      if status != Running || next >= total {
        if next >= total && status == Running {
          status := Completed;
        }
        return None;
      }
      return Some(next);
    }
  }

  // ---- calls and goroutines -----------------------------------------------

  /** Where a sending goroutine stands; the number is the recipient it is at. */
  datatype Spot =
    | Looping
    | Checking(i: nat)
    | Skipping(i: nat)
    | Ticking(i: nat)
    | Sending(i: nat)
    | Counting(i: nat, outcome: Outcome)
    | Ending
    | Gone

  datatype Run = Run(token: nat, id: nat, cancelled: bool, spot: Spot)

  /** Where a call stands between its two sections. */
  datatype Call = Registering(id: nat) | Stopping(id: nat) | Cancelling(token: nat) | Returned

  datatype State = State(campaigns: map<nat, Campaign>, registry: Registry, runs: seq<Run>, calls: map<nat, Call>)

  predicate Initial(s: State) {
    s.registry == Registry(map[], 0) && s.runs == [] && s.calls == map[]
    && forall id :: id in s.campaigns ==> s.campaigns[id] == Campaign(Draft, s.campaigns[id].total, 0, 0, 0, [])
  }

  datatype Action =
    | StartCalled(call: nat, id: nat, valid: bool)
    | PauseCalled(call: nat, id: nat)
    | CancelCalled(call: nat, id: nat)
    | RunRegistered(call: nat)
    | RunUnregistered(call: nat)
    | RunCancelled(call: nat)
    | Chose(g: nat)
    | Checked(g: nat, suppressed: bool)
    | SkipCounted(g: nat)
    | Ticked(g: nat)
    | GaveUp(g: nat)
    | Handed(g: nat, ok: bool)
    | SendCounted(g: nat)
    | Finished(g: nat)

  function WithRun(s: State, g: nat, spot: Spot): State
    requires g < |s.runs|
  {
    s.(runs := s.runs[g := s.runs[g].(spot := spot)])
  }

  function WithCampaign(s: State, id: nat, c: Campaign): State {
    s.(campaigns := s.campaigns[id := c])
  }

  /** A section on a campaign that a call goes through, and where the call then stands. */
  function Entered(s: State, call: nat, id: nat, c: Option<Campaign>, next: Call): State {
    var t := s.(calls := s.calls[call := if c.Some? then next else Returned]);
    if c.Some? then WithCampaign(t, id, c.value) else t
  }

  function RegisterStep(s: State, call: nat, id: nat): State {
    var (r, token) := Registered(s.registry, id);
    var t := s.(registry := r, calls := s.calls[call := Returned]);
    if token.Some? then t.(runs := s.runs + [Run(token.value, id, false, Looping)]) else t
  }

  function UnregisterStep(s: State, call: nat, id: nat): State {
    var next := if id in s.registry.runs then Cancelling(s.registry.runs[id]) else Returned;
    s.(registry := Unregistered(s.registry, id), calls := s.calls[call := next])
  }

  function CancelRuns(runs: seq<Run>, token: nat): seq<Run> {
    seq(|runs|, i requires 0 <= i < |runs| => if runs[i].token == token then runs[i].(cancelled := true) else runs[i])
  }

  function ChooseStep(s: State, g: nat, id: nat): State
    requires g < |s.runs| && id in s.campaigns
  {
    var (c, index) := ChooseSection(s.campaigns[id]);
    WithCampaign(WithRun(s, g, if index.Some? then Checking(index.value) else Ending), id, c)
  }

  /** The recipient is handed to the queue, or skipped and counted. */
  function Attempted(c: Campaign, i: nat): Campaign {
    c.(attempted := c.attempted + [i])
  }

  function RunStep(s: State, a: Action, g: nat, r: Run): Option<State>
    requires g < |s.runs| && r == s.runs[g]
  {
    if r.id !in s.campaigns then None
    else
      var c := s.campaigns[r.id];
      match (a, r.spot)
      case (Chose(_), Looping) => Some(ChooseStep(s, g, r.id))
      case (Checked(_, suppressed), Checking(i)) => Some(WithRun(s, g, if suppressed then Skipping(i) else Ticking(i)))
      case (SkipCounted(_), Skipping(i)) =>
        Some(WithCampaign(WithRun(s, g, Looping), r.id, Counted(Attempted(c, i), Skipped)))
      case (Ticked(_), Ticking(i)) => Some(WithRun(s, g, Sending(i)))
      case (GaveUp(_), Ticking(i)) => if r.cancelled then Some(WithRun(s, g, Ending)) else None
      case (Handed(_, ok), Sending(i)) =>
        Some(WithCampaign(WithRun(s, g, Counting(i, if ok then Sent else Failed)), r.id, Attempted(c, i)))
      case (SendCounted(_), Counting(i, o)) => Some(WithCampaign(WithRun(s, g, Looping), r.id, Counted(c, o)))
      case (Finished(_), Ending) => Some(WithRun(s, g, Gone).(registry := FinishSection(s.registry, r.id, r.token)))
      case _ => None
  }

  function CallStep(s: State, a: Action): Option<State>
    requires a.RunRegistered? || a.RunUnregistered? || a.RunCancelled?
  {
    if a.call !in s.calls then None
    else
      match (a, s.calls[a.call])
      case (RunRegistered(call), Registering(id)) => Some(RegisterStep(s, call, id))
      case (RunUnregistered(call), Stopping(id)) => Some(UnregisterStep(s, call, id))
      case (RunCancelled(call), Cancelling(token)) =>
        Some(s.(runs := CancelRuns(s.runs, token), calls := s.calls[call := Returned]))
      case _ => None
  }

  function Step(s: State, a: Action): Option<State> {
    match a
    case StartCalled(call, id, valid) =>
      if call in s.calls || id !in s.campaigns then None
      else Some(Entered(s, call, id, StartSection(s.campaigns[id], valid), Registering(id)))
    case PauseCalled(call, id) =>
      if call in s.calls || id !in s.campaigns then None
      else Some(Entered(s, call, id, PauseSection(s.campaigns[id]), Stopping(id)))
    case CancelCalled(call, id) =>
      if call in s.calls || id !in s.campaigns then None
      else Some(Entered(s, call, id, CancelSection(s.campaigns[id]), Stopping(id)))
    case RunRegistered(_) => CallStep(s, a)
    case RunUnregistered(_) => CallStep(s, a)
    case RunCancelled(_) => CallStep(s, a)
    case _ => if a.g < |s.runs| then RunStep(s, a, a.g, s.runs[a.g]) else None
  }

  ghost predicate IsRun(states: seq<State>, actions: seq<Action>) {
    && |states| == |actions| + 1 && Initial(states[0])
    && forall i :: 0 <= i < |actions| ==> Step(states[i], actions[i]) == Some(states[i + 1])
  }

  // ---- tokens and registrations -------------------------------------------

  /**
   Tokens are handed out in order, and a registration is the token of a run of that campaign
   that has not returned.
   */
  ghost predicate Tokens(s: State) {
    && |s.runs| == s.registry.nextToken
    && (forall g :: 0 <= g < |s.runs| ==> s.runs[g].token == g + 1)
    && (forall id :: id in s.registry.runs ==>
          1 <= s.registry.runs[id] <= |s.runs| && s.runs[s.registry.runs[id] - 1].id == id
          && s.runs[s.registry.runs[id] - 1].spot != Gone)
  }

  /** A goroutine's step moves that goroutine, and only its end touches the registrations. */
  lemma {:induction false} RunStepIs(s: State, a: Action, g: nat, t: State)
    requires g < |s.runs| && RunStep(s, a, g, s.runs[g]) == Some(t)
    ensures |t.runs| == |s.runs| && t.runs == s.runs[g := s.runs[g].(spot := t.runs[g].spot)]
    ensures t.registry == if a.Finished? then FinishSection(s.registry, s.runs[g].id, s.runs[g].token) else s.registry
    ensures t.runs[g].spot == Gone ==> a.Finished?
    ensures t.calls == s.calls
  {}

  lemma {:induction false} RunStepKeepsTokens(s: State, a: Action, g: nat, t: State)
    requires Tokens(s) && g < |s.runs| && RunStep(s, a, g, s.runs[g]) == Some(t)
    ensures Tokens(t)
  {
    RunStepIs(s, a, g, t);
  }

  lemma {:induction false} RegisterKeepsTokens(s: State, call: nat, id: nat)
    requires Tokens(s)
    ensures Tokens(RegisterStep(s, call, id))
  {}

  lemma {:induction false} UnregisterKeepsTokens(s: State, call: nat, id: nat)
    requires Tokens(s)
    ensures Tokens(UnregisterStep(s, call, id))
  {}

  lemma {:induction false} CancelKeepsTokens(s: State, t: State, token: nat)
    requires Tokens(s) && t.runs == CancelRuns(s.runs, token) && t.registry == s.registry
    ensures Tokens(t)
  {}

  lemma {:induction false} StepKeepsTokens(s: State, a: Action, t: State)
    requires Tokens(s) && Step(s, a) == Some(t)
    ensures Tokens(t)
  {
    if a.StartCalled? || a.PauseCalled? || a.CancelCalled? {
      assert t.registry == s.registry && t.runs == s.runs;
    } else if a.RunRegistered? {
      RegisterKeepsTokens(s, a.call, s.calls[a.call].id);
    } else if a.RunUnregistered? {
      UnregisterKeepsTokens(s, a.call, s.calls[a.call].id);
    } else if a.RunCancelled? {
      CancelKeepsTokens(s, t, s.calls[a.call].token);
    } else {
      RunStepKeepsTokens(s, a, a.g, t);
    }
  }

  lemma {:induction false} RunKeepsTokens(states: seq<State>, actions: seq<Action>, i: nat)
    requires IsRun(states, actions) && i <= |actions|
    ensures Tokens(states[i])
  {
    if i > 0 {
      RunKeepsTokens(states, actions, i - 1);
      StepKeepsTokens(states[i - 1], actions[i - 1], states[i]);
    }
  }

  /** No two runs share a token, so at most one run of a campaign is the registered one. */
  lemma {:induction false} TokensAreUnique(states: seq<State>, actions: seq<Action>, i: nat, g: nat, h: nat)
    requires IsRun(states, actions) && i <= |actions| && g < |states[i].runs| && h < |states[i].runs|
    requires states[i].runs[g].token == states[i].runs[h].token
    ensures g == h
  {
    RunKeepsTokens(states, actions, i);
  }

  /** A goroutine that returns takes away its own registration and no other. */
  lemma {:induction false} FinishIsOwn(states: seq<State>, actions: seq<Action>, i: nat, id: nat)
    requires IsRun(states, actions) && i < |actions| && actions[i].Finished? && id in states[i].registry.runs
    ensures var g := actions[i].g;
            g < |states[i].runs| &&
            (id !in states[i + 1].registry.runs <==> states[i].registry.runs[id] == states[i].runs[g].token)
    ensures id in states[i + 1].registry.runs ==> states[i + 1].registry.runs[id] == states[i].registry.runs[id]
  {
    RunKeepsTokens(states, actions, i);
    assert Step(states[i], actions[i]) == Some(states[i + 1]);
  }

  // ---- progress -----------------------------------------------------------

  predicate IsOver(st: Status) {
    st == Completed || st == Cancelled
  }

  /**
   Counters and the record only grow; Completed and Cancelled are never left; Completed
   needs every recipient counted.
   */
  predicate Forward(c: Campaign, d: Campaign) {
    && c.sent <= d.sent && c.failed <= d.failed && c.skipped <= d.skipped && c.total == d.total
    && c.attempted <= d.attempted
    && (IsOver(c.status) ==> d.status == c.status)
    && (d.status == Completed && c.status != Completed ==> Progress(d) >= d.total)
  }

  lemma {:induction false} StepIsForward(s: State, a: Action, t: State, id: nat)
    requires Step(s, a) == Some(t) && id in s.campaigns
    ensures id in t.campaigns && Forward(s.campaigns[id], t.campaigns[id])
  {}

  lemma {:induction false} ForwardTwice(c: Campaign, d: Campaign, e: Campaign)
    requires Forward(c, d) && Forward(d, e)
    ensures Forward(c, e)
  {}

  /** Between any two moments of a run a campaign only moves forward. */
  lemma {:induction false} OnlyForward(states: seq<State>, actions: seq<Action>, i: nat, j: nat, id: nat)
    requires IsRun(states, actions) && i <= j <= |actions| && id in states[i].campaigns
    ensures id in states[j].campaigns && Forward(states[i].campaigns[id], states[j].campaigns[id])
  {
    if i < j {
      OnlyForward(states, actions, i, j - 1, id);
      StepIsForward(states[j - 1], actions[j - 1], states[j], id);
      ForwardTwice(states[i].campaigns[id], states[j - 1].campaigns[id], states[j].campaigns[id]);
    }
  }

  lemma {:induction false} SameCampaigns(states: seq<State>, actions: seq<Action>, i: nat, id: nat)
    requires IsRun(states, actions) && i <= |actions| && id in states[i].campaigns
    ensures id in states[0].campaigns
  {
    if i > 0 {
      assert Step(states[i - 1], actions[i - 1]) == Some(states[i]);
      StepAddsNone(states[i - 1], actions[i - 1], states[i], id);
      SameCampaigns(states, actions, i - 1, id);
    }
  }

  lemma {:induction false} StepAddsNone(s: State, a: Action, t: State, id: nat)
    requires Step(s, a) == Some(t) && id in t.campaigns
    ensures id in s.campaigns
  {}

  /** A campaign is completed only with every recipient counted. */
  lemma {:induction false} CompletedIsCounted(states: seq<State>, actions: seq<Action>, i: nat, id: nat)
    requires IsRun(states, actions) && i <= |actions| && id in states[i].campaigns
             && states[i].campaigns[id].status == Completed
    ensures Progress(states[i].campaigns[id]) >= states[i].campaigns[id].total
            && Remaining(states[i].campaigns[id]) == 0
  {
    SameCampaigns(states, actions, i, id);
    OnlyForward(states, actions, 0, i, id);
  }

  // ---- every recipient once, in order -------------------------------------

  /** The goroutine may still read or change its campaign. */
  predicate Live(spot: Spot) {
    spot != Ending && spot != Gone
  }

  ghost predicate AnyLive(s: State, id: nat) {
    exists g :: 0 <= g < |s.runs| && s.runs[g].id == id && Live(s.runs[g].spot)
  }

  /** A run is registered only when no goroutine of its campaign is still in its loop. */
  predicate IsOrderly(s: State, a: Action) {
    a.RunRegistered? && a.call in s.calls && s.calls[a.call].Registering? ==>
      forall g :: 0 <= g < |s.runs| && s.runs[g].id == s.calls[a.call].id ==> !Live(s.runs[g].spot)
  }

  ghost predicate Orderly(states: seq<State>, actions: seq<Action>) {
    IsRun(states, actions) && forall i :: 0 <= i < |actions| ==> IsOrderly(states[i], actions[i])
  }

  function Upto(n: nat): seq<nat> {
    seq(n, i => i)
  }

  /** The recipient a goroutine is at. */
  function At(spot: Spot): Option<nat> {
    match spot
    case Checking(i) => Some(i)
    case Skipping(i) => Some(i)
    case Ticking(i) => Some(i)
    case Sending(i) => Some(i)
    case Counting(i, _) => Some(i)
    case _ => None
  }

  /** At most one goroutine of each campaign is in its loop. */
  ghost predicate Exclusive(s: State) {
    forall g, h :: 0 <= g < |s.runs| && 0 <= h < |s.runs| && s.runs[g].id == s.runs[h].id ==>
      Live(s.runs[g].spot) && Live(s.runs[h].spot) ==> g == h
  }

  /** A goroutine is at the first recipient not counted. */
  predicate Placed(s: State, r: Run) {
    At(r.spot).Some? ==>
      r.id in s.campaigns && At(r.spot).value == Progress(s.campaigns[r.id]) < s.campaigns[r.id].total
  }

  /** A recipient of the campaign has been handed over but not counted. */
  ghost predicate InHand(s: State, id: nat) {
    exists g :: 0 <= g < |s.runs| && s.runs[g].id == id && s.runs[g].spot.Counting?
  }

  /** The recipients attempted are the first ones, each once, in list order. */
  ghost predicate InOrder(s: State, id: nat) {
    id in s.campaigns ==>
      var c := s.campaigns[id];
      Progress(c) <= c.total && c.attempted == Upto(Progress(c) + if InHand(s, id) then 1 else 0)
  }

  ghost predicate Inv(s: State) {
    Exclusive(s) && (forall g :: 0 <= g < |s.runs| ==> Placed(s, s.runs[g])) && forall id :: InOrder(s, id)
  }

  lemma {:induction false} UptoMore(n: nat)
    ensures Upto(n) + [n] == Upto(n + 1)
  {}

  // A goroutine's step, given that it is the only one of its campaign in its loop.

  lemma {:induction false} RunKeepsExclusive(s: State, a: Action, g: nat, t: State)
    requires Exclusive(s) && g < |s.runs| && RunStep(s, a, g, s.runs[g]) == Some(t)
    ensures Exclusive(t)
  {
    RunStepIs(s, a, g, t);
    NoneComesAlive(s, a, g, t);
  }

  lemma {:induction false} NoneComesAlive(s: State, a: Action, g: nat, t: State)
    requires g < |s.runs| && RunStep(s, a, g, s.runs[g]) == Some(t)
    ensures |t.runs| == |s.runs| && (Live(t.runs[g].spot) ==> Live(s.runs[g].spot))
    ensures !Live(s.runs[g].spot) ==> t.campaigns == s.campaigns && a.Finished?
    ensures forall id :: id != s.runs[g].id ==>
              (id in t.campaigns <==> id in s.campaigns) && (id in s.campaigns ==> t.campaigns[id] == s.campaigns[id])
  {}

  lemma {:induction false} RunKeepsOwnPlace(s: State, a: Action, g: nat, t: State)
    requires g < |s.runs| && RunStep(s, a, g, s.runs[g]) == Some(t) && Placed(s, s.runs[g])
    ensures |t.runs| == |s.runs| && Placed(t, t.runs[g])
  {}

  lemma {:induction false} RunKeepsPlaces(s: State, a: Action, g: nat, t: State, h: nat)
    requires Exclusive(s) && g < |s.runs| && h < |s.runs| && RunStep(s, a, g, s.runs[g]) == Some(t)
    requires Placed(s, s.runs[g]) && Placed(s, s.runs[h])
    ensures |t.runs| == |s.runs| && Placed(t, t.runs[h])
  {
    RunStepIs(s, a, g, t);
    NoneComesAlive(s, a, g, t);
    if h == g {
      RunKeepsOwnPlace(s, a, g, t);
    } else {
      assert t.runs[h] == s.runs[h];
      assert At(s.runs[h].spot).Some? ==> Live(s.runs[h].spot);
    }
  }

  /** Whether a recipient is in hand is for the one live goroutine to say. */
  lemma {:induction false} InHandIs(s: State, g: nat)
    requires Exclusive(s) && g < |s.runs| && Live(s.runs[g].spot)
    ensures InHand(s, s.runs[g].id) <==> s.runs[g].spot.Counting?
  {
    if h :| 0 <= h < |s.runs| && s.runs[h].id == s.runs[g].id && s.runs[h].spot.Counting? {
      assert Live(s.runs[h].spot);
    }
  }

  /** The goroutine's own campaign, by what it was doing. */
  lemma {:induction false} OwnStep(s: State, a: Action, g: nat, t: State)
    requires g < |s.runs| && RunStep(s, a, g, s.runs[g]) == Some(t) && Placed(s, s.runs[g]) && Live(s.runs[g].spot)
    requires s.runs[g].id in s.campaigns
    requires var c := s.campaigns[s.runs[g].id];
             Progress(c) <= c.total && c.attempted == Upto(Progress(c) + if s.runs[g].spot.Counting? then 1 else 0)
    ensures |t.runs| == |s.runs| && s.runs[g].id in t.campaigns
    ensures var d := t.campaigns[s.runs[g].id];
            Progress(d) <= d.total && d.attempted == Upto(Progress(d) + if t.runs[g].spot.Counting? then 1 else 0)
  {
    UptoMore(Progress(s.campaigns[s.runs[g].id]));
  }

  lemma {:induction false} OthersInHand(s: State, a: Action, g: nat, t: State, id: nat)
    requires g < |s.runs| && RunStep(s, a, g, s.runs[g]) == Some(t)
    requires id != s.runs[g].id || !Live(s.runs[g].spot)
    ensures InHand(t, id) <==> InHand(s, id)
  {
    RunStepIs(s, a, g, t);
    NoneComesAlive(s, a, g, t);
    if h :| 0 <= h < |s.runs| && s.runs[h].id == id && s.runs[h].spot.Counting? {
      assert t.runs[h] == s.runs[h];
    }
    if h :| 0 <= h < |t.runs| && t.runs[h].id == id && t.runs[h].spot.Counting? {
      assert t.runs[h] == s.runs[h];
    }
  }

  lemma {:induction false} RunKeepsOrder(s: State, a: Action, g: nat, t: State, id: nat)
    requires g < |s.runs| && RunStep(s, a, g, s.runs[g]) == Some(t)
    requires Exclusive(s) && Placed(s, s.runs[g]) && InOrder(s, id)
    ensures InOrder(t, id)
  {
    var r := s.runs[g];
    NoneComesAlive(s, a, g, t);
    RunStepIs(s, a, g, t);
    if id == r.id && Live(r.spot) {
      InHandIs(s, g);
      OwnStep(s, a, g, t);
      RunKeepsExclusive(s, a, g, t);
      if Live(t.runs[g].spot) {
        InHandIs(t, g);
      } else {
        NoOtherInHand(s, g, t);
      }
    } else {
      OthersInHand(s, a, g, t, id);
    }
  }

  lemma {:induction false} NoOtherInHand(s: State, g: nat, t: State)
    requires Exclusive(s) && g < |s.runs| && Live(s.runs[g].spot) && |t.runs| == |s.runs|
    requires t.runs == s.runs[g := s.runs[g].(spot := t.runs[g].spot)] && !Live(t.runs[g].spot)
    ensures !InHand(t, s.runs[g].id)
  {
    forall h | 0 <= h < |t.runs| && t.runs[h].id == s.runs[g].id
      ensures !t.runs[h].spot.Counting?
    {
      if h != g {
        assert t.runs[h] == s.runs[h];
      }
    }
  }

  // The steps of calls.

  /** Runs as they were but for being cancelled, and counters as they were. */
  predicate Unmoved(s: State, t: State) {
    && |t.runs| == |s.runs|
    && (forall g :: 0 <= g < |s.runs| ==> t.runs[g].id == s.runs[g].id && t.runs[g].spot == s.runs[g].spot)
    && t.campaigns.Keys == s.campaigns.Keys
    && (forall id :: id in s.campaigns ==> t.campaigns[id] == s.campaigns[id].(status := t.campaigns[id].status))
  }

  lemma {:induction false} CallsMoveNothing(s: State, a: Action, t: State)
    requires Step(s, a) == Some(t)
    requires a.StartCalled? || a.PauseCalled? || a.CancelCalled? || a.RunUnregistered? || a.RunCancelled?
    ensures Unmoved(s, t)
  {}

  lemma {:induction false} UnmovedKeeps(s: State, t: State)
    requires Inv(s) && Unmoved(s, t)
    ensures Inv(t)
  {
    forall g | 0 <= g < |t.runs|
      ensures Placed(t, t.runs[g])
    {
      assert Placed(s, s.runs[g]);
    }
    forall id
      ensures InOrder(t, id)
    {
      assert InOrder(s, id);
      SameInHand(s, t, id);
    }
  }

  lemma {:induction false} SameInHand(s: State, t: State, id: nat)
    requires Unmoved(s, t)
    ensures InHand(t, id) <==> InHand(s, id)
  {
    if h :| 0 <= h < |s.runs| && s.runs[h].id == id && s.runs[h].spot.Counting? {
      assert t.runs[h].spot.Counting?;
    }
  }

  lemma {:induction false} RegisterKeeps(s: State, call: nat, id: nat)
    requires Inv(s) && forall g :: 0 <= g < |s.runs| && s.runs[g].id == id ==> !Live(s.runs[g].spot)
    ensures Inv(RegisterStep(s, call, id))
  {
    var t := RegisterStep(s, call, id);
    assert s.runs <= t.runs && t.campaigns == s.campaigns;
    forall g | 0 <= g < |t.runs|
      ensures Placed(t, t.runs[g])
    {
      assert g < |s.runs| ==> Placed(s, s.runs[g]);
    }
    forall other
      ensures InOrder(t, other)
    {
      assert InOrder(s, other);
      NewRunHoldsNothing(s, t, other);
    }
  }

  lemma {:induction false} NewRunHoldsNothing(s: State, t: State, id: nat)
    requires s.runs <= t.runs && forall g :: |s.runs| <= g < |t.runs| ==> t.runs[g].spot == Looping
    ensures InHand(t, id) <==> InHand(s, id)
  {
    if h :| 0 <= h < |s.runs| && s.runs[h].id == id && s.runs[h].spot.Counting? {
      assert t.runs[h] == s.runs[h];
    }
  }

  lemma {:induction false} StepKeeps(s: State, a: Action, t: State)
    requires Inv(s) && Step(s, a) == Some(t) && IsOrderly(s, a)
    ensures Inv(t)
  {
    if a.StartCalled? || a.PauseCalled? || a.CancelCalled? || a.RunUnregistered? || a.RunCancelled? {
      CallsMoveNothing(s, a, t);
      UnmovedKeeps(s, t);
    } else if a.RunRegistered? {
      RegisterKeeps(s, a.call, s.calls[a.call].id);
    } else {
      RunStepKeeps(s, a, a.g, t);
    }
  }

  lemma {:induction false} RunStepKeeps(s: State, a: Action, g: nat, t: State)
    requires Inv(s) && g < |s.runs| && RunStep(s, a, g, s.runs[g]) == Some(t)
    ensures Inv(t)
  {
    RunKeepsExclusive(s, a, g, t);
    RunStepIs(s, a, g, t);
    forall h | 0 <= h < |t.runs|
      ensures Placed(t, t.runs[h])
    {
      RunKeepsPlaces(s, a, g, t, h);
    }
    forall id
      ensures InOrder(t, id)
    {
      assert InOrder(s, id);
      RunKeepsOrder(s, a, g, t, id);
    }
  }

  lemma {:induction false} OrderlyKeeps(states: seq<State>, actions: seq<Action>, i: nat)
    requires Orderly(states, actions) && i <= |actions|
    ensures Inv(states[i])
  {
    if i > 0 {
      OrderlyKeeps(states, actions, i - 1);
      assert IsOrderly(states[i - 1], actions[i - 1]);
      StepKeeps(states[i - 1], actions[i - 1], states[i]);
    }
  }

  /**
   Where each run is registered only after the one before it left its loop, recipients
   are attempted in list order, each exactly once, at most one ahead of the count; and
   a completed campaign has attempted and counted exactly its list.
   */
  lemma {:induction false} OnceInOrder(states: seq<State>, actions: seq<Action>, i: nat, id: nat)
    requires Orderly(states, actions) && i <= |actions| && id in states[i].campaigns
    ensures var c := states[i].campaigns[id];
            && (c.attempted == Upto(Progress(c)) || c.attempted == Upto(Progress(c) + 1))
            && Progress(c) <= c.total
            && (c.status == Completed ==> Progress(c) == c.total && c.attempted == Upto(c.total))
  {
    OrderlyKeeps(states, actions, i);
    assert InOrder(states[i], id);
    if states[i].campaigns[id].status == Completed {
      CompletedIsCounted(states, actions, i, id);
      AttemptedIsInside(states[i], id);
    }
  }

  lemma {:induction false} AttemptedIsInside(s: State, id: nat)
    requires Inv(s) && id in s.campaigns
    ensures |s.campaigns[id].attempted| <= s.campaigns[id].total
  {
    assert InOrder(s, id);
    if InHand(s, id) {
      var g :| 0 <= g < |s.runs| && s.runs[g].id == id && s.runs[g].spot.Counting?;
      assert Placed(s, s.runs[g]);
    }
  }

  // ---- overlapping runs ---------------------------------------------------

  /** The state after a sequence of actions. */
  function RunFrom(s: State, actions: seq<Action>): Option<State> {
    if actions == [] then Some(s)
    else
      match RunFrom(s, actions[..|actions| - 1])
      case None => None
      case Some(t) => Step(t, actions[|actions| - 1])
  }

  lemma {:induction false} RunFromIsRun(s: State, actions: seq<Action>) returns (states: seq<State>)
    requires Initial(s) && RunFrom(s, actions).Some?
    ensures IsRun(states, actions) && states[0] == s && states[|actions|] == RunFrom(s, actions).value
  {
    if actions == [] {
      states := [s];
    } else {
      var n := |actions| - 1;
      var before := RunFromIsRun(s, actions[..n]);
      states := before + [RunFrom(s, actions).value];
      assert actions == actions[..n] + [actions[n]];
      RunGrows(before, actions[..n], actions[n], RunFrom(s, actions).value);
    }
  }

  lemma {:induction false} RunGrows(states: seq<State>, actions: seq<Action>, a: Action, t: State)
    requires IsRun(states, actions) && Step(states[|actions|], a) == Some(t)
    ensures IsRun(states + [t], actions + [a])
  {
    var more, all := states + [t], actions + [a];
    forall i | 0 <= i < |all|
      ensures Step(more[i], all[i]) == Some(more[i + 1])
    {
      assert i < |actions| ==> Step(states[i], actions[i]) == Some(states[i + 1]);
    }
  }

  lemma {:induction false} RunFromMore(s: State, actions: seq<Action>, t: State, a: Action, u: State)
    requires RunFrom(s, actions) == Some(t) && Step(t, a) == Some(u)
    ensures RunFrom(s, actions + [a]) == Some(u)
  {
    assert (actions + [a])[..|actions|] == actions;
  }

  lemma {:induction false} RunFromConcat(s: State, a: seq<Action>, t: State, b: seq<Action>)
    requires RunFrom(s, a) == Some(t)
    ensures RunFrom(s, a + b) == RunFrom(t, b)
  {
    if b == [] {
      assert a + b == a;
    } else {
      var n := |b| - 1;
      RunFromConcat(s, a, t, b[..n]);
      assert (a + b)[..|a + b| - 1] == a + b[..n];
    }
  }

  /** A goroutine that is about to choose goes on to hold a recipient ready to send. */
  lemma {:induction false} ReadyToSend(s: State, g: nat) returns (actions: seq<Action>, t: State)
    requires g < |s.runs| && s.runs[g].spot == Looping && s.runs[g].id in s.campaigns
    requires var c := s.campaigns[s.runs[g].id]; c.status == Running && Progress(c) < c.total
    ensures RunFrom(s, actions) == Some(t)
    ensures t == WithRun(s, g, Sending(Progress(s.campaigns[s.runs[g].id]))) && NoRegister(actions)
  {
    var i := Progress(s.campaigns[s.runs[g].id]);
    var s1 := ChosenAt(s, g, i);
    FirstStep(s, Chose(g), s1);
    var more: seq<Action>;
    more, t := TickedThrough(s1, g, i);
    RunFromConcat(s, [Chose(g)], s1, more);
    actions := [Chose(g)] + more;
    SpotTwice(s, g, Checking(i), Sending(i));
  }

  lemma {:induction false} ChosenAt(s: State, g: nat, i: nat) returns (t: State)
    requires g < |s.runs| && s.runs[g].spot == Looping && s.runs[g].id in s.campaigns
    requires var c := s.campaigns[s.runs[g].id]; c.status == Running && i == Progress(c) < c.total
    ensures t == WithRun(s, g, Checking(i)) && Step(s, Chose(g)) == Some(t)
  {
    t := ChooseStep(s, g, s.runs[g].id);
    assert t.campaigns == s.campaigns;
  }

  /** Found not suppressed, and through the rate. */
  lemma {:induction false} TickedThrough(s: State, g: nat, i: nat) returns (actions: seq<Action>, t: State)
    requires g < |s.runs| && s.runs[g].spot == Checking(i) && s.runs[g].id in s.campaigns
    ensures RunFrom(s, actions) == Some(t)
    ensures t == WithRun(s, g, Sending(i)) && NoRegister(actions)
  {
    var s1 := WithRun(s, g, Ticking(i));
    t := WithRun(s1, g, Sending(i));
    SpotTwice(s, g, Ticking(i), Sending(i));
    actions := TwoSteps(s, Checked(g, false), s1, Ticked(g), t);
  }

  lemma {:induction false} SpotTwice(s: State, g: nat, a: Spot, b: Spot)
    requires g < |s.runs|
    ensures WithRun(WithRun(s, g, a), g, b) == WithRun(s, g, b)
  {}

  /** Starting from draft or pause, with nothing registered. */
  lemma {:induction false} Started(s: State, call: nat, id: nat) returns (actions: seq<Action>, t: State)
    requires call !in s.calls && id in s.campaigns && CanStart(s.campaigns[id]) && id !in s.registry.runs
    ensures RunFrom(s, actions) == Some(t)
    ensures t.campaigns == s.campaigns[id := s.campaigns[id].(status := Running)]
    ensures t.runs == s.runs + [Run(s.registry.nextToken + 1, id, false, Looping)]
    ensures t.registry == Registered(s.registry, id).0 && t.calls.Keys == s.calls.Keys + {call}
    ensures t.calls == s.calls[call := Registering(id)][call := Returned]
  {
    var s1 := Entered(s, call, id, StartSection(s.campaigns[id], true), Registering(id));
    t := RegisterStep(s1, call, id);
    KeysOf(s.calls, call, Registering(id));
    KeysOf(s1.calls, call, Returned);
    actions := TwoSteps(s, StartCalled(call, id, true), s1, RunRegistered(call), t);
  }

  lemma {:induction false} KeysOf(calls: map<nat, Call>, call: nat, c: Call)
    ensures calls[call := c].Keys == calls.Keys + {call}
  {}

  lemma {:induction false} TwoSteps(s: State, a: Action, t: State, b: Action, u: State) returns (actions: seq<Action>)
    requires Step(s, a) == Some(t) && Step(t, b) == Some(u)
    ensures actions == [a, b] && RunFrom(s, actions) == Some(u)
  {
    FirstStep(s, a, t);
    RunFromMore(s, [a], t, b, u);
    assert [a] + [b] == [a, b];
    actions := [a, b];
  }

  lemma {:induction false} FirstStep(s: State, a: Action, t: State)
    requires Step(s, a) == Some(t)
    ensures RunFrom(s, [a]) == Some(t)
  {
    RunFromMore(s, [], s, a, t);
    assert [] + [a] == [a];
  }

  /** Pausing a running campaign takes its registration away, whatever its goroutine is doing. */
  lemma {:induction false} Pausing(s: State, call: nat, id: nat) returns (actions: seq<Action>, t: State)
    requires call !in s.calls && id in s.campaigns && s.campaigns[id].status == Running
    ensures RunFrom(s, actions) == Some(t)
    ensures t.campaigns == s.campaigns[id := s.campaigns[id].(status := Paused)] && t.runs == s.runs
    ensures id !in t.registry.runs && t.registry.nextToken == s.registry.nextToken
            && t.calls.Keys == s.calls.Keys + {call}
  {
    var s1 := Entered(s, call, id, PauseSection(s.campaigns[id]), Stopping(id));
    t := UnregisterStep(s1, call, id);
    KeysOf(s.calls, call, Stopping(id));
    KeysOf(s1.calls, call, t.calls[call]);
    actions := TwoSteps(s, PauseCalled(call, id), s1, RunUnregistered(call), t);
  }

  /** A goroutine holding a recipient hands it over and counts it. */
  lemma {:induction false} SentAndCounted(s: State, g: nat, i: nat) returns (actions: seq<Action>, t: State)
    requires g < |s.runs| && s.runs[g].spot == Sending(i) && s.runs[g].id in s.campaigns
    ensures RunFrom(s, actions) == Some(t)
    ensures var id := s.runs[g].id;
            t.campaigns == s.campaigns[id := Counted(Attempted(s.campaigns[id], i), Sent)]
            && t.runs == WithRun(s, g, Looping).runs
  {
    var id := s.runs[g].id;
    var s1 := WithCampaign(WithRun(s, g, Counting(i, Sent)), id, Attempted(s.campaigns[id], i));
    t := WithCampaign(WithRun(s1, g, Looping), id, Counted(s1.campaigns[id], Sent));
    actions := TwoSteps(s, Handed(g, true), s1, SendCounted(g), t);
    assert t.runs == WithRun(s, g, Looping).runs;
  }

  /** One state leads to another. */
  ghost predicate LeadsTo(s: State, t: State) {
    exists actions :: RunFrom(s, actions) == Some(t)
  }

  lemma {:induction false} LeadsOn(s: State, t: State, u: State)
    requires LeadsTo(s, t) && LeadsTo(t, u)
    ensures LeadsTo(s, u)
  {
    var a :| RunFrom(s, a) == Some(t);
    var b :| RunFrom(t, b) == Some(u);
    RunFromConcat(s, a, t, b);
  }

  lemma {:induction false} LeadsByRun(s: State, t: State) returns (states: seq<State>, actions: seq<Action>)
    requires Initial(s) && LeadsTo(s, t)
    ensures IsRun(states, actions) && states[0] == s && states[|actions|] == t
  {
    actions :| RunFrom(s, actions) == Some(t);
    states := RunFromIsRun(s, actions);
  }

  /** Started, and its goroutine brought to the point of sending the next recipient. */
  lemma {:induction false} StartedSending(s: State, call: nat, id: nat) returns (t: State)
    requires call !in s.calls && id in s.campaigns && CanStart(s.campaigns[id]) && id !in s.registry.runs
    requires Progress(s.campaigns[id]) < s.campaigns[id].total
    ensures LeadsTo(s, t)
    ensures t.campaigns == s.campaigns[id := s.campaigns[id].(status := Running)]
            && t.calls.Keys == s.calls.Keys + {call}
    ensures |t.runs| == |s.runs| + 1 && t.runs[..|s.runs|] == s.runs
    ensures t.runs[|s.runs|].id == id && t.runs[|s.runs|].spot == Sending(Progress(s.campaigns[id]))
  {
    var a1, t1 := Started(s, call, id);
    var a2, t2 := ReadyToSend(t1, |s.runs|);
    LeadsOn(s, t1, t2);
    t := t2;
  }

  /** Paused while its goroutine is about to send. */
  lemma {:induction false} PausedSending(s: State, id: nat, c0: nat, c1: nat) returns (t: State)
    requires id in s.campaigns && s.campaigns[id].status == Draft && Progress(s.campaigns[id]) < s.campaigns[id].total
    requires id !in s.registry.runs && s.runs == [] && s.calls == map[] && c0 != c1
    ensures LeadsTo(s, t)
    ensures id in t.campaigns && t.campaigns[id] == s.campaigns[id].(status := Paused) && id !in t.registry.runs
    ensures |t.runs| == 1 && t.runs[0].id == id && t.runs[0].spot == Sending(Progress(s.campaigns[id]))
    ensures forall call :: call in t.calls ==> call == c0 || call == c1
  {
    var t1 := StartedSending(s, c0, id);
    var a2, t2 := Pausing(t1, c1, id);
    LeadsOn(s, t1, t2);
    t := t2;
  }

  predicate TwoHold(s: State, id: nat, i: nat) {
    && |s.runs| == 2 && s.runs[0].id == id && s.runs[1].id == id
    && s.runs[0].spot == Sending(i) && s.runs[1].spot == Sending(i)
  }

  /** Two goroutines hold the same recipient: paused while the first was sending, and resumed. */
  lemma {:induction false} BothHold(s: State, id: nat, c0: nat, c1: nat, c2: nat) returns (t: State)
    requires id in s.campaigns && s.campaigns[id].status == Draft && Progress(s.campaigns[id]) < s.campaigns[id].total
    requires id !in s.registry.runs && s.runs == [] && s.calls == map[] && c0 != c1 && c1 != c2 && c0 != c2
    ensures LeadsTo(s, t)
    ensures id in t.campaigns && t.campaigns[id] == s.campaigns[id].(status := Running)
    ensures TwoHold(t, id, Progress(s.campaigns[id]))
  {
    var t1 := PausedSending(s, id, c0, c1);
    t := StartedSending(t1, c2, id);
    LeadsOn(s, t1, t);
    assert t.runs[0] == t.runs[..1][0];
  }

  /** Both send it and count it, and the campaign is complete if it had two recipients left. */
  lemma {:induction false} BothSend(s: State, id: nat, i: nat) returns (t: State)
    requires id in s.campaigns && s.campaigns[id].status == Running
             && Progress(s.campaigns[id]) + 2 == s.campaigns[id].total
    requires TwoHold(s, id, i)
    ensures LeadsTo(s, t) && id in t.campaigns
    ensures var c := s.campaigns[id];
            t.campaigns[id] == c.(status := Completed, sent := c.sent + 2, attempted := c.attempted + [i] + [i])
  {
    var a1, t1 := SentAndCounted(s, 0, i);
    var a2, t2 := SentAndCounted(t1, 1, i);
    LeadsOn(s, t1, t2);
    t := ChooseStep(t2, 1, id);
    FirstStep(t2, Chose(1), t);
    LeadsOn(s, t2, t);
  }

  /**
   Without that order it fails: paused while its goroutine is sending and then resumed,
   a campaign of two sends the first recipient twice, never the second, and completes.
   */
  lemma {:induction false} OverlapSendsTwice(s: State, id: nat, c0: nat, c1: nat, c2: nat)
    returns (states: seq<State>, actions: seq<Action>)
    requires Initial(s) && id in s.campaigns && s.campaigns[id].total == 2 && c0 != c1 && c1 != c2 && c0 != c2
    ensures IsRun(states, actions) && states[0] == s && id in states[|actions|].campaigns
    ensures states[|actions|].campaigns[id] == Campaign(Completed, 2, 2, 0, 0, [0, 0])
  {
    var c := s.campaigns[id];
    var first := Progress(c);
    var t1 := BothHold(s, id, c0, c1, c2);
    var t2 := BothSend(t1, id, first);
    LeadsOn(s, t1, t2);
    TwiceTheFirst(c, first);
    states, actions := LeadsByRun(s, t2);
  }

  lemma {:induction false} TwiceTheFirst(c: Campaign, first: nat)
    requires c == Campaign(Draft, 2, 0, 0, 0, []) && first == 0
    ensures c.(status := Completed, sent := c.sent + 2, attempted := c.attempted + [first] + [first])
            == Campaign(Completed, 2, 2, 0, 0, [0, 0])
  {}

  // ---- exactly when registering is safe -----------------------------------

  predicate NoRegister(actions: seq<Action>) {
    forall i :: 0 <= i < |actions| ==> !actions[i].RunRegistered?
  }

  /** Some recipient has been attempted twice. */
  ghost predicate Repeats(s: State, id: nat) {
    id in s.campaigns && var a := s.campaigns[id].attempted; exists j, k :: 0 <= j < k < |a| && a[j] == a[k]
  }

  lemma {:induction false} NoRegisterKeeps(s: State, actions: seq<Action>, t: State)
    requires Inv(s) && NoRegister(actions) && RunFrom(s, actions) == Some(t)
    ensures Inv(t)
  {
    if actions != [] {
      var n := |actions| - 1;
      var before := RunFrom(s, actions[..n]).value;
      NoRegisterKeeps(s, actions[..n], before);
      assert !actions[n].RunRegistered?;
      StepKeeps(before, actions[n], t);
    }
  }

  /** The goroutine has its recipient in hand: about to send, to skip, or to count it. */
  predicate Holds(spot: Spot, i: nat) {
    spot == Sending(i) || spot == Skipping(i) || (spot.Counting? && spot.i == i)
  }

  /** A goroutine in the loop of a running campaign can come to hold the next recipient. */
  lemma {:induction false} ComesToHold(s: State, g: nat) returns (actions: seq<Action>, t: State, spot: Spot)
    requires g < |s.runs| && Live(s.runs[g].spot) && s.runs[g].id in s.campaigns && Placed(s, s.runs[g])
    requires var c := s.campaigns[s.runs[g].id]; c.status == Running && Progress(c) < c.total
    ensures RunFrom(s, actions) == Some(t) && NoRegister(actions)
    ensures t == WithRun(s, g, spot) && Holds(spot, Progress(s.campaigns[s.runs[g].id]))
    ensures spot.Counting? ==> s.runs[g].spot.Counting?
  {
    var i := Progress(s.campaigns[s.runs[g].id]);
    var at := s.runs[g].spot;
    if at.Looping? {
      actions, t := ReadyToSend(s, g);
      spot := Sending(i);
    } else if at.Checking? {
      spot := Sending(i);
      actions, t := TickedThrough(s, g, i);
    } else if at.Ticking? {
      spot := Sending(i);
      t := WithRun(s, g, spot);
      actions := OneStep(s, Ticked(g), t);
    } else {
      actions, t, spot := [], s, at;
      assert WithRun(s, g, spot) == s;
    }
  }

  /** A goroutine that holds a recipient it has not attempted can attempt it. */
  lemma {:induction false} Attempts(s: State, g: nat, i: nat) returns (actions: seq<Action>, t: State)
    requires g < |s.runs| && (s.runs[g].spot == Sending(i) || s.runs[g].spot == Skipping(i))
             && s.runs[g].id in s.campaigns
    ensures RunFrom(s, actions) == Some(t) && NoRegister(actions)
    ensures s.runs[g].id in t.campaigns && |t.runs| == |s.runs|
    ensures t.campaigns[s.runs[g].id].attempted == s.campaigns[s.runs[g].id].attempted + [i]
    ensures forall h :: 0 <= h < |s.runs| && h != g ==> t.runs[h] == s.runs[h]
  {
    var id := s.runs[g].id;
    if s.runs[g].spot == Sending(i) {
      t := WithCampaign(WithRun(s, g, Counting(i, Sent)), id, Attempted(s.campaigns[id], i));
      actions := OneStep(s, Handed(g, true), t);
    } else {
      t := WithCampaign(WithRun(s, g, Looping), id, Counted(Attempted(s.campaigns[id], i), Skipped));
      actions := OneStep(s, SkipCounted(g), t);
    }
  }

  lemma {:induction false} OneStep(s: State, a: Action, t: State) returns (actions: seq<Action>)
    requires Step(s, a) == Some(t) && !a.RunRegistered?
    ensures RunFrom(s, actions) == Some(t) && NoRegister(actions)
  {
    FirstStep(s, a, t);
    actions := [a];
  }

  /** Two goroutines in the loop of a running campaign can attempt its next recipient twice. */
  lemma {:induction false} TwoCanRepeat(s: State, g: nat, h: nat) returns (actions: seq<Action>, t: State)
    requires g < |s.runs| && h < |s.runs| && g != h && s.runs[g].id == s.runs[h].id && s.runs[g].id in s.campaigns
    requires Live(s.runs[g].spot) && Placed(s, s.runs[g]) && s.runs[h].spot == Looping
    requires var c := s.campaigns[s.runs[g].id];
             c.status == Running && Progress(c) < c.total
             && (s.runs[g].spot.Counting? ==> c.attempted == Upto(Progress(c) + 1))
    ensures RunFrom(s, actions) == Some(t) && NoRegister(actions) && Repeats(t, s.runs[g].id)
  {
    var id := s.runs[g].id;
    var i, was := Progress(s.campaigns[id]), s.campaigns[id].attempted;
    var a1, t1, spot := ComesToHold(s, g);
    var a2, t2 := ReadyToSend(t1, h);
    NoRegisterInPieces(a1, a2);
    RunFromConcat(s, a1, t1, a2);
    var a3, t3 := Attempts(t2, h, i);
    NoRegisterInPieces(a1 + a2, a3);
    RunFromConcat(s, a1 + a2, t2, a3);
    actions, t := a1 + a2 + a3, t3;
    if spot.Counting? {
      TwiceInARow(t.campaigns[id].attempted, was, i);
    } else {
      assert t3.runs[g] == t2.runs[g] == t1.runs[g];
      var a4, t4 := Attempts(t3, g, i);
      NoRegisterInPieces(actions, a4);
      RunFromConcat(s, actions, t3, a4);
      actions, t := actions + a4, t4;
      var a := t.campaigns[id].attempted;
      assert a == was + [i] + [i];
      assert a[|was|] == a[|was| + 1];
    }
  }

  lemma {:induction false} TwiceInARow(a: seq<nat>, was: seq<nat>, i: nat)
    requires was == Upto(i + 1) && a == was + [i]
    ensures exists j, k :: 0 <= j < k < |a| && a[j] == a[k]
  {
    assert a[i] == i && a[i + 1] == i;
  }

  lemma {:induction false} NoRegisterInPieces(a: seq<Action>, b: seq<Action>)
    requires NoRegister(a) && NoRegister(b)
    ensures NoRegister(a + b)
  {}

  lemma {:induction false} NoneRepeats(s: State, id: nat)
    requires InOrder(s, id)
    ensures !Repeats(s, id)
  {}

  // A campaign with nothing left to hand out.

  /** No goroutine will be given another recipient. */
  predicate Over(c: Campaign) {
    IsOver(c.status) || Progress(c) >= c.total
  }

  /** At most one goroutine of the campaign is at a recipient. */
  ghost predicate OneHolds(s: State, id: nat) {
    forall g, h :: 0 <= g < |s.runs| && 0 <= h < |s.runs| && s.runs[g].id == s.runs[h].id == id ==>
      At(s.runs[g].spot).Some? && At(s.runs[h].spot).Some? ==> g == h
  }

  ghost predicate AllPlaced(s: State, id: nat) {
    forall g :: 0 <= g < |s.runs| && s.runs[g].id == id ==> Placed(s, s.runs[g])
  }

  ghost predicate Winding(s: State, id: nat) {
    id in s.campaigns && Over(s.campaigns[id]) && OneHolds(s, id) && AllPlaced(s, id) && InOrder(s, id)
  }

  lemma {:induction false} OverStays(s: State, a: Action, t: State, id: nat)
    requires Step(s, a) == Some(t) && id in s.campaigns && Over(s.campaigns[id])
    ensures id in t.campaigns && Over(t.campaigns[id])
  {
    StepIsForward(s, a, t, id);
  }

  lemma {:induction false} UnmovedWinds(s: State, t: State, id: nat)
    requires Winding(s, id) && Unmoved(s, t) && id in t.campaigns && Over(t.campaigns[id])
    ensures Winding(t, id)
  {
    SameInHand(s, t, id);
    forall g | 0 <= g < |t.runs| && t.runs[g].id == id
      ensures Placed(t, t.runs[g])
    {
      assert Placed(s, s.runs[g]);
    }
  }

  lemma {:induction false} HolderInHand(s: State, g: nat)
    requires g < |s.runs| && At(s.runs[g].spot).Some? && OneHolds(s, s.runs[g].id)
    ensures InHand(s, s.runs[g].id) <==> s.runs[g].spot.Counting?
  {
    if h :| 0 <= h < |s.runs| && s.runs[h].id == s.runs[g].id && s.runs[h].spot.Counting? {
      assert At(s.runs[h].spot).Some?;
    }
  }

  /** A goroutine of it that is at no recipient comes to none. */
  lemma {:induction false} NothingTaken(s: State, a: Action, g: nat, t: State)
    requires g < |s.runs| && RunStep(s, a, g, s.runs[g]) == Some(t) && At(s.runs[g].spot).None?
    requires s.runs[g].id in s.campaigns && Over(s.campaigns[s.runs[g].id])
    ensures |t.runs| == |s.runs| && At(t.runs[g].spot).None? && t.campaigns.Keys == s.campaigns.Keys
    ensures var id := s.runs[g].id; t.campaigns[id] == s.campaigns[id].(status := t.campaigns[id].status)
  {}

  /** The other goroutines stand where they stood. */
  lemma {:induction false} OneMoves(s: State, g: nat, t: State, id: nat)
    requires g < |s.runs| && |t.runs| == |s.runs| && t.runs == s.runs[g := s.runs[g].(spot := t.runs[g].spot)]
    requires OneHolds(s, id) && (At(t.runs[g].spot).Some? ==> At(s.runs[g].spot).Some?)
    ensures OneHolds(t, id)
    ensures forall h :: 0 <= h < |s.runs| && h != g ==> t.runs[h] == s.runs[h]
  {}

  lemma {:induction false} IdleWinds(s: State, a: Action, g: nat, t: State)
    requires g < |s.runs| && RunStep(s, a, g, s.runs[g]) == Some(t) && At(s.runs[g].spot).None?
    requires Winding(s, s.runs[g].id) && s.runs[g].id in t.campaigns && Over(t.campaigns[s.runs[g].id])
    ensures Winding(t, s.runs[g].id)
  {
    var id := s.runs[g].id;
    RunStepIs(s, a, g, t);
    NothingTaken(s, a, g, t);
    OneMoves(s, g, t, id);
    IdleInHand(s, g, t);
    forall h | 0 <= h < |t.runs| && t.runs[h].id == id
      ensures Placed(t, t.runs[h])
    {
      assert Placed(s, s.runs[h]);
    }
  }

  lemma {:induction false} IdleInHand(s: State, g: nat, t: State)
    requires g < |s.runs| && |t.runs| == |s.runs| && t.runs == s.runs[g := s.runs[g].(spot := t.runs[g].spot)]
    requires At(s.runs[g].spot).None? && At(t.runs[g].spot).None?
    ensures InHand(t, s.runs[g].id) <==> InHand(s, s.runs[g].id)
  {
    if h :| 0 <= h < |s.runs| && s.runs[h].id == s.runs[g].id && s.runs[h].spot.Counting? {
      assert h != g && t.runs[h] == s.runs[h];
    }
    if h :| 0 <= h < |t.runs| && t.runs[h].id == s.runs[g].id && t.runs[h].spot.Counting? {
      assert h != g && t.runs[h] == s.runs[h];
    }
  }

  lemma {:induction false} HolderWinds(s: State, a: Action, g: nat, t: State)
    requires g < |s.runs| && RunStep(s, a, g, s.runs[g]) == Some(t) && At(s.runs[g].spot).Some?
    requires Winding(s, s.runs[g].id) && s.runs[g].id in t.campaigns && Over(t.campaigns[s.runs[g].id])
    ensures Winding(t, s.runs[g].id)
  {
    var id := s.runs[g].id;
    RunStepIs(s, a, g, t);
    HolderInHand(s, g);
    OwnStep(s, a, g, t);
    OneMoves(s, g, t, id);
    RunKeepsOwnPlace(s, a, g, t);
    OthersHoldNone(s, g, t);
    forall h | 0 <= h < |t.runs| && t.runs[h].id == id
      ensures Placed(t, t.runs[h])
    {
      assert h != g ==> At(t.runs[h].spot).None?;
    }
  }

  lemma {:induction false} OthersHoldNone(s: State, g: nat, t: State)
    requires g < |s.runs| && |t.runs| == |s.runs| && t.runs == s.runs[g := s.runs[g].(spot := t.runs[g].spot)]
    requires At(s.runs[g].spot).Some? && OneHolds(s, s.runs[g].id)
    ensures forall h :: 0 <= h < |t.runs| && h != g && t.runs[h].id == s.runs[g].id ==> At(t.runs[h].spot).None?
    ensures InHand(t, s.runs[g].id) <==> t.runs[g].spot.Counting?
  {
    forall h | 0 <= h < |t.runs| && h != g && t.runs[h].id == s.runs[g].id
      ensures At(t.runs[h].spot).None? && !t.runs[h].spot.Counting?
    {
      assert t.runs[h] == s.runs[h];
    }
    assert t.runs[g].id == s.runs[g].id;
  }

  lemma {:induction false} OtherWinds(s: State, a: Action, g: nat, t: State, id: nat)
    requires g < |s.runs| && RunStep(s, a, g, s.runs[g]) == Some(t) && s.runs[g].id != id && Winding(s, id)
    ensures Winding(t, id)
  {
    RunStepIs(s, a, g, t);
    NoneComesAlive(s, a, g, t);
    OthersInHand(s, a, g, t, id);
    forall h | 0 <= h < |t.runs| && t.runs[h].id == id
      ensures t.runs[h] == s.runs[h] && Placed(t, t.runs[h])
    {
      assert h != g && Placed(s, s.runs[h]);
    }
  }

  lemma {:induction false} StepWinds(s: State, a: Action, t: State, id: nat)
    requires Winding(s, id) && Step(s, a) == Some(t) && !a.RunRegistered?
    ensures Winding(t, id)
  {
    OverStays(s, a, t, id);
    if a.StartCalled? || a.PauseCalled? || a.CancelCalled? || a.RunUnregistered? || a.RunCancelled? {
      CallsMoveNothing(s, a, t);
      UnmovedWinds(s, t, id);
    } else if s.runs[a.g].id != id {
      OtherWinds(s, a, a.g, t, id);
    } else if At(s.runs[a.g].spot).Some? {
      HolderWinds(s, a, a.g, t);
    } else {
      IdleWinds(s, a, a.g, t);
    }
  }

  lemma {:induction false} RunWinds(s: State, actions: seq<Action>, t: State, id: nat)
    requires Winding(s, id) && NoRegister(actions) && RunFrom(s, actions) == Some(t)
    ensures Winding(t, id)
  {
    if actions != [] {
      var n := |actions| - 1;
      var before := RunFrom(s, actions[..n]).value;
      RunWinds(s, actions[..n], before, id);
      assert !actions[n].RunRegistered?;
      StepWinds(before, actions[n], t, id);
    }
  }

  lemma {:induction false} RegisterWinds(s: State, call: nat, id: nat)
    requires Inv(s) && id in s.campaigns && Over(s.campaigns[id])
    ensures Winding(RegisterStep(s, call, id), id)
  {
    var u := RegisterStep(s, call, id);
    assert InOrder(s, id);
    NewRunHoldsNothing(s, u, id);
    forall g | 0 <= g < |u.runs| && u.runs[g].id == id
      ensures Placed(u, u.runs[g]) && (At(u.runs[g].spot).Some? ==> g < |s.runs| && Live(s.runs[g].spot))
    {
      assert g < |s.runs| ==> Placed(s, s.runs[g]);
    }
  }

  // A paused campaign can be started again.

  /** Whatever its status, a campaign that is not over can be made Running, with its goroutines where they are. */
  lemma {:induction false} Resumes(s: State, id: nat) returns (actions: seq<Action>, t: State)
    requires id in s.campaigns && !Over(s.campaigns[id])
    ensures RunFrom(s, actions) == Some(t) && NoRegister(actions)
    ensures t.runs == s.runs && id in t.campaigns && t.campaigns[id] == s.campaigns[id].(status := Running)
  {
    if s.campaigns[id].status == Running {
      actions, t := [], s;
    } else {
      var call := UnusedNumber(s.calls.Keys);
      assert call !in s.calls;
      t := Entered(s, call, id, StartSection(s.campaigns[id], true), Registering(id));
      actions := OneStep(s, StartCalled(call, id, true), t);
    }
  }

  lemma {:induction false} CanRepeat(s: State, call: nat, id: nat) returns (actions: seq<Action>, t: State)
    requires Inv(s) && id in s.campaigns && id !in s.registry.runs && AnyLive(s, id) && !Over(s.campaigns[id])
    ensures NoRegister(actions) && RunFrom(RegisterStep(s, call, id), actions) == Some(t) && Repeats(t, id)
  {
    var u := RegisterStep(s, call, id);
    var g :| 0 <= g < |s.runs| && s.runs[g].id == id && Live(s.runs[g].spot);
    assert Placed(s, s.runs[g]) && InOrder(s, id);
    InHandIs(s, g);
    assert u.runs[g] == s.runs[g] && u.runs[|s.runs|].spot == Looping;
    var a1, v := Resumes(u, id);
    var a2, w := TwoCanRepeat(v, g, |s.runs|);
    NoRegisterInPieces(a1, a2);
    RunFromConcat(u, a1, v, a2);
    actions, t := a1 + a2, w;
  }

  /**
   As long as recipients have been attempted in order, registering a run for a campaign
   can lead to a recipient being attempted twice exactly when another goroutine of the
   campaign is still in its loop and the campaign is not over: neither completed nor
   cancelled, and with recipients left. It may be paused, for it can be started again.
   */
  lemma {:induction false} RegisteringIsSafeIff(s: State, call: nat, id: nat)
    requires Inv(s) && id in s.campaigns && id !in s.registry.runs
    ensures (exists actions, t ::
              NoRegister(actions) && RunFrom(RegisterStep(s, call, id), actions) == Some(t) && Repeats(t, id))
            <==> AnyLive(s, id) && !Over(s.campaigns[id])
  {
    var u := RegisterStep(s, call, id);
    if Over(s.campaigns[id]) {
      RegisterWinds(s, call, id);
    } else if !AnyLive(s, id) {
      RegisterKeeps(s, call, id);
    }
    if AnyLive(s, id) && !Over(s.campaigns[id]) {
      var actions, t := CanRepeat(s, call, id);
    } else {
      forall actions, t | NoRegister(actions) && RunFrom(u, actions) == Some(t)
        ensures !Repeats(t, id)
      {
        NeverRepeats(u, actions, t, id);
      }
    }
  }

  lemma {:induction false} NeverRepeats(u: State, actions: seq<Action>, t: State, id: nat)
    requires Winding(u, id) || Inv(u)
    requires NoRegister(actions) && RunFrom(u, actions) == Some(t)
    ensures !Repeats(t, id)
  {
    if Winding(u, id) {
      RunWinds(u, actions, t, id);
    } else {
      NoRegisterKeeps(u, actions, t);
      assert InOrder(t, id);
    }
    NoneRepeats(t, id);
  }
}
