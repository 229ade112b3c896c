/**
 The cache in front of TXT lookups (internal/authresult/dnscache.go), with any
 number of callers at once. Times are nanoseconds.
 */
module TxtCache {
  import opened Text

  const TTL := 60_000_000_000
  const NEGATIVE_TTL := 30_000_000_000
  const MAX_ENTRIES: nat := 4096

  datatype Error = Fine | NotFound | Failed(reason: string)

  /** What a lookup returns: records and an error. */
  datatype Answer = Answer(records: seq<string>, err: Error)

  datatype Entry = Entry(answer: Answer, expires: int)

  type Entries = map<string, Entry>

  /** How long an answer is kept; an error other than "no such record" is not kept at all. */
  function Lifetime(a: Answer): Option<int> {
    match a.err
    case Fine => Some(TTL)
    case NotFound => Some(NEGATIVE_TTL)
    case Failed(_) => None
  }

  // ---- the two mutex sections ---------------------------------------------

  function Lookup(entries: Entries, name: string, now: int): Option<Answer> {
    if name in entries && now < entries[name].expires then Some(entries[name].answer) else None
  }

  /** An expired entry is dropped when it is looked up. */
  function AfterLookup(entries: Entries, name: string, now: int): Entries {
    if name in entries && now >= entries[name].expires then entries - {name} else entries
  }

  function Unexpired(entries: Entries, now: int): Entries {
    map name | name in entries && now < entries[name].expires :: entries[name]
  }

  /** Room for one more: expired entries go first, then everything. */
  function WithRoom(entries: Entries, now: int): Entries {
    if |entries| < MAX_ENTRIES then entries
    else if |Unexpired(entries, now)| < MAX_ENTRIES then Unexpired(entries, now)
    else map[]
  }

  function AfterStore(entries: Entries, name: string, a: Answer, now: int): Entries {
    match Lifetime(a)
    case None => entries
    case Some(ttl) => WithRoom(entries, now)[name := Entry(a, now + ttl)]
  }

  class CachingResolver {
    var entries: Entries

    constructor ()
      ensures entries == map[]
    {
      entries := map[];
    }

    method Cached(name: string, now: int) returns (r: Option<Answer>)
      modifies this
      ensures r == Lookup(old(entries), name, now)
      ensures entries == AfterLookup(old(entries), name, now)
    {
      if name !in entries {
        return None;
      }
      var entry := entries[name];
      if !(now < entry.expires) {
        entries := entries - {name};
        return None;
      }
      return Some(entry.answer);
    }

    method DropExpired(now: int)
      modifies this
      ensures entries == Unexpired(old(entries), now)
    {
      var keys := entries.Keys;
      while keys != {}
        invariant keys <= entries.Keys <= old(entries).Keys
        invariant forall key :: key in entries ==> entries[key] == old(entries)[key]
        invariant forall key :: key in old(entries) && key !in keys ==>
                    (key in entries <==> now < old(entries)[key].expires)
      {
        var key :| key in keys;
        keys := keys - {key};
        if !(now < entries[key].expires) {
          entries := entries - {key};
        }
      }
    }

    method Store(name: string, a: Answer, now: int)
      modifies this
      ensures entries == AfterStore(old(entries), name, a, now)
    {
      var ttl := TTL;
      if a.err != Fine {
        if a.err != NotFound {
          return;
        }
        ttl := NEGATIVE_TTL;
      }
      if |entries| >= MAX_ENTRIES {
        DropExpired(now);
        if |entries| >= MAX_ENTRIES {
          entries := map[];
        }
      }
      entries := entries[name := Entry(a, now + ttl)];
    }
  }

  /** Storing keeps the cache within its bound. */
  lemma {:induction false} StoreIsBounded(entries: Entries, name: string, a: Answer, now: int)
    requires |entries| <= MAX_ENTRIES
    ensures |AfterStore(entries, name, a, now)| <= MAX_ENTRIES
  {
    if Lifetime(a).Some? {
      OneMore(WithRoom(entries, now), name, Entry(a, now + Lifetime(a).value));
    }
  }

  lemma {:induction false} OneMore(entries: Entries, name: string, e: Entry)
    ensures |entries[name := e]| <= |entries| + 1
  {
    assert entries[name := e].Keys == entries.Keys + {name};
  }

  // ---- callers and lookups ------------------------------------------------

  /** A shared lookup: asking upstream, answered, and stored. */
  datatype Shared =
    | Asking(name: string)
    | Got(name: string, answer: Answer, gaveAt: int)
    | Done(name: string, answer: Answer, gaveAt: int)

  /** Where a call of LookupTXT stands; the last three have returned. */
  datatype Caller =
    | Missed(name: string)
    | Waiting(name: string, lookup: nat)
    | FromCache(name: string, answer: Answer, at: int)
    | FromLookup(name: string, answer: Answer)
    | GaveUp(name: string)

  /** An answer of the resolver behind the cache, and when it came. */
  datatype Given = Given(name: string, answer: Answer, at: int)

  /** A cache entry's origin: the answer, when it came and when it was stored. */
  datatype Kept = Kept(name: string, answer: Answer, gaveAt: int, storedAt: int)

  /** `given` and `kept` only record what has happened. */
  datatype State = State(
    entries: Entries, group: map<string, nat>, lookups: map<nat, Shared>, callers: map<nat, Caller>,
    clock: int, given: set<Given>, kept: set<Kept>)

  predicate Initial(s: State) {
    s.entries == map[] && s.group == map[] && s.lookups == map[] && s.callers == map[] && s.given == {} && s.kept == {}
  }

  datatype Action =
    | Called(id: nat, name: string)
    | Joined(id: nat, lookup: nat)
    | Answered(lookup: nat, answer: Answer)
    | Stored(lookup: nat)
    | Delivered(lookup: nat)
    | TimedOut(id: nat)
    | Ticked(elapsed: nat)

  function CallStep(s: State, id: nat, name: string): State {
    var c := match Lookup(s.entries, name, s.clock)
      case Some(a) => FromCache(name, a, s.clock)
      case None => Missed(name);
    s.(entries := AfterLookup(s.entries, name, s.clock), callers := s.callers[id := c])
  }

  /** The caller waits for the lookup of its name, starting one if there is none. */
  function JoinStep(s: State, id: nat, name: string, unused: nat): State {
    if name in s.group then s.(callers := s.callers[id := Waiting(name, s.group[name])])
    else s.(callers := s.callers[id := Waiting(name, unused)], group := s.group[name := unused],
            lookups := s.lookups[unused := Asking(name)])
  }

  function StoreStep(s: State, l: nat, g: Shared): State
    requires g.Got?
  {
    var t := s.(lookups := s.lookups[l := Done(g.name, g.answer, g.gaveAt)],
                entries := AfterStore(s.entries, g.name, g.answer, s.clock));
    if Lifetime(g.answer).None? then t else t.(kept := s.kept + {Kept(g.name, g.answer, g.gaveAt, s.clock)})
  }

  /** Everyone waiting gets the answer, and the name is free again. */
  function DeliverStep(s: State, l: nat, d: Shared): State
    requires d.Done?
  {
    s.(lookups := s.lookups - {l},
       group := if d.name in s.group && s.group[d.name] == l then s.group - {d.name} else s.group,
       callers := map id | id in s.callers ::
         if s.callers[id].Waiting? && s.callers[id].lookup == l then FromLookup(s.callers[id].name, d.answer)
         else s.callers[id])
  }

  function Step(s: State, a: Action): Option<State> {
    match a
    case Called(id, name) => if id in s.callers then None else Some(CallStep(s, id, name))
    case Joined(id, unused) =>
      if id in s.callers && s.callers[id].Missed? && unused !in s.lookups then
        Some(JoinStep(s, id, s.callers[id].name, unused))
      else None
    case Answered(l, answer) =>
      if l in s.lookups && s.lookups[l].Asking? then
        var name := s.lookups[l].name;
        Some(s.(lookups := s.lookups[l := Got(name, answer, s.clock)],
                given := s.given + {Given(name, answer, s.clock)}))
      else None
    case Stored(l) => if l in s.lookups && s.lookups[l].Got? then Some(StoreStep(s, l, s.lookups[l])) else None
    case Delivered(l) => if l in s.lookups && s.lookups[l].Done? then Some(DeliverStep(s, l, s.lookups[l])) else None
    case TimedOut(id) =>
      if id in s.callers && s.callers[id].Waiting? then
        Some(s.(callers := s.callers[id := GaveUp(s.callers[id].name)]))
      else None
    case Ticked(elapsed) => Some(s.(clock := s.clock + elapsed))
  }

  ghost predicate IsRun(states: seq<State>, actions: seq<Action>) {
    && |states| == |actions| + 1 && Initial(states[0])
    && forall i :: 0 <= i < |actions| ==> Step(states[i], actions[i]) == Some(states[i + 1])
  }

  // ---- the invariant ------------------------------------------------------

  /** The record was given for its name and then stored, and may be kept. */
  ghost predicate Honest(s: State, k: Kept) {
    && k in s.kept && Lifetime(k.answer).Some? && k.gaveAt <= k.storedAt <= s.clock
    && Given(k.name, k.answer, k.gaveAt) in s.given
  }

  /** The entry is a kept answer and lives as long as its kind allows. */
  ghost predicate Sound(s: State, name: string, e: Entry, k: Kept) {
    Honest(s, k) && k.name == name && k.answer == e.answer && e.expires == k.storedAt + Lifetime(k.answer).value
  }

  ghost predicate EntryOk(s: State, name: string, e: Entry) {
    exists k :: Sound(s, name, e, k)
  }

  /** Each lookup is the one its name is known by, and has an answer that was given. */
  ghost predicate LookupOk(s: State, l: nat, g: Shared) {
    && g.name in s.group && s.group[g.name] == l
    && (!g.Asking? ==> g.gaveAt <= s.clock && Given(g.name, g.answer, g.gaveAt) in s.given)
  }

  /** A cached answer was served while its record was alive. */
  ghost predicate ServedOk(s: State, name: string, a: Answer, at: int, k: Kept) {
    Honest(s, k) && k.name == name && k.answer == a && k.storedAt <= at < k.storedAt + Lifetime(a).value
  }

  ghost predicate GivenAt(s: State, name: string, a: Answer, at: int) {
    Given(name, a, at) in s.given
  }

  ghost predicate CallerOk(s: State, c: Caller) {
    match c
    case Waiting(name, l) => l in s.lookups && s.lookups[l].name == name
    case FromCache(name, a, at) => exists k :: ServedOk(s, name, a, at, k)
    case FromLookup(name, a) => exists at :: GivenAt(s, name, a, at)
    case _ => true
  }

  ghost predicate EntriesOk(s: State) {
    |s.entries| <= MAX_ENTRIES && forall n :: n in s.entries ==> EntryOk(s, n, s.entries[n])
  }

  ghost predicate LookupsOk(s: State) {
    && (forall l :: l in s.lookups ==> LookupOk(s, l, s.lookups[l]))
    && (forall n :: n in s.group ==> s.group[n] in s.lookups && s.lookups[s.group[n]].name == n)
  }

  ghost predicate Inv(s: State) {
    EntriesOk(s) && LookupsOk(s) && forall id :: id in s.callers ==> CallerOk(s, s.callers[id])
  }

  /** Nothing recorded is forgotten and the clock does not go back. */
  ghost predicate Later(s: State, t: State) {
    s.given <= t.given && s.kept <= t.kept && s.clock <= t.clock
  }

  lemma {:induction false} StepIsLater(s: State, a: Action, t: State)
    requires Step(s, a) == Some(t)
    ensures Later(s, t)
  {}

  lemma {:induction false} EntryStays(s: State, t: State, name: string, e: Entry)
    requires Later(s, t) && EntryOk(s, name, e)
    ensures EntryOk(t, name, e)
  {
    var k :| Sound(s, name, e, k);
    assert Sound(t, name, e, k);
  }

  lemma {:induction false} ServedStays(s: State, t: State, c: Caller)
    requires Later(s, t) && CallerOk(s, c) && (c.FromCache? || c.FromLookup?)
    ensures CallerOk(t, c)
  {
    if c.FromCache? {
      var k :| ServedOk(s, c.name, c.answer, c.at, k);
      assert ServedOk(t, c.name, c.answer, c.at, k);
    } else {
      var at :| GivenAt(s, c.name, c.answer, at);
      assert GivenAt(t, c.name, c.answer, at);
    }
  }

  lemma {:induction false} StepKeepsSize(s: State, a: Action, t: State)
    requires EntriesOk(s) && Step(s, a) == Some(t)
    ensures |t.entries| <= MAX_ENTRIES
  {
    if a.Stored? {
      var g := s.lookups[a.lookup];
      StoreIsBounded(s.entries, g.name, g.answer, s.clock);
    } else if a.Called? && a.name in s.entries {
      assert (s.entries - {a.name}).Keys == s.entries.Keys - {a.name};
    }
  }

  lemma {:induction false} StoreKeepsEntry(s: State, l: nat, n: string)
    requires EntriesOk(s) && l in s.lookups && s.lookups[l].Got? && LookupOk(s, l, s.lookups[l])
    requires n in StoreStep(s, l, s.lookups[l]).entries
    ensures EntryOk(StoreStep(s, l, s.lookups[l]), n, StoreStep(s, l, s.lookups[l]).entries[n])
  {
    var g := s.lookups[l];
    var t := StoreStep(s, l, g);
    assert LookupOk(s, l, g);
    if n == g.name && Lifetime(g.answer).Some? {
      assert Sound(t, n, t.entries[n], Kept(g.name, g.answer, g.gaveAt, s.clock));
    } else {
      EntryStays(s, t, n, s.entries[n]);
    }
  }

  lemma {:induction false} StepKeepsEntry(s: State, a: Action, t: State, n: string)
    requires EntriesOk(s) && LookupsOk(s) && Step(s, a) == Some(t) && n in t.entries
    ensures EntryOk(t, n, t.entries[n])
  {
    if a.Stored? {
      StoreKeepsEntry(s, a.lookup, n);
    } else {
      StepIsLater(s, a, t);
      EntryStays(s, t, n, s.entries[n]);
    }
  }

  lemma {:induction false} StepKeepsLookup(s: State, a: Action, t: State, l: nat)
    requires LookupsOk(s) && Step(s, a) == Some(t) && l in t.lookups
    ensures LookupOk(t, l, t.lookups[l])
  {
    if l in s.lookups {
      assert LookupOk(s, l, s.lookups[l]);
    }
    if a.Delivered? {
      assert LookupOk(s, a.lookup, s.lookups[a.lookup]);
    }
  }

  lemma {:induction false} DeliverKeepsGroup(s: State, l: nat, n: string)
    requires LookupsOk(s) && l in s.lookups && s.lookups[l].Done?
    requires n in DeliverStep(s, l, s.lookups[l]).group
    ensures n in s.group && s.group[n] in s.lookups && s.group[n] != l
            && DeliverStep(s, l, s.lookups[l]).group[n] == s.group[n]
  {
    assert LookupOk(s, l, s.lookups[l]);
  }

  lemma {:induction false} StepKeepsGroup(s: State, a: Action, t: State, n: string)
    requires LookupsOk(s) && Step(s, a) == Some(t) && n in t.group
    ensures t.group[n] in t.lookups && t.lookups[t.group[n]].name == n
  {
    if a.Delivered? {
      DeliverKeepsGroup(s, a.lookup, n);
    }
  }

  /** A call that has returned stays as it was. */
  lemma {:induction false} ReturnedStays(s: State, a: Action, t: State, id: nat)
    requires Step(s, a) == Some(t) && id in s.callers && (s.callers[id].FromCache? || s.callers[id].FromLookup?)
    ensures id in t.callers && t.callers[id] == s.callers[id]
  {}

  /** The lookup a caller waits for is delivered. */
  lemma {:induction false} WaiterIsServed(s: State, l: nat, id: nat)
    requires l in s.lookups && s.lookups[l].Done? && LookupOk(s, l, s.lookups[l])
    requires id in s.callers && s.callers[id] == Waiting(s.lookups[l].name, l)
    ensures CallerOk(DeliverStep(s, l, s.lookups[l]), DeliverStep(s, l, s.lookups[l]).callers[id])
  {
    var d := s.lookups[l];
    assert GivenAt(DeliverStep(s, l, d), d.name, d.answer, d.gaveAt);
  }

  /** Any other step leaves a waiting caller's lookup there. */
  lemma {:induction false} WaiterStays(s: State, a: Action, t: State, id: nat)
    requires Step(s, a) == Some(t) && id in s.callers && CallerOk(s, s.callers[id])
    requires s.callers[id].Missed? || s.callers[id].Waiting? || s.callers[id].GaveUp?
    requires a.Delivered? ==> s.callers[id].Waiting? ==> s.callers[id].lookup != a.lookup
    requires forall n :: n in s.group ==> s.group[n] in s.lookups && s.lookups[s.group[n]].name == n
    ensures id in t.callers && CallerOk(t, t.callers[id])
  {}

  /** A caller already there stays as it was, gives up, waits, or gets its lookup's answer. */
  lemma {:induction false} CallerMoves(s: State, a: Action, t: State, id: nat)
    requires LookupsOk(s) && Step(s, a) == Some(t) && id in s.callers && CallerOk(s, s.callers[id])
    ensures id in t.callers && CallerOk(t, t.callers[id])
  {
    var was := s.callers[id];
    if was.FromCache? || was.FromLookup? {
      StepIsLater(s, a, t);
      ServedStays(s, t, was);
      ReturnedStays(s, a, t, id);
    } else if a.Delivered? && was.Waiting? && was.lookup == a.lookup {
      WaiterIsServed(s, a.lookup, id);
    } else {
      WaiterStays(s, a, t, id);
    }
  }

  /** A caller that has just come is served while its entry is alive. */
  lemma {:induction false} CallerComes(s: State, id: nat, name: string)
    requires name in s.entries ==> EntryOk(s, name, s.entries[name])
    ensures CallerOk(CallStep(s, id, name), CallStep(s, id, name).callers[id])
  {
    var t := CallStep(s, id, name);
    var c := t.callers[id];
    if c.FromCache? {
      var k :| Sound(s, name, s.entries[name], k);
      assert ServedOk(t, name, c.answer, c.at, k);
    }
  }

  lemma {:induction false} StepKeepsCaller(s: State, a: Action, t: State, id: nat)
    requires Inv(s) && Step(s, a) == Some(t) && id in t.callers
    ensures CallerOk(t, t.callers[id])
  {
    if id in s.callers {
      CallerMoves(s, a, t, id);
    } else {
      CallerComes(s, id, a.name);
    }
  }

  lemma {:induction false} StepKeeps(s: State, a: Action, t: State)
    requires Inv(s) && Step(s, a) == Some(t)
    ensures Inv(t)
  {
    StepKeepsSize(s, a, t);
    forall n | n in t.entries {
      StepKeepsEntry(s, a, t, n);
    }
    forall l | l in t.lookups {
      StepKeepsLookup(s, a, t, l);
    }
    forall n | n in t.group {
      StepKeepsGroup(s, a, t, n);
    }
    forall id | id in t.callers {
      StepKeepsCaller(s, a, t, id);
    }
  }

  lemma {:induction false} RunKeeps(states: seq<State>, actions: seq<Action>, i: nat)
    requires IsRun(states, actions) && i <= |actions|
    ensures Inv(states[i])
  {
    if i == 0 {
      InitialOk(states[0]);
    } else {
      var s, a, t := states[i - 1], actions[i - 1], states[i];
      RunKeeps(states, actions, i - 1);
      assert Step(s, a) == Some(t);
      StepKeeps(s, a, t);
    }
  }

  lemma {:induction false} InitialOk(s: State)
    requires Initial(s)
    ensures Inv(s)
  {}

  // ---- whole runs ---------------------------------------------------------

  /** The cache never grows past its bound. */
  lemma {:induction false} CacheIsBounded(states: seq<State>, actions: seq<Action>, i: nat)
    requires IsRun(states, actions) && i <= |actions|
    ensures |states[i].entries| <= 4096
  {
    RunKeeps(states, actions, i);
  }

  /** No name is being looked up twice at once. */
  lemma {:induction false} LookupsAreShared(states: seq<State>, actions: seq<Action>, i: nat, l: nat, m: nat)
    requires IsRun(states, actions) && i <= |actions|
    requires l in states[i].lookups && m in states[i].lookups && states[i].lookups[l].name == states[i].lookups[m].name
    ensures l == m
  {
    RunKeeps(states, actions, i);
    assert LookupOk(states[i], l, states[i].lookups[l]);
    assert LookupOk(states[i], m, states[i].lookups[m]);
  }

  /**
   An answer served from the cache was given for that name by the resolver behind it
   and served less than its lifetime after it was stored: 60 seconds for records, 30
   for "no such record". No other error is ever served from the cache.
   */
  lemma {:induction false} ServedIsFresh(states: seq<State>, actions: seq<Action>, i: nat, id: nat) returns (k: Kept)
    requires IsRun(states, actions) && i <= |actions| && id in states[i].callers && states[i].callers[id].FromCache?
    ensures var c := states[i].callers[id];
            && (c.answer.err == Fine || c.answer.err == NotFound)
            && Given(c.name, c.answer, k.gaveAt) in states[i].given && k.gaveAt <= k.storedAt <= c.at
            && c.at - k.storedAt < (if c.answer.err == Fine then 60_000_000_000 else 30_000_000_000)
  {
    var s := states[i];
    var c := s.callers[id];
    RunKeeps(states, actions, i);
    assert CallerOk(s, c);
    k :| ServedOk(s, c.name, c.answer, c.at, k);
  }

  /** Whoever waited for a shared lookup got an answer given for the name it asked about. */
  lemma {:induction false} SharedIsGiven(states: seq<State>, actions: seq<Action>, i: nat, id: nat) returns (at: int)
    requires IsRun(states, actions) && i <= |actions| && id in states[i].callers && states[i].callers[id].FromLookup?
    ensures Given(states[i].callers[id].name, states[i].callers[id].answer, at) in states[i].given
  {
    RunKeeps(states, actions, i);
    assert CallerOk(states[i], states[i].callers[id]);
    at :| GivenAt(states[i], states[i].callers[id].name, states[i].callers[id].answer, at);
  }

  // ---- an answer stored late ----------------------------------------------

  /** The state after more actions. */
  function RunFrom(s: State, actions: seq<Action>): Option<State>
    decreases |actions|
  {
    if actions == [] then Some(s)
    else
      match Step(s, actions[0])
      case None => None
      case Some(t) => RunFrom(t, actions[1..])
  }

  predicate NoStore(actions: seq<Action>) {
    forall i :: 0 <= i < |actions| ==> !actions[i].Stored?
  }

  /** A caller that was not there before got this answer from the cache, its lifetime or more after it was given. */
  ghost predicate ServesStale(before: State, last: State, g: Shared)
    requires g.Got? && Lifetime(g.answer).Some?
  {
    exists id :: id in last.callers && id !in before.callers && IsStale(last.callers[id], g)
  }

  predicate IsStale(c: Caller, g: Shared)
    requires g.Got? && Lifetime(g.answer).Some?
  {
    c.FromCache? && c.name == g.name && c.answer == g.answer && c.at - g.gaveAt >= Lifetime(g.answer).value
  }

  /** Without another store the cache only loses entries, and serves new callers from those it had. */
  ghost predicate Follows(before: State, s: State) {
    && (forall n :: n in s.entries ==> n in before.entries && s.entries[n] == before.entries[n])
    && (forall id :: id in s.callers && id !in before.callers ==> ServedInTime(before, s.callers[id]))
    && (forall id :: id in before.callers ==> id in s.callers)
  }

  predicate ServedInTime(before: State, c: Caller) {
    c.FromCache? ==> c.name in before.entries && c.at < before.entries[c.name].expires
  }

  lemma {:induction false} StepFollows(before: State, s: State, a: Action, t: State)
    requires Follows(before, s) && Step(s, a) == Some(t) && !a.Stored?
    ensures Follows(before, t)
  {
    forall id | id in t.callers && id !in before.callers
      ensures ServedInTime(before, t.callers[id])
    {
      assert id in s.callers ==> ServedInTime(before, s.callers[id]);
    }
  }

  lemma {:induction false} RunFollows(before: State, s: State, actions: seq<Action>, last: State)
    requires Follows(before, s) && NoStore(actions) && RunFrom(s, actions) == Some(last)
    ensures Follows(before, last)
    decreases |actions|
  {
    if actions != [] {
      var t := Step(s, actions[0]).value;
      assert !actions[0].Stored?;
      StepFollows(before, s, actions[0], t);
      RunFollows(before, t, actions[1..], last);
    }
  }

  /** Stored late, an answer can be served too late: at the last moment of its life. */
  lemma {:induction false} LateCanBeServed(s: State, l: nat) returns (more: seq<Action>, last: State)
    requires l in s.lookups && s.lookups[l].Got? && Lifetime(s.lookups[l].answer).Some? && s.lookups[l].gaveAt < s.clock
    ensures var t := StoreStep(s, l, s.lookups[l]);
            NoStore(more) && RunFrom(t, more) == Some(last) && ServesStale(t, last, s.lookups[l])
  {
    var g := s.lookups[l];
    var t := StoreStep(s, l, g);
    var ttl := Lifetime(g.answer).value;
    var id := UnusedNumber(t.callers.Keys);
    var u := t.(clock := t.clock + (ttl - 1));
    last := CallStep(u, id, g.name);
    more := [Ticked(ttl - 1), Called(id, g.name)];
    assert id !in t.callers.Keys;
    assert more[1..] == [Called(id, g.name)] && more[1..][1..] == [];
    assert Step(t, more[0]) == Some(u) && Step(u, more[1..][0]) == Some(last);
    assert RunFrom(u, more[1..]) == RunFrom(last, more[1..][1..]) == Some(last);
    assert last.callers[id] == FromCache(g.name, g.answer, u.clock);
  }

  /**
   The lifetime of a cached answer runs from its being stored. In any run, storing an
   answer can lead to its being served its lifetime or more after it was given, with
   no other store between, exactly when it is stored later than it was given.
   */
  lemma {:induction false} StaleIff(states: seq<State>, actions: seq<Action>, i: nat)
    requires IsRun(states, actions) && i < |actions| && actions[i].Stored?
    requires var l := actions[i].lookup;
             l in states[i].lookups && states[i].lookups[l].Got? && Lifetime(states[i].lookups[l].answer).Some?
    ensures var g := states[i].lookups[actions[i].lookup];
            (exists more, last ::
              NoStore(more) && RunFrom(states[i + 1], more) == Some(last) && ServesStale(states[i + 1], last, g))
            <==> g.gaveAt < states[i].clock
  {
    var s, t, l := states[i], states[i + 1], actions[i].lookup;
    var g := s.lookups[l];
    assert t == StoreStep(s, l, g);
    RunKeeps(states, actions, i);
    assert LookupOk(s, l, g);
    if g.gaveAt < s.clock {
      var more, last := LateCanBeServed(s, l);
    } else {
      forall more, last | NoStore(more) && RunFrom(t, more) == Some(last)
        ensures !ServesStale(t, last, g)
      {
        assert Follows(t, t);
        RunFollows(t, t, more, last);
        PromptIsNotStale(t, last, g, s.clock);
      }
    }
  }

  lemma {:induction false} PromptIsNotStale(t: State, last: State, g: Shared, now: int)
    requires Follows(t, last) && g.Got? && Lifetime(g.answer).Some? && g.gaveAt == now
    requires g.name in t.entries && t.entries[g.name].expires == now + Lifetime(g.answer).value
    ensures !ServesStale(t, last, g)
  {
    forall id | id in last.callers && id !in t.callers
      ensures !IsStale(last.callers[id], g)
    {
      assert ServedInTime(t, last.callers[id]);
    }
  }

  /** If the step stores an answer, it came at this moment. */
  predicate PromptStep(s: State, a: Action) {
    a.Stored? && a.lookup in s.lookups && s.lookups[a.lookup].Got? ==> s.lookups[a.lookup].gaveAt == s.clock
  }

  /** Every answer was stored at the moment it came. */
  ghost predicate Prompt(states: seq<State>, actions: seq<Action>) {
    IsRun(states, actions) && forall i :: 0 <= i < |actions| ==> PromptStep(states[i], actions[i])
  }

  lemma {:induction false} PromptIsKept(states: seq<State>, actions: seq<Action>, i: nat, k: Kept)
    requires Prompt(states, actions) && i <= |actions| && k in states[i].kept
    ensures k.gaveAt == k.storedAt
  {
    if i > 0 {
      assert PromptStep(states[i - 1], actions[i - 1]);
      if k in states[i - 1].kept {
        PromptIsKept(states, actions, i - 1, k);
      }
    }
  }

  /** Where answers are stored as they come, a cached answer was given less than its lifetime before it is served. */
  lemma {:induction false} PromptIsFresh(states: seq<State>, actions: seq<Action>, i: nat, id: nat) returns (at: int)
    requires Prompt(states, actions) && i <= |actions| && id in states[i].callers && states[i].callers[id].FromCache?
    ensures var c := states[i].callers[id];
            Given(c.name, c.answer, at) in states[i].given
            && 0 <= c.at - at < (if c.answer.err == Fine then 60_000_000_000 else 30_000_000_000)
  {
    var s := states[i];
    var c := s.callers[id];
    RunKeeps(states, actions, i);
    assert CallerOk(s, c);
    var k :| ServedOk(s, c.name, c.answer, c.at, k);
    PromptIsKept(states, actions, i, k);
    at := k.gaveAt;
  }

  lemma {:induction false} RunExtends(states: seq<State>, actions: seq<Action>, a: Action, t: State)
    requires IsRun(states, actions) && Step(states[|actions|], a) == Some(t)
    ensures IsRun(states + [t], actions + [a])
  {
    var more, all := actions + [a], states + [t];
    forall i | 0 <= i < |more|
      ensures Step(all[i], more[i]) == Some(all[i + 1])
    {
      if i < |actions| {
        assert Step(states[i], actions[i]) == Some(states[i + 1]);
      }
    }
  }

  /** An answer comes at once. */
  lemma {:induction false} AnsweredAtOnce(name: string, a: Answer) returns (states: seq<State>, actions: seq<Action>)
    ensures IsRun(states, actions)
    ensures states[|actions|]
            == State(map[], map[name := 0], map[0 := Got(name, a, 0)], map[0 := Waiting(name, 0)], 0,
                     {Given(name, a, 0)}, {})
  {
    var s0 := State(map[], map[], map[], map[], 0, {}, {});
    var s1 := s0.(callers := map[0 := Missed(name)]);
    var s2 := JoinStep(s1, 0, name, 0);
    var s3 := s2.(lookups := s2.lookups[0 := Got(name, a, 0)], given := {Given(name, a, 0)});
    states, actions := [s0], [];
    RunExtends(states, actions, Called(0, name), s1);
    states, actions := states + [s1], actions + [Called(0, name)];
    RunExtends(states, actions, Joined(0, 0), s2);
    states, actions := states + [s2], actions + [Joined(0, 0)];
    assert {} + {Given(name, a, 0)} == {Given(name, a, 0)};
    RunExtends(states, actions, Answered(0, a), s3);
    states, actions := states + [s3], actions + [Answered(0, a)];
    assert s3.lookups == map[0 := Got(name, a, 0)] && s3.callers == map[0 := Waiting(name, 0)];
  }

  /** An answer comes at once and is stored ten seconds later. */
  lemma {:induction false} StoredLate(name: string, a: Answer) returns (states: seq<State>, actions: seq<Action>)
    requires a.err == Fine
    ensures IsRun(states, actions)
    ensures var last := states[|actions|];
            && last.entries == map[name := Entry(a, 70_000_000_000)] && last.callers == map[0 := Waiting(name, 0)]
            && last.clock == 10_000_000_000 && last.given == {Given(name, a, 0)}
  {
    states, actions := AnsweredAtOnce(name, a);
    var s4 := states[|actions|].(clock := 10_000_000_000);
    var s5 := StoreStep(s4, 0, Got(name, a, 0));
    RunExtends(states, actions, Ticked(10_000_000_000), s4);
    states, actions := states + [s4], actions + [Ticked(10_000_000_000)];
    RunExtends(states, actions, Stored(0), s5);
    states, actions := states + [s5], actions + [Stored(0)];
    assert s5.entries == map[name := Entry(a, 70_000_000_000)];
  }

  /** Stored ten seconds late, an answer is served 65 seconds after it came. */
  lemma {:induction false} LateIsStale(name: string, a: Answer) returns (states: seq<State>, actions: seq<Action>)
    requires a.err == Fine
    ensures IsRun(states, actions)
    ensures var last := states[|actions|];
            last.given == {Given(name, a, 0)} && 1 in last.callers
            && last.callers[1] == FromCache(name, a, 65_000_000_000)
  {
    states, actions := StoredLate(name, a);
    var s5 := states[|actions|];
    var s6 := s5.(clock := 65_000_000_000);
    var s7 := CallStep(s6, 1, name);
    RunExtends(states, actions, Ticked(55_000_000_000), s6);
    states, actions := states + [s6], actions + [Ticked(55_000_000_000)];
    RunExtends(states, actions, Called(1, name), s7);
    states, actions := states + [s7], actions + [Called(1, name)];
  }

  // ---- what storing forgets -----------------------------------------------

  /** Storing an answer forgets another live one only when the cache is full of live ones, and then forgets them all. */
  lemma {:induction false} StoreKeepsLive(entries: Entries, name: string, a: Answer, now: int, other: string)
    requires Lifetime(a).Some? && other != name && other in entries && now < entries[other].expires
    ensures var after := AfterStore(entries, name, a, now);
            && (other in after <==> |Unexpired(entries, now)| < MAX_ENTRIES)
            && (other in after ==> after[other] == entries[other])
            && Lookup(after, name, now) == Some(a)
  {
    UnexpiredIsFewer(entries, now);
  }

  lemma {:induction false} UnexpiredIsFewer(entries: Entries, now: int)
    ensures |Unexpired(entries, now)| <= |entries|
  {
    FewerKeys(Unexpired(entries, now).Keys, entries.Keys);
  }

  lemma {:induction false} FewerKeys(a: set<string>, b: set<string>)
    requires a <= b
    ensures |a| <= |b|
  {
    assert b == a + (b - a);
  }
}
