/**
 Brute-force protection for password logins (internal/api/login_throttle.go): two
 sliding-window counters kept as lists of failure times. Times are nanoseconds and
 every call is given the clock.
 */
module LoginThrottle {
  import opened Text

  const WINDOW := 900_000_000_000
  const MAX_PER_PAIR: nat := 5
  const MAX_PER_ADDRESS: nat := 20
  const MAX_KEYS: nat := 100000

  function PairKey(addr: string, user: string): string {
    ['u', '\0'] + addr + ['\0'] + ToLower(user)
  }

  function HostKey(addr: string): string {
    ['a', '\0'] + addr
  }

  lemma {:induction false} KeysApart(addr: string, other: string, user: string)
    ensures HostKey(addr) != PairKey(other, user)
    ensures HostKey(addr) == HostKey(other) ==> addr == other
  {
    assert HostKey(addr)[0] != PairKey(other, user)[0];
    assert HostKey(addr)[2..] == addr && HostKey(other)[2..] == other;
  }

  type Failures = map<string, seq<int>>

  function Get(f: Failures, key: string): seq<int> {
    if key in f then f[key] else []
  }

  // ---- one list -----------------------------------------------------------

  /** The failures still inside the window. */
  function Kept(times: seq<int>, now: int): seq<int> {
    if times == [] then []
    else
      var last, before := times[|times| - 1], Kept(times[..|times| - 1], now);
      if now - last < WINDOW then before + [last] else before
  }

  function Wait(times: seq<int>, max: nat, now: int): int
    requires max >= 1
  {
    var kept := Kept(times, now);
    if |kept| < max then 0 else WINDOW - (now - kept[|kept| - max])
  }

  ghost predicate Sorted(times: seq<int>) {
    forall i, j :: 0 <= i <= j < |times| ==> times[i] <= times[j]
  }

  /** A list as the clock leaves it: in order, nothing in the future. */
  ghost predicate Past(times: seq<int>, now: int) {
    Sorted(times) && forall i :: 0 <= i < |times| ==> times[i] <= now
  }

  lemma {:induction false} KeptSnoc(times: seq<int>, t: int, now: int)
    ensures Kept(times + [t], now) == Kept(times, now) + if now - t < WINDOW then [t] else []
  {
    assert (times + [t])[..|times|] == times;
  }

  /** Filtering at one moment and then at a later one is filtering at the later one. */
  lemma {:induction false} KeptAgain(times: seq<int>, now: int, later: int)
    requires now <= later
    ensures Kept(Kept(times, now), later) == Kept(times, later)
  {
    if times != [] {
      var last, before := times[|times| - 1], times[..|times| - 1];
      KeptAgain(before, now, later);
      KeptSnoc(Kept(before, now), last, later);
    }
  }

  /** A list whose last failure has left the window keeps nothing. */
  lemma {:induction false} KeptNone(times: seq<int>, now: int)
    requires Sorted(times) && Stale(times, now)
    ensures Kept(times, now) == []
  {
    if |times| > 1 {
      var n := |times| - 1;
      assert times[n - 1] <= times[n];
      KeptNone(times[..n], now);
    }
  }

  /** In a sorted list the failures inside the window are its end. */
  lemma {:induction false} KeptIsEnd(times: seq<int>, now: int) returns (c: nat)
    requires Sorted(times)
    ensures c <= |times| && Kept(times, now) == times[c..]
    ensures forall i :: 0 <= i < |times| ==> (now - times[i] < WINDOW <==> i >= c)
  {
    if Stale(times, now) {
      KeptNone(times, now);
      c := |times|;
    } else {
      var n := |times| - 1;
      c := KeptIsEnd(times[..n], now);
      assert times[c..] == times[..n][c..] + [times[n]];
      assert forall i :: 0 <= i < n ==> times[i] == times[..n][i];
    }
  }

  /** The wait without the filtering: only the max-th failure from the end matters. */
  lemma {:induction false} WaitIs(times: seq<int>, max: nat, now: int)
    requires Sorted(times) && max >= 1
    ensures Wait(times, max, now) ==
            if |times| >= max && now - times[|times| - max] < WINDOW then WINDOW - (now - times[|times| - max]) else 0
  {
    var c := KeptIsEnd(times, now);
    assert |times| - c >= max ==> times[c..][|times| - c - max] == times[|times| - max];
  }

  /** The wait is exact: positive at every moment before it has passed, zero from then on. */
  lemma {:induction false} WaitIsExact(times: seq<int>, max: nat, now: int, later: int)
    requires Past(times, now) && max >= 1 && now <= later
    ensures 0 <= Wait(times, max, now) <= WINDOW
    ensures Wait(times, max, later) > 0 <==> later < now + Wait(times, max, now)
  {
    WaitIs(times, max, now);
    WaitIs(times, max, later);
  }

  // ---- the map ------------------------------------------------------------

  /** waitLocked leaves the key's recent failures, or nothing. */
  function Trimmed(f: Failures, key: string, now: int): Failures {
    if Kept(Get(f, key), now) == [] then f - {key} else f[key := Kept(Get(f, key), now)]
  }

  function RetryAfter(f: Failures, addr: string, user: string, now: int): int {
    var pair := Wait(Get(f, PairKey(addr, user)), MAX_PER_PAIR, now);
    var host := Wait(Get(f, HostKey(addr)), MAX_PER_ADDRESS, now);
    if host > pair then host else pair
  }

  function Asked(f: Failures, addr: string, user: string, now: int): Failures {
    Trimmed(Trimmed(f, PairKey(addr, user), now), HostKey(addr), now)
  }

  /** The key's newest failure has left the window. */
  predicate Stale(times: seq<int>, now: int) {
    times == [] || now - times[|times| - 1] >= WINDOW
  }

  function Pruned(f: Failures, now: int): Failures {
    map key | key in f && !Stale(f[key], now) :: f[key]
  }

  function Added(f: Failures, key: string, now: int): Failures {
    f[key := Get(f, key) + [now]]
  }

  function Recorded(f: Failures, addr: string, user: string, now: int): Failures {
    var room := if |f| >= MAX_KEYS then Pruned(f, now) else f;
    Added(Added(room, PairKey(addr, user), now), HostKey(addr), now)
  }

  function Forgiven(f: Failures, addr: string, user: string): Failures {
    f - {PairKey(addr, user)}
  }

  /** The filter of waitLocked, writing over the list it reads. */
  method KeepRecent(times: array<int>, now: int) returns (n: nat)
    modifies times
    ensures n <= times.Length && times[..n] == Kept(old(times[..]), now)
  {
    n := 0;
    for i := 0 to times.Length
      invariant n <= i
      invariant times[i..] == old(times[..])[i..]
      invariant times[..n] == Kept(old(times[..])[..i], now)
    {
      assert old(times[..])[..i + 1] == old(times[..])[..i] + [times[i]] by {
        assert times[i] == times[i..][0];
      }
      KeptSnoc(old(times[..])[..i], times[i], now);
      assert times[i + 1..] == old(times[..])[i + 1..] by {
        assert times[i + 1..] == times[i..][1..];
      }
      if now - times[i] < WINDOW {
        times[n] := times[i];
        n := n + 1;
      }
    }
    assert old(times[..])[..times.Length] == old(times[..]);
  }

  class Throttle {
    var failures: Failures

    constructor ()
      ensures failures == map[]
    {
      failures := map[];
    }

    method WaitLocked(key: string, max: nat, now: int) returns (wait: int)
      requires max >= 1
      modifies this
      ensures wait == Wait(Get(old(failures), key), max, now)
      ensures failures == Trimmed(old(failures), key, now)
    {
      var stored := Get(failures, key);
      var times := new int[|stored|](i requires 0 <= i < |stored| => stored[i]);
      assert times[..] == stored;
      var n := KeepRecent(times, now);
      var kept := times[..n];
      if n == 0 {
        failures := failures - {key};
        return 0;
      }
      failures := failures[key := kept];
      if n < max {
        return 0;
      }
      return WINDOW - (now - kept[n - max]);
    }

    method RetryAfterLocked(addr: string, user: string, now: int) returns (wait: int)
      modifies this
      ensures wait == RetryAfter(old(failures), addr, user, now)
      ensures failures == Asked(old(failures), addr, user, now)
    {
      KeysApart(addr, addr, user);
      wait := WaitLocked(PairKey(addr, user), MAX_PER_PAIR, now);
      var w := WaitLocked(HostKey(addr), MAX_PER_ADDRESS, now);
      if w > wait {
        wait := w;
      }
    }

    method PruneLocked(now: int)
      modifies this
      ensures failures == Pruned(old(failures), now)
    {
      var keys := failures.Keys;
      while keys != {}
        invariant keys <= failures.Keys <= old(failures).Keys
        invariant forall key :: key in failures ==> failures[key] == old(failures)[key]
        invariant forall key :: key in old(failures) && key !in keys ==>
                    (key in failures <==> !Stale(old(failures)[key], now))
      {
        var key :| key in keys;
        keys := keys - {key};
        if Stale(failures[key], now) {
          failures := failures - {key};
        }
      }
    }

    method RecordFailure(addr: string, user: string, now: int)
      modifies this
      ensures failures == Recorded(old(failures), addr, user, now)
    {
      if |failures| >= MAX_KEYS {
        PruneLocked(now);
      }
      var pair, host := PairKey(addr, user), HostKey(addr);
      failures := failures[pair := Get(failures, pair) + [now]];
      failures := failures[host := Get(failures, host) + [now]];
    }

    method RecordSuccess(addr: string, user: string)
      modifies this
      ensures failures == Forgiven(old(failures), addr, user)
    {
      failures := failures - {PairKey(addr, user)};
    }
  }

  // ---- whole runs ---------------------------------------------------------

  datatype Event =
    | Ask(addr: string, user: string, at: int)
    | Fail(addr: string, user: string, at: int)
    | Succeed(addr: string, user: string, at: int)
    | Prune(at: int)

  function Apply(f: Failures, e: Event): Failures {
    match e
    case Ask(addr, user, at) => Asked(f, addr, user, at)
    case Fail(addr, user, at) => Recorded(f, addr, user, at)
    case Succeed(addr, user, _) => Forgiven(f, addr, user)
    case Prune(at) => Pruned(f, at)
  }

  /** The map after a run from empty. */
  function After(events: seq<Event>): Failures {
    if events == [] then map[] else Apply(After(events[..|events| - 1]), events[|events| - 1])
  }

  ghost predicate ClockRuns(events: seq<Event>) {
    forall i, j :: 0 <= i <= j < |events| ==> events[i].at <= events[j].at
  }

  /** The whole record of a key: every failure since its last reset, however old. */
  ghost function Record(events: seq<Event>, key: string): seq<int> {
    if events == [] then []
    else Noted(Record(events[..|events| - 1], key), events[|events| - 1], key)
  }

  ghost function Noted(before: seq<int>, e: Event, key: string): seq<int> {
    match e
    case Fail(addr, user, at) => if key == HostKey(addr) || key == PairKey(addr, user) then before + [at] else before
    case Succeed(addr, user, _) => if key == PairKey(addr, user) then [] else before
    case _ => before
  }

  /** A stored list answers every later question as the whole record does. */
  ghost predicate Same(stored: seq<int>, record: seq<int>, now: int) {
    && Past(stored, now) && Past(record, now)
    && forall later :: now <= later ==> Kept(stored, later) == Kept(record, later)
  }

  lemma {:induction false} SameWait(stored: seq<int>, record: seq<int>, now: int, later: int, max: nat)
    requires Same(stored, record, now) && now <= later && max >= 1
    ensures Wait(stored, max, later) == Wait(record, max, later)
  {
    assert Kept(stored, later) == Kept(record, later);
  }

  lemma {:induction false} SameTrimmed(stored: seq<int>, record: seq<int>, was: int, now: int)
    requires Same(stored, record, was) && was <= now
    ensures Same(Kept(stored, now), record, now)
  {
    var c := KeptIsEnd(stored, now);
    forall later | now <= later
      ensures Kept(Kept(stored, now), later) == Kept(record, later)
    {
      KeptAgain(stored, now, later);
      assert Kept(stored, later) == Kept(record, later);
    }
  }

  lemma {:induction false} SameAdded(stored: seq<int>, record: seq<int>, now: int)
    requires Same(stored, record, now)
    ensures Same(stored + [now], record + [now], now)
  {
    forall later | now <= later
      ensures Kept(stored + [now], later) == Kept(record + [now], later)
    {
      KeptSnoc(stored, now, later);
      KeptSnoc(record, now, later);
      assert Kept(stored, later) == Kept(record, later);
    }
  }

  lemma {:induction false} SameLater(stored: seq<int>, record: seq<int>, was: int, now: int)
    requires Same(stored, record, was) && was <= now
    ensures Same(stored, record, now)
  {}

  lemma {:induction false} SamePruned(f: Failures, key: string, record: seq<int>, was: int, now: int)
    requires Same(Get(f, key), record, was) && was <= now
    ensures Same(Get(Pruned(f, now), key), record, now)
  {
    var stored := Get(f, key);
    if Stale(stored, now) {
      SameTrimmed(stored, record, was, now);
      KeptNone(stored, now);
    } else {
      SameLater(stored, record, was, now);
    }
  }

  lemma {:induction false} TrimmedGet(f: Failures, key: string, now: int, k: string)
    ensures Get(Trimmed(f, key, now), k) == if k == key then Kept(Get(f, k), now) else Get(f, k)
  {}

  lemma {:induction false} SameTrim(f: Failures, key: string, k: string, record: seq<int>, was: int, now: int)
    requires Same(Get(f, k), record, was) && was <= now
    ensures Same(Get(Trimmed(f, key, now), k), record, now)
  {
    TrimmedGet(f, key, now, k);
    if k == key {
      SameTrimmed(Get(f, k), record, was, now);
    } else {
      SameLater(Get(f, k), record, was, now);
    }
  }

  lemma {:induction false} SameRecorded(f: Failures, addr: string, user: string, k: string, record: seq<int>, was: int,
                                        now: int)
    requires Same(Get(f, k), record, was) && was <= now
    ensures Same(Get(Recorded(f, addr, user, now), k), Noted(record, Fail(addr, user, now), k), now)
  {
    var room := if |f| >= MAX_KEYS then Pruned(f, now) else f;
    SamePruned(f, k, record, was, now);
    SameLater(Get(f, k), record, was, now);
    assert Same(Get(room, k), record, now);
    KeysApart(addr, addr, user);
    RecordedGet(room, PairKey(addr, user), HostKey(addr), k, now);
    SameAdded(Get(room, k), record, now);
  }

  lemma {:induction false} RecordedGet(f: Failures, pair: string, host: string, k: string, now: int)
    requires pair != host
    ensures Get(Added(Added(f, pair, now), host, now), k) ==
            if k == pair || k == host then Get(f, k) + [now] else Get(f, k)
  {}

  lemma {:induction false} SameStep(f: Failures, e: Event, k: string, record: seq<int>, was: int)
    requires Same(Get(f, k), record, was) && was <= e.at
    ensures Same(Get(Apply(f, e), k), Noted(record, e, k), e.at)
  {
    match e
    case Ask(addr, user, at) =>
      SameTrim(f, PairKey(addr, user), k, record, was, at);
      SameTrim(Trimmed(f, PairKey(addr, user), at), HostKey(addr), k, record, at, at);
    case Fail(addr, user, at) =>
      SameRecorded(f, addr, user, k, record, was, at);
    case Succeed(addr, user, at) =>
      SameLater(Get(f, k), record, was, at);
    case Prune(at) =>
      SamePruned(f, k, record, was, at);
  }

  /** The stored lists answer as the whole record would, after any run. */
  lemma {:induction false} RunIsSame(events: seq<Event>, key: string, now: int)
    requires ClockRuns(events) && (events != [] ==> events[|events| - 1].at <= now)
    ensures Same(Get(After(events), key), Record(events, key), now)
  {
    if events != [] {
      var n := |events| - 1;
      var was := if n == 0 then events[n].at else events[n - 1].at;
      RunIsSame(events[..n], key, was);
      SameStep(After(events[..n]), events[n], key, Record(events[..n], key), was);
      SameLater(Get(After(events), key), Record(events, key), events[n].at, now);
    }
  }

  /** What retryAfter would answer if nothing had ever been filtered or pruned. */
  ghost function FullAnswer(events: seq<Event>, addr: string, user: string, now: int): int {
    var pair := Wait(Record(events, PairKey(addr, user)), MAX_PER_PAIR, now);
    var host := Wait(Record(events, HostKey(addr)), MAX_PER_ADDRESS, now);
    if host > pair then host else pair
  }

  /**
   Filtering and pruning never change an answer, and the answer is exact: with no
   new failures it is positive at every moment before the wait has passed and zero after.
   */
  lemma {:induction false} AnswersAreExact(events: seq<Event>, addr: string, user: string, now: int, later: int)
    requires ClockRuns(events) && (events != [] ==> events[|events| - 1].at <= now) && now <= later
    ensures RetryAfter(After(events), addr, user, now) == FullAnswer(events, addr, user, now)
    ensures RetryAfter(After(events), addr, user, later) > 0 <==>
            later < now + RetryAfter(After(events), addr, user, now)
  {
    var f := After(events);
    var pair, host := PairKey(addr, user), HostKey(addr);
    RunIsSame(events, pair, now);
    RunIsSame(events, host, now);
    SameWait(Get(f, pair), Record(events, pair), now, now, MAX_PER_PAIR);
    SameWait(Get(f, host), Record(events, host), now, now, MAX_PER_ADDRESS);
    WaitIsExact(Get(f, pair), MAX_PER_PAIR, now, later);
    WaitIsExact(Get(f, host), MAX_PER_ADDRESS, now, later);
  }

  /** Asking, and pruning at any moment, leave every later answer as it was. */
  lemma {:induction false} QuestionsChangeNothing(events: seq<Event>, e: Event, addr: string, user: string, now: int)
    requires ClockRuns(events + [e]) && (e.Ask? || e.Prune?) && e.at <= now
    ensures RetryAfter(After(events + [e]), addr, user, now) == RetryAfter(After(events), addr, user, now)
  {
    assert (events + [e])[..|events|] == events;
    assert events == (events + [e])[..|events|];
    forall i, j | 0 <= i <= j < |events|
      ensures events[i].at <= events[j].at
    {
      assert (events + [e])[i].at <= (events + [e])[j].at;
    }
    assert events != [] ==> (events + [e])[|events| - 1].at <= (events + [e])[|events|].at;
    AnswersAreExact(events, addr, user, now, now);
    AnswersAreExact(events + [e], addr, user, now, now);
  }

  /** Every failure was recorded at a moment when retryAfter gave zero. */
  ghost predicate Guarded(events: seq<Event>) {
    forall i :: 0 <= i < |events| && events[i].Fail? ==>
      RetryAfter(After(events[..i]), events[i].addr, events[i].user, events[i].at) == 0
  }

  /** The failures recorded from one address, whatever the usernames. */
  ghost function FailuresFrom(events: seq<Event>, addr: string): seq<int> {
    if events == [] then []
    else
      var e := events[|events| - 1];
      FailuresFrom(events[..|events| - 1], addr) + if e.Fail? && e.addr == addr then [e.at] else []
  }

  lemma {:induction false} AddressRecord(events: seq<Event>, addr: string)
    ensures Record(events, HostKey(addr)) == FailuresFrom(events, addr)
  {
    if events != [] {
      var e := events[|events| - 1];
      AddressRecord(events[..|events| - 1], addr);
      if e.Fail? || e.Succeed? {
        KeysApart(addr, e.addr, e.user);
      }
    }
  }

  /** Any max + 1 failures span at least the window. */
  ghost predicate Spaced(times: seq<int>, max: nat) {
    forall i :: 0 <= i && i + max < |times| ==> times[i + max] - times[i] >= WINDOW
  }

  lemma {:induction false} SpacedNext(times: seq<int>, max: nat, now: int)
    requires Spaced(times, max) && Past(times, now) && max >= 1 && Wait(times, max, now) == 0
    ensures Spaced(times + [now], max)
  {
    WaitIs(times, max, now);
  }

  lemma {:induction false} GuardedBefore(events: seq<Event>)
    requires events != [] && Guarded(events) && ClockRuns(events)
    ensures Guarded(events[..|events| - 1]) && ClockRuns(events[..|events| - 1])
  {
    var before := events[..|events| - 1];
    forall i | 0 <= i < |before| && before[i].Fail?
      ensures RetryAfter(After(before[..i]), before[i].addr, before[i].user, before[i].at) == 0
    {
      assert before[..i] == events[..i];
    }
  }

  /** The record of every key stays spaced out by its own limit. */
  lemma {:induction false} RecordIsSpaced(events: seq<Event>, addr: string, user: string)
    requires ClockRuns(events) && Guarded(events)
    ensures Spaced(Record(events, HostKey(addr)), MAX_PER_ADDRESS)
    ensures Spaced(Record(events, PairKey(addr, user)), MAX_PER_PAIR)
  {
    if events != [] {
      var n := |events| - 1;
      var e, before := events[n], events[..n];
      GuardedBefore(events);
      RecordIsSpaced(before, addr, user);
      if e.Fail? {
        KeysApart(addr, e.addr, e.user);
        KeysApart(e.addr, addr, user);
        FailIsSpaced(before, e, addr, user);
      }
    }
  }

  lemma {:induction false} FailIsSpaced(events: seq<Event>, e: Event, addr: string, user: string)
    requires ClockRuns(events) && e.Fail? && (events != [] ==> events[|events| - 1].at <= e.at)
    requires RetryAfter(After(events), e.addr, e.user, e.at) == 0
    requires Spaced(Record(events, HostKey(addr)), MAX_PER_ADDRESS)
    requires Spaced(Record(events, PairKey(addr, user)), MAX_PER_PAIR)
    ensures e.addr == addr ==> Spaced(Record(events, HostKey(addr)) + [e.at], MAX_PER_ADDRESS)
    ensures PairKey(addr, user) == PairKey(e.addr, e.user) ==>
              Spaced(Record(events, PairKey(addr, user)) + [e.at], MAX_PER_PAIR)
  {
    AnswersAreExact(events, e.addr, e.user, e.at, e.at);
    var pair, host := Record(events, PairKey(e.addr, e.user)), Record(events, HostKey(e.addr));
    RunIsSame(events, PairKey(e.addr, e.user), e.at);
    RunIsSame(events, HostKey(e.addr), e.at);
    WaitIsExact(pair, MAX_PER_PAIR, e.at, e.at);
    WaitIsExact(host, MAX_PER_ADDRESS, e.at, e.at);
    if e.addr == addr {
      SpacedNext(host, MAX_PER_ADDRESS, e.at);
    }
    if PairKey(addr, user) == PairKey(e.addr, e.user) {
      SpacedNext(pair, MAX_PER_PAIR, e.at);
    }
  }

  /**
   Any 21 failures recorded from one address span at least the window, whatever
   usernames, successes, questions, prunes and other addresses come between.
   */
  lemma {:induction false} AddressIsSpaced(events: seq<Event>, addr: string, i: nat)
    requires ClockRuns(events) && Guarded(events) && i + 20 < |FailuresFrom(events, addr)|
    ensures FailuresFrom(events, addr)[i + 20] - FailuresFrom(events, addr)[i] >= 900_000_000_000
  {
    RecordIsSpaced(events, addr, "");
    AddressRecord(events, addr);
    var times := FailuresFrom(events, addr);
    assert times[i + MAX_PER_ADDRESS] - times[i] >= WINDOW;
  }

  /** From one address, two usernames share a counter exactly when they differ only in case. */
  lemma {:induction false} PairsFoldNames(addr: string, user: string, other: string)
    ensures PairKey(addr, user) == PairKey(addr, other) <==> ToLower(user) == ToLower(other)
  {
    var n := |addr| + 3;
    assert PairKey(addr, user)[n..] == ToLower(user) && PairKey(addr, other)[n..] == ToLower(other);
  }
}
