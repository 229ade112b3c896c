/**
 Connection slots per protocol and address (Acquire of internal/abuse/engine.go,
 ConnectionLimits of internal/abuse/policy.go). A slot's release function works
 once; slots are numbered in the order they were handed out.
 */
module Slots {

  datatype Mode = Enforce | LogOnly | Off

  datatype ProtocolLimit = ProtocolLimit(protocol: string, perAddress: int, perMinute: int)

  datatype Policy = Policy(mode: Mode, perAddress: int, perMinute: int, limits: seq<ProtocolLimit>)

  /** The last override of a protocol that sets a value, or the general value. */
  function LimitFor(general: int, limits: seq<ProtocolLimit>, protocol: string, value: ProtocolLimit -> int): int {
    if limits == [] then general
    else
      var l := limits[|limits| - 1];
      if l.protocol == protocol && value(l) > 0 then value(l)
      else LimitFor(general, limits[..|limits| - 1], protocol, value)
  }

  function PerAddress(p: Policy, protocol: string): int {
    LimitFor(p.perAddress, p.limits, protocol, (l: ProtocolLimit) => l.perAddress)
  }

  function PerMinute(p: Policy, protocol: string): int {
    LimitFor(p.perMinute, p.limits, protocol, (l: ProtocolLimit) => l.perMinute)
  }

  method ConnectionLimits(p: Policy, protocol: string) returns (perAddress: int, perMinute: int)
    ensures perAddress == PerAddress(p, protocol) && perMinute == PerMinute(p, protocol)
  {
    perAddress, perMinute := p.perAddress, p.perMinute;
    ghost var first, second := (l: ProtocolLimit) => l.perAddress, (l: ProtocolLimit) => l.perMinute;
    for i := 0 to |p.limits|
      invariant perAddress == LimitFor(p.perAddress, p.limits[..i], protocol, first)
      invariant perMinute == LimitFor(p.perMinute, p.limits[..i], protocol, second)
    {
      assert p.limits[..i + 1][..i] == p.limits[..i];
      var l := p.limits[i];
      if l.protocol != protocol {
        continue;
      }
      if l.perAddress > 0 {
        perAddress := l.perAddress;
      }
      if l.perMinute > 0 {
        perMinute := l.perMinute;
      }
    }
    assert p.limits[..|p.limits|] == p.limits;
  }

  // ---- the engine's counts ------------------------------------------------

  function Key(protocol: string, network: string): string {
    protocol + "|" + network
  }

  lemma {:induction false} LastBar(p: string, m: string)
    requires '|' !in m
    ensures forall i :: |p| < i < |Key(p, m)| ==> Key(p, m)[i] != '|'
  {
    assert forall i :: |p| < i < |Key(p, m)| ==> Key(p, m)[i] == m[i - |p| - 1];
  }

  /** Addresses are written without a bar, so a key names one protocol. */
  lemma {:induction false} KeysApart(p: string, m: string, q: string, n: string)
    requires '|' !in m && '|' !in n && Key(p, m) == Key(q, n)
    ensures p == q && m == n
  {
    var k := Key(p, m);
    LastBar(p, m);
    LastBar(q, n);
    assert k[|p|] == '|' && k[|q|] == '|';
    assert k[..|p|] == p && k[..|q|] == q && k[|p| + 1..] == m && k[|q| + 1..] == n;
  }

  /** A slot handed out, and whether its release has run. */
  datatype Slot = Slot(key: string, held: bool)

  datatype State = State(conns: map<string, int>, slots: seq<Slot>)

  const EMPTY := State(map[], [])

  function CountOf(conns: map<string, int>, key: string): int {
    if key in conns then conns[key] else 0
  }

  /** What the caller of Acquire got: nothing, a release that does nothing, or a slot. */
  datatype Grant = Refused | Free | Held(slot: nat)

  /** Acquire is given what Network, Exempt and AllowRate answered. */
  datatype Request = Request(policy: Policy, protocol: string, network: string, exempt: bool, rateAllowed: bool)

  function Acquired(s: State, r: Request): (State, Grant) {
    if r.policy.mode == Off || r.network == "" || r.exempt then (s, Free)
    else if !r.rateAllowed then (s, Refused)
    else
      var key := Key(r.protocol, r.network);
      if CountOf(s.conns, key) >= PerAddress(r.policy, r.protocol) && r.policy.mode == Enforce then (s, Refused)
      else (State(s.conns[key := CountOf(s.conns, key) + 1], s.slots + [Slot(key, true)]), Held(|s.slots|))
  }

  function Released(s: State, slot: nat): State {
    if slot >= |s.slots| || !s.slots[slot].held then s
    else
      var key := s.slots[slot].key;
      var n := CountOf(s.conns, key) - 1;
      State(if n <= 0 then s.conns - {key} else s.conns[key := n], s.slots[slot := Slot(key, false)])
  }

  class Engine {
    var conns: map<string, int>
    var slots: seq<Slot>

    function View(): State
      reads this
    {
      State(conns, slots)
    }

    constructor ()
      ensures View() == EMPTY
    {
      conns, slots := map[], [];
    }

    method Acquire(r: Request) returns (grant: Grant)
      modifies this
      ensures (View(), grant) == Acquired(old(View()), r)
    {
      if r.policy.mode == Off || r.network == "" || r.exempt {
        return Free;
      }
      if !r.rateAllowed {
        return Refused;
      }
      var perAddress, _ := ConnectionLimits(r.policy, r.protocol);
      var key := Key(r.protocol, r.network);
      if CountOf(conns, key) >= perAddress {
        if r.policy.mode == Enforce {
          return Refused;
        }
      }
      conns := conns[key := CountOf(conns, key) + 1];
      slots := slots + [Slot(key, true)];
      return Held(|slots| - 1);
    }

    /** The release function of a slot. */
    method Release(slot: nat)
      modifies this
      ensures View() == Released(old(View()), slot)
    {
      if slot < |slots| && slots[slot].held {
        var key := slots[slot].key;
        slots := slots[slot := Slot(key, false)];
        conns := conns[key := CountOf(conns, key) - 1];
        if conns[key] <= 0 {
          conns := conns - {key};
        }
      }
    }
  }

  // ---- conservation -------------------------------------------------------

  /** The unreleased slots handed out for a key. */
  function HeldFor(slots: seq<Slot>, key: string): nat {
    if slots == [] then 0
    else HeldFor(slots[..|slots| - 1], key) + if slots[|slots| - 1] == Slot(key, true) then 1 else 0
  }

  /** Counts are the unreleased slots, and a key without any is absent. */
  ghost predicate Conserved(s: State) {
    forall key :: CountOf(s.conns, key) == HeldFor(s.slots, key) && (key in s.conns ==> s.conns[key] >= 1)
  }

  lemma {:induction false} HeldMore(slots: seq<Slot>, s: Slot, key: string)
    ensures HeldFor(slots + [s], key) == HeldFor(slots, key) + if s == Slot(key, true) then 1 else 0
  {
    assert (slots + [s])[..|slots|] == slots;
  }

  lemma {:induction false} HeldLess(slots: seq<Slot>, i: nat, key: string)
    requires i < |slots| && slots[i].held
    ensures var gone := if slots[i].key == key then 1 else 0;
            HeldFor(slots, key) >= gone
            && HeldFor(slots[i := Slot(slots[i].key, false)], key) == HeldFor(slots, key) - gone
  {
    var n := |slots| - 1;
    var after := slots[i := Slot(slots[i].key, false)];
    if i < n {
      HeldLess(slots[..n], i, key);
      assert after[..n] == slots[..n][i := Slot(slots[i].key, false)];
    } else {
      assert after[..n] == slots[..n];
    }
  }

  lemma {:induction false} AcquireConserves(s: State, r: Request)
    requires Conserved(s)
    ensures Conserved(Acquired(s, r).0)
  {
    var made := Key(r.protocol, r.network);
    forall key {
      HeldMore(s.slots, Slot(made, true), key);
    }
    assert HeldFor(s.slots, made) >= 0;
  }

  lemma {:induction false} ReleaseConserves(s: State, slot: nat)
    requires Conserved(s)
    ensures Conserved(Released(s, slot))
  {
    if slot < |s.slots| && s.slots[slot].held {
      forall key {
        HeldLess(s.slots, slot, key);
      }
    }
  }

  /** A second release changes nothing, and no release touches another slot. */
  lemma {:induction false} ReleaseOnce(s: State, slot: nat, other: nat)
    ensures Released(Released(s, slot), slot) == Released(s, slot)
    ensures other != slot && other < |s.slots| ==> Released(s, slot).slots[other] == s.slots[other]
  {}

  // ---- whole runs ---------------------------------------------------------

  datatype Event = Acquire(request: Request) | Release(slot: nat)

  function Apply(s: State, e: Event): State {
    match e
    case Acquire(r) => Acquired(s, r).0
    case Release(slot) => Released(s, slot)
  }

  function After(events: seq<Event>): State {
    if events == [] then EMPTY else Apply(After(events[..|events| - 1]), events[|events| - 1])
  }

  /** After any run, each count is the number of unreleased slots, and absent means none. */
  lemma {:induction false} RunConserves(events: seq<Event>, key: string)
    ensures CountOf(After(events).conns, key) == HeldFor(After(events).slots, key)
    ensures key in After(events).conns <==> HeldFor(After(events).slots, key) >= 1
  {
    RunIsConserved(events);
    assert CountOf(After(events).conns, key) == HeldFor(After(events).slots, key);
  }

  lemma {:induction false} RunIsConserved(events: seq<Event>)
    ensures Conserved(After(events))
  {
    if events != [] {
      var before, e := events[..|events| - 1], events[|events| - 1];
      RunIsConserved(before);
      match e
      case Acquire(r) => AcquireConserves(After(before), r);
      case Release(slot) => ReleaseConserves(After(before), slot);
    }
  }

  /** Every request was made under one enforcing policy, from an address. */
  ghost predicate Enforced(events: seq<Event>, p: Policy) {
    p.mode == Enforce &&
    forall i :: 0 <= i < |events| && events[i].Acquire? ==>
        events[i].request.policy == p && '|' !in events[i].request.network
  }

  /** Under one enforcing policy no count ever passes its protocol's limit. */
  lemma {:induction false} LimitHolds(events: seq<Event>, p: Policy, protocol: string, network: string)
    requires Enforced(events, p) && '|' !in network && Key(protocol, network) in After(events).conns
    ensures HeldFor(After(events).slots, Key(protocol, network)) <= PerAddress(p, protocol)
  {
    LimitKept(events, p, protocol, network);
    RunConserves(events, Key(protocol, network));
  }

  lemma {:induction false} LimitKept(events: seq<Event>, p: Policy, protocol: string, network: string)
    requires Enforced(events, p) && '|' !in network
    ensures var key := Key(protocol, network);
            key in After(events).conns ==> After(events).conns[key] <= PerAddress(p, protocol)
  {
    if events != [] {
      var before, e := events[..|events| - 1], events[|events| - 1];
      LimitKept(before, p, protocol, network);
      if e.Acquire? && Key(e.request.protocol, e.request.network) == Key(protocol, network) {
        KeysApart(e.request.protocol, e.request.network, protocol, network);
      }
    }
  }

  /** A request is refused at the limit, and only there: the next slot is given as soon as one is released. */
  lemma {:induction false} RefusedOnlyAtLimit(events: seq<Event>, r: Request)
    requires r.policy.mode == Enforce && r.network != "" && !r.exempt && r.rateAllowed
    ensures Acquired(After(events), r).1 == Refused <==>
            HeldFor(After(events).slots, Key(r.protocol, r.network)) >= PerAddress(r.policy, r.protocol)
  {
    RunConserves(events, Key(r.protocol, r.network));
  }

  // ---- the limit of a protocol --------------------------------------------

  /** The override sets a value for the protocol. */
  predicate Overrides(l: ProtocolLimit, protocol: string, value: ProtocolLimit -> int) {
    l.protocol == protocol && value(l) > 0
  }

  /** With no override the general limit is in force; */
  lemma {:induction false} GeneralLimit(general: int, limits: seq<ProtocolLimit>, protocol: string,
                                        value: ProtocolLimit -> int)
    requires forall i :: 0 <= i < |limits| ==> !Overrides(limits[i], protocol, value)
    ensures LimitFor(general, limits, protocol, value) == general
  {
    if limits != [] {
      GeneralLimit(general, limits[..|limits| - 1], protocol, value);
    }
  }

  /** otherwise the last one that sets a value. */
  lemma {:induction false} LastOverrideWins(general: int, limits: seq<ProtocolLimit>, protocol: string,
                                            value: ProtocolLimit -> int, i: nat)
    requires i < |limits| && Overrides(limits[i], protocol, value)
    requires forall j :: i < j < |limits| ==> !Overrides(limits[j], protocol, value)
    ensures LimitFor(general, limits, protocol, value) == value(limits[i])
  {
    var n := |limits| - 1;
    if i < n {
      assert !Overrides(limits[n], protocol, value);
      LastOverrideWins(general, limits[..n], protocol, value, i);
    }
  }
}
