/**
 What the host firewall should drop (internal/abuse/firewall.go, with overlapsExempt
 and Blocks of failures.go, Exempt of engine.go and exemptNetworks of rules.go).
 */
module Firewall {
  import opened Text
  import opened Networks

  /** What a block names: one address, or a network written with its prefix. */
  datatype Target = Single(addr: Addr) | Net(cidr: Cidr)

  predicate IsTarget(t: Target) {
    t.Net? ==> IsCidr(t.cidr)
  }

  /** The target drops this address. */
  predicate Drops(t: Target, a: Addr) {
    match t
    case Single(addr) => a == addr
    case Net(n) => Contains(n, a)
  }

  datatype Direction = Inbound | Outbound | Both

  /** An allow or deny rule, as compiled. */
  datatype Rule = Rule(allow: bool, direction: Direction, network: Option<Cidr>, protocols: set<string>,
                       expires: Option<int>)

  predicate Exempts(r: Rule, now: int) {
    && r.allow && r.network.Some? && r.protocols == {} && (r.direction.Both? || r.direction.Inbound?)
    && (r.expires.Some? ==> now < r.expires.value)
  }

  function ExemptNetworks(exempt: seq<Cidr>, rules: seq<Rule>, now: int): seq<Cidr> {
    if rules == [] then exempt
    else
      var r, before := rules[|rules| - 1], ExemptNetworks(exempt, rules[..|rules| - 1], now);
      if Exempts(r, now) then before + [r.network.value] else before
  }

  method ListExempt(exempt: seq<Cidr>, rules: seq<Rule>, now: int) returns (out: seq<Cidr>)
    ensures out == ExemptNetworks(exempt, rules, now)
  {
    out := exempt;
    for i := 0 to |rules|
      invariant out == ExemptNetworks(exempt, rules[..i], now)
    {
      assert rules[..i + 1][..i] == rules[..i];
      if Exempts(rules[i], now) {
        out := out + [rules[i].network.value];
      }
    }
    assert rules[..|rules|] == rules;
  }

  // ---- exemptions ---------------------------------------------------------

  const LOOPBACK_V4 := Addr(V4, 0x7F00_0001)
  const LOOPBACK_V6 := Addr(V6, 1)
  const LOOPBACK_NET := Cidr(V4, 0x7F00_0000, 8)

  /** 127.0.0.0/8, or ::1. */
  predicate IsLoopback(a: Addr) {
    if a.family == V4 then a.value / 0x100_0000 == 127 else a == LOOPBACK_V6
  }

  predicate Touches(n: Cidr, m: Cidr) {
    Contains(n, Base(m)) || Contains(m, Base(n))
  }

  predicate IsExempt(exempt: seq<Cidr>, a: Addr) {
    IsLoopback(a) || exists i :: 0 <= i < |exempt| && Contains(exempt[i], a)
  }

  predicate OverlapsExempt(exempt: seq<Cidr>, t: Target) {
    match t
    case Single(a) => IsExempt(exempt, a)
    case Net(n) =>
      || Contains(n, LOOPBACK_V4) || Contains(n, LOOPBACK_V6)
      || exists i :: 0 <= i < |exempt| && Touches(n, exempt[i])
  }

  method CheckExempt(exempt: seq<Cidr>, a: Addr) returns (found: bool)
    ensures found == IsExempt(exempt, a)
  {
    if IsLoopback(a) {
      return true;
    }
    for i := 0 to |exempt|
      invariant forall j :: 0 <= j < i ==> !Contains(exempt[j], a)
    {
      if Contains(exempt[i], a) {
        return true;
      }
    }
    return false;
  }

  method CheckTouches(exempt: seq<Cidr>, n: Cidr) returns (found: bool)
    ensures found == exists i :: 0 <= i < |exempt| && Touches(n, exempt[i])
  {
    for i := 0 to |exempt|
      invariant forall j :: 0 <= j < i ==> !Touches(n, exempt[j])
    {
      if Contains(n, Base(exempt[i])) || Contains(exempt[i], Base(n)) {
        return true;
      }
    }
    return false;
  }

  method CheckOverlap(exempt: seq<Cidr>, t: Target) returns (found: bool)
    ensures found == OverlapsExempt(exempt, t)
  {
    match t {
      case Single(a) =>
        found := CheckExempt(exempt, a);
      case Net(n) =>
        if Contains(n, LOOPBACK_V4) || Contains(n, LOOPBACK_V6) {
          return true;
        }
        found := CheckTouches(exempt, n);
    }
  }

  // ---- the plan -----------------------------------------------------------

  /** The blocks of the engine: until when each target is refused. */
  type Blocked = map<Target, int>

  const SECOND := 1_000_000_000

  /** The networks among the current blocks. */
  function Nets(blocks: Blocked, now: int): set<Cidr> {
    set t | t in blocks && now < blocks[t] && t.Net? :: t.cidr
  }

  /** A wider network drops all of the target. */
  predicate Covers(n: Cidr, t: Target) {
    match t
    case Single(a) => Contains(n, a)
    case Net(m) => n != m && Contains(n, Base(m)) && n.ones < m.ones
  }

  predicate Covered(nets: set<Cidr>, t: Target) {
    exists n :: n in nets && Covers(n, t)
  }

  /** Whole seconds left, rounded towards zero. */
  function SecondsLeft(until: int, now: int): int {
    if until >= now then (until - now) / SECOND else -((now - until) / SECOND)
  }

  /** The block has at least a second to run and touches no exemption. */
  predicate Droppable(blocks: Blocked, exempt: seq<Cidr>, now: int, t: Target)
    requires t in blocks
  {
    SecondsLeft(blocks[t], now) >= 1 && !OverlapsExempt(exempt, t)
  }

  /** The targets the plan drops. */
  function Planned(blocks: Blocked, exempt: seq<Cidr>, now: int): set<Target> {
    set t | t in blocks && now < blocks[t] && Droppable(blocks, exempt, now, t) && !Covered(Nets(blocks, now), t)
  }

  datatype Entry = Entry(target: Target, seconds: int)

  method CheckCovered(nets: set<Cidr>, t: Target) returns (found: bool)
    ensures found == Covered(nets, t)
  {
    var left := nets;
    while left != {}
      invariant left <= nets
      invariant forall n :: n in nets && n !in left ==> !Covers(n, t)
    {
      var n :| n in left;
      if Covers(n, t) {
        return true;
      }
      left := left - {n};
    }
    return false;
  }

  /** The loops of `Plan`: every planned target once, with its seconds. */
  method Plan(blocks: Blocked, exempt: seq<Cidr>, now: int) returns (entries: seq<Entry>)
    ensures forall t :: t in Planned(blocks, exempt, now) <==> exists i :: 0 <= i < |entries| && entries[i].target == t
    ensures forall i :: 0 <= i < |entries| ==>
              entries[i].target in blocks && entries[i].seconds == SecondsLeft(blocks[entries[i].target], now)
    ensures forall i, j :: 0 <= i < j < |entries| ==> entries[i].target != entries[j].target
  {
    entries := [];
    var nets := Nets(blocks, now);
    var left := set t | t in blocks && now < blocks[t];
    ghost var done: set<Target> := {};
    while left != {}
      invariant left + done == set t | t in blocks && now < blocks[t]
      invariant left !! done
      invariant forall i :: 0 <= i < |entries| ==>
        entries[i].target in done && entries[i].target in Planned(blocks, exempt, now)
        && entries[i].seconds == SecondsLeft(blocks[entries[i].target], now)
      invariant forall i, j :: 0 <= i < j < |entries| ==> entries[i].target != entries[j].target
      invariant forall t :: t in done && t in Planned(blocks, exempt, now) ==> exists i ::
                  0 <= i < |entries| && entries[i].target == t
    {
      var t :| t in left;
      left, done := left - {t}, done + {t};
      var seconds := SecondsLeft(blocks[t], now);
      var exempted := CheckOverlap(exempt, t);
      var covered := CheckCovered(nets, t);
      if seconds < 1 || exempted || covered {
        continue;
      }
      ghost var before := entries;
      entries := entries + [Entry(t, seconds)];
      assert entries[|before|].target == t;
      assert forall i :: 0 <= i < |before| ==> entries[i] == before[i];
    }
  }

  // ---- the entries are disjoint -------------------------------------------

  ghost predicate AllTargets(blocks: Blocked) {
    forall t :: t in blocks ==> IsTarget(t)
  }

  /** Targets that no wider network covers have no address in common. */
  lemma {:induction false} UncoveredIsDisjoint(nets: set<Cidr>, v: Target, w: Target, a: Addr)
    requires IsTarget(v) && IsTarget(w) && (v.Net? ==> v.cidr in nets) && (w.Net? ==> w.cidr in nets)
    requires !Covered(nets, v) && !Covered(nets, w) && Drops(v, a) && Drops(w, a)
    ensures v == w
  {
    match (v, w)
    case (Net(n), Net(m)) =>
      assert !Covers(n, w) && !Covers(m, v);
      if n.ones <= m.ones {
        AllOrNothing(n, m, a);
      } else {
        AllOrNothing(m, n, a);
      }
    case (_, _) =>
  }

  /** Different planned targets have no address in common, so the firewall accepts them together. */
  lemma {:induction false} PlanIsDisjoint(blocks: Blocked, exempt: seq<Cidr>, now: int, s: Target, t: Target, a: Addr)
    requires AllTargets(blocks) && s in Planned(blocks, exempt, now) && t in Planned(blocks, exempt, now)
    requires Drops(s, a) && Drops(t, a)
    ensures s == t
  {
    UncoveredIsDisjoint(Nets(blocks, now), s, t, a);
  }

  // ---- the entries and the exemptions -------------------------------------

  /** A target is refused for an exempt network exactly when they share an address. */
  lemma {:induction false} TouchIsSharing(t: Target, n: Cidr)
    requires IsTarget(t) && IsCidr(n)
    ensures (exists a :: Drops(t, a) && Contains(n, a)) <==>
            if t.Single? then Contains(n, t.addr) else Touches(t.cidr, n)
  {
    if t.Net? {
      MeetAtBase(t.cidr, n);
      assert (exists a :: Contains(t.cidr, a) && Contains(n, a)) <==> exists a :: Drops(t, a) && Contains(n, a);
    } else {
      assert Drops(t, t.addr);
    }
  }

  /** No planned target drops an exempt address. */
  lemma {:induction false} PlanSparesExempt(blocks: Blocked, exempt: seq<Cidr>, now: int, t: Target, i: nat, a: Addr)
    requires AllTargets(blocks) && t in Planned(blocks, exempt, now)
    requires i < |exempt| && IsCidr(exempt[i]) && Contains(exempt[i], a)
    ensures !Drops(t, a)
  {
    TouchIsSharing(t, exempt[i]);
    assert !OverlapsExempt(exempt, t);
    assert t.Net? ==> !Touches(t.cidr, exempt[i]);
  }

  // ---- loopback -----------------------------------------------------------

  lemma {:induction false} Pow24()
    ensures Pow2(24) == 0x100_0000
  {
    Pow2Splits(8, 24);
    Pow2Splits(8, 16);
    assert Pow2(8) == 256;
  }

  lemma {:induction false} LoopbackIsNet(a: Addr)
    ensures IsCidr(LOOPBACK_NET) && Contains(LOOPBACK_NET, LOOPBACK_V4)
    ensures a.family == V4 ==> (IsLoopback(a) <==> Contains(LOOPBACK_NET, a))
  {
    Pow24();
  }

  /** A network inside 127.0.0.0/8 that leaves 127.0.0.1 out. */
  predicate Stray(t: Target) {
    t.Net? && t.cidr.ones > 8 && Contains(LOOPBACK_NET, Base(t.cidr)) && !Contains(t.cidr, LOOPBACK_V4)
  }

  /** The loopback check misses exactly the stray networks. */
  lemma {:induction false} LoopbackMissed(exempt: seq<Cidr>, t: Target)
    requires IsTarget(t) && !OverlapsExempt(exempt, t)
    ensures (exists a :: IsLoopback(a) && Drops(t, a)) <==> Stray(t)
  {
    LoopbackIsNet(LOOPBACK_V4);
    if Stray(t) {
      HoldsBase(t.cidr);
      LoopbackIsNet(Base(t.cidr));
      assert IsLoopback(Base(t.cidr)) && Drops(t, Base(t.cidr));
    }
    if a :| IsLoopback(a) && Drops(t, a) {
      LoopbackIsNet(a);
      assert t.Net?;
      if t.cidr.ones <= 8 {
        AllOrNothing(t.cidr, LOOPBACK_NET, a);
        AllOrNothing(t.cidr, LOOPBACK_NET, LOOPBACK_V4);
      } else {
        AllOrNothing(LOOPBACK_NET, t.cidr, a);
      }
    }
  }

  /** The plan spares loopback exactly when no planned target is stray. */
  lemma {:induction false} LoopbackSparedIff(blocks: Blocked, exempt: seq<Cidr>, now: int)
    requires AllTargets(blocks)
    ensures (exists t, a :: t in Planned(blocks, exempt, now) && IsLoopback(a) && Drops(t, a)) <==>
            exists t :: t in blocks && Stray(t) && now < blocks[t] && Droppable(blocks, exempt, now, t)
              && !Covered(Nets(blocks, now), t)
  {
    forall t | t in Planned(blocks, exempt, now)
      ensures (exists a :: IsLoopback(a) && Drops(t, a)) <==> Stray(t)
    {
      LoopbackMissed(exempt, t);
    }
    assert forall t :: t in Planned(blocks, exempt, now) ==>
      t in blocks && now < blocks[t] && Droppable(blocks, exempt, now, t) && !Covered(Nets(blocks, now), t);
  }

  /** 127.5.0.0/16 with an hour to run and no exemptions is planned, and drops loopback addresses. */
  lemma {:induction false} LoopbackCanBeDropped()
    ensures var t := Net(Cidr(V4, 0x7F05_0000, 16));
            IsTarget(t) && t in Planned(map[t := 3600 * SECOND], [], 0)
            && IsLoopback(Addr(V4, 0x7F05_0000)) && Drops(t, Addr(V4, 0x7F05_0000))
  {
    var n := Cidr(V4, 0x7F05_0000, 16);
    var t := Net(n);
    var blocks: Blocked := map[t := 3600 * SECOND];
    Pow2Splits(8, 16);
    assert Pow2(8) == 256;
    assert Size(n) == 0x1_0000;
    assert !OverlapsExempt([], t);
    assert forall m :: m in Nets(blocks, 0) ==> m == n;
  }

  // ---- every block is enforced --------------------------------------------

  /** All of one target lies inside another. */
  ghost predicate Inside(t: Target, within: Target) {
    forall a :: Drops(t, a) ==> Drops(within, a)
  }

  lemma {:induction false} CoversIsInside(n: Cidr, t: Target)
    requires IsCidr(n) && IsTarget(t) && Covers(n, t)
    ensures Inside(t, Net(n))
  {
    if t.Net? {
      forall a | Drops(t, a)
        ensures Drops(Net(n), a)
      {
        AllOrNothing(n, t.cidr, a);
      }
    }
  }

  /** The current network that holds the target and is held by none itself. */
  lemma {:induction false} Outermost(blocks: Blocked, now: int, t: Target) returns (w: Target)
    requires AllTargets(blocks) && t in blocks && now < blocks[t]
    ensures w in blocks && now < blocks[w] && Inside(t, w) && !Covered(Nets(blocks, now), w)
    decreases if t.Net? then t.cidr.ones else 129
  {
    if Covered(Nets(blocks, now), t) {
      var n :| n in Nets(blocks, now) && Covers(n, t);
      assert Net(n) in blocks && IsTarget(Net(n));
      CoversIsInside(n, t);
      assert n.ones <= 128;
      w := Outermost(blocks, now, Net(n));
    } else {
      w := t;
    }
  }

  /** A current block is enforced exactly when the outermost network holding it can be dropped. */
  lemma {:induction false} EnforcedIff(blocks: Blocked, exempt: seq<Cidr>, now: int, t: Target) returns (w: Target)
    requires AllTargets(blocks) && t in blocks && now < blocks[t]
    ensures w in blocks && Inside(t, w)
    ensures (exists e :: e in Planned(blocks, exempt, now) && Inside(t, e)) <==> Droppable(blocks, exempt, now, w)
  {
    w := Outermost(blocks, now, t);
    if Droppable(blocks, exempt, now, w) {
      assert w in Planned(blocks, exempt, now);
    }
    if e :| e in Planned(blocks, exempt, now) && Inside(t, e) {
      var a := if t.Single? then t.addr else Base(t.cidr);
      assert Drops(t, a);
      assert Drops(e, a) && Drops(w, a);
      UncoveredIsDisjoint(Nets(blocks, now), e, w, a);
    }
  }

  /** With no block near an exemption or in its last second, every current block is enforced. */
  lemma {:induction false} EveryBlockEnforced(blocks: Blocked, exempt: seq<Cidr>, now: int, t: Target)
    returns (e: Target)
    requires AllTargets(blocks) && t in blocks && now < blocks[t]
    requires forall b :: b in blocks && now < blocks[b] ==> Droppable(blocks, exempt, now, b)
    ensures e in Planned(blocks, exempt, now) && Inside(t, e)
  {
    e := Outermost(blocks, now, t);
  }

  // ---- who is exempt ------------------------------------------------------

  /**
   A network is exempt exactly when it is configured so, or a live inbound allow rule that
   names no protocol is about it.
   */
  lemma {:induction false} ExemptIff(exempt: seq<Cidr>, rules: seq<Rule>, now: int, n: Cidr)
    ensures n in ExemptNetworks(exempt, rules, now) <==>
            n in exempt || exists i :: 0 <= i < |rules| && rules[i].network == Some(n) && Exempts(rules[i], now)
  {
    if rules != [] {
      var k := |rules| - 1;
      ExemptIff(exempt, rules[..k], now, n);
      assert forall i :: 0 <= i < k ==> rules[..k][i] == rules[i];
    }
  }

  // ---- the services and the plan ------------------------------------------

  /** Under what an address is looked up when it connects: itself, or its /64, and its subnet. */
  function LookupKeys(a: Addr): seq<Target> {
    [Single(CountedAs(a)), Net(Subnet(CountedAs(a)))]
  }

  predicate IsCurrent(blocks: Blocked, now: int, t: Target) {
    t in blocks && now < blocks[t]
  }

  /** The services refuse an address for a current block under one of its keys, unless it is exempt. */
  predicate Refuses(blocks: Blocked, exempt: seq<Cidr>, now: int, a: Addr) {
    !IsExempt(exempt, a) && exists i :: 0 <= i < |LookupKeys(a)| && IsCurrent(blocks, now, LookupKeys(a)[i])
  }

  /** `Blocked`, in enforce mode. */
  method CheckBlocked(blocks: Blocked, exempt: seq<Cidr>, now: int, a: Addr) returns (refused: bool)
    ensures refused == Refuses(blocks, exempt, now, a)
  {
    var spared := CheckExempt(exempt, a);
    if spared {
      return false;
    }
    var keys := LookupKeys(a);
    for i := 0 to |keys|
      invariant forall j :: 0 <= j < i ==> !IsCurrent(blocks, now, keys[j])
    {
      if keys[i] in blocks && now < blocks[keys[i]] {
        return true;
      }
    }
    return false;
  }

  /** A target as blocking makes it: an IPv6 address stands for its /64. */
  predicate IsBlockable(t: Target) {
    IsTarget(t) && (t.Single? ==> CountedAs(t.addr) == t.addr)
  }

  /** The subnet an address is rolled up into does not depend on how it is counted. */
  lemma {:induction false} OneSubnet(a: Addr)
    ensures Subnet(CountedAs(a)) == Subnet(a)
  {
    CountedTogether(a, a);
  }

  /** A network is an address's subnet exactly when it holds the address and has the subnet's length. */
  lemma {:induction false} SubnetIs(n: Cidr, a: Addr)
    requires IsCidr(n)
    ensures n == Subnet(a) <==> Contains(n, a) && n.ones == Subnet(a).ones
  {}

  /** The /64 an IPv6 address stands for. */
  function Block64(a: Addr): Cidr {
    Cidr(V6, a.value, 64)
  }

  /**
   One block under its keys and by its addresses. They differ on the rest of the /64 an
   IPv6 address stands for, which is looked up under it but not dropped; and on all of a
   network that is not a /24, or a /48 for IPv6, which is dropped but never looked up.
   */
  lemma {:induction false} ReachDiffersIff(t: Target, a: Addr)
    requires IsBlockable(t)
    ensures t in LookupKeys(a) && !Drops(t, a) <==>
            t.Single? && t.addr.family == V6 && Contains(Block64(t.addr), a) && a != t.addr
    ensures Drops(t, a) && t !in LookupKeys(a) <==>
            t.Net? && Contains(t.cidr, a) && t.cidr.ones != Subnet(a).ones
  {
    OneSubnet(a);
    CountedTogether(a, a);
    KeysAre(a);
    match t
    case Single(b) =>
      CountedTogether(b, a);
    case Net(n) =>
      SubnetIs(n, a);
  }

  lemma {:induction false} KeysAre(a: Addr)
    ensures forall t :: t in LookupKeys(a) <==> t == Single(CountedAs(a)) || t == Net(Subnet(a))
  {
    OneSubnet(a);
    assert LookupKeys(a)[0] == Single(CountedAs(a)) && LookupKeys(a)[1] == Net(Subnet(a));
  }

  /** The plan drops an address. */
  ghost predicate PlanDrops(blocks: Blocked, exempt: seq<Cidr>, now: int, a: Addr) {
    exists e :: e in Planned(blocks, exempt, now) && Drops(e, a)
  }

  /** A current block stands under one of an address's keys. */
  ghost predicate KeyIsCurrent(blocks: Blocked, now: int, a: Addr) {
    exists t :: t in LookupKeys(a) && IsCurrent(blocks, now, t)
  }

  /** The current block that holds an address and that no wider current network covers. */
  predicate IsOuter(blocks: Blocked, now: int, a: Addr, w: Target) {
    IsCurrent(blocks, now, w) && !Covered(Nets(blocks, now), w) && Drops(w, a)
  }

  ghost predicate NoneHolds(blocks: Blocked, now: int, a: Addr) {
    forall t :: IsCurrent(blocks, now, t) ==> !Drops(t, a)
  }

  lemma {:induction false} RefusesIs(blocks: Blocked, exempt: seq<Cidr>, now: int, a: Addr)
    ensures Refuses(blocks, exempt, now, a) <==> !IsExempt(exempt, a) && KeyIsCurrent(blocks, now, a)
  {
    var keys := LookupKeys(a);
    if t :| t in keys && IsCurrent(blocks, now, t) {
      var i :| 0 <= i < |keys| && keys[i] == t;
    }
    assert forall i :: 0 <= i < |keys| ==> keys[i] in keys;
  }

  /** What the plan does with an address is decided by the one outer block that holds it. */
  lemma {:induction false} PlanDropsIff(blocks: Blocked, exempt: seq<Cidr>, now: int, a: Addr, w: Target)
    requires AllTargets(blocks) && IsOuter(blocks, now, a, w)
    ensures PlanDrops(blocks, exempt, now, a) <==> Droppable(blocks, exempt, now, w)
  {
    if Droppable(blocks, exempt, now, w) {
      assert w in Planned(blocks, exempt, now);
    }
    if e :| e in Planned(blocks, exempt, now) && Drops(e, a) {
      UncoveredIsDisjoint(Nets(blocks, now), e, w, a);
    }
  }

  /** Some outer block holds an address exactly when some current block does. */
  lemma {:induction false} OuterExists(blocks: Blocked, now: int, a: Addr)
    requires AllTargets(blocks)
    ensures NoneHolds(blocks, now, a) <==> !exists w :: IsOuter(blocks, now, a, w)
  {
    if t :| IsCurrent(blocks, now, t) && Drops(t, a) {
      var w := Outermost(blocks, now, t);
      assert IsOuter(blocks, now, a, w);
    }
  }

  /** The block under an IPv6 address's /64 is about another address of it, and no current block holds this one. */
  ghost predicate RestOf64(blocks: Blocked, now: int, a: Addr) {
    a.family == V6 && CountedAs(a) != a && IsCurrent(blocks, now, Single(CountedAs(a))) && NoneHolds(blocks, now, a)
  }

  lemma {:induction false} RestIs(blocks: Blocked, now: int, a: Addr)
    requires NoneHolds(blocks, now, a)
    ensures KeyIsCurrent(blocks, now, a) <==> RestOf64(blocks, now, a)
  {
    KeysAre(a);
    CountedTogether(a, a);
    var single, subnet := Single(CountedAs(a)), Net(Subnet(a));
    assert single in LookupKeys(a) && subnet in LookupKeys(a) && Drops(subnet, a);
  }

  /**
   The services refuse an address that the plan does not drop exactly when it is not
   exempt and either it is one of the rest of a blocked /64, or one of its keys is blocked
   and the outer block that holds it is in its last second or touches an exemption.
   */
  lemma {:induction false} ServicesOnlyIff(blocks: Blocked, exempt: seq<Cidr>, now: int, a: Addr)
    requires AllTargets(blocks)
    ensures Refuses(blocks, exempt, now, a) && !PlanDrops(blocks, exempt, now, a) <==>
            && !IsExempt(exempt, a)
            && (RestOf64(blocks, now, a)
                || (KeyIsCurrent(blocks, now, a)
                    && exists w :: IsOuter(blocks, now, a, w)
                         && (SecondsLeft(blocks[w], now) < 1 || OverlapsExempt(exempt, w))))
  {
    RefusesIs(blocks, exempt, now, a);
    OuterExists(blocks, now, a);
    if w :| IsOuter(blocks, now, a, w) {
      SameOuter(blocks, now, a, w);
      PlanDropsIff(blocks, exempt, now, a, w);
    } else {
      RestIs(blocks, now, a);
      NothingPlanned(blocks, exempt, now, a);
    }
  }

  lemma {:induction false} SameOuter(blocks: Blocked, now: int, a: Addr, w: Target)
    requires AllTargets(blocks) && IsOuter(blocks, now, a, w)
    ensures forall v :: IsOuter(blocks, now, a, v) ==> v == w
  {
    forall v | IsOuter(blocks, now, a, v)
      ensures v == w
    {
      UncoveredIsDisjoint(Nets(blocks, now), v, w, a);
    }
  }

  lemma {:induction false} NothingPlanned(blocks: Blocked, exempt: seq<Cidr>, now: int, a: Addr)
    requires NoneHolds(blocks, now, a)
    ensures !PlanDrops(blocks, exempt, now, a)
  {
    forall e | e in Planned(blocks, exempt, now)
      ensures !Drops(e, a)
    {
      assert IsCurrent(blocks, now, e);
    }
  }

  ghost predicate AllBlockable(blocks: Blocked) {
    forall t :: t in blocks ==> IsBlockable(t)
  }

  ghost predicate AllCidrs(exempt: seq<Cidr>) {
    forall i :: 0 <= i < |exempt| ==> IsCidr(exempt[i])
  }

  /**
   The plan drops an address that the services let in exactly when the outer block that
   holds it can be dropped and either it is a loopback address under a stray network, or
   no key of it is blocked; then that block is a network that is not its /24 or /48.
   */
  lemma {:induction false} PlanOnlyIff(blocks: Blocked, exempt: seq<Cidr>, now: int, a: Addr)
    requires AllBlockable(blocks) && AllCidrs(exempt)
    ensures PlanDrops(blocks, exempt, now, a) && !Refuses(blocks, exempt, now, a) <==>
            exists w :: IsOuter(blocks, now, a, w) && Droppable(blocks, exempt, now, w) && w.Net?
              && ((IsLoopback(a) && Stray(w))
                  || (!KeyIsCurrent(blocks, now, a) && w.cidr.ones != Subnet(a).ones))
  {
    RefusesIs(blocks, exempt, now, a);
    if w :| IsOuter(blocks, now, a, w) && Droppable(blocks, exempt, now, w) {
      PlanDropsIff(blocks, exempt, now, a, w);
      SameOuter(blocks, now, a, w);
      ExemptUnder(blocks, exempt, now, w, a);
      ReachDiffersIff(w, a);
    } else {
      NoneDropped(blocks, exempt, now, a);
    }
  }

  lemma {:induction false} NoneDropped(blocks: Blocked, exempt: seq<Cidr>, now: int, a: Addr)
    requires forall w :: IsOuter(blocks, now, a, w) ==> !Droppable(blocks, exempt, now, w)
    ensures !PlanDrops(blocks, exempt, now, a)
  {
    forall e | e in Planned(blocks, exempt, now)
      ensures !Drops(e, a)
    {
      assert Drops(e, a) ==> IsOuter(blocks, now, a, e);
    }
  }

  /** Under a planned entry the only exempt addresses are loopback ones, and then it is stray. */
  lemma {:induction false} ExemptUnder(blocks: Blocked, exempt: seq<Cidr>, now: int, w: Target, a: Addr)
    requires AllTargets(blocks) && AllCidrs(exempt) && IsOuter(blocks, now, a, w) && Droppable(blocks, exempt, now, w)
    ensures IsExempt(exempt, a) <==> IsLoopback(a)
    ensures IsLoopback(a) ==> Stray(w)
  {
    assert w in Planned(blocks, exempt, now);
    forall i | 0 <= i < |exempt|
      ensures !Contains(exempt[i], a)
    {
      if Contains(exempt[i], a) {
        PlanSparesExempt(blocks, exempt, now, w, i, a);
      }
    }
    LoopbackMissed(exempt, w);
  }

  // One block with an hour to run, and what each side makes of an address.

  function OneBlock(t: Target): Blocked {
    map[t := 3600 * SECOND]
  }

  lemma {:induction false} OneIsOuter(t: Target, a: Addr)
    requires Drops(t, a)
    ensures IsOuter(OneBlock(t), 0, a, t)
  {
    assert forall n :: n in Nets(OneBlock(t), 0) ==> Net(n) == t;
  }

  lemma {:induction false} NextIn64(base: nat)
    requires Masked(base, Size(Cidr(V6, 0, 64))) == base
    ensures base != 1 && CountedAs(Addr(V6, base + 1)) == Addr(V6, base) == CountedAs(Addr(V6, base))
  {
    var size := Size(Cidr(V6, 0, 64));
    var k, r := Divided(base, size);
    Pow2Splits(1, 64);
    assert size >= 2;
    RemainderIs(base + 1, size, k, 1);
    if base == 1 {
      RemainderIs(1, size, 0, 1);
    }
  }

  /** The first address of a /64 blocked: the services refuse the second, the plan drops only the first. */
  lemma {:induction false} Block64IsOneEntry(base: nat)
    requires base > 0 && Masked(base, Size(Cidr(V6, 0, 64))) == base
    ensures var t, a := Single(Addr(V6, base)), Addr(V6, base + 1);
            && Refuses(OneBlock(t), [], 0, a)
            && t in Planned(OneBlock(t), [], 0) && !PlanDrops(OneBlock(t), [], 0, a)
  {
    NextIn64(base);
    OneSingle(Addr(V6, base), Addr(V6, base + 1));
  }

  lemma {:induction false} OneSingle(b: Addr, a: Addr)
    requires b != a && CountedAs(a) == b && !IsLoopback(a) && !IsLoopback(b)
    ensures var t := Single(b);
            && Refuses(OneBlock(t), [], 0, a)
            && t in Planned(OneBlock(t), [], 0) && !PlanDrops(OneBlock(t), [], 0, a)
  {
    var t := Single(b);
    KeysAre(a);
    assert t in LookupKeys(a) && IsCurrent(OneBlock(t), 0, t);
    RefusesIs(OneBlock(t), [], 0, a);
    OneIsOuter(t, b);
  }

  /** 10.0.0.0/16 blocked: the plan drops 10.0.0.1, the services let it in. */
  lemma {:induction false} WideBlockIsPlanOnly(a: Addr)
    requires a == Addr(V4, 0x0A00_0001)
    ensures var t := Net(Cidr(V4, 0x0A00_0000, 16));
            && t in Planned(OneBlock(t), [], 0) && Drops(t, a)
            && !Refuses(OneBlock(t), [], 0, a)
  {
    var n := Cidr(V4, 0x0A00_0000, 16);
    Pow2Splits(8, 16);
    assert Pow2(8) == 256;
    assert Size(n) == 0x1_0000;
    ReachDiffersIff(Net(n), a);
    RefusesIs(OneBlock(Net(n)), [], 0, a);
    OneIsOuter(Net(n), a);
  }

  /** 10.0.0.0/24 blocked and 10.0.0.9 exempt: the services refuse 10.0.0.5, the plan drops nothing. */
  lemma {:induction false} ExemptNeighbour(a: Addr)
    requires a == Addr(V4, 0x0A00_0005)
    ensures var t, exempt := Net(Cidr(V4, 0x0A00_0000, 24)), [Cidr(V4, 0x0A00_0009, 32)];
            && Refuses(OneBlock(t), exempt, 0, a)
            && Planned(OneBlock(t), exempt, 0) == {}
  {
    var n, m := Cidr(V4, 0x0A00_0000, 24), Cidr(V4, 0x0A00_0009, 32);
    assert Pow2(8) == 256 && Pow2(0) == 1;
    assert Size(n) == 256 && Size(m) == 1;
    var t, exempt := Net(n), [m];
    assert Touches(n, exempt[0]);
    KeysAre(a);
    RefusesIs(OneBlock(t), exempt, 0, a);
    assert IsCurrent(OneBlock(t), 0, t);
  }
}
