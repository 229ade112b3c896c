/**
 Gathering the ARC fields of a message into sets (collectSets of internal/arc/verify.go).
 */
module ArcChain {
  import opened Text
  import opened ArcMessage
  import opened ArcTags

  /** The three fields of a set. */
  datatype Kind = Results | Signature | Seal

  /** One instance: the three fields that must appear together. */
  datatype ArcSet = ArcSet(instance: nat, aar: string, ams: string, seal: string)

  /** What `collectSets` returns: its error, or the sets. */
  datatype Chain = Broken | Sets(sets: seq<ArcSet>)

  const MAX_SETS := 50

  function KindOf(name: string): Option<Kind> {
    if name == "arc-authentication-results" then Some(Results)
    else if name == "arc-message-signature" then Some(Signature)
    else if name == "arc-seal" then Some(Seal)
    else None
  }

  function Slot(set_: ArcSet, kind: Kind): string {
    match kind
    case Results => set_.aar
    case Signature => set_.ams
    case Seal => set_.seal
  }

  /** A header field as `collectSets` sees it; instance 0 stands for an unusable number. */
  datatype Field = Field(kind: Option<Kind>, instance: nat, raw: string)

  function Classify(h: Header): Field {
    Field(KindOf(h.name), InstanceOf(h.raw), h.raw)
  }

  function ClassifyAll(headers: seq<Header>): seq<Field> {
    Map(Classify, headers)
  }

  predicate Matches(f: Field, kind: Kind, n: nat) {
    f.kind == Some(kind) && f.instance == n
  }

  /** The fields of one kind and instance, in order. */
  function Raws(fields: seq<Field>, kind: Kind, n: nat): seq<string> {
    if fields == [] then []
    else
      var f := fields[|fields| - 1];
      Raws(fields[..|fields| - 1], kind, n) + if Matches(f, kind, n) then [f.raw] else []
  }

  function Wanted(sets: seq<ArcSet>, kind: Kind, n: nat): seq<string> {
    if 1 <= n <= |sets| then [Slot(sets[n - 1], kind)] else []
  }

  /**
   The ARC fields are one of each kind for every instance from 1 to at most 50, and nothing
   else; these are the sets, in order.
   */
  ghost predicate IsChain(fields: seq<Field>, sets: seq<ArcSet>) {
    && |sets| <= MAX_SETS
    && (forall i :: 0 <= i < |sets| ==> sets[i].instance == i + 1)
    && (forall kind, n: nat :: Raws(fields, kind, n) == Wanted(sets, kind, n))
  }

  ghost function CollectedFields(fields: seq<Field>): Chain {
    if exists sets :: IsChain(fields, sets) then
      var sets :| IsChain(fields, sets);
      Sets(sets)
    else Broken
  }

  ghost function Collected(headers: seq<Header>): Chain {
    CollectedFields(ClassifyAll(headers))
  }

  /** A header block forms at most one chain. */
  lemma {:induction false} ChainUnique(fields: seq<Field>, a: seq<ArcSet>, b: seq<ArcSet>)
    requires IsChain(fields, a) && IsChain(fields, b)
    ensures a == b
  {
    LengthsAgree(fields, a, b);
    LengthsAgree(fields, b, a);
    forall i | 0 <= i < |a|
      ensures a[i] == b[i]
    {
      forall kind: Kind
        ensures Slot(a[i], kind) == Slot(b[i], kind)
      {
        assert Wanted(a, kind, i + 1) == Raws(fields, kind, i + 1) == Wanted(b, kind, i + 1);
      }
      assert Slot(a[i], Results) == Slot(b[i], Results);
      assert Slot(a[i], Signature) == Slot(b[i], Signature);
      assert Slot(a[i], Seal) == Slot(b[i], Seal);
    }
  }

  lemma {:induction false} LengthsAgree(fields: seq<Field>, a: seq<ArcSet>, b: seq<ArcSet>)
    requires IsChain(fields, a) && IsChain(fields, b)
    ensures |b| <= |a|
  {
    assert Raws(fields, Results, |b|) == Wanted(a, Results, |b|);
    assert Raws(fields, Results, |b|) == Wanted(b, Results, |b|);
  }

  lemma {:induction false} CollectedIs(fields: seq<Field>, sets: seq<ArcSet>)
    requires IsChain(fields, sets)
    ensures CollectedFields(fields) == Sets(sets)
  {
    var found :| IsChain(fields, found) && CollectedFields(fields) == Sets(found);
    ChainUnique(fields, sets, found);
  }

  // ---- adding a set -------------------------------------------------------

  lemma {:induction false} RawsConcat(a: seq<Field>, b: seq<Field>, kind: Kind, n: nat)
    ensures Raws(a + b, kind, n) == Raws(a, kind, n) + Raws(b, kind, n)
  {
    if b == [] {
      assert a + b == a;
    } else {
      assert (a + b)[..|a + b| - 1] == a + b[..|b| - 1];
      RawsConcat(a, b[..|b| - 1], kind, n);
    }
  }

  /** The fields of a set, ready to prepend. */
  predicate AreSet(three: seq<Field>, set_: ArcSet) {
    && |three| == 3
    && Matches(three[0], Results, set_.instance) && three[0].raw == set_.aar
    && Matches(three[1], Signature, set_.instance) && three[1].raw == set_.ams
    && Matches(three[2], Seal, set_.instance) && three[2].raw == set_.seal
  }

  function One(f: Field, kind: Kind, n: nat): seq<string> {
    if Matches(f, kind, n) then [f.raw] else []
  }

  lemma {:induction false} RawsSnoc(fields: seq<Field>, f: Field, kind: Kind, n: nat)
    ensures Raws(fields + [f], kind, n) == Raws(fields, kind, n) + One(f, kind, n)
  {
    assert (fields + [f])[..|fields|] == fields;
  }

  lemma {:induction false} RawsOfTwo(fields: seq<Field>, kind: Kind, n: nat)
    requires |fields| == 2
    ensures Raws(fields, kind, n) == One(fields[0], kind, n) + One(fields[1], kind, n)
  {
    assert fields == fields[..1] + [fields[1]];
    RawsSnoc(fields[..1], fields[1], kind, n);
    assert fields[..1] == fields[..0] + [fields[0]];
    RawsSnoc(fields[..0], fields[0], kind, n);
  }

  lemma {:induction false} RawsOfThree(fields: seq<Field>, kind: Kind, n: nat)
    requires |fields| == 3
    ensures Raws(fields, kind, n) == One(fields[0], kind, n) + One(fields[1], kind, n) + One(fields[2], kind, n)
  {
    assert fields == fields[..2] + [fields[2]];
    RawsSnoc(fields[..2], fields[2], kind, n);
    RawsOfTwo(fields[..2], kind, n);
  }

  lemma {:induction false} RawsOfSet(three: seq<Field>, set_: ArcSet, kind: Kind, n: nat)
    requires AreSet(three, set_)
    ensures Raws(three, kind, n) == if n == set_.instance then [Slot(set_, kind)] else []
  {
    RawsOfThree(three, kind, n);
  }

  /** The three fields of a set, of which the results field may carry another number. */
  lemma {:induction false} RawsOfLoose(three: seq<Field>, n: nat)
    requires |three| == 3
    requires three[0].kind == Some(Results) && three[1].kind == Some(Signature) && three[2].kind == Some(Seal)
    ensures Raws(three, Results, n) == if three[0].instance == n then [three[0].raw] else []
    ensures Raws(three, Signature, n) == if three[1].instance == n then [three[1].raw] else []
    ensures Raws(three, Seal, n) == if three[2].instance == n then [three[2].raw] else []
  {
    RawsOfThree(three, Results, n);
    RawsOfThree(three, Signature, n);
    RawsOfThree(three, Seal, n);
  }

  /** The next set's fields on top of a chain lengthen it by that set. */
  lemma {:induction false} ChainGrows(fields: seq<Field>, sets: seq<ArcSet>, three: seq<Field>, next: ArcSet)
    requires IsChain(fields, sets) && |sets| < MAX_SETS
    requires AreSet(three, next) && next.instance == |sets| + 1
    ensures IsChain(three + fields, sets + [next])
  {
    forall kind, n: nat
      ensures Raws(three + fields, kind, n) == Wanted(sets + [next], kind, n)
    {
      RawsConcat(three, fields, kind, n);
      RawsOfSet(three, next, kind, n);
      assert Raws(fields, kind, n) == Wanted(sets, kind, n);
      WantedSnoc(sets, next, kind, n);
    }
  }

  lemma {:induction false} WantedSnoc(sets: seq<ArcSet>, next: ArcSet, kind: Kind, n: nat)
    ensures Wanted(sets + [next], kind, n) == if n == |sets| + 1 then [Slot(next, kind)] else Wanted(sets, kind, n)
  {}

  // ---- the order of the fields does not matter ----------------------------

  lemma {:induction false} RawsPermuted(a: seq<Field>, b: seq<Field>, kind: Kind, n: nat)
    requires multiset(a) == multiset(b)
    ensures multiset(Raws(a, kind, n)) == multiset(Raws(b, kind, n))
  {
    if a == [] {
      NothingElse(b);
    } else {
      var x, rest := a[|a| - 1], a[..|a| - 1];
      assert a == rest + [x];
      RawsLast(rest, x, kind, n);
      var left, right := TakeOut(a, b);
      RawsTaken(left, x, right, kind, n);
      RawsPermuted(rest, left + right, kind, n);
    }
  }

  lemma {:induction false} NothingElse<T>(b: seq<T>)
    requires multiset(b) == multiset{}
    ensures b == []
  {
    assert |multiset(b)| == |b|;
  }

  lemma {:induction false} RawsLast(rest: seq<Field>, x: Field, kind: Kind, n: nat)
    ensures multiset(Raws(rest + [x], kind, n)) == multiset(Raws(rest, kind, n)) + multiset(One(x, kind, n))
  {
    RawsSnoc(rest, x, kind, n);
  }

  /** One field more among others, wherever it stands. */
  lemma {:induction false} RawsTaken(left: seq<Field>, x: Field, right: seq<Field>, kind: Kind, n: nat)
    ensures multiset(Raws(left + [x] + right, kind, n))
            == multiset(Raws(left + right, kind, n)) + multiset(One(x, kind, n))
  {
    RawsConcat(left + [x], right, kind, n);
    RawsSnoc(left, x, kind, n);
    RawsConcat(left, right, kind, n);
    Regrouped(Raws(left, kind, n), One(x, kind, n), Raws(right, kind, n));
  }

  lemma {:induction false} Regrouped<T>(a: seq<T>, b: seq<T>, c: seq<T>)
    ensures multiset(a + b + c) == multiset(a + c) + multiset(b)
  {}

  lemma {:induction false} Cancelled<T>(a: multiset<T>, b: multiset<T>, x: multiset<T>)
    requires a + x == b + x
    ensures a == b
  {
    assert a == a + x - x && b == b + x - x;
  }

  /** The last element of one order, taken out of another. */
  lemma {:induction false} TakeOut<T>(a: seq<T>, b: seq<T>) returns (left: seq<T>, right: seq<T>)
    requires a != [] && multiset(a) == multiset(b)
    ensures b == left + [a[|a| - 1]] + right
    ensures multiset(a[..|a| - 1]) == multiset(left + right)
  {
    var x, rest := a[|a| - 1], a[..|a| - 1];
    assert a == rest + [x];
    LastOne(rest, x);
    var j := FindOne(b, x);
    left, right := b[..j], b[j + 1..];
    assert b == left + [x] + right;
    Regrouped(left, [x], right);
    Cancelled(multiset(rest), multiset(left + right), multiset([x]));
  }

  lemma {:induction false} LastOne<T>(rest: seq<T>, x: T)
    ensures multiset(rest + [x]) == multiset(rest) + multiset([x]) && x in multiset(rest + [x])
  {}

  lemma {:induction false} FindOne<T>(b: seq<T>, x: T) returns (j: nat)
    requires x in multiset(b)
    ensures j < |b| && b[j] == x
  {
    j :| j < |b| && b[j] == x;
  }

  lemma {:induction false} MapPermuted<A, B>(f: A -> B, a: seq<A>, b: seq<A>)
    requires multiset(a) == multiset(b)
    ensures multiset(Map(f, a)) == multiset(Map(f, b))
  {
    if a == [] {
      NothingElse(b);
    } else {
      var x, rest := a[|a| - 1], a[..|a| - 1];
      var left, right := TakeOut(a, b);
      MapPermuted(f, rest, left + right);
      MapConcat(f, left, right);
      MapConcat(f, left + [x], right);
      MapConcat(f, left, [x]);
      MapOne(f, x);
      Regrouped(Map(f, left), [f(x)], Map(f, right));
    }
  }

  lemma {:induction false} Singleton(s: seq<string>, t: seq<string>)
    requires multiset(s) == multiset(t) && |t| <= 1
    ensures s == t
  {
    assert |s| == |multiset(s)| && |t| == |multiset(t)|;
    if |t| == 1 {
      assert s[0] in multiset(t) && t == [t[0]];
    }
  }

  /** The result is the same for every order of the header block. */
  lemma {:induction false} CollectedPermuted(a: seq<Header>, b: seq<Header>)
    requires multiset(a) == multiset(b)
    ensures Collected(a) == Collected(b)
  {
    MapPermuted(Classify, a, b);
    var fa, fb := ClassifyAll(a), ClassifyAll(b);
    if sets :| IsChain(fa, sets) {
      ChainPermuted(fa, fb, sets);
      CollectedIs(fa, sets);
      CollectedIs(fb, sets);
    } else if sets :| IsChain(fb, sets) {
      ChainPermuted(fb, fa, sets);
    }
  }

  lemma {:induction false} ChainPermuted(a: seq<Field>, b: seq<Field>, sets: seq<ArcSet>)
    requires multiset(a) == multiset(b)
    ensures IsChain(a, sets) ==> IsChain(b, sets)
  {
    if IsChain(a, sets) {
      forall kind, n: nat
        ensures Raws(b, kind, n) == Wanted(sets, kind, n)
      {
        RawsPermuted(a, b, kind, n);
        assert Raws(a, kind, n) == Wanted(sets, kind, n);
        Singleton(Raws(b, kind, n), Raws(a, kind, n));
      }
    }
  }
}
