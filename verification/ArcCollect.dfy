/**
 The loops of collectSets (internal/arc/verify.go): fill a map of sets, sort it,
 check that instances run 1..N with nothing missing. The result is the chain the
 header block forms, or the error when it forms none.
 */
module ArcCollect {
  import opened Text
  import opened ArcMessage
  import opened ArcTags
  import opened ArcChain

  function SlotIn(m: map<nat, ArcSet>, kind: Kind, n: nat): string {
    if n in m then Slot(m[n], kind) else ""
  }

  function WithSlot(set_: ArcSet, kind: Kind, raw: string): ArcSet {
    match kind
    case Results => set_.(aar := raw)
    case Signature => set_.(ams := raw)
    case Seal => set_.(seal := raw)
  }

  function Put(m: map<nat, ArcSet>, kind: Kind, n: nat, raw: string): map<nat, ArcSet> {
    m[n := WithSlot(if n in m then m[n] else ArcSet(n, "", "", ""), kind, raw)]
  }

  /** The map holds the fields met so far, each slot at most once. */
  ghost predicate Filled(m: map<nat, ArcSet>, fields: seq<Field>) {
    && (forall kind, n: nat :: Raws(fields, kind, n) == if SlotIn(m, kind, n) == "" then [] else [SlotIn(m, kind, n)])
    && (forall n :: n in m ==> n >= 1 && m[n].instance == n && exists kind :: Slot(m[n], kind) != "")
  }

  lemma {:induction false} FilledSkip(m: map<nat, ArcSet>, fields: seq<Field>, f: Field)
    requires Filled(m, fields) && f.kind.None?
    ensures Filled(m, fields + [f])
  {
    forall kind, n: nat {
      RawsSnoc(fields, f, kind, n);
    }
  }

  lemma {:induction false} SlotPut(m: map<nat, ArcSet>, kind: Kind, n: nat, raw: string, k: Kind, i: nat)
    ensures SlotIn(Put(m, kind, n, raw), k, i) == if k == kind && i == n then raw else SlotIn(m, k, i)
  {}

  lemma {:induction false} FilledPut(m: map<nat, ArcSet>, fields: seq<Field>, f: Field)
    requires Filled(m, fields) && f.kind.Some? && f.instance >= 1 && f.raw != ""
    requires SlotIn(m, f.kind.value, f.instance) == ""
    ensures Filled(Put(m, f.kind.value, f.instance, f.raw), fields + [f])
  {
    var m' := Put(m, f.kind.value, f.instance, f.raw);
    forall kind, n: nat
      ensures Raws(fields + [f], kind, n) == if SlotIn(m', kind, n) == "" then [] else [SlotIn(m', kind, n)]
    {
      RawsSnoc(fields, f, kind, n);
      SlotPut(m, f.kind.value, f.instance, f.raw, kind, n);
      assert Raws(fields, kind, n) == if SlotIn(m, kind, n) == "" then [] else [SlotIn(m, kind, n)];
    }
    SlotPut(m, f.kind.value, f.instance, f.raw, f.kind.value, f.instance);
    assert Slot(m'[f.instance], f.kind.value) != "";
  }

  /** A usable instance number needs a field to stand in. */
  lemma {:induction false} NoTextNoInstance()
    ensures InstanceOf("") == 0
  {
    assert Split("", ';') == [""];
    assert NameOf("") == "";
    assert Lookup([""], "i") == Lookup([""][..0], "i") == None;
  }

  /** A repeated or unnumbered field rules a chain out, whatever follows it. */
  lemma {:induction false} NoChain(before: seq<Field>, after: seq<Field>, kind: Kind, n: nat)
    requires |Raws(before, kind, n)| > if n == 0 then 0 else 1
    ensures CollectedFields(before + after) == Broken
  {
    RawsConcat(before, after, kind, n);
    forall sets
      ensures !IsChain(before + after, sets)
    {
      assert IsChain(before + after, sets) ==> Raws(before + after, kind, n) == Wanted(sets, kind, n);
    }
  }

  // ---- the map, sorted ----------------------------------------------------

  lemma {:induction false} Least(s: set<nat>) returns (n: nat)
    requires s != {}
    ensures n in s && forall k :: k in s ==> n <= k
  {
    n :| n in s;
    if below :| below in s && below < n {
      var some := n;
      var rest := set x | x in s && x < some;
      assert below in rest && some !in rest;
      n := Least(rest);
      forall k | k in s
        ensures n <= k
      {
        assert k < some ==> k in rest;
      }
    }
  }

  /** The map's sets, ascending by instance, each once. */
  ghost predicate SortedFrom(m: map<nat, ArcSet>, sets: seq<ArcSet>) {
    && |sets| == |m|
    && (forall i :: 0 <= i < |sets| ==> sets[i].instance in m && sets[i] == m[sets[i].instance])
    && (forall i, j :: 0 <= i < j < |sets| ==> sets[i].instance < sets[j].instance)
  }

  /** `sort.Slice` on the map's values. */
  method SortedSets(m: map<nat, ArcSet>) returns (sets: seq<ArcSet>)
    requires forall n :: n in m ==> m[n].instance == n
    ensures SortedFrom(m, sets)
  {
    sets := [];
    var rest := m.Keys;
    while rest != {}
      invariant rest <= m.Keys && |sets| + |rest| == |m|
      invariant forall i :: 0 <= i < |sets| ==> sets[i].instance in m && sets[i] == m[sets[i].instance]
      invariant forall i, k :: 0 <= i < |sets| && k in rest ==> sets[i].instance < k
      invariant forall i, j :: 0 <= i < j < |sets| ==> sets[i].instance < sets[j].instance
      decreases rest
    {
      ghost var least := Least(rest);
      var n :| n in rest && forall k :: k in rest ==> n <= k;
      sets := sets + [m[n]];
      rest := rest - {n};
    }
  }

  function Upto(n: nat): (s: set<nat>)
    ensures |s| == n && forall k :: k in s <==> 1 <= k <= n
  {
    if n == 0 then {} else Upto(n - 1) + {n}
  }

  /** The instances of a chain are the keys of the map. */
  lemma {:induction false} ChainKeys(m: map<nat, ArcSet>, fields: seq<Field>, sets: seq<ArcSet>)
    requires Filled(m, fields) && IsChain(fields, sets)
    ensures m.Keys == Upto(|sets|)
    ensures forall n: nat, kind :: 1 <= n <= |sets| ==> SlotIn(m, kind, n) != ""
  {
    forall n: nat, kind
      ensures 1 <= n <= |sets| <==> SlotIn(m, kind, n) != ""
    {
      assert Raws(fields, kind, n) == Wanted(sets, kind, n);
    }
    forall n: nat
      ensures n in m.Keys <==> n in Upto(|sets|)
    {
      if n in m {
        var kind :| Slot(m[n], kind) != "";
        assert SlotIn(m, kind, n) != "";
      } else {
        assert SlotIn(m, Results, n) == "";
      }
    }
  }

  /** N ascending numbers between 1 and N are 1..N. */
  lemma {:induction false} AscendingFills(sets: seq<ArcSet>, i: nat)
    requires forall j :: 0 <= j < |sets| ==> 1 <= sets[j].instance <= |sets|
    requires forall j, k :: 0 <= j < k < |sets| ==> sets[j].instance < sets[k].instance
    requires i < |sets|
    ensures sets[i].instance == i + 1
  {
    AtLeast(sets, i);
    AtMost(sets, i);
  }

  lemma {:induction false} AtLeast(sets: seq<ArcSet>, i: nat)
    requires forall j :: 0 <= j < |sets| ==> 1 <= sets[j].instance
    requires forall j, k :: 0 <= j < k < |sets| ==> sets[j].instance < sets[k].instance
    requires i < |sets|
    ensures sets[i].instance >= i + 1
  {
    if i > 0 {
      AtLeast(sets, i - 1);
    }
  }

  lemma {:induction false} AtMost(sets: seq<ArcSet>, i: nat)
    requires forall j :: 0 <= j < |sets| ==> sets[j].instance <= |sets|
    requires forall j, k :: 0 <= j < k < |sets| ==> sets[j].instance < sets[k].instance
    requires i < |sets|
    ensures sets[i].instance <= i + 1
    decreases |sets| - i
  {
    if i + 1 < |sets| {
      AtMost(sets, i + 1);
    }
  }

  predicate Complete(sets: seq<ArcSet>, i: nat)
    requires i < |sets|
  {
    var s := sets[i];
    s.instance == i + 1 && s.aar != "" && s.ams != "" && s.seal != ""
  }

  lemma {:induction false} SortedFills(m: map<nat, ArcSet>, sets: seq<ArcSet>, i: nat)
    requires SortedFrom(m, sets) && m.Keys == Upto(|sets|) && i < |sets|
    ensures sets[i].instance == i + 1 && i + 1 in m && sets[i] == m[i + 1]
  {
    forall j | 0 <= j < |sets|
      ensures 1 <= sets[j].instance <= |sets|
    {
      assert sets[j].instance in m.Keys;
    }
    AscendingFills(sets, i);
  }

  /** If the fields form a chain, the sorted sets are it. */
  lemma {:induction false} SortedIsChain(m: map<nat, ArcSet>, fields: seq<Field>, sets: seq<ArcSet>, chain: seq<ArcSet>)
    requires Filled(m, fields) && IsChain(fields, chain)
    requires SortedFrom(m, sets)
    ensures |m| == |chain| && forall i :: 0 <= i < |sets| ==> Complete(sets, i)
  {
    ChainKeys(m, fields, chain);
    assert |m| == |m.Keys| == |chain|;
    forall i | 0 <= i < |sets|
      ensures Complete(sets, i)
    {
      SortedFills(m, sets, i);
      var n := i + 1;
      assert SlotIn(m, Results, n) != "" && SlotIn(m, Signature, n) != "" && SlotIn(m, ArcChain.Seal, n) != "";
    }
  }

  lemma {:induction false} CompleteKeys(m: map<nat, ArcSet>, sets: seq<ArcSet>)
    requires SortedFrom(m, sets) && forall i :: 0 <= i < |sets| ==> Complete(sets, i)
    ensures m.Keys == Upto(|sets|)
    ensures forall i :: 0 <= i < |sets| ==> i + 1 in m && m[i + 1] == sets[i]
  {
    var keys := Upto(|sets|);
    assert forall i :: 0 <= i < |sets| ==> Complete(sets, i) && sets[i].instance in m;
    forall n | n in keys
      ensures n in m.Keys
    {
      assert sets[n - 1].instance == n;
    }
    SubsetOfSameSize(keys, m.Keys);
  }

  /** Complete sorted sets are the chain. */
  lemma {:induction false} CompleteIsChain(m: map<nat, ArcSet>, fields: seq<Field>, sets: seq<ArcSet>)
    requires Filled(m, fields) && SortedFrom(m, sets) && |m| <= MAX_SETS
    requires forall i :: 0 <= i < |sets| ==> Complete(sets, i)
    ensures CollectedFields(fields) == Sets(sets)
  {
    CompleteKeys(m, sets);
    forall kind, n: nat
      ensures Raws(fields, kind, n) == Wanted(sets, kind, n)
    {
      CompleteSlot(m, sets, kind, n);
    }
    assert forall i :: 0 <= i < |sets| ==> Complete(sets, i) && sets[i].instance == i + 1;
    CollectedIs(fields, sets);
  }

  lemma {:induction false} CompleteSlot(m: map<nat, ArcSet>, sets: seq<ArcSet>, kind: Kind, n: nat)
    requires m.Keys == Upto(|sets|)
    requires forall i :: 0 <= i < |sets| ==> i + 1 in m && m[i + 1] == sets[i] && Complete(sets, i)
    ensures (if SlotIn(m, kind, n) == "" then [] else [SlotIn(m, kind, n)]) == Wanted(sets, kind, n)
  {
    if 1 <= n <= |sets| {
      var i := n - 1;
      assert Complete(sets, i) && m[i + 1] == sets[i];
    } else {
      assert n !in m.Keys;
    }
  }

  lemma {:induction false} SubsetOfSameSize(a: set<nat>, b: set<nat>)
    requires a <= b && |a| == |b|
    ensures a == b
  {
    assert |b - a| == 0;
  }

  // ---- the function -------------------------------------------------------

  lemma {:induction false} Refused(m: map<nat, ArcSet>, headers: seq<Header>, i: nat, kind: Kind)
    requires i < |headers| && Filled(m, ClassifyAll(headers[..i])) && KindOf(headers[i].name) == Some(kind)
    requires InstanceOf(headers[i].raw) == 0 || SlotIn(m, kind, InstanceOf(headers[i].raw)) != ""
    ensures Collected(headers) == Broken
  {
    var before, f, after := ClassifyAll(headers[..i]), Classify(headers[i]), ClassifyAll(headers[i + 1..]);
    var n := f.instance;
    RawsSnoc(before, f, kind, n);
    assert Raws(before, kind, n) == if SlotIn(m, kind, n) == "" then [] else [SlotIn(m, kind, n)];
    NoChain(before + [f], after, kind, n);
    MapNext(Classify, headers, i);
  }

  lemma {:induction false} Taken(m: map<nat, ArcSet>, before: seq<Field>, h: Header, kind: Kind)
    requires Filled(m, before) && KindOf(h.name) == Some(kind)
    requires InstanceOf(h.raw) != 0 && SlotIn(m, kind, InstanceOf(h.raw)) == ""
    ensures Filled(Put(m, kind, InstanceOf(h.raw), h.raw), before + [Classify(h)])
  {
    NoTextNoInstance();
    FilledPut(m, before, Classify(h));
  }

  /** The first loop of `collectSets`. */
  method FillMap(headers: seq<Header>) returns (m: map<nat, ArcSet>, ok: bool)
    ensures ok ==> Filled(m, ClassifyAll(headers))
    ensures !ok ==> Collected(headers) == Broken
  {
    m, ok := map[], true;
    for i := 0 to |headers|
      invariant Filled(m, ClassifyAll(headers[..i]))
    {
      ghost var before := ClassifyAll(headers[..i]);
      var h := headers[i];
      MapNext(Classify, headers, i);
      match KindOf(h.name) {
        case None =>
          FilledSkip(m, before, Classify(h));
        case Some(kind) =>
          var n := InstanceOf(h.raw);
          if n == 0 || SlotIn(m, kind, n) != "" {
            Refused(m, headers, i, kind);
            ok := false;
            return;
          }
          Taken(m, before, h, kind);
          m := Put(m, kind, n, h.raw);
      }
    }
    assert headers[..|headers|] == headers;
  }

  /** Sets that are not complete, or too many, are no chain. */
  lemma {:induction false} Incomplete(m: map<nat, ArcSet>, fields: seq<Field>, sets: seq<ArcSet>)
    requires Filled(m, fields) && SortedFrom(m, sets)
    requires |m| > MAX_SETS || exists i :: 0 <= i < |sets| && !Complete(sets, i)
    ensures CollectedFields(fields) == Broken
  {
    if chain :| IsChain(fields, chain) {
      SortedIsChain(m, fields, sets, chain);
    }
  }

  /** `collectSets`. */
  method CollectSets(headers: seq<Header>) returns (r: Chain)
    ensures r == Collected(headers)
  {
    var m, ok := FillMap(headers);
    if !ok {
      return Broken;
    }
    ghost var fields := ClassifyAll(headers);
    var sets := SortedSets(m);
    if |m| > MAX_SETS {
      Incomplete(m, fields, sets);
      return Broken;
    }
    for i := 0 to |sets|
      invariant forall j :: 0 <= j < i ==> Complete(sets, j)
    {
      if !Complete(sets, i) {
        Incomplete(m, fields, sets);
        return Broken;
      }
    }
    CompleteIsChain(m, fields, sets);
    return Sets(sets);
  }
}
