/**
 Picking the fields an h= list names (selectHeaders of internal/arc/message.go), by
 the rule of section 5.4.2 of RFC 6376: repeated names take successive instances
 from the bottom of the header block upwards.
 */
module ArcSelect {
  import opened Text
  import opened ArcCanonical
  import opened ArcMessage

  /** The names of an h= list, as they are compared. */
  function NamesOf(list: string): seq<string> {
    FoldAll(Split(list, ':'))
  }

  function FoldAll(parts: seq<string>): seq<string> {
    Map(Folded, parts)
  }

  /** The (k+1)-th field of a name counted from the bottom, or "". */
  function FromBottom(headers: seq<Header>, name: string, k: nat): string {
    if headers == [] then ""
    else
      var h, above := headers[|headers| - 1], headers[..|headers| - 1];
      if h.name != name then FromBottom(above, name, k)
      else if k == 0 then h.raw
      else FromBottom(above, name, k - 1)
  }

  /** How many fields have a name. */
  function Fields(headers: seq<Header>, name: string): nat {
    if headers == [] then 0
    else Fields(headers[..|headers| - 1], name) + if headers[|headers| - 1].name == name then 1 else 0
  }

  /** How often a list names a name. */
  function Mentions(names: seq<string>, name: string): nat {
    if names == [] then 0
    else Mentions(names[..|names| - 1], name) + if names[|names| - 1] == name then 1 else 0
  }

  function Picked(field: string, canon: Canonicalization): string {
    if field == "" then "" else CanonicalHeader(field, canon)
  }

  /** The canonical fields a list of names selects, in the order of the list. */
  function Select(headers: seq<Header>, names: seq<string>, canon: Canonicalization): string {
    if names == [] then ""
    else
      var before, name := names[..|names| - 1], names[|names| - 1];
      Select(headers, before, canon)
      + if name == "" then "" else Picked(FromBottom(headers, name, Mentions(before, name)), canon)
  }

  /** The inner loop of `selectHeaders`: walk upwards until the wanted instance. */
  method WalkUp(headers: seq<Header>, name: string, seen: nat) returns (found: string)
    ensures found == FromBottom(headers, name, seen)
  {
    found := "";
    var count := 0;
    var i := |headers|;
    assert headers[..i] == headers;
    while i > 0
      invariant 0 <= i <= |headers| && count <= seen
      invariant FromBottom(headers[..i], name, seen - count) == FromBottom(headers, name, seen)
      decreases i
    {
      i := i - 1;
      assert headers[..i + 1][..i] == headers[..i];
      if headers[i].name != name {
        continue;
      }
      if count == seen {
        return headers[i].raw;
      }
      count := count + 1;
    }
  }

  /** The instances used so far are the names met so far. */
  ghost predicate Tally(used: map<string, nat>, names: seq<string>) {
    forall n :: n != "" ==> Mentions(names, n) == if n in used then used[n] else 0
  }

  lemma {:induction false} TallyNext(used: map<string, nat>, names: seq<string>, i: nat)
    requires i < |names| && Tally(used, names[..i])
    ensures if names[i] == "" then Tally(used, names[..i + 1])
            else Tally(used[names[i] := (if names[i] in used then used[names[i]] else 0) + 1], names[..i + 1])
  {
    assert names[..i + 1][..i] == names[..i];
  }

  lemma {:induction false} SelectNext(headers: seq<Header>, names: seq<string>, i: nat, canon: Canonicalization)
    requires i < |names|
    ensures Select(headers, names[..i + 1], canon) == Select(headers, names[..i], canon)
            + if names[i] == "" then ""
              else Picked(FromBottom(headers, names[i], Mentions(names[..i], names[i])), canon)
  {
    assert names[..i + 1][..i] == names[..i];
  }

  /** The next instance of a name, walking up from the bottom. */
  method Take(headers: seq<Header>, name: string, seen: nat, canon: Canonicalization) returns (text: string)
    ensures text == Picked(FromBottom(headers, name, seen), canon)
  {
    var found := WalkUp(headers, name, seen);
    if found == "" {
      return "";
    }
    return CanonicalHeader(found, canon);
  }

  /** `selectHeaders` as it runs, counting the instances used of each name. */
  method SelectHeaders(headers: seq<Header>, list: string, canon: Canonicalization) returns (out: string)
    ensures out == Select(headers, NamesOf(list), canon)
  {
    out := "";
    var used: map<string, nat> := map[];
    var names := NamesOf(list);
    for i := 0 to |names|
      invariant out == Select(headers, names[..i], canon)
      invariant Tally(used, names[..i])
    {
      SelectNext(headers, names, i, canon);
      TallyNext(used, names, i);
      var name := names[i];
      if name == "" {
        assert out + "" == out;
        continue;
      }
      var seen := if name in used then used[name] else 0;
      assert seen == Mentions(names[..i], name);
      var text := Take(headers, name, seen, canon);
      used := used[name := seen + 1];
      out := out + text;
    }
    assert names[..|names|] == names;
  }

  /** Fields added on top are out of reach while instances below remain. */
  lemma {:induction false} FromBottomStable(pre: seq<Header>, headers: seq<Header>, name: string, k: nat)
    requires k < Fields(headers, name) || Fields(pre, name) == 0
    ensures FromBottom(pre + headers, name, k) == FromBottom(headers, name, k)
  {
    if headers == [] {
      assert pre + headers == pre;
      FromBottomNone(pre, name, k);
    } else {
      var h, above := headers[|headers| - 1], headers[..|headers| - 1];
      assert (pre + headers)[..|pre + headers| - 1] == pre + above;
      if h.name != name {
        FromBottomStable(pre, above, name, k);
      } else if k > 0 {
        FromBottomStable(pre, above, name, k - 1);
      }
    }
  }

  lemma {:induction false} FromBottomNone(headers: seq<Header>, name: string, k: nat)
    requires Fields(headers, name) == 0
    ensures FromBottom(headers, name, k) == ""
  {
    if headers != [] {
      FromBottomNone(headers[..|headers| - 1], name, k);
    }
  }

  /**
   A later hop's fields never change what an h= list selects: no name is listed more often
   than it occurred, or the hop adds none of it.
   */
  ghost predicate Protected(pre: seq<Header>, headers: seq<Header>, names: seq<string>) {
    forall n :: n != "" && Fields(pre, n) > 0 ==> Mentions(names, n) <= Fields(headers, n)
  }

  lemma {:induction false} SelectStable(pre: seq<Header>, headers: seq<Header>, names: seq<string>,
                                        canon: Canonicalization)
    requires Protected(pre, headers, names)
    ensures Select(pre + headers, names, canon) == Select(headers, names, canon)
  {
    if names != [] {
      var before, name := names[..|names| - 1], names[|names| - 1];
      assert forall n :: Mentions(before, n) <= Mentions(names, n);
      SelectStable(pre, headers, before, canon);
      if name != "" {
        FromBottomStable(pre, headers, name, Mentions(before, name));
      }
    }
  }

  // ---- the list a signer writes -------------------------------------------

  lemma {:induction false} SplitLead(c: char, s: string)
    requires IsSpace(c)
    ensures NamesOf([c] + s) == NamesOf(s)
  {
    SplitCons(c, s, ':');
    var p := Split(s, ':');
    TrimSkipsLead(c, p[0], Spaces);
    FoldAllHead([c] + p[0], p[0], p[1..]);
    assert [p[0]] + p[1..] == p;
  }

  lemma {:induction false} FoldAllHead(a: string, b: string, rest: seq<string>)
    requires Folded(a) == Folded(b)
    ensures FoldAll([a] + rest) == FoldAll([b] + rest)
  {
    MapConcat(Folded, [a], rest);
    MapConcat(Folded, [b], rest);
    MapOne(Folded, a);
    MapOne(Folded, b);
  }

  lemma {:induction false} TrimSkipsTail(s: string, c: char)
    requires IsSpace(c)
    ensures TrimSpace(s + [c]) == TrimSpace(s)
  {
    assert (s + [c])[..|s|] == s;
    TrimLeftSnoc(s, c);
  }

  lemma {:induction false} TrimLeftSnoc(s: string, c: char)
    requires IsSpace(c)
    ensures TrimLeft(s, Spaces) != "" ==> TrimLeft(s + [c], Spaces) == TrimLeft(s, Spaces) + [c]
    ensures TrimLeft(s, Spaces) == "" ==> TrimLeft(s + [c], Spaces) == ""
  {
    if s == "" {
      assert (s + [c])[1..] == "";
    } else if IsSpace(s[0]) {
      assert (s + [c])[1..] == s[1..] + [c];
      TrimLeftSnoc(s[1..], c);
    }
  }

  lemma {:induction false} SplitTail(s: string, c: char)
    requires IsSpace(c)
    ensures NamesOf(s + [c]) == NamesOf(s)
  {
    SplitSnoc(s, ':', c);
    var p, q := Split(s, ':'), Split(s + [c], ':');
    TrimSkipsTail(p[|p| - 1], c);
    assert q[..|q| - 1] == p[..|p| - 1] && q[|q| - 1] == p[|p| - 1] + [c];
  }

  /** White space around a list changes none of its names. */
  lemma {:induction false} NamesTrimLeft(s: string)
    ensures NamesOf(TrimLeft(s, Spaces)) == NamesOf(s)
  {
    if s != "" && IsSpace(s[0]) {
      NamesTrimLeft(s[1..]);
      assert s == [s[0]] + s[1..];
      SplitLead(s[0], s[1..]);
    }
  }

  lemma {:induction false} NamesTrimRight(s: string)
    ensures NamesOf(TrimRight(s, Spaces)) == NamesOf(s)
  {
    if s != "" && IsSpace(s[|s| - 1]) {
      NamesTrimRight(s[..|s| - 1]);
      assert s == s[..|s| - 1] + [s[|s| - 1]];
      SplitTail(s[..|s| - 1], s[|s| - 1]);
    }
  }

  /** Reading back the list a signer joined with colons. */
  lemma {:induction false} NamesOfJoin(names: seq<string>)
    requires names != [] && forall n :: n in names ==> ':' !in n
    ensures NamesOf(TrimSpace(Join(names, ":"))) == FoldAll(names)
  {
    var list := Join(names, ":");
    NamesTrimLeft(list);
    NamesTrimRight(TrimLeft(list, Spaces));
    SplitJoin(names, ':');
  }
}
