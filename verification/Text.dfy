/**
 The fragment of Go's `strings` and `strconv` packages the modelled code uses, on
 strings whose characters stand for bytes. Case folding and white space are the
 ASCII ones, so lower-casing keeps every position.
 */
module Text {

  datatype Option<+T> = None | Some(value: T)

  /** What `strings.TrimSpace` removes. */
  predicate IsSpace(c: char) {
    c == ' ' || c == '\t' || c == '\n' || c == '\r' || c == '\U{0B}' || c == '\U{0C}'
  }

  /** What canonicalization calls white space: a space or a tab. */
  predicate IsWsp(c: char) {
    c == ' ' || c == '\t'
  }

  // ---- mapping ------------------------------------------------------------

  function Map<A, B>(f: A -> B, s: seq<A>): (r: seq<B>)
    ensures |r| == |s|
  {
    if s == [] then [] else Map(f, s[..|s| - 1]) + [f(s[|s| - 1])]
  }

  lemma {:induction false} MapConcat<A, B>(f: A -> B, a: seq<A>, b: seq<A>)
    ensures Map(f, a + b) == Map(f, a) + Map(f, b)
  {
    if b == [] {
      assert a + b == a;
    } else {
      assert (a + b)[..|a + b| - 1] == a + b[..|b| - 1];
      MapConcat(f, a, b[..|b| - 1]);
    }
  }

  lemma {:induction false} MapOne<A, B>(f: A -> B, x: A)
    ensures Map(f, [x]) == [f(x)]
  {
    assert [x][..0] == [];
  }

  lemma {:induction false} MapCons<A, B>(f: A -> B, x: A, s: seq<A>)
    ensures Map(f, [x] + s) == [f(x)] + Map(f, s)
  {
    MapOne(f, x);
    MapConcat(f, [x], s);
  }

  lemma {:induction false} MapNext<A, B>(f: A -> B, s: seq<A>, i: nat)
    requires i < |s|
    ensures Map(f, s[..i + 1]) == Map(f, s[..i]) + [f(s[i])]
    ensures Map(f, s) == Map(f, s[..i + 1]) + Map(f, s[i + 1..])
  {
    var p, q := s[..i + 1], s[i + 1..];
    assert p[..|p| - 1] == s[..i] && p[|p| - 1] == s[i];
    assert s == p + q;
    MapConcat(f, p, q);
  }

  /** States with a step between each and the next. */
  ghost predicate Linked<H, M>(step: (M, H, M) -> bool, hops: seq<H>, msgs: seq<M>) {
    && |msgs| == |hops| + 1
    && forall i :: 0 <= i < |hops| ==> step(msgs[i], hops[i], msgs[i + 1])
  }

  lemma {:induction false} LinkedExtends<H, M>(step: (M, H, M) -> bool, hops: seq<H>, msgs: seq<M>, hop: H, msg: M)
    requires Linked(step, hops, msgs) && step(msgs[|msgs| - 1], hop, msg)
    ensures Linked(step, hops + [hop], msgs + [msg])
  {
    var all, more := msgs + [msg], hops + [hop];
    forall i | 0 <= i < |more|
      ensures step(all[i], more[i], all[i + 1])
    {
      if i < |hops| {
        assert step(msgs[i], hops[i], msgs[i + 1]);
      }
    }
  }

  /** The i-th step can be taken wherever the invariant holds, and keeps it. */
  ghost predicate Steps<H, M(!new)>(step: (M, H, M) -> bool, inv: (M, nat) -> bool, hop: H, i: nat) {
    forall m :: inv(m, i) ==> exists m' :: step(m, hop, m') && inv(m', i + 1)
  }

  /** If each step can be taken and keeps an invariant, all of them can. */
  lemma {:induction false} LinkedReaches<H, M(!new)>(step: (M, H, M) -> bool, inv: (M, nat) -> bool, hops: seq<H>,
                                                     start: M)
    returns (msgs: seq<M>)
    requires inv(start, 0)
    requires forall i: nat :: i < |hops| ==> Steps(step, inv, hops[i], i)
    ensures Linked(step, hops, msgs) && msgs[0] == start && inv(msgs[|hops|], |hops|)
  {
    if hops == [] {
      msgs := [start];
    } else {
      var n := |hops| - 1;
      var first := hops[..n];
      var before := LinkedReaches(step, inv, first, start);
      assert Steps(step, inv, hops[n], n);
      var msg :| step(before[n], hops[n], msg) && inv(msg, n + 1);
      LinkedExtends(step, first, before, hops[n], msg);
      assert hops == first + [hops[n]];
      msgs := before + [msg];
    }
  }

  predicate AllOf<T>(s: seq<T>, p: T -> bool) {
    forall i :: 0 <= i < |s| ==> p(s[i])
  }

  /** A loop that leaves at the first element that fails. */
  method CheckAll<T>(s: seq<T>, p: T -> bool) returns (ok: bool)
    ensures ok == AllOf(s, p)
  {
    for i := 0 to |s|
      invariant forall j :: 0 <= j < i ==> p(s[j])
    {
      if !p(s[i]) {
        return false;
      }
    }
    return true;
  }

  // ---- case ---------------------------------------------------------------

  function LowerChar(c: char): char {
    if 'A' <= c <= 'Z' then 'a' + (c - 'A') else c
  }

  function ToLower(s: string): (r: string)
    ensures |r| == |s|
    ensures forall i :: 0 <= i < |s| ==> r[i] == LowerChar(s[i])
  {
    seq(|s|, i requires 0 <= i < |s| => LowerChar(s[i]))
  }

  // ---- trimming -----------------------------------------------------------

  /** The cut sets the modelled code trims with. */
  datatype Cut = Spaces | Wsp | Brackets | Quotes | Newlines | Padding

  predicate Cuts(cut: Cut, c: char) {
    match cut
    case Spaces => IsSpace(c)
    case Wsp => IsWsp(c)
    case Brackets => c == '[' || c == ']'
    case Quotes => c == '"' || c == '\''
    case Newlines => c == '\n'
    case Padding => c == '='
  }

  function TrimLeft(s: string, cut: Cut): string {
    if s != "" && Cuts(cut, s[0]) then TrimLeft(s[1..], cut) else s
  }

  function TrimRight(s: string, cut: Cut): string {
    if s != "" && Cuts(cut, s[|s| - 1]) then TrimRight(s[..|s| - 1], cut) else s
  }

  function Trim(s: string, cut: Cut): string {
    TrimRight(TrimLeft(s, cut), cut)
  }

  function TrimSpace(s: string): string {
    Trim(s, Spaces)
  }

  /** What is trimmed on the left is a prefix of cut characters, as long as it gets. */
  lemma {:induction false} TrimLeftSpec(s: string, cut: Cut)
    ensures var r := TrimLeft(s, cut);
            && |r| <= |s| && r == s[|s| - |r|..]
            && (forall i :: 0 <= i < |s| - |r| ==> Cuts(cut, s[i]))
            && (r != "" ==> !Cuts(cut, r[0]))
  {
    if s != "" && Cuts(cut, s[0]) {
      TrimLeftSpec(s[1..], cut);
      var r := TrimLeft(s[1..], cut);
      assert forall i :: 1 <= i < |s| - |r| ==> s[i] == s[1..][i - 1];
    }
  }

  lemma {:induction false} TrimRightSpec(s: string, cut: Cut)
    ensures var r := TrimRight(s, cut);
            && |r| <= |s| && r == s[..|r|]
            && (forall i :: |r| <= i < |s| ==> Cuts(cut, s[i]))
            && (r != "" ==> !Cuts(cut, r[|r| - 1]))
  {
    if s != "" && Cuts(cut, s[|s| - 1]) {
      TrimRightSpec(s[..|s| - 1], cut);
    }
  }

  /** A text with no trimmed character at either end is its own trimming. */
  lemma {:induction false} TrimFixed(s: string, cut: Cut)
    requires s != "" ==> !Cuts(cut, s[0]) && !Cuts(cut, s[|s| - 1])
    ensures Trim(s, cut) == s
  {}

  lemma {:induction false} TrimTwice(s: string, cut: Cut)
    ensures Trim(Trim(s, cut), cut) == Trim(s, cut)
  {
    var l := TrimLeft(s, cut);
    var t := TrimRight(l, cut);
    TrimLeftSpec(s, cut);
    TrimRightSpec(l, cut);
    assert t != "" ==> t[0] == l[0];
    TrimFixed(t, cut);
  }

  /** Leading trimmed characters make no difference. */
  lemma {:induction false} TrimSkipsLead(c: char, s: string, cut: Cut)
    requires Cuts(cut, c)
    ensures Trim([c] + s, cut) == Trim(s, cut)
  {
    assert ([c] + s)[1..] == s;
  }

  lemma {:induction false} TrimSubset(s: string, cut: Cut)
    ensures forall c :: c in Trim(s, cut) ==> c in s
  {
    TrimLeftSpec(s, cut);
    TrimRightSpec(TrimLeft(s, cut), cut);
  }

  /** Trimming keeps a character that is not trimmed, and adds none. */
  lemma {:induction false} TrimKeeps(s: string, cut: Cut, c: char)
    requires !Cuts(cut, c)
    ensures c in Trim(s, cut) <==> c in s
  {
    var l := TrimLeft(s, cut);
    TrimLeftSpec(s, cut);
    TrimRightSpec(l, cut);
    var gone := |s| - |l|;
    assert forall i :: 0 <= i < |l| ==> l[i] == s[gone + i];
    if c in s {
      var i :| 0 <= i < |s| && s[i] == c;
      assert l[i - gone] == c;
      assert TrimRight(l, cut)[i - gone] == c;
    }
  }

  // ---- searching ----------------------------------------------------------

  predicate OccursAt(s: string, sub: string, j: int) {
    0 <= j && j + |sub| <= |s| && s[j..j + |sub|] == sub
  }

  /** The first occurrence of `sub` at or after `from`, or -1. */
  function IndexFrom(s: string, sub: string, from: nat): (i: int)
    requires from <= |s|
    ensures i == -1 || (from <= i && OccursAt(s, sub, i))
    ensures forall j :: from <= j && (i < 0 || j < i) ==> !OccursAt(s, sub, j)
    decreases |s| - from
  {
    if OccursAt(s, sub, from) then from
    else if from == |s| then -1
    else IndexFrom(s, sub, from + 1)
  }

  function Index(s: string, sub: string): (i: int)
    ensures i == -1 || OccursAt(s, sub, i)
    ensures forall j :: (i < 0 || j < i) ==> !OccursAt(s, sub, j)
  {
    IndexFrom(s, sub, 0)
  }

  /** The first position of a character, or -1. */
  function IndexChar(s: string, c: char): (i: int)
    ensures i == -1 <==> c !in s
    ensures i != -1 ==> 0 <= i < |s| && s[i] == c && c !in s[..i]
  {
    if s == "" then -1
    else if s[0] == c then 0
    else
      var k := IndexChar(s[1..], c);
      if k < 0 then
        assert s == [s[0]] + s[1..];
        -1
      else
        assert s[..k + 1] == [s[0]] + s[1..][..k];
        k + 1
  }

  lemma {:induction false} IndexCharAt(a: string, c: char, b: string)
    requires c !in a
    ensures IndexChar(a + [c] + b, c) == |a|
  {
    var s := a + [c] + b;
    assert s[..|a|] == a && s[|a|] == c;
  }

  /** `strings.Cut` at a single character: what precedes it, and what follows it if it occurs. */
  function Before(s: string, c: char): string {
    var i := IndexChar(s, c);
    if i < 0 then s else s[..i]
  }

  function After(s: string, c: char): Option<string> {
    var i := IndexChar(s, c);
    if i < 0 then None else Some(s[i + 1..])
  }

  lemma {:induction false} CutAt(a: string, c: char, b: string)
    requires c !in a
    ensures Before(a + [c] + b, c) == a
    ensures After(a + [c] + b, c) == Some(b)
  {
    IndexCharAt(a, c, b);
  }

  predicate HasPrefix(s: string, p: string) {
    |p| <= |s| && s[..|p|] == p
  }

  predicate HasSuffix(s: string, p: string) {
    |p| <= |s| && s[|s| - |p|..] == p
  }

  function TrimSuffix(s: string, p: string): string {
    if HasSuffix(s, p) then s[..|s| - |p|] else s
  }

  // ---- splitting and joining ----------------------------------------------

  /** `strings.Split` at a single character: never empty. */
  function Split(s: string, sep: char): (parts: seq<string>)
    ensures |parts| >= 1
    ensures forall p :: p in parts ==> sep !in p
  {
    if s == "" then [""]
    else
      var rest := Split(s[1..], sep);
      if s[0] == sep then [""] + rest else [[s[0]] + rest[0]] + rest[1..]
  }

  function Join(parts: seq<string>, sep: string): string {
    if parts == [] then ""
    else if |parts| == 1 then parts[0]
    else parts[0] + sep + Join(parts[1..], sep)
  }

  lemma {:induction false} SplitWhole(s: string, sep: char)
    requires sep !in s
    ensures Split(s, sep) == [s]
  {
    if s != "" {
      SplitWhole(s[1..], sep);
      assert s == [s[0]] + s[1..];
    }
  }

  /** Splitting at a known separator splits the two sides. */
  lemma {:induction false} SplitAt(a: string, sep: char, b: string)
    ensures Split(a + [sep] + b, sep) == Split(a, sep) + Split(b, sep)
  {
    if a == "" {
      assert a + [sep] + b == [sep] + b;
      SplitCons(sep, b, sep);
    } else {
      SplitAt(a[1..], sep, b);
      assert a + [sep] + b == [a[0]] + (a[1..] + [sep] + b) && a == [a[0]] + a[1..];
      SplitCons(a[0], a[1..] + [sep] + b, sep);
      SplitCons(a[0], a[1..], sep);
      HeadOfBoth(Split(a[1..], sep), Split(b, sep), [a[0]]);
    }
  }

  lemma {:induction false} HeadOfBoth(p: seq<string>, q: seq<string>, c: string)
    requires p != []
    ensures [c + (p + q)[0]] + (p + q)[1..] == [c + p[0]] + p[1..] + q
    ensures [""] + (p + q) == [""] + p + q
  {}

  lemma {:induction false} SplitCons(c: char, s: string, sep: char)
    ensures var p := Split(s, sep);
            Split([c] + s, sep) == if c == sep then [""] + p else [[c] + p[0]] + p[1..]
  {
    assert ([c] + s)[1..] == s;
  }

  /** A character other than the separator lengthens the last part. */
  lemma {:induction false} SplitSnoc(s: string, sep: char, c: char)
    requires c != sep
    ensures var p := Split(s, sep);
            Split(s + [c], sep) == p[..|p| - 1] + [p[|p| - 1] + [c]]
  {
    if s == "" {
      SplitWhole([c], sep);
      assert s + [c] == [c] && "" + [c] == [c];
    } else {
      assert (s + [c])[1..] == s[1..] + [c];
      SplitSnoc(s[1..], sep, c);
      var p, q := Split(s[1..], sep), Split(s[1..] + [c], sep);
      if s[0] != sep && |p| == 1 {
        assert q == [p[0] + [c]];
        assert [s[0]] + (p[0] + [c]) == [s[0]] + p[0] + [c];
      }
    }
  }

  /** Joining parts that hold no separator and splitting again gives the parts back. */
  lemma {:induction false} SplitJoin(parts: seq<string>, sep: char)
    requires parts != []
    requires forall p :: p in parts ==> sep !in p
    ensures Split(Join(parts, [sep]), sep) == parts
  {
    if |parts| == 1 {
      SplitWhole(parts[0], sep);
    } else {
      SplitAt(parts[0], sep, Join(parts[1..], [sep]));
      SplitWhole(parts[0], sep);
      SplitJoin(parts[1..], sep);
    }
  }

  /** Splitting and joining again gives the text back. */
  lemma {:induction false} JoinSplit(s: string, sep: char)
    ensures Join(Split(s, sep), [sep]) == s
  {
    if s != "" {
      JoinSplit(s[1..], sep);
      var rest := Split(s[1..], sep);
      var parts := Split(s, sep);
      if s[0] == sep {
        assert parts[1..] == rest;
      } else if |rest| > 1 {
        assert parts[1..] == rest[1..];
      }
    }
  }

  // ---- decimal numbers ----------------------------------------------------

  predicate IsDigit(c: char) {
    '0' <= c <= '9'
  }

  /** `fmt`'s %d of a number that is not negative. */
  function Itoa(n: nat): (s: string)
    ensures s != "" && forall c :: c in s ==> IsDigit(c)
  {
    var d := [(n % 10) as char + '0'];
    if n < 10 then d else Itoa(n / 10) + d
  }

  function Decimal(s: string): nat
    requires forall c :: c in s ==> IsDigit(c)
  {
    if s == "" then 0
    else
      assert IsDigit(s[|s| - 1]);
      Decimal(s[..|s| - 1]) * 10 + (s[|s| - 1] as int - '0' as int)
  }

  const MAX_INT64 := 9223372036854775807

  /** `strconv.Atoi`: an optional sign, then digits, in the range of a 64-bit integer. */
  function Atoi(s: string): Option<int> {
    var signed := s != "" && (s[0] == '+' || s[0] == '-');
    var digits := if signed then s[1..] else s;
    if digits == "" || exists c :: c in digits && !IsDigit(c) then None
    else
      var n: int := Decimal(digits);
      if signed && s[0] == '-' then (if n <= MAX_INT64 + 1 then Some(-n) else None)
      else if n <= MAX_INT64 then Some(n) else None
  }

  lemma {:induction false} DecimalItoa(n: nat)
    ensures Decimal(Itoa(n)) == n
  {
    if n >= 10 {
      DecimalItoa(n / 10);
      assert Itoa(n)[..|Itoa(n)| - 1] == Itoa(n / 10);
    } else {
      assert Itoa(n)[..0] == "";
    }
  }

  /** Reading back a printed number. */
  lemma {:induction false} AtoiItoa(n: nat)
    requires n <= MAX_INT64
    ensures Atoi(Itoa(n)) == Some(n)
  {
    DecimalItoa(n);
    assert Itoa(n)[0] in Itoa(n);
  }

  lemma {:induction false} TrimDigits(s: string)
    requires s != "" && forall c :: c in s ==> IsDigit(c)
    ensures TrimSpace(s) == s
  {
    assert IsDigit(s[0]) && IsDigit(s[|s| - 1]);
    TrimFixed(s, Spaces);
  }

  /** Trimming is harmless to a printed number. */
  lemma {:induction false} AtoiTrimmed(n: nat)
    requires n <= MAX_INT64
    ensures Atoi(TrimSpace(TrimSpace(Itoa(n)))) == Some(n)
  {
    TrimDigits(Itoa(n));
    AtoiItoa(n);
  }

  // ---- numbers not in use -------------------------------------------------

  lemma {:induction false} UnusedNumber(used: set<nat>) returns (n: nat)
    ensures forall x :: x in used ==> x < n
  {
    if used == {} {
      n := 0;
    } else {
      var x :| x in used;
      var m := UnusedNumber(used - {x});
      n := if m > x then m else x + 1;
      assert forall y :: y in used ==> y == x || y in used - {x};
    }
  }
}
