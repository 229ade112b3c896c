/**
 Tag lists, "i=1; a=rsa-sha256; ...": reading them, printing them, and emptying
 the signature tag before signing (internal/arc/message.go).
 */
module ArcTags {
  import opened Text

  // ---- reading ------------------------------------------------------------

  /** The name one part of a list sets, or "" when it sets none. */
  function NameOf(part: string): string {
    if '=' in part then ToLower(TrimSpace(Before(part, '='))) else ""
  }

  function ValueOf(part: string): string {
    match After(part, '=')
    case None => ""
    case Some(value) => TrimSpace(value)
  }

  /** What a list says about a name: its last mention wins. */
  function Lookup(parts: seq<string>, name: string): Option<string>
    requires name != ""
  {
    if parts == [] then None
    else if NameOf(parts[|parts| - 1]) == name then Some(ValueOf(parts[|parts| - 1]))
    else Lookup(parts[..|parts| - 1], name)
  }

  /** A tag of a list; a missing one reads as the empty string. */
  function Tag(value: string, name: string): string
    requires name != ""
  {
    match Lookup(Split(value, ';'), name)
    case None => ""
    case Some(v) => v
  }

  predicate HasTag(value: string, name: string)
    requires name != ""
  {
    Lookup(Split(value, ';'), name).Some?
  }

  /** The loop of `parseTags`: the map it fills holds exactly what Lookup finds. */
  method ReadTags(value: string) returns (tags: map<string, string>)
    ensures forall n :: n in tags <==> n != "" && HasTag(value, n)
    ensures forall n :: n in tags ==> tags[n] == Tag(value, n)
  {
    tags := map[];
    var parts := Split(value, ';');
    for i := 0 to |parts|
      invariant "" !in tags
      invariant forall n :: n != "" ==> Lookup(parts[..i], n) == if n in tags then Some(tags[n]) else None
    {
      forall n | n != "" {
        LookupNext(parts, i, n);
      }
      var part := parts[i];
      var eq := IndexChar(part, '=');
      if eq < 0 {
        continue;
      }
      var name := ToLower(TrimSpace(part[..eq]));
      if name == "" {
        continue;
      }
      tags := tags[name := TrimSpace(part[eq + 1..])];
    }
    assert parts[..|parts|] == parts;
  }

  lemma {:induction false} LookupNext(parts: seq<string>, i: nat, name: string)
    requires i < |parts| && name != ""
    ensures Lookup(parts[..i + 1], name)
            == if NameOf(parts[i]) == name then Some(ValueOf(parts[i])) else Lookup(parts[..i], name)
  {
    assert parts[..i + 1][..i] == parts[..i];
  }

  /** `headerValue`: what follows the colon. */
  function HeaderValue(raw: string): string {
    match After(raw, ':')
    case None => ""
    case Some(value) => value
  }

  function FieldTag(raw: string, name: string): string
    requires name != ""
  {
    Tag(HeaderValue(raw), name)
  }

  /** `instanceOf`: the i= tag as a positive number, or 0. */
  function InstanceOf(raw: string): nat {
    match Atoi(TrimSpace(FieldTag(raw, "i")))
    case None => 0
    case Some(n) => if n < 1 then 0 else n
  }

  // ---- printing -----------------------------------------------------------

  datatype TagValue = TagValue(name: string, value: string)

  /** " n=v", with a semicolon between tags. */
  function PrintTag(t: TagValue): string {
    " " + t.name + "=" + t.value
  }

  function PrintTags(ts: seq<TagValue>): string {
    if ts == [] then ""
    else if |ts| == 1 then PrintTag(ts[0])
    else PrintTags(ts[..|ts| - 1]) + ";" + PrintTag(ts[|ts| - 1])
  }

  /** A tag name as signers write it. */
  predicate IsTagName(name: string) {
    name != "" && forall i :: 0 <= i < |name| ==> 'a' <= name[i] <= 'z'
  }

  predicate Printable(ts: seq<TagValue>) {
    forall i :: 0 <= i < |ts| ==> IsTagName(ts[i].name) && ';' !in ts[i].value
  }

  predicate Distinct(ts: seq<TagValue>) {
    forall i, j :: 0 <= i < j < |ts| ==> ts[i].name != ts[j].name
  }

  lemma {:induction false} LookupConcat(a: seq<string>, b: seq<string>, name: string)
    requires name != ""
    ensures Lookup(a + b, name) == if Lookup(b, name).Some? then Lookup(b, name) else Lookup(a, name)
  {
    if b == [] {
      assert a + b == a;
    } else {
      assert (a + b)[..|a + b| - 1] == a + b[..|b| - 1];
      LookupConcat(a, b[..|b| - 1], name);
    }
  }

  /** A list cut at a semicolon reads as its two halves, the second winning. */
  lemma {:induction false} LookupAt(a: string, b: string, name: string)
    requires name != ""
    ensures Lookup(Split(a + ";" + b, ';'), name)
            == if HasTag(b, name) then Lookup(Split(b, ';'), name) else Lookup(Split(a, ';'), name)
  {
    SplitAt(a, ';', b);
    LookupConcat(Split(a, ';'), Split(b, ';'), name);
  }

  lemma {:induction false} TagNameFixed(name: string)
    requires IsTagName(name)
    ensures ToLower(TrimSpace(" " + name)) == name
  {
    TrimSkipsLead(' ', name, Spaces);
    TrimFixed(name, Spaces);
    assert ToLower(name) == name;
  }

  lemma {:induction false} ParsePrintTag(t: TagValue, name: string)
    requires IsTagName(t.name) && ';' !in t.value && name != ""
    ensures Lookup(Split(PrintTag(t), ';'), name) == if name == t.name then Some(TrimSpace(t.value)) else None
  {
    var part := PrintTag(t);
    assert forall i :: 0 <= i < |t.name| ==> t.name[i] != '=' && t.name[i] != ';';
    SplitWhole(part, ';');
    assert part == (" " + t.name) + ['='] + t.value;
    CutAt(" " + t.name, '=', t.value);
    TagNameFixed(t.name);
  }

  lemma {:induction false} LookupPrintLast(ts: seq<TagValue>, name: string)
    requires |ts| > 1 && Printable(ts) && name != ""
    ensures Lookup(Split(PrintTags(ts), ';'), name)
            == if name == ts[|ts| - 1].name then Some(TrimSpace(ts[|ts| - 1].value))
               else Lookup(Split(PrintTags(ts[..|ts| - 1]), ';'), name)
  {
    var front, last := PrintTags(ts[..|ts| - 1]), ts[|ts| - 1];
    LookupAt(front, PrintTag(last), name);
    ParsePrintTag(last, name);
  }

  /** Reading back a printed list: every tag with its value. */
  lemma {:induction false} ParsePrintTags(ts: seq<TagValue>, i: nat)
    requires Printable(ts) && Distinct(ts) && i < |ts|
    ensures Lookup(Split(PrintTags(ts), ';'), ts[i].name) == Some(TrimSpace(ts[i].value))
  {
    if |ts| == 1 {
      ParsePrintTag(ts[0], ts[0].name);
    } else {
      LookupPrintLast(ts, ts[i].name);
      if i < |ts| - 1 {
        ParsePrintTags(ts[..|ts| - 1], i);
      }
    }
  }

  /** A name that was not printed is not read. */
  lemma {:induction false} ParsePrintAbsent(ts: seq<TagValue>, name: string)
    requires ts != [] && Printable(ts) && name != ""
    requires forall i :: 0 <= i < |ts| ==> ts[i].name != name
    ensures Lookup(Split(PrintTags(ts), ';'), name) == None
  {
    if |ts| == 1 {
      ParsePrintTag(ts[0], name);
    } else {
      LookupPrintLast(ts, name);
      ParsePrintAbsent(ts[..|ts| - 1], name);
    }
  }

  // ---- emptying a tag -----------------------------------------------------

  /** What `tagStartsAt` skips. */
  predicate IsFold(c: char) {
    c == ' ' || c == '\t' || c == '\r' || c == '\n'
  }

  /** `tagStartsAt`: behind white space lies a semicolon or the field's colon. */
  predicate AtBoundary(before: string) {
    if before == "" then false
    else
      var c := before[|before| - 1];
      if IsFold(c) then AtBoundary(before[..|before| - 1]) else c == ';' || c == ':'
  }

  predicate TagStart(lower: string, search: string, i: int) {
    OccursAt(lower, search, i) && AtBoundary(lower[..i])
  }

  /** The first place a tag starts, or -1. */
  function FirstTag(lower: string, search: string, from: nat): (i: int)
    requires from <= |lower|
    ensures i == -1 || (from <= i && TagStart(lower, search, i))
    ensures forall j :: from <= j && (i < 0 || j < i) ==> !TagStart(lower, search, j)
    decreases |lower| - from
  {
    if TagStart(lower, search, from) then from
    else if from == |lower| then -1
    else FirstTag(lower, search, from + 1)
  }

  /** The field with the tag that starts at a position emptied. */
  function EmptiedAt(field: string, i: nat, n: nat): string
    requires i + n <= |field|
  {
    var end := IndexChar(field[i..], ';');
    if end < 0 then field[..i + n] else field[..i + n] + field[i + end..]
  }

  /** `withEmptyTag`: the first tag of that name emptied. */
  function WithEmptyTag(field: string, tag: string): string {
    var i := FirstTag(ToLower(field), tag + "=", 0);
    if i < 0 then field else EmptiedAt(field, i, |tag| + 1)
  }

  lemma {:induction false} FirstTagIs(lower: string, search: string, i: nat)
    requires TagStart(lower, search, i)
    requires forall j :: 0 <= j < i ==> !TagStart(lower, search, j)
    ensures FirstTag(lower, search, 0) == i
  {}

  lemma {:induction false} EmptiedAtFirst(field: string, tag: string, i: nat)
    requires TagStart(ToLower(field), tag + "=", i)
    requires forall j :: 0 <= j < i ==> !TagStart(ToLower(field), tag + "=", j)
    ensures WithEmptyTag(field, tag) == EmptiedAt(field, i, |tag| + 1)
  {
    var lower, search := ToLower(field), tag + "=";
    FirstTagIs(lower, search, i);
    assert FirstTag(lower, search, 0) == i;
  }

  /** The loop of `withEmptyTag`, which hops from one occurrence to the next. */
  method EmptyTag(field: string, tag: string) returns (r: string)
    ensures r == WithEmptyTag(field, tag)
  {
    var lower := ToLower(field);
    var search := tag + "=";
    var from := 0;
    while true
      invariant 0 <= from <= |lower|
      invariant forall j :: 0 <= j < from ==> !TagStart(lower, search, j)
      decreases |lower| - from
    {
      var index := IndexFrom(lower, search, from);
      if index < 0 {
        return field;
      }
      if !AtBoundary(lower[..index]) {
        from := index + 1;
        continue;
      }
      EmptiedAtFirst(field, tag, index);
      return EmptiedAt(field, index, |search|);
    }
  }

  // ---- where the signature tag is -----------------------------------------

  /** No white space, semicolon or colon: base64 text, for one. */
  predicate Dense(v: string) {
    forall i :: 0 <= i < |v| ==> !IsFold(v[i]) && v[i] != ';' && v[i] != ':'
  }

  /** A value in which no b= tag can seem to start. */
  predicate Inert(v: string) {
    '=' !in v || Dense(v)
  }

  /** No b= tag starts in this text. */
  predicate Quiet(x: string) {
    forall i :: 0 <= i && i + 1 < |x| && x[i] == 'b' && x[i + 1] == '=' ==> !AtBoundary(x[..i])
  }

  lemma {:induction false} QuietText(x: string)
    requires '=' !in x
    ensures Quiet(x)
  {}

  lemma {:induction false} QuietSnoc(x: string, c: char)
    requires Quiet(x) && c != '='
    ensures Quiet(x + [c])
  {
    forall i | 0 <= i && i + 1 < |x| ensures (x + [c])[..i] == x[..i] {}
  }

  /** A character that is neither white space nor a separator is no place for a tag to start after. */
  lemma {:induction false} NoBoundary(q: string, i: nat)
    requires 0 < i <= |q| && !IsFold(q[i - 1]) && q[i - 1] != ';' && q[i - 1] != ':'
    ensures !AtBoundary(q[..i])
  {
    assert q[..i][i - 1] == q[i - 1];
  }

  lemma {:induction false} QuietExtend(p: string, more: string)
    requires Quiet(p)
    requires forall i ::
               |p| - 1 <= i && 0 <= i && i + 1 < |p + more| && (p + more)[i] == 'b' && (p + more)[i + 1] == '=' ==>
               i > 0 && !IsFold((p + more)[i - 1]) && (p + more)[i - 1] != ';' && (p + more)[i - 1] != ':'
    ensures Quiet(p + more)
  {
    var q := p + more;
    forall i | 0 <= i && i + 1 < |q| && q[i] == 'b' && q[i + 1] == '='
      ensures !AtBoundary(q[..i])
    {
      if i + 1 < |p| {
        assert q[..i] == p[..i];
      } else {
        NoBoundary(q, i);
      }
    }
  }

  /** A printed name other than "b" starts no b= tag, */
  lemma {:induction false} QuietName(p: string, name: string)
    requires Quiet(p) && IsTagName(name) && name != "b"
    ensures Quiet(p + (" " + name + "="))
  {
    var more := " " + name + "=";
    var q, at := p + more, |p| + |name|;
    assert forall m :: |p| < m <= at ==> q[m] == name[m - |p| - 1];
    assert |name| == 1 ==> name == [name[0]];
    forall i | |p| - 1 <= i && 0 <= i && i + 1 < |q| && q[i] == 'b' && q[i + 1] == '='
      ensures i > |p| + 1 && i == at
    {
      assert i + 1 == at + 1;
    }
    QuietExtend(p, more);
  }

  /** and neither does its value. */
  lemma {:induction false} QuietValue(p: string, v: string)
    requires Quiet(p) && p != "" && p[|p| - 1] == '=' && Inert(v)
    ensures Quiet(p + v)
  {
    assert forall m :: 0 <= m < |v| ==> (p + v)[|p| + m] == v[m];
    QuietExtend(p, v);
  }

  lemma {:induction false} QuietTag(p: string, t: TagValue)
    requires Quiet(p) && IsTagName(t.name) && t.name != "b" && Inert(t.value)
    ensures Quiet(p + PrintTag(t))
  {
    QuietName(p, t.name);
    QuietValue(p + (" " + t.name + "="), t.value);
    assert p + (" " + t.name + "=") + t.value == p + PrintTag(t);
  }

  lemma {:induction false} LowerConcat(a: string, b: string)
    ensures ToLower(a + b) == ToLower(a) + ToLower(b)
  {}

  lemma {:induction false} LowerTag(t: TagValue)
    requires IsTagName(t.name)
    ensures ToLower(PrintTag(t)) == PrintTag(TagValue(t.name, ToLower(t.value)))
    ensures Inert(t.value) ==> Inert(ToLower(t.value))
  {
    if Dense(t.value) {
      assert Dense(ToLower(t.value));
    }
  }

  predicate Signable(ts: seq<TagValue>) {
    Printable(ts) && forall i :: 0 <= i < |ts| ==> ts[i].name != "b" && Inert(ts[i].value)
  }

  lemma {:induction false} QuietTags(head: string, ts: seq<TagValue>)
    requires '=' !in head && Signable(ts)
    ensures Quiet(ToLower(head + ":" + PrintTags(ts)))
  {
    var x := head + ":" + PrintTags(ts);
    if ts == [] {
      assert '=' !in ToLower(x);
      QuietText(ToLower(x));
    } else {
      var last := ts[|ts| - 1];
      QuietTags(head, ts[..|ts| - 1]);
      var y := head + ":" + PrintTags(ts[..|ts| - 1]);
      LowerTag(last);
      var lowered := TagValue(last.name, ToLower(last.value));
      if |ts| == 1 {
        assert x == y + PrintTag(last);
        LowerConcat(y, PrintTag(last));
        QuietTag(ToLower(y), lowered);
      } else {
        assert x == y + ";" + PrintTag(last);
        LowerConcat(y + ";", PrintTag(last));
        LowerConcat(y, ";");
        assert ToLower(";") == ";";
        QuietSnoc(ToLower(y), ';');
        QuietTag(ToLower(y) + ";", lowered);
      }
    }
  }

  /** Emptying the last tag of a text in which it first appears. */
  lemma {:induction false} EmptyLastTag(x: string, sig: string)
    requires x != "" && x[|x| - 1] == ';' && Quiet(ToLower(x)) && ';' !in sig
    ensures WithEmptyTag(x + " b=" + sig, "b") == x + " b="
  {
    var field := x + " b=" + sig;
    var lower := ToLower(field);
    var at := |x| + 1;
    assert lower[at] == 'b' && lower[at + 1] == '=';
    assert lower[..|x|] == ToLower(x);
    assert TagStart(lower, "b=", at) by {
      assert lower[at..at + 2] == "b=";
      assert lower[..at][..at - 1] == lower[..|x|];
      assert lower[..|x|][|x| - 1] == ';';
    }
    forall j | 0 <= j < at
      ensures !TagStart(lower, "b=", j)
    {
      assert OccursAt(lower, "b=", j) ==> lower[j..j + 2][0] == lower[j] && lower[j..j + 2][1] == lower[j + 1];
      if j + 1 < |x| {
        assert lower[..j] == ToLower(x)[..j];
      }
    }
    FirstTagIs(lower, "b=", at);
    assert "b" + "=" == "b=";
    assert field[..at + 2] == x + " b=";
  }

  /** A signature field: its tags, then b= and the signature. */
  function SignatureField(head: string, ts: seq<TagValue>, sig: string): string {
    head + ":" + PrintTags(ts + [TagValue("b", sig)])
  }

  lemma {:induction false} SignatureFieldText(head: string, ts: seq<TagValue>, sig: string)
    requires ts != []
    ensures SignatureField(head, ts, sig) == head + ":" + PrintTags(ts) + ";" + " b=" + sig
  {
    var all := ts + [TagValue("b", sig)];
    assert all[..|ts|] == ts;
    assert PrintTags(all) == PrintTags(ts) + ";" + PrintTag(all[|ts|]);
    assert PrintTag(all[|ts|]) == " b=" + sig;
  }

  /** Emptying b= turns a signed field back into the text that was signed. */
  lemma {:induction false} SignatureFieldEmptied(head: string, ts: seq<TagValue>, sig: string)
    requires '=' !in head && ts != [] && Signable(ts) && ';' !in sig
    ensures SignatureField(head, ts, sig) == SignatureField(head, ts, "") + sig
    ensures WithEmptyTag(SignatureField(head, ts, sig), "b") == SignatureField(head, ts, "")
  {
    var y := head + ":" + PrintTags(ts);
    SignatureFieldText(head, ts, sig);
    SignatureFieldText(head, ts, "");
    QuietTags(head, ts);
    LowerConcat(y, ";");
    assert ToLower(";") == ";";
    QuietSnoc(ToLower(y), ';');
    EmptyLastTag(y + ";", sig);
    assert y + ";" + " b=" + "" == y + ";" + " b=";
  }

  /** Reading a signature field finds each of its tags, and the signature. */
  lemma {:induction false} SignatureFieldRead(head: string, ts: seq<TagValue>, sig: string, i: nat)
    requires ':' !in head && Signable(ts) && Distinct(ts) && ';' !in sig && i <= |ts|
    ensures i < |ts| ==> FieldTag(SignatureField(head, ts, sig), ts[i].name) == TrimSpace(ts[i].value)
    ensures i == |ts| ==> FieldTag(SignatureField(head, ts, sig), "b") == TrimSpace(sig)
  {
    var all := ts + [TagValue("b", sig)];
    CutAt(head, ':', PrintTags(all));
    assert HeaderValue(SignatureField(head, ts, sig)) == PrintTags(all);
    ParsePrintTags(all, i);
  }

  /** A name the field does not carry reads as the empty string. */
  lemma {:induction false} SignatureFieldLacks(head: string, ts: seq<TagValue>, sig: string, name: string)
    requires ':' !in head && Signable(ts) && ';' !in sig && name != "b" && name != ""
    requires forall i :: 0 <= i < |ts| ==> ts[i].name != name
    ensures FieldTag(SignatureField(head, ts, sig), name) == ""
  {
    var all := ts + [TagValue("b", sig)];
    CutAt(head, ':', PrintTags(all));
    ParsePrintAbsent(all, name);
  }
}
