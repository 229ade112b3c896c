/**
 Header and body canonicalization (internal/arc/canonical.go), the forms of
 sections 3.4.1 to 3.4.4 of RFC 6376.
 */
module ArcCanonical {
  import opened Text

  datatype Canonicalization = Simple | Relaxed

  const CRLF := "\r\n"

  // ---- line endings -------------------------------------------------------

  /** `strings.ReplaceAll(s, "\r\n", "\n")`. */
  function CrlfToLf(s: string): string {
    if s == "" then ""
    else if |s| >= 2 && s[0] == '\r' && s[1] == '\n' then "\n" + CrlfToLf(s[2..])
    else [s[0]] + CrlfToLf(s[1..])
  }

  /** Line endings are replaced piece by piece unless the cut falls inside one. */
  lemma {:induction false} CrlfToLfConcat(a: string, b: string)
    requires !(a != "" && a[|a| - 1] == '\r' && b != "" && b[0] == '\n')
    ensures CrlfToLf(a + b) == CrlfToLf(a) + CrlfToLf(b)
  {
    if a == "" {
      assert a + b == b;
    } else if |a| >= 2 && a[0] == '\r' && a[1] == '\n' {
      assert (a + b)[2..] == a[2..] + b;
      CrlfToLfConcat(a[2..], b);
    } else {
      assert (a + b)[1..] == a[1..] + b;
      CrlfToLfConcat(a[1..], b);
    }
  }

  lemma {:induction false} CrlfToLfIdentity(s: string)
    requires '\r' !in s
    ensures CrlfToLf(s) == s
  {
    if s != "" {
      assert s[0] in s;
      CrlfToLfIdentity(s[1..]);
    }
  }

  /** `unfold`: a folded field is one line. */
  function Unfold(value: string): string {
    Without(WithoutCrlf(value), '\n')
  }

  function WithoutCrlf(s: string): string {
    if s == "" then ""
    else if |s| >= 2 && s[0] == '\r' && s[1] == '\n' then WithoutCrlf(s[2..])
    else [s[0]] + WithoutCrlf(s[1..])
  }

  function Without(s: string, c: char): string {
    if s == "" then ""
    else if s[0] == c then Without(s[1..], c)
    else [s[0]] + Without(s[1..], c)
  }

  // ---- white space --------------------------------------------------------

  /** Every run of spaces and tabs becomes one space; `inWsp` says a run is already open. */
  function Collapse(s: string, inWsp: bool): string {
    if s == "" then ""
    else if IsWsp(s[0]) then (if inWsp then "" else " ") + Collapse(s[1..], true)
    else [s[0]] + Collapse(s[1..], false)
  }

  /** The loop of `collapseWSP`. */
  method CollapseWsp(value: string) returns (out: string)
    ensures out == Collapse(value, false)
  {
    out := "";
    var inWsp := false;
    for i := 0 to |value|
      invariant out == Collapse(value[..i], false)
      invariant inWsp == EndsInWsp(value[..i])
    {
      var c := value[i];
      assert value[..i + 1] == value[..i] + [c];
      CollapseSnoc(value[..i], false, c);
      if c == ' ' || c == '\t' {
        if !inWsp {
          out := out + " ";
          inWsp := true;
        }
      } else {
        inWsp := false;
        out := out + [c];
      }
    }
    assert value[..|value|] == value;
  }

  predicate EndsInWsp(s: string) {
    s != "" && IsWsp(s[|s| - 1])
  }

  lemma {:induction false} CollapseSnoc(s: string, inWsp: bool, c: char)
    ensures Collapse(s + [c], inWsp)
            == Collapse(s, inWsp) + (if !IsWsp(c) then [c]
                                     else if EndsInWsp(s) || (s == "" && inWsp) then "" else " ")
  {
    if s == "" {
      assert (s + [c])[1..] == "";
    } else {
      assert (s + [c])[1..] == s[1..] + [c];
      CollapseSnoc(s[1..], IsWsp(s[0]), c);
    }
  }

  /** One body line as it is hashed. */
  function CanonLine(line: string, canon: Canonicalization): string {
    if canon.Simple? then line else TrimRight(Collapse(line, false), Wsp)
  }

  /** A collapsed line is its canonical form and at most one trailing space. */
  lemma {:induction false} CollapseTail(line: string)
    ensures Collapse(line, false) == CanonLine(line, Relaxed) + (if EndsInWsp(line) then " " else "")
  {
    if line != "" {
      var s, c := line[..|line| - 1], line[|line| - 1];
      assert line == s + [c];
      CollapseTail(s);
      CollapseSnoc(s, false, c);
      var t := Collapse(line, false);
      if EndsInWsp(line) {
        assert t == CanonLine(s, Relaxed) + " ";
        assert t[..|t| - 1] == CanonLine(s, Relaxed);
      } else {
        assert t[|t| - 1] == c;
      }
    }
  }

  /** How a line's canonical form grows with one more byte. */
  lemma {:induction false} CanonLineSnoc(line: string, canon: Canonicalization, c: char)
    ensures CanonLine(line + [c], canon)
            == if canon.Relaxed? && IsWsp(c) then CanonLine(line, canon)
               else CanonLine(line, canon) + (if canon.Relaxed? && EndsInWsp(line) then " " else "") + [c]
  {
    if canon.Relaxed? {
      var s := line + [c];
      CollapseTail(line);
      CollapseTail(s);
      CollapseSnoc(line, false, c);
      if IsWsp(c) {
        var t := Collapse(s, false);
        assert t == CanonLine(line, canon) + " ";
        assert t[..|t| - 1] == CanonLine(line, canon);
      }
    }
  }

  // ---- body ---------------------------------------------------------------

  function CanonLines(lines: seq<string>, canon: Canonicalization): (r: seq<string>)
    ensures |r| == |lines|
    ensures forall i :: 0 <= i < |lines| ==> r[i] == CanonLine(lines[i], canon)
  {
    seq(|lines|, i requires 0 <= i < |lines| => CanonLine(lines[i], canon))
  }

  /** Trailing empty lines are not part of a canonical body. */
  function StripEmpty(lines: seq<string>): (r: seq<string>)
    ensures |r| <= |lines| && r == lines[..|r|]
    ensures r != [] ==> r[|r| - 1] != ""
    ensures forall i :: |r| <= i < |lines| ==> lines[i] == ""
  {
    if lines != [] && lines[|lines| - 1] == "" then StripEmpty(lines[..|lines| - 1]) else lines
  }

  /** Each line followed by CRLF. */
  function Terminated(lines: seq<string>): string {
    if lines == [] then "" else Terminated(lines[..|lines| - 1]) + lines[|lines| - 1] + CRLF
  }

  /** The lines of a body as it arrived; a final terminator starts no line. */
  function BodyLines(body: string): seq<string> {
    var lines := Split(CrlfToLf(body), '\n');
    if lines[|lines| - 1] == "" then lines[..|lines| - 1] else lines
  }

  /** `canonicalizeBody`: the canonical lines without the trailing empty ones, or the form's empty body. */
  function CanonicalBody(body: string, canon: Canonicalization): string {
    var lines := StripEmpty(CanonLines(BodyLines(body), canon));
    if lines == [] then (if canon.Relaxed? then "" else CRLF)
    else Join(lines, CRLF) + CRLF
  }

  lemma {:induction false} TerminatedConcat(a: seq<string>, b: seq<string>)
    ensures Terminated(a + b) == Terminated(a) + Terminated(b)
  {
    if b == [] {
      assert a + b == a;
    } else {
      assert (a + b)[..|a + b| - 1] == a + b[..|b| - 1];
      TerminatedConcat(a, b[..|b| - 1]);
    }
  }

  lemma {:induction false} JoinIsTerminated(lines: seq<string>)
    requires lines != []
    ensures Join(lines, CRLF) + CRLF == Terminated(lines)
  {
    assert Terminated([lines[0]]) == lines[0] + CRLF by {
      assert [lines[0]][..0] == [];
    }
    if |lines| == 1 {
      assert lines == [lines[0]];
    } else {
      JoinIsTerminated(lines[1..]);
      TerminatedConcat([lines[0]], lines[1..]);
      assert lines == [lines[0]] + lines[1..];
    }
  }

  /** The relaxed form's loop in `canonicalizeBody`: each line is rewritten in place. */
  method RelaxLines(lines: array<string>)
    modifies lines
    ensures lines[..] == CanonLines(old(lines[..]), Relaxed)
  {
    for i := 0 to lines.Length
      invariant forall j :: 0 <= j < i ==> lines[j] == CanonLine(old(lines[j]), Relaxed)
      invariant forall j :: i <= j < lines.Length ==> lines[j] == old(lines[j])
    {
      var collapsed := CollapseWsp(lines[i]);
      lines[i] := TrimRight(collapsed, Wsp);
    }
  }

  /** The second loop of `canonicalizeBody`: where the empty tail starts. */
  method EmptyTail(lines: array<string>) returns (end: nat)
    ensures end <= lines.Length && lines[..end] == StripEmpty(lines[..])
  {
    end := lines.Length;
    while end > 0 && lines[end - 1] == ""
      invariant end <= lines.Length
      invariant forall i :: end <= i < lines.Length ==> lines[i] == ""
    {
      end := end - 1;
    }
    StripEmptyAt(lines[..], end);
  }

  lemma {:induction false} StripEmptyAt(lines: seq<string>, end: nat)
    requires end <= |lines|
    requires end > 0 ==> lines[end - 1] != ""
    requires forall i :: end <= i < |lines| ==> lines[i] == ""
    ensures StripEmpty(lines) == lines[..end]
  {
    var r := StripEmpty(lines);
    assert r != [] ==> r[|r| - 1] == lines[|r| - 1];
  }

  /** `canonicalizeBody` as it runs. */
  method CanonicalizeBody(body: string, canon: Canonicalization) returns (text: string)
    ensures text == CanonicalBody(body, canon)
  {
    var given := BodyLines(body);
    var lines := new string[|given|](i requires 0 <= i < |given| => given[i]);
    assert lines[..] == given;
    if canon == Relaxed {
      RelaxLines(lines);
    } else {
      assert CanonLines(given, canon) == given;
    }
    var end := EmptyTail(lines);
    if end == 0 {
      text := if canon == Relaxed then "" else CRLF;
    } else {
      text := Join(lines[..end], CRLF) + CRLF;
    }
  }

  // ---- headers ------------------------------------------------------------

  /** `canonicalizeHeader`: the field arrives without its final CRLF and still folded. */
  function CanonicalHeader(field: string, canon: Canonicalization): string {
    if canon.Simple? then field + CRLF
    else match After(field, ':')
      case None => ToLower(TrimSpace(field)) + CRLF
      case Some(value) =>
        ToLower(TrimSpace(Before(field, ':'))) + ":"
        + TrimLeft(TrimRight(Collapse(Unfold(value), false), Wsp), Wsp) + CRLF
  }
}
