/**
 The comment at the end of a rewritten line (internal/config/toml_edit.go): what TOML
 takes for the comment, what the editor's scan takes for it, and when they agree.
 */
module TomlComments {
  import opened Text
  import opened TomlEdit
  import opened TomlSettings

  // ---- the comment of a line ----------------------------------------------

  /** Inside which string a TOML reader is: none, a basic one, behind its backslash, a literal one. */
  datatype Inside = Outside | Basic | Escape | Literal

  function Next(at: Inside, c: char): Inside {
    match at
    case Outside => if c == '"' then Basic else if c == '\'' then Literal else Outside
    case Basic => if c == '\\' then Escape else if c == '"' then Outside else Basic
    case Escape => Basic
    case Literal => if c == '\'' then Outside else Literal
  }

  /** Where the comment starts: at the first '#' outside strings, or at the end of the line. */
  function RealStart(line: string, i: nat, at: Inside): (p: nat)
    requires i <= |line|
    ensures i <= p <= |line| && (p < |line| ==> line[p] == '#')
    decreases |line| - i
  {
    if i == |line| then i
    else if at == Outside && line[i] == '#' then i
    else RealStart(line, i + 1, Next(at, line[i]))
  }

  /** The comment from a position on, as the editor writes it. */
  function Tail(line: string, p: nat): string
    requires p <= |line|
  {
    if p == |line| then "" else " " + TrimSpace(line[p..])
  }

  /** The comment TOML reads at the end of an assignment. */
  function RealComment(line: string): string {
    var eq := IndexChar(line, '=');
    if eq < 0 then "" else Tail(line, RealStart(line, eq + 1, Outside))
  }

  // ---- the editor's scan --------------------------------------------------

  /** Where the editor's scan, which knows no escapes, takes the comment to start. */
  function BlindStart(line: string, i: nat, quote: Option<char>): (p: nat)
    requires i <= |line|
    ensures i <= p <= |line| && (p < |line| ==> line[p] == '#')
    decreases |line| - i
  {
    if i == |line| then i
    else if quote.Some? then BlindStart(line, i + 1, if line[i] == quote.value then None else quote)
    else if line[i] == '"' || line[i] == '\'' then BlindStart(line, i + 1, Some(line[i]))
    else if line[i] == '#' then i
    else BlindStart(line, i + 1, None)
  }

  lemma {:induction false} CommentIsTail(line: string, i: nat, quote: Option<char>)
    requires i <= |line|
    ensures CommentFrom(line, i, quote) == Tail(line, BlindStart(line, i, quote))
    decreases |line| - i
  {
    if i < |line| {
      if quote.Some? {
        CommentIsTail(line, i + 1, if line[i] == quote.value then None else quote);
      } else if line[i] == '"' || line[i] == '\'' {
        CommentIsTail(line, i + 1, Some(line[i]));
      } else if line[i] != '#' {
        CommentIsTail(line, i + 1, None);
      }
    }
  }

  /** The comment the editor finds is the rest of the line from where its scan stops. */
  lemma {:induction false} CommentIsBlind(line: string, eq: nat)
    requires eq == IndexChar(line, '=')
    ensures Comment(line) == Tail(line, BlindStart(line, eq + 1, None))
  {
    CommentIsTail(line, eq + 1, None);
  }

  /** The quote the scan is left in by a text; `None` when it meets a bare '#'. */
  function QuoteLeft(value: string, quote: Option<char>): Option<Option<char>> {
    if value == "" then Some(quote)
    else if quote.Some? then QuoteLeft(value[1..], if value[0] == quote.value then None else quote)
    else if value[0] == '"' || value[0] == '\'' then QuoteLeft(value[1..], Some(value[0]))
    else if value[0] == '#' then None
    else QuoteLeft(value[1..], None)
  }

  lemma {:induction false} ScanOver(line: string, i: nat, p: nat, quote: Option<char>)
    requires i <= p <= |line|
    ensures var left := QuoteLeft(line[i..p], quote);
            if left.Some? then BlindStart(line, i, quote) == BlindStart(line, p, left.value)
            else BlindStart(line, i, quote) < p
    decreases p - i
  {
    if i < p {
      var value := line[i..p];
      assert value[0] == line[i] && value[1..] == line[i + 1..p];
      if quote.Some? {
        ScanOver(line, i + 1, p, if line[i] == quote.value then None else quote);
      } else if line[i] == '"' || line[i] == '\'' {
        ScanOver(line, i + 1, p, Some(line[i]));
      } else if line[i] != '#' {
        ScanOver(line, i + 1, p, None);
      }
    }
  }

  // ---- when the two agree -------------------------------------------------

  /** Two comments of a line that start at different places are different texts. */
  lemma {:induction false} TailsDiffer(line: string, p: nat, q: nat)
    requires p < q <= |line| && line[p] == '#' && (q < |line| ==> line[q] == '#')
    ensures Tail(line, p) != Tail(line, q)
  {
    HashTail(line, p);
    if q < |line| {
      HashTail(line, q);
      assert line[p..] == line[p..q] + line[q..];
      LongerTail(line[p..q], line[q..]);
      assert |Tail(line, p)| == q - p + |Tail(line, q)|;
    }
  }

  lemma {:induction false} TailsAgree(line: string, p: nat, q: nat)
    requires p <= |line| && q <= |line| && (p < |line| ==> line[p] == '#') && (q < |line| ==> line[q] == '#')
    ensures Tail(line, p) == Tail(line, q) <==> p == q
  {
    if p < q {
      TailsDiffer(line, p, q);
    } else if q < p {
      TailsDiffer(line, q, p);
    }
  }

  lemma {:induction false} LongerTail(a: string, b: string)
    requires b != "" && b[0] == '#'
    ensures |TrimRight(a + b, Spaces)| == |a| + |TrimRight(b, Spaces)|
  {
    var none := a[..0];
    assert b == none + ['#'] + b[1..] && a + b == a + ['#'] + b[1..];
    TrimRightStops(a, '#', b[1..], Spaces);
    TrimRightStops(none, '#', b[1..], Spaces);
  }

  lemma {:induction false} HashTail(line: string, p: nat)
    requires p < |line| && line[p] == '#'
    ensures |Tail(line, p)| == 1 + |TrimRight(line[p..], Spaces)|
  {}

  /**
   The editor's scan passes over what stands before the comment: it meets no bare '#'
   there, and if a comment follows, it is not left inside a quote.
   */
  predicate PassesOver(line: string) {
    var eq := IndexChar(line, '=');
    eq >= 0 ==>
      var p := RealStart(line, eq + 1, Outside);
      var left := QuoteLeft(line[eq + 1..p], None);
      left.Some? && (p < |line| ==> left.value == None)
  }

  /** The editor finds the line's comment exactly when its scan passes over the old value. */
  lemma {:induction false} CommentFoundIff(line: string)
    ensures Comment(line) == RealComment(line) <==> PassesOver(line)
  {
    var eq := IndexChar(line, '=');
    if eq >= 0 {
      var p, b := RealStart(line, eq + 1, Outside), BlindStart(line, eq + 1, None);
      CommentIsBlind(line, eq);
      ScanOver(line, eq + 1, p, None);
      TailsAgree(line, b, p);
    }
  }

  /** A value without a backslash is read alike by both. */
  lemma {:induction false} NoEscapeNoTrouble(line: string, i: nat, at: Inside, quote: Option<char>)
    requires i <= |line| && '\\' !in line[i..]
    requires match at
             case Outside => quote == None
             case Basic => quote == Some('"')
             case Literal => quote == Some('\'')
             case Escape => false
    ensures BlindStart(line, i, quote) == RealStart(line, i, at)
    decreases |line| - i
  {
    if i < |line| && !(at == Outside && line[i] == '#') {
      assert line[i..][0] == line[i] && line[i + 1..] == line[i..][1..];
      var next := Next(at, line[i]);
      NoEscapeNoTrouble(line, i + 1, next,
        if next == Outside then None else Some(if next == Basic then '"' else '\''));
    }
  }

  // ---- the line that is written -------------------------------------------

  /** Where a TOML reader stands after a text that holds no comment; `None` when it does. */
  function InsideAfter(value: string, at: Inside): Option<Inside> {
    if value == "" then Some(at)
    else if at == Outside && value[0] == '#' then None
    else InsideAfter(value[1..], Next(at, value[0]))
  }

  /** A value as it is rendered: its strings are closed and it holds no comment. */
  predicate WellQuoted(value: string) {
    InsideAfter(value, Outside) == Some(Outside)
  }

  lemma {:induction false} ReadOver(line: string, i: nat, p: nat, at: Inside)
    requires i <= p <= |line| && InsideAfter(line[i..p], at).Some?
    ensures RealStart(line, i, at) == RealStart(line, p, InsideAfter(line[i..p], at).value)
    decreases p - i
  {
    if i < p {
      assert line[i..p][0] == line[i] && line[i..p][1..] == line[i + 1..p];
      ReadOver(line, i + 1, p, Next(at, line[i]));
    }
  }

  /** A comment is empty, or a blank and a trimmed text from its '#'. */
  predicate IsComment(c: string) {
    c == "" || (|c| >= 2 && c[0] == ' ' && c[1] == '#' && TrimSpace(c[1..]) == c[1..])
  }

  lemma {:induction false} TailIsComment(line: string, p: nat)
    requires p <= |line| && (p < |line| ==> line[p] == '#')
    ensures IsComment(Tail(line, p))
  {
    if p < |line| {
      var tail := line[p..];
      var t := TrimSpace(tail);
      TrimTwice(tail, Spaces);
      TrimRightSpec(tail, Spaces);
      assert (" " + t)[1..] == t;
    }
  }

  lemma {:induction false} CommentIs(line: string)
    ensures IsComment(Comment(line))
  {
    var eq := IndexChar(line, '=');
    if eq >= 0 {
      CommentIsTail(line, eq + 1, None);
      TailIsComment(line, BlindStart(line, eq + 1, None));
    }
  }

  /** A comment written after a text is the comment read there. */
  lemma {:induction false} CommentAtEnd(line: string, p: nat, c: string)
    requires p <= |line| && line[p..] == c && IsComment(c)
    ensures Tail(line, RealStart(line, p, Outside)) == c
  {
    if c != "" {
      assert line[p] == c[0] && line[p + 1] == c[1] && line[p + 1..] == c[1..];
      assert RealStart(line, p, Outside) == RealStart(line, p + 1, Outside) == p + 1;
      assert c == " " + c[1..];
    }
  }

  /** Where the parts of an assignment with more behind it stand. */
  lemma {:induction false} Laid(line: string, name: string, value: string, rest: string)
    requires '=' !in name && line == name + ['='] + (value + rest)
    ensures var i, p := |name| + 1, |name| + 1 + |value|;
            IndexChar(line, '=') == i - 1 && p <= |line| && line[i..p] == value && line[p..] == rest
  {
    IndexCharAt(name, '=', value + rest);
  }

  lemma {:induction false} ReadAfter(line: string, name: string, value: string, c: string)
    requires '=' !in name && WellQuoted(value) && IsComment(c) && line == name + ['='] + (value + c)
    ensures RealComment(line) == c
  {
    Laid(line, name, value, c);
    ReadBehind(line, |name|, |name| + 1 + |value|, c);
  }

  lemma {:induction false} ReadBehind(line: string, eq: nat, p: nat, c: string)
    requires eq == IndexChar(line, '=') && eq < p <= |line| && WellQuoted(line[eq + 1..p])
    requires line[p..] == c && IsComment(c)
    ensures RealComment(line) == c
  {
    RealCommentIs(line, eq);
    ReadTo(line, eq + 1, p);
    CommentAtEnd(line, p, c);
  }

  lemma {:induction false} ReadTo(line: string, i: nat, p: nat)
    requires i <= p <= |line| && WellQuoted(line[i..p])
    ensures RealStart(line, i, Outside) == RealStart(line, p, Outside)
  {
    ReadOver(line, i, p, Outside);
  }

  lemma {:induction false} BlankIsQuoted(value: string)
    requires WellQuoted(value)
    ensures WellQuoted(" " + value)
  {
    assert (" " + value)[1..] == value;
  }

  /** The comment TOML reads on the rewritten line is the one the editor's scan found on the old line. */
  lemma {:induction false} RewrittenComment(line: string, key: string, value: string)
    requires Plain(key) && WellQuoted(value)
    ensures RealComment(Rewritten(line, key, value)) == Comment(line)
  {
    var name := Indent(line) + key + " ";
    IndentIsBlank(line);
    assert '=' !in name;
    CommentIs(line);
    BlankIsQuoted(value);
    var full, c := Rewritten(line, key, value), Comment(line);
    assert full == name + ['='] + ((" " + value) + c);
    ReadAfter(full, name, " " + value, c);
  }

  /** Replacing a value keeps the line's comment exactly when the editor's scan passes over the old value. */
  lemma {:induction false} CommentKeptIff(line: string, key: string, value: string)
    requires Plain(key) && WellQuoted(value)
    ensures RealComment(Rewritten(line, key, value)) == RealComment(line) <==> PassesOver(line)
  {
    RewrittenComment(line, key, value);
    CommentFoundIff(line);
  }

  /** It does whenever no backslash stands behind the equals sign. */
  lemma {:induction false} NoEscapeKeeps(line: string, key: string, value: string)
    requires Plain(key) && WellQuoted(value)
    requires IndexChar(line, '=') >= 0 ==> '\\' !in line[IndexChar(line, '=') + 1..]
    ensures RealComment(Rewritten(line, key, value)) == RealComment(line)
  {
    RewrittenComment(line, key, value);
    NoEscapeFound(line);
  }

  lemma {:induction false} NoEscapeFound(line: string)
    requires IndexChar(line, '=') >= 0 ==> '\\' !in line[IndexChar(line, '=') + 1..]
    ensures Comment(line) == RealComment(line)
  {
    if IndexChar(line, '=') >= 0 {
      NoEscapeAfter(line, IndexChar(line, '='));
    }
  }

  lemma {:induction false} NoEscapeAfter(line: string, eq: nat)
    requires eq == IndexChar(line, '=') && '\\' !in line[eq + 1..]
    ensures Comment(line) == RealComment(line)
  {
    CommentIsBlind(line, eq);
    RealCommentIs(line, eq);
    StartsAgree(line, eq + 1);
  }

  lemma {:induction false} StartsAgree(line: string, i: nat)
    requires i <= |line| && '\\' !in line[i..]
    ensures BlindStart(line, i, None) == RealStart(line, i, Outside)
  {
    NoEscapeNoTrouble(line, i, Outside, None);
  }

  lemma {:induction false} RealCommentIs(line: string, eq: nat)
    requires eq == IndexChar(line, '=')
    ensures RealComment(line) == Tail(line, RealStart(line, eq + 1, Outside))
  {}

  // ---- a line that loses its comment --------------------------------------

  lemma {:induction false} FoundAt(line: string, name: string, value: string, rest: string)
    requires '=' !in name && QuoteLeft(value, None) == Some(None)
    requires rest != "" && rest[0] == '#' && line == name + ['='] + (value + rest)
    ensures Comment(line) == " " + TrimSpace(rest)
  {
    Laid(line, name, value, rest);
    var i, p := |name| + 1, |name| + 1 + |value|;
    CommentIsBlind(line, i - 1);
    StopsAt(line, i, p);
  }

  lemma {:induction false} StopsAt(line: string, i: nat, p: nat)
    requires i <= p < |line| && QuoteLeft(line[i..p], None) == Some(None) && line[p..][0] == '#'
    ensures BlindStart(line, i, None) == p
  {
    ScanOver(line, i, p, None);
  }

  lemma {:induction false} ReadAt(line: string, name: string, value: string, rest: string)
    requires '=' !in name && WellQuoted(value)
    requires rest != "" && rest[0] == '#' && line == name + ['='] + (value + rest)
    ensures RealComment(line) == " " + TrimSpace(rest)
  {
    Laid(line, name, value, rest);
    var i, p := |name| + 1, |name| + 1 + |value|;
    ReadOver(line, i, p, Outside);
    assert line[p] == rest[0];
  }

  /** Text without quotes, backslashes and '#'. */
  predicate Bare(s: string) {
    forall i :: 0 <= i < |s| ==> s[i] != '"' && s[i] != '\'' && s[i] != '\\' && s[i] != '#'
  }

  lemma {:induction false} QuoteLeftConcat(a: string, b: string, quote: Option<char>)
    requires QuoteLeft(a, quote).Some?
    ensures QuoteLeft(a + b, quote) == QuoteLeft(b, QuoteLeft(a, quote).value)
  {
    if a == "" {
      assert a + b == b;
    } else {
      assert (a + b)[1..] == a[1..] + b;
      if quote.Some? {
        QuoteLeftConcat(a[1..], b, if a[0] == quote.value then None else quote);
      } else if a[0] == '"' || a[0] == '\'' {
        QuoteLeftConcat(a[1..], b, Some(a[0]));
      } else {
        QuoteLeftConcat(a[1..], b, None);
      }
    }
  }

  lemma {:induction false} InsideConcat(a: string, b: string, at: Inside)
    requires InsideAfter(a, at).Some?
    ensures InsideAfter(a + b, at) == InsideAfter(b, InsideAfter(a, at).value)
  {
    if a == "" {
      assert a + b == b;
    } else {
      assert (a + b)[1..] == a[1..] + b;
      InsideConcat(a[1..], b, Next(at, a[0]));
    }
  }

  lemma {:induction false} BareIsPassed(s: string, quote: Option<char>)
    requires Bare(s) && (quote.Some? ==> quote.value == '"')
    ensures QuoteLeft(s, quote) == Some(quote)
  {
    if s != "" {
      BareIsPassed(s[1..], quote);
    }
  }

  lemma {:induction false} BareIsRead(s: string, at: Inside)
    requires Bare(s) && (at == Outside || at == Basic)
    ensures InsideAfter(s, at) == Some(at)
  {
    if s != "" {
      BareIsRead(s[1..], at);
    }
  }

  /** One character of a value. */
  lemma {:induction false} OneChar(c: char, quote: Option<char>, at: Inside)
    ensures quote == None && c != '#' ==> QuoteLeft([c], quote) == Some(if c == '"' || c == '\'' then Some(c) else None)
    ensures quote.Some? ==> QuoteLeft([c], quote) == Some(if c == quote.value then None else quote)
    ensures c != '#' || at != Outside ==> InsideAfter([c], at) == Some(Next(at, c))
  {
    assert [c][1..] == "";
  }

  /** The start of a value that is a basic string: up to an escaped quote, and more text. */
  function Opening(u: string, v: string): string {
    [' '] + ['"'] + u + ['\\'] + ['"'] + v
  }

  /** The editor's scan comes out of the string at the escaped quote. */
  lemma {:induction false} OpeningPasses(u: string, v: string)
    requires Bare(u) && Bare(v)
    ensures QuoteLeft(Opening(u, v), None) == Some(None)
  {
    OneChar(' ', None, Outside);
    OneChar('"', None, Outside);
    QuoteLeftConcat([' '], ['"'], None);
    BareIsPassed(u, Some('"'));
    QuoteLeftConcat([' '] + ['"'], u, None);
    OneChar('\\', Some('"'), Outside);
    QuoteLeftConcat([' '] + ['"'] + u, ['\\'], None);
    OneChar('"', Some('"'), Outside);
    QuoteLeftConcat([' '] + ['"'] + u + ['\\'], ['"'], None);
    BareIsPassed(v, None);
    QuoteLeftConcat([' '] + ['"'] + u + ['\\'] + ['"'], v, None);
  }

  /** A TOML reader stays in it. */
  lemma {:induction false} OpeningIsRead(u: string, v: string)
    requires Bare(u) && Bare(v)
    ensures InsideAfter(Opening(u, v), Outside) == Some(Basic)
  {
    OneChar(' ', None, Outside);
    OneChar('"', None, Outside);
    InsideConcat([' '], ['"'], Outside);
    BareIsRead(u, Basic);
    InsideConcat([' '] + ['"'], u, Outside);
    OneChar('\\', None, Basic);
    InsideConcat([' '] + ['"'] + u, ['\\'], Outside);
    OneChar('"', None, Escape);
    InsideConcat([' '] + ['"'] + u + ['\\'], ['"'], Outside);
    BareIsRead(v, Basic);
    InsideConcat([' '] + ['"'] + u + ['\\'] + ['"'], v, Outside);
  }

  /** The rest of it: a '#', more text, the closing quote and a blank. */
  function Closing(w: string): string {
    ['#'] + w + ['"'] + [' ']
  }

  lemma {:induction false} StringIsQuoted(u: string, v: string, w: string)
    requires Bare(u) && Bare(v) && Bare(w)
    ensures WellQuoted(Opening(u, v) + Closing(w))
  {
    OpeningIsRead(u, v);
    OneChar('#', None, Basic);
    BareIsRead(w, Basic);
    InsideConcat(['#'], w, Basic);
    OneChar('"', None, Basic);
    InsideConcat(['#'] + w, ['"'], Basic);
    OneChar(' ', None, Outside);
    InsideConcat(['#'] + w + ['"'], [' '], Basic);
    InsideConcat(Opening(u, v), Closing(w), Outside);
  }

  /** An assignment whose value is such a string, with a comment behind it. */
  function StringLine(name: string, u: string, v: string, w: string, note: string): string {
    name + ['='] + (Opening(u, v) + Closing(w) + note)
  }

  lemma {:induction false} MisreadString(name: string, u: string, v: string, w: string, note: string)
    requires Bare(u) && Bare(v) && Bare(w) && '=' !in name && note != "" && note[0] == '#'
    ensures RealComment(StringLine(name, u, v, w, note)) == " " + TrimSpace(note)
    ensures Comment(StringLine(name, u, v, w, note)) == " " + TrimSpace(Closing(w) + note)
  {
    var line := StringLine(name, u, v, w, note);
    StringIsQuoted(u, v, w);
    ReadAt(line, name, Opening(u, v) + Closing(w), note);
    OpeningPasses(u, v);
    assert Opening(u, v) + Closing(w) + note == Opening(u, v) + (Closing(w) + note);
    FoundAt(line, name, Opening(u, v), Closing(w) + note);
  }

  lemma {:induction false} LongerComment(a: string, b: string)
    requires a != "" && a[0] == '#' && b != "" && b[0] == '#'
    ensures " " + TrimSpace(a + b) != " " + TrimSpace(b)
  {
    LongerTail(a, b);
    assert |" " + TrimSpace(a + b)| != |" " + TrimSpace(b)|;
  }

  /** Every such line loses its comment: the end of the old string becomes part of it. */
  lemma {:induction false} CommentCanBeLost(name: string, u: string, v: string, w: string, note: string, key: string,
                                            value: string)
    requires Bare(u) && Bare(v) && Bare(w) && '=' !in name && note != "" && note[0] == '#'
    requires Plain(key) && WellQuoted(value)
    ensures var line := StringLine(name, u, v, w, note);
            && Rewritten(line, key, value) == Indent(line) + Assigned(key, value) + (" " + TrimSpace(Closing(w) + note))
            && RealComment(line) == " " + TrimSpace(note)
            && RealComment(Rewritten(line, key, value)) != RealComment(line)
  {
    var line := StringLine(name, u, v, w, note);
    MisreadString(name, u, v, w, note);
    RewrittenComment(line, key, value);
    LongerComment(Closing(w), note);
  }

  /** Without indentation or blanks at its end, this is what the line becomes: */
  lemma {:induction false} LostText(name: string, u: string, v: string, w: string, note: string, key: string,
                                    value: string)
    requires Bare(u) && Bare(v) && Bare(w) && '=' !in name && note != "" && note[0] == '#'
    requires Plain(key) && WellQuoted(value) && !IsSpace(note[|note| - 1]) && (name != "" ==> !IsWsp(name[0]))
    ensures Rewritten(StringLine(name, u, v, w, note), key, value) == Assigned(key, value) + " " + Closing(w) + note
  {
    MisreadString(name, u, v, w, note);
    var rest := Closing(w) + note;
    assert rest[0] == '#' && rest[|rest| - 1] == note[|note| - 1];
    TrimFixed(rest, Spaces);
    NoIndent(name, Opening(u, v) + Closing(w) + note);
    Joined(Assigned(key, value), Closing(w), note);
  }

  lemma {:induction false} Joined(a: string, b: string, c: string)
    ensures a + (" " + (b + c)) == a + " " + b + c
  {}

  lemma {:induction false} NoIndent(name: string, rest: string)
    requires name != "" ==> !IsWsp(name[0])
    ensures Indent(name + ['='] + rest) == ""
  {
    var line := name + ['='] + rest;
    assert line[0] == if name == "" then '=' else name[0];
  }

  /** The line and the text it becomes, told by the parts of the line. */
  ghost predicate Loses(line: string, text: string, note: string, key: string, value: string) {
    && Rewritten(line, key, value) == text
    && RealComment(line) == " " + note && RealComment(text) != " " + note
  }

  lemma {:induction false} LostLine(line: string, text: string, name: string, u: string, v: string, w: string,
                                    note: string, key: string, value: string)
    requires line == StringLine(name, u, v, w, note) && text == Assigned(key, value) + " " + Closing(w) + note
    requires Bare(u) && Bare(v) && Bare(w) && '=' !in name && note != "" && note[0] == '#' && TrimSpace(note) == note
    requires Plain(key) && WellQuoted(value) && !IsSpace(note[|note| - 1]) && (name != "" ==> !IsWsp(name[0]))
    ensures Loses(line, text, note, key, value)
  {
    LostText(name, u, v, w, note, key, value);
    CommentCanBeLost(name, u, v, w, note, key, value);
  }

  /** So setting  x = "a\"b # c" # note  to 1 gives  x = 1 # c" # note  and the comment is lost. */
  lemma {:induction false} LostExample(line: string, text: string, note: string, key: string, value: string)
    requires line == "x = \"a\\\"b # c\" # note" && text == "x = 1 # c\" # note" && note == "# note"
    requires key == "x" && value == "1"
    ensures Loses(line, text, note, key, value)
  {
    var name, u, v, w := line[..2], line[5..6], line[8..10], line[11..13];
    ExampleWords(line, name, u, v, w);
    ExampleLine(line, text, name, u, v, w, note, key, value);
    NoteIsTrimmed(note);
    LostLine(line, text, name, u, v, w, note, key, value);
  }

  lemma {:induction false} ExampleWords(line: string, name: string, u: string, v: string, w: string)
    requires line == "x = \"a\\\"b # c\" # note"
    requires name == line[..2] && u == line[5..6] && v == line[8..10] && w == line[11..13]
    ensures name == "x " && u == "a" && v == "b " && w == " c"
  {}

  lemma {:induction false} ExampleLine(line: string, text: string, name: string, u: string, v: string, w: string,
                                       note: string, key: string, value: string)
    requires line == "x = \"a\\\"b # c\" # note" && text == "x = 1 # c\" # note" && note == "# note"
    requires name == "x " && u == "a" && v == "b " && w == " c" && key == "x" && value == "1"
    ensures line == StringLine(name, u, v, w, note) && text == Assigned(key, value) + " " + Closing(w) + note
    ensures Bare(u) && Bare(v) && Bare(w) && Plain(key) && WellQuoted(value)
  {}

  lemma {:induction false} NoteIsTrimmed(note: string)
    requires note == "# note"
    ensures TrimSpace(note) == note
  {
    TrimFixed(note, Spaces);
  }
}
