/**
 Splitting a message into fields and body, and reading fields (internal/arc/message.go).
 */
module ArcMessage {
  import opened Text
  import opened ArcCanonical

  /** One field as it appeared, folding included, without its final CRLF. */
  datatype Header = Header(name: string, raw: string)

  datatype Message = Message(headers: seq<Header>, body: string)

  // ---- fields -------------------------------------------------------------

  /** How names are compared: without surrounding white space and case. */
  function Folded(name: string): string {
    ToLower(TrimSpace(name))
  }

  function HeaderOf(field: string): Header {
    Header(Folded(Before(field, ':')), field)
  }

  function Flush(current: string): seq<Header> {
    if current == "" then [] else [HeaderOf(current)]
  }

  /** Lines into fields: a line starting with white space continues the field before it. */
  function Gather(lines: seq<string>, current: string): seq<Header> {
    if lines == [] then Flush(current)
    else if lines[0] == "" then Gather(lines[1..], current)
    else if IsWsp(lines[0][0]) then
      Gather(lines[1..], if current == "" then "" else current + CRLF + lines[0])
    else Flush(current) + Gather(lines[1..], lines[0])
  }

  function ParseHeaderBlock(block: string): seq<Header> {
    Gather(Split(CrlfToLf(block), '\n'), "")
  }

  /** The loop of `parseHeaderBlock`, which collects each field in a builder. */
  method ReadHeaderBlock(block: string) returns (headers: seq<Header>)
    ensures headers == ParseHeaderBlock(block)
  {
    headers := [];
    var current := "";
    var lines := Split(CrlfToLf(block), '\n');
    for i := 0 to |lines|
      invariant headers + Gather(lines[i..], current) == Gather(lines, "")
    {
      var line := lines[i];
      assert lines[i..][1..] == lines[i + 1..] && lines[i..][0] == line;
      if line == "" {
        continue;
      }
      if line[0] == ' ' || line[0] == '\t' {
        if |current| > 0 {
          current := current + CRLF + line;
        }
        continue;
      }
      if |current| > 0 {
        headers := headers + [HeaderOf(current)];
      }
      current := line;
    }
    if |current| > 0 {
      headers := headers + [HeaderOf(current)];
    }
  }

  /** The header block ends at the first CRLF CRLF or, without one, at the first LF LF; then the body starts. */
  function HeaderEnd(raw: string): (r: (nat, nat))
    ensures r.0 <= r.1 <= |raw|
  {
    var i := Index(raw, "\r\n\r\n");
    var j := Index(raw, "\n\n");
    if i >= 0 then (i, i + 4) else if j >= 0 then (j, j + 2) else (|raw|, |raw|)
  }

  function ParseMessage(raw: string): Message {
    var (end, body) := HeaderEnd(raw);
    Message(ParseHeaderBlock(raw[..end]), raw[body..])
  }

  // ---- prepending a field -------------------------------------------------

  /** One unfolded field line. */
  predicate IsLine(field: string) {
    field != "" && !IsWsp(field[0]) && '\r' !in field && '\n' !in field
  }

  /** The message opens with a field, not with white space or a line break. */
  predicate StartsWithField(raw: string) {
    raw != "" && !IsWsp(raw[0]) && raw[0] != '\r' && raw[0] != '\n'
  }

  lemma {:induction false} OccursShift(p: string, s: string, sub: string, j: nat)
    ensures OccursAt(p + s, sub, |p| + j) <==> OccursAt(s, sub, j)
  {
    if j + |sub| <= |s| {
      assert (p + s)[|p| + j..|p| + j + |sub|] == s[j..j + |sub|];
    }
  }

  lemma {:induction false} IndexShift(p: string, s: string, sub: string)
    requires forall j :: 0 <= j < |p| ==> !OccursAt(p + s, sub, j)
    ensures Index(p + s, sub) == if Index(s, sub) < 0 then -1 else |p| + Index(s, sub)
  {
    var i, k := Index(s, sub), Index(p + s, sub);
    if i >= 0 {
      OccursShift(p, s, sub, i);
    }
    if k >= 0 {
      OccursShift(p, s, sub, k - |p|);
    }
  }

  lemma {:induction false} OccursChar(t: string, sub: string, j: nat, k: nat)
    requires k < |sub|
    ensures OccursAt(t, sub, j) ==> j + k < |t| && t[j + k] == sub[k]
  {
    if OccursAt(t, sub, j) {
      assert t[j..j + |sub|][k] == t[j + k];
    }
  }

  /** No end of headers inside a line just prepended. */
  lemma {:induction false} NoBreakInLine(field: string, raw: string)
    requires IsLine(field) && StartsWithField(raw)
    ensures var p := field + CRLF;
            forall j :: 0 <= j < |p| ==>
              !OccursAt(p + raw, "\r\n\r\n", j) && !OccursAt(p + raw, "\n\n", j)
  {
    var p := field + CRLF;
    forall j: nat | j < |p|
      ensures !OccursAt(p + raw, "\r\n\r\n", j) && !OccursAt(p + raw, "\n\n", j)
    {
      OccursChar(p + raw, "\r\n\r\n", j, 0);
      OccursChar(p + raw, "\r\n\r\n", j, 2);
      OccursChar(p + raw, "\n\n", j, 0);
      OccursChar(p + raw, "\n\n", j, 1);
      assert j < |field| ==> (p + raw)[j] == field[j];
    }
  }

  lemma {:induction false} HeaderEndShift(field: string, raw: string)
    requires IsLine(field) && StartsWithField(raw)
    ensures var p := field + CRLF;
            HeaderEnd(p + raw) == (|p| + HeaderEnd(raw).0, |p| + HeaderEnd(raw).1) && HeaderEnd(raw).0 > 0
  {
    var p := field + CRLF;
    NoBreakInLine(field, raw);
    IndexShift(p, raw, "\r\n\r\n");
    IndexShift(p, raw, "\n\n");
    OccursChar(raw, "\r\n\r\n", 0, 0);
    OccursChar(raw, "\n\n", 0, 0);
  }

  /** The first part of a text that does not start with the separator starts as the text does. */
  lemma {:induction false} SplitHead(s: string, sep: char)
    requires s != "" && s[0] != sep
    ensures Split(s, sep)[0] != "" && Split(s, sep)[0][0] == s[0]
  {}

  lemma {:induction false} GatherLine(field: string, rest: seq<string>)
    requires IsLine(field)
    requires rest != [] && rest[0] != "" && !IsWsp(rest[0][0])
    ensures Gather([field] + rest, "") == [HeaderOf(field)] + Gather(rest, "")
  {
    assert ([field] + rest)[1..] == rest;
  }

  lemma {:induction false} CrlfToLfLine(field: string, block: string)
    requires IsLine(field) && StartsWithField(block)
    ensures CrlfToLf(field + CRLF + block) == field + "\n" + CrlfToLf(block)
    ensures CrlfToLf(block) != "" && CrlfToLf(block)[0] == block[0]
  {
    CrlfToLfConcat(field + CRLF, block);
    CrlfToLfConcat(field, CRLF);
    CrlfToLfIdentity(field);
    assert CrlfToLf(CRLF) == "\n";
  }

  lemma {:induction false} PrependToBlock(field: string, block: string)
    requires IsLine(field) && StartsWithField(block)
    ensures ParseHeaderBlock(field + CRLF + block) == [HeaderOf(field)] + ParseHeaderBlock(block)
  {
    var text := CrlfToLf(block);
    CrlfToLfLine(field, block);
    SplitAt(field, '\n', text);
    SplitWhole(field, '\n');
    SplitHead(text, '\n');
    GatherLine(field, Split(text, '\n'));
  }

  lemma {:induction false} SliceConcat(p: string, s: string, k: nat)
    requires k <= |s|
    ensures (p + s)[..|p| + k] == p + s[..k]
    ensures (p + s)[|p| + k..] == s[k..]
  {}

  /** Prepending a field line adds that field and changes nothing else. */
  lemma {:induction false} PrependField(field: string, raw: string)
    requires IsLine(field) && StartsWithField(raw)
    ensures var m := ParseMessage(raw);
            ParseMessage(field + CRLF + raw) == Message([HeaderOf(field)] + m.headers, m.body)
  {
    var p := field + CRLF;
    var (end, body) := HeaderEnd(raw);
    HeaderEndShift(field, raw);
    SliceConcat(p, raw, end);
    SliceConcat(p, raw, body);
    var w := ParseMessage(p + raw);
    assert w.headers == ParseHeaderBlock(p + raw[..end]) && w.body == raw[body..];
    PrependToBlock(field, raw[..end]);
  }
}
