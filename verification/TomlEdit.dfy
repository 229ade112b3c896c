/**
 SetTOMLValue (internal/config/toml_edit.go): change one setting of a document and
 leave every other setting alone. The rendered value is a parameter.
 */
module TomlEdit {
  import opened Text
  import opened TomlLines

  // ---- the line that is written -------------------------------------------

  function Indent(line: string): string {
    TrimLeftSpec(line, Wsp);
    line[..|line| - |TrimLeft(line, Wsp)|]
  }

  /** tomlTrailingComment from a position, inside the given quote if any. */
  function CommentFrom(line: string, i: nat, quote: Option<char>): string
    decreases |line| - i
  {
    if i >= |line| then ""
    else if quote.Some? then CommentFrom(line, i + 1, if line[i] == quote.value then None else quote)
    else if line[i] == '"' || line[i] == '\'' then CommentFrom(line, i + 1, Some(line[i]))
    else if line[i] == '#' then " " + TrimSpace(line[i..])
    else CommentFrom(line, i + 1, None)
  }

  function Comment(line: string): string {
    var eq := IndexChar(line, '=');
    if eq < 0 then "" else CommentFrom(line, eq + 1, None)
  }

  method TrailingComment(line: string) returns (r: string)
    ensures r == Comment(line)
  {
    var eq := IndexChar(line, '=');
    if eq < 0 {
      return "";
    }
    var quote: Option<char> := None;
    for i := eq + 1 to |line|
      invariant CommentFrom(line, i, quote) == Comment(line)
    {
      var c := line[i];
      if quote.Some? {
        if c == quote.value {
          quote := None;
        }
      } else if c == '"' || c == '\'' {
        quote := Some(c);
      } else if c == '#' {
        return " " + TrimSpace(line[i..]);
      }
    }
    return "";
  }

  function Assigned(key: string, value: string): string {
    key + " = " + value
  }

  /** An existing assignment with its value replaced. */
  function Rewritten(line: string, key: string, value: string): string {
    Indent(line) + Assigned(key, value) + Comment(line)
  }

  // ---- where it is written ------------------------------------------------

  /** The line assigns this key inside this section. */
  predicate Hit(lines: seq<string>, i: nat, section: string, key: string)
    requires i < |lines|
  {
    !IsHeader(lines[i]) && Ends("", lines[..i]) == section && KeyOf(lines[i]) == Some(key)
  }

  /** The first such line at or after a position. */
  function FindKey(lines: seq<string>, section: string, key: string, from: nat): (r: Option<nat>)
    requires from <= |lines|
    ensures r.Some? ==> from <= r.value < |lines| && Hit(lines, r.value, section, key)
    ensures forall j :: from <= j < |lines| && (r.Some? ==> j < r.value) ==> !Hit(lines, j, section, key)
    decreases |lines| - from
  {
    if from == |lines| then None
    else if Hit(lines, from, section, key) then Some(from)
    else FindKey(lines, section, key, from + 1)
  }

  /** The section a line belongs to, and the bounds of the target section so far. */
  datatype Scan = Scan(current: string, start: int, end: int)

  function ScanLine(section: string, s: Scan, line: string, i: nat): Scan {
    if IsHeader(line) then
      var end := if s.current == section && s.start >= 0 then i else s.end;
      Scan(SectionOf(line), if SectionOf(line) == section then i else s.start, end)
    else if s.current == section && s.start < 0 && section == "" then s.(start := 0)
    else s
  }

  function Scanned(section: string, lines: seq<string>): Scan {
    if lines == [] then Scan("", -1, -1)
    else ScanLine(section, Scanned(section, lines[..|lines| - 1]), lines[|lines| - 1], |lines| - 1)
  }

  /** Back over the blank lines that end the section. */
  function InsertAt(lines: seq<string>, start: int, k: nat): (r: nat)
    requires k <= |lines|
    ensures r <= k
  {
    if k > start + 1 && k > 0 && TrimSpace(lines[k - 1]) == "" then InsertAt(lines, start, k - 1) else k
  }

  /** The document after the section.key tables have gone. */
  function Cleared(doc: string, section: string, key: string): string {
    if section != "" then Removed(doc, section + "." + key) else doc
  }

  function Appended(doc: string, section: string, key: string, value: string): string {
    var body := TrimRight(doc, Newlines);
    if section == "" then Assigned(key, value) + "\n" + body + "\n"
    else body + "\n" + "\n" + "[" + section + "]" + "\n" + Assigned(key, value) + "\n"
  }

  function SetDoc(doc: string, section: string, key: string, value: string): string {
    var left := Cleared(doc, section, key);
    var lines := Split(left, '\n');
    var found := FindKey(lines, section, key, 0);
    if found.Some? then Join(lines[found.value := Rewritten(lines[found.value], key, value)], "\n")
    else
      var scan := Scanned(section, lines);
      if scan.start < 0 then Appended(left, section, key, value)
      else
        ScanSpec(section, lines);
        var k := InsertAt(lines, scan.start, if scan.end < 0 then |lines| else scan.end);
        Join(lines[..k] + [Assigned(key, value)] + lines[k..], "\n")
  }

  /** The line SetTOMLValue writes. */
  function WrittenLine(doc: string, section: string, key: string, value: string): string {
    var lines := Split(Cleared(doc, section, key), '\n');
    var found := FindKey(lines, section, key, 0);
    if found.Some? then Rewritten(lines[found.value], key, value) else Assigned(key, value)
  }

  /** Inserting at `end`, or after the last line, is inserting inside the section. */
  lemma {:induction false} ScanSpec(section: string, lines: seq<string>)
    ensures var s := Scanned(section, lines);
            && s.current == Ends("", lines)
            && s.start < |lines| && s.end < |lines|
            && (s.end >= 0 ==> Ends("", lines[..s.end]) == section)
            && (s.start >= 0 && s.end < 0 ==> s.current == section)
  {
    if lines != [] {
      var n := |lines| - 1;
      var before := lines[..n];
      ScanSpec(section, before);
      assert lines == before + [lines[n]];
      ReadingSnoc("", before, lines[n]);
      var s := Scanned(section, before);
      assert s.end >= 0 ==> lines[..s.end] == before[..s.end];
    }
  }

  /** `SetTOMLValue`; no value is a type the editor cannot render. */
  method SetTOMLValue(doc: string, section: string, key: string, formatted: Option<string>) returns (r: Option<string>)
    ensures r == if formatted.Some? then Some(SetDoc(doc, section, key, formatted.value)) else None
  {
    if formatted.None? {
      return None;
    }
    var value := formatted.value;
    var left := doc;
    if section != "" {
      left := RemoveSection(doc, section + "." + key);
    }
    var lines := Split(left, '\n');
    var found, scan := FindLine(lines, section, key);
    if found.Some? {
      var i := found.value;
      var comment := TrailingComment(lines[i]);
      lines := lines[i := Indent(lines[i]) + Assigned(key, value) + comment];
      return Some(Join(lines, "\n"));
    }
    if scan.start < 0 {
      JoinSplit(left, '\n');
      var body := TrimRight(Join(lines, "\n"), Newlines);
      if section == "" {
        return Some(Assigned(key, value) + "\n" + body + "\n");
      }
      return Some(body + "\n" + "\n" + "[" + section + "]" + "\n" + Assigned(key, value) + "\n");
    }
    ScanSpec(section, lines);
    var insert := SkipBlanks(lines, scan.start, if scan.end < 0 then |lines| else scan.end);
    return Some(Join(lines[..insert] + [Assigned(key, value)] + lines[insert..], "\n"));
  }

  method SkipBlanks(lines: seq<string>, start: int, k: nat) returns (insert: nat)
    requires k <= |lines|
    ensures insert == InsertAt(lines, start, k)
  {
    insert := k;
    while insert > start + 1 && insert > 0 && TrimSpace(lines[insert - 1]) == ""
      invariant insert <= k && InsertAt(lines, start, k) == InsertAt(lines, start, insert)
    {
      insert := insert - 1;
    }
  }

  /** The scan of SetTOMLValue, which stops at the first assignment of the key. */
  method FindLine(lines: seq<string>, section: string, key: string) returns (found: Option<nat>, scan: Scan)
    ensures found == FindKey(lines, section, key, 0)
    ensures found.None? ==> scan == Scanned(section, lines)
  {
    scan := Scan("", -1, -1);
    for i := 0 to |lines|
      invariant scan == Scanned(section, lines[..i])
      invariant FindKey(lines, section, key, 0) == FindKey(lines, section, key, i)
    {
      ScanSpec(section, lines[..i]);
      assert lines[..i + 1][..i] == lines[..i];
      if !IsHeader(lines[i]) && scan.current == section && KeyOf(lines[i]) == Some(key) {
        return Some(i), scan;
      }
      scan := ScanLine(section, scan, lines[i], i);
    }
    assert lines[..|lines|] == lines;
    found := None;
  }
}
