/**
 How the TOML editor reads a document: line by line, each line a table header, an
 assignment under the last header, or neither (internal/config/toml_edit.go). Also
 RemoveTOMLSection, which works on the same reading.
 */
module TomlLines {
  import opened Text

  predicate IsHeader(line: string) {
    var t := TrimSpace(line);
    t != "" && t[0] == '[' && t[|t| - 1] == ']'
  }

  /** The section a header opens, as SetTOMLValue reads it. */
  function SectionOf(line: string): string {
    Trim(TrimSpace(line), Brackets)
  }

  predicate HasBracket(s: string) {
    '[' in s || ']' in s || '{' in s || '}' in s
  }

  /** tomlAssignmentKey of a trimmed line. */
  function AssignmentKey(trimmed: string): Option<string> {
    if trimmed == "" || trimmed[0] == '#' then None
    else
      var eq := IndexChar(trimmed, '=');
      if eq < 0 then None
      else
        var name := TrimSpace(trimmed[..eq]);
        if name == "" || HasBracket(name) then None else Some(Trim(name, Quotes))
  }

  function KeyOf(line: string): Option<string> {
    AssignmentKey(TrimSpace(line))
  }

  // ---- reading a document -------------------------------------------------

  /** An assignment line, with the section and key it sets. */
  datatype Setting = Setting(section: string, key: string, line: string)

  function ReadLine(section: string, line: string): seq<Setting> {
    match KeyOf(line)
    case None => []
    case Some(key) => [Setting(section, key, line)]
  }

  /** The settings of lines that start inside a section. */
  function Reading(section: string, lines: seq<string>): seq<Setting>
    decreases |lines|
  {
    if lines == [] then []
    else if IsHeader(lines[0]) then Reading(SectionOf(lines[0]), lines[1..])
    else ReadLine(section, lines[0]) + Reading(section, lines[1..])
  }

  /** The section after lines that start inside one. */
  function Ends(section: string, lines: seq<string>): string
    decreases |lines|
  {
    if lines == [] then section
    else if IsHeader(lines[0]) then Ends(SectionOf(lines[0]), lines[1..])
    else Ends(section, lines[1..])
  }

  function ReadDoc(doc: string): seq<Setting> {
    Reading("", Split(doc, '\n'))
  }

  lemma {:induction false} ReadingConcat(section: string, a: seq<string>, b: seq<string>)
    ensures Reading(section, a + b) == Reading(section, a) + Reading(Ends(section, a), b)
    ensures Ends(section, a + b) == Ends(Ends(section, a), b)
    decreases |a|
  {
    if a == [] {
      assert a + b == b;
    } else {
      assert (a + b)[1..] == a[1..] + b;
      if IsHeader(a[0]) {
        ReadingConcat(SectionOf(a[0]), a[1..], b);
      } else {
        ReadingConcat(section, a[1..], b);
      }
    }
  }

  lemma {:induction false} ReadingOne(section: string, line: string)
    ensures Reading(section, [line]) == if IsHeader(line) then [] else ReadLine(section, line)
    ensures Ends(section, [line]) == if IsHeader(line) then SectionOf(line) else section
  {
    assert [line][1..] == [];
  }

  lemma {:induction false} ReadingSnoc(section: string, lines: seq<string>, line: string)
    ensures Reading(section, lines + [line]) ==
            Reading(section, lines) + if IsHeader(line) then [] else ReadLine(Ends(section, lines), line)
    ensures Ends(section, lines + [line]) == if IsHeader(line) then SectionOf(line) else Ends(section, lines)
  {
    ReadingConcat(section, lines, [line]);
    ReadingOne(Ends(section, lines), line);
  }

  lemma {:induction false} NoKeyNoHeader(line: string)
    requires TrimSpace(line) == "" || TrimSpace(line)[0] == '#'
    ensures KeyOf(line) == None && !IsHeader(line)
  {}

  // ---- removing a table ---------------------------------------------------

  /** The table and its descendants. */
  predicate Below(name: string, table: string) {
    name == table || HasPrefix(name, table + ".")
  }

  /** RemoveTOMLSection trims the name once more. */
  predicate Removes(line: string, table: string) {
    Below(TrimSpace(SectionOf(line)), table)
  }

  /** A blank or comment line. */
  predicate IsNote(line: string) {
    var t := TrimSpace(line);
    t == "" || t[0] == '#'
  }

  /** One line of RemoveTOMLSection: what is written, whether lines are now skipped, the notes held back. */
  datatype Pass = Pass(out: seq<string>, skipping: bool, held: seq<string>)

  function PassLine(line: string, table: string, skipping: bool, held: seq<string>): Pass {
    if IsHeader(line) then
      if Removes(line, table) then Pass([], true, [])
      else Pass((if skipping then held else []) + [line], false, [])
    else if !skipping then Pass([line], false, [])
    else Pass([], true, if IsNote(line) then held + [line] else [])
  }

  /** The lines kept from a state on. */
  function Kept(lines: seq<string>, table: string, skipping: bool, held: seq<string>): seq<string> {
    if lines == [] then []
    else
      var p := PassLine(lines[0], table, skipping, held);
      p.out + Kept(lines[1..], table, p.skipping, p.held)
  }

  function Removed(doc: string, table: string): string {
    Join(Kept(Split(doc, '\n'), table, false, []), "\n")
  }

  lemma {:induction false} KeptStep(lines: seq<string>, i: nat, table: string, skipping: bool, held: seq<string>,
                                    out: seq<string>)
    requires i < |lines|
    ensures var p := PassLine(lines[i], table, skipping, held);
            out + Kept(lines[i..], table, skipping, held)
            == (out + p.out) + Kept(lines[i + 1..], table, p.skipping, p.held)
  {
    assert lines[i..][1..] == lines[i + 1..];
  }

  /** One turn of the loop. */
  method OneLine(line: string, table: string, skipping: bool, held: seq<string>) returns (p: Pass)
    requires !skipping ==> held == []
    ensures p == PassLine(line, table, skipping, held)
  {
    var out: seq<string>, skips, holds := [], skipping, held;
    var trimmed := TrimSpace(line);
    if trimmed != "" && trimmed[0] == '[' && trimmed[|trimmed| - 1] == ']' {
      var remove := Removes(line, table);
      if skips && !remove {
        out := out + holds;
        holds := [];
      }
      skips := remove;
    }
    if !skips {
      out := out + [line];
    } else if trimmed == "" || trimmed[0] == '#' {
      holds := holds + [line];
    } else {
      holds := [];
    }
    return Pass(out, skips, holds);
  }

  method RemoveSection(doc: string, table: string) returns (r: string)
    ensures r == Removed(doc, table)
  {
    var lines := Split(doc, '\n');
    var out: seq<string>, skipping, held: seq<string> := [], false, [];
    assert lines[0..] == lines;
    for i := 0 to |lines|
      invariant !skipping ==> held == []
      invariant Kept(lines, table, false, []) == out + Kept(lines[i..], table, skipping, held)
    {
      KeptStep(lines, i, table, skipping, held, out);
      var p := OneLine(lines[i], table, skipping, held);
      out, skipping, held := out + p.out, p.skipping, p.held;
    }
    assert lines[|lines|..] == [] && out + [] == out;
    return Join(out, "\n");
  }

  // ---- what removing leaves -----------------------------------------------

  /** The settings outside a table and its descendants. */
  function Outside(settings: seq<Setting>, table: string): seq<Setting> {
    if settings == [] then []
    else (if Below(TrimSpace(settings[0].section), table) then [] else [settings[0]]) + Outside(settings[1..], table)
  }

  lemma {:induction false} OutsideConcat(a: seq<Setting>, b: seq<Setting>, table: string)
    ensures Outside(a + b, table) == Outside(a, table) + Outside(b, table)
  {
    if a == [] {
      assert a + b == b;
    } else {
      assert (a + b)[1..] == a[1..] + b;
      OutsideConcat(a[1..], b, table);
    }
  }

  lemma {:induction false} OutsideLine(section: string, line: string, table: string)
    ensures Outside(ReadLine(section, line), table) ==
            if Below(TrimSpace(section), table) then [] else ReadLine(section, line)
  {}

  lemma {:induction false} NotesReadNothing(section: string, notes: seq<string>)
    requires forall i :: 0 <= i < |notes| ==> IsNote(notes[i])
    ensures Reading(section, notes) == [] && Ends(section, notes) == section
  {
    if notes != [] {
      NoKeyNoHeader(notes[0]);
      NotesReadNothing(section, notes[1..]);
    }
  }

  lemma {:induction false} ReadingRestored(section: string, notes: seq<string>, header: string, after: seq<string>)
    requires IsHeader(header) && forall i :: 0 <= i < |notes| ==> IsNote(notes[i])
    ensures Reading(section, notes + [header] + after) == Reading(SectionOf(header), after)
  {
    ReadingConcat(section, notes + [header], after);
    ReadingSnoc(section, notes, header);
    NotesReadNothing(section, notes);
  }

  /** Removing a table removes exactly its settings and those of its descendants, in order. */
  lemma {:induction false} ReadingKept(section: string, lines: seq<string>, table: string)
    requires !Below(TrimSpace(section), table)
    ensures Reading(section, Kept(lines, table, false, [])) == Outside(Reading(section, lines), table)
    decreases |lines|, 1
  {
    if lines != [] {
      var line, rest := lines[0], lines[1..];
      if IsHeader(line) && Removes(line, table) {
        assert [] + Kept(rest, table, true, []) == Kept(rest, table, true, []);
        ReadingSkipped(section, SectionOf(line), rest, table, []);
      } else {
        var after := Kept(rest, table, false, []);
        assert ([line] + after)[1..] == after && [] + [line] == [line];
        if IsHeader(line) {
          ReadingKept(SectionOf(line), rest, table);
        } else {
          ReadingKept(section, rest, table);
          OutsideConcat(ReadLine(section, line), Reading(section, rest), table);
          OutsideLine(section, line, table);
        }
      }
    }
  }

  lemma {:induction false} ReadingSkipped(section: string, gone: string, lines: seq<string>, table: string,
                                          held: seq<string>)
    requires Below(TrimSpace(gone), table) && forall i :: 0 <= i < |held| ==> IsNote(held[i])
    ensures Reading(section, Kept(lines, table, true, held)) == Outside(Reading(gone, lines), table)
    decreases |lines|, 0
  {
    if lines != [] {
      var line, rest := lines[0], lines[1..];
      if IsHeader(line) {
        if Removes(line, table) {
          assert [] + Kept(rest, table, true, []) == Kept(rest, table, true, []);
          ReadingSkipped(section, SectionOf(line), rest, table, []);
        } else {
          ReadingRestored(section, held, line, Kept(rest, table, false, []));
          ReadingKept(SectionOf(line), rest, table);
        }
      } else {
        OutsideConcat(ReadLine(gone, line), Reading(gone, rest), table);
        OutsideLine(gone, line, table);
        var kept := if IsNote(line) then held + [line] else [];
        assert [] + Kept(rest, table, true, kept) == Kept(rest, table, true, kept);
        ReadingSkipped(section, gone, rest, table, kept);
      }
    }
  }

  /** Lines without a header of the table stay as they are. */
  lemma {:induction false} NothingToRemove(lines: seq<string>, table: string)
    requires forall i :: 0 <= i < |lines| && IsHeader(lines[i]) ==> !Removes(lines[i], table)
    ensures Kept(lines, table, false, []) == lines
  {
    if lines != [] {
      NothingToRemove(lines[1..], table);
      assert lines == [lines[0]] + lines[1..];
    }
  }

  lemma {:induction false} NoneLeft(lines: seq<string>, table: string, skipping: bool, held: seq<string>)
    requires forall i :: 0 <= i < |held| ==> IsNote(held[i])
    ensures forall line :: line in Kept(lines, table, skipping, held) && IsHeader(line) ==> !Removes(line, table)
    ensures forall line :: line in Kept(lines, table, skipping, held) ==> line in lines || line in held
  {
    if lines != [] {
      var line, rest := lines[0], lines[1..];
      assert forall x :: x in rest ==> x in lines;
      forall i | 0 <= i < |held| {
        NoKeyNoHeader(held[i]);
      }
      NoneLeft(rest, table, false, []);
      NoneLeft(rest, table, true, []);
      if IsNote(line) {
        NoneLeft(rest, table, true, held + [line]);
      }
    }
  }

  /** Every table that is not removed keeps all its lines, whole and in place among what is kept. */
  lemma {:induction false} TableStays(before: seq<string>, header: string, body: seq<string>, after: seq<string>,
                                      table: string, skipping: bool, held: seq<string>) returns (pre: seq<string>)
    requires IsHeader(header) && !Removes(header, table)
    requires forall i :: 0 <= i < |body| ==> !IsHeader(body[i])
    ensures Kept(before + ([header] + body + after), table, skipping, held)
            == pre + ([header] + body) + Kept(after, table, false, [])
    ensures Kept(before + [header], table, skipping, held) == pre + [header]
    decreases |before|
  {
    var rest := [header] + body + after;
    if before == [] {
      pre := if skipping then held else [];
      HeaderStays(header, body, after, table, skipping, held);
      assert before + rest == rest && before + [header] == [header];
    } else {
      var p := PassLine(before[0], table, skipping, held);
      TailOf(before, rest);
      TailOf(before, [header]);
      var tail := TableStays(before[1..], header, body, after, table, p.skipping, p.held);
      Regrouped(p.out, tail, [header] + body, Kept(after, table, false, []));
      Regrouped(p.out, tail, [header], []);
      pre := p.out + tail;
    }
  }

  lemma {:induction false} HeaderStays(header: string, body: seq<string>, after: seq<string>, table: string,
                                       skipping: bool, held: seq<string>)
    requires IsHeader(header) && !Removes(header, table)
    requires forall i :: 0 <= i < |body| ==> !IsHeader(body[i])
    ensures var pre := if skipping then held else [];
            && Kept([header] + body + after, table, skipping, held)
               == pre + ([header] + body) + Kept(after, table, false, [])
            && Kept([header], table, skipping, held) == pre + [header]
  {
    var rest := [header] + body + after;
    assert rest[0] == header && rest[1..] == body + after && [header][1..] == [];
    BodyStays(body, after, table);
    Regrouped(if skipping then held else [], [header], body, Kept(after, table, false, []));
  }

  lemma {:induction false} TailOf<T>(a: seq<T>, b: seq<T>)
    requires a != []
    ensures (a + b)[0] == a[0] && (a + b)[1..] == a[1..] + b
  {}

  lemma {:induction false} Regrouped<T>(a: seq<T>, b: seq<T>, c: seq<T>, d: seq<T>)
    ensures a + (b + c + d) == a + b + c + d == a + b + (c + d) == a + (b + c) + d
    ensures a + (b + c) == a + b + c
  {}

  lemma {:induction false} BodyStays(body: seq<string>, after: seq<string>, table: string)
    requires forall i :: 0 <= i < |body| ==> !IsHeader(body[i])
    ensures Kept(body + after, table, false, []) == body + Kept(after, table, false, [])
  {
    if body == [] {
      assert body + after == after;
    } else {
      assert (body + after)[1..] == body[1..] + after;
      BodyStays(body[1..], after, table);
      assert body == [body[0]] + body[1..];
    }
  }

  /** Removing a table twice is removing it once. */
  lemma {:induction false} RemovedTwice(doc: string, table: string)
    ensures Removed(Removed(doc, table), table) == Removed(doc, table)
  {
    var lines := Split(doc, '\n');
    var kept := Kept(lines, table, false, []);
    NoneLeft(lines, table, false, []);
    var again := Split(Removed(doc, table), '\n');
    if kept == [] {
      SplitWhole("", '\n');
      NoKeyNoHeader("");
      NothingToRemove([""], table);
    } else {
      SplitJoin(kept, '\n');
      NothingToRemove(kept, table);
    }
  }
}
