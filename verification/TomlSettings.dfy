/**
 What SetTOMLValue does to the settings of a document, by the editor's own reading.
 */
module TomlSettings {
  import opened Text
  import opened TomlLines
  import opened TomlEdit

  // ---- names that read back -----------------------------------------------

  /** The key a name in front of the equals sign stands for. */
  function NamedKey(name: string): Option<string> {
    if name == "" || name[0] == '#' || HasBracket(name) then None else Some(Trim(name, Quotes))
  }

  lemma {:induction false} TrimLeftStops(a: string, c: char, b: string, cut: Cut)
    requires !Cuts(cut, c)
    ensures TrimLeft(a + [c] + b, cut) == TrimLeft(a, cut) + [c] + b
  {
    if a == "" {
      assert a + [c] + b == [c] + b;
      assert TrimLeft(a, cut) + [c] + b == [c] + b;
    } else if Cuts(cut, a[0]) {
      TrimLeftStops(a[1..], c, b, cut);
      assert (a + [c] + b)[1..] == a[1..] + [c] + b;
    } else {
      assert (a + [c] + b)[0] == a[0];
    }
  }

  lemma {:induction false} TrimRightStops(a: string, c: char, b: string, cut: Cut)
    requires !Cuts(cut, c)
    ensures TrimRight(a + [c] + b, cut) == a + [c] + TrimRight(b, cut)
  {
    var s := a + [c] + b;
    if b == "" {
      assert s == a + [c] && a + [c] + TrimRight(b, cut) == a + [c];
    } else if Cuts(cut, b[|b| - 1]) {
      TrimRightStops(a, c, b[..|b| - 1], cut);
      assert s[..|s| - 1] == a + [c] + b[..|b| - 1] && s[|s| - 1] == b[|b| - 1];
    } else {
      assert s[|s| - 1] == b[|b| - 1];
    }
  }

  /** Trimming in two stages is trimming. */
  lemma {:induction false} TrimAfterLeft(a: string, cut: Cut)
    ensures Trim(TrimLeft(a, cut), cut) == Trim(a, cut)
  {
    TrimLeftSpec(a, cut);
  }

  /** The key of a line is decided by what stands before its first equals sign. */
  lemma {:induction false} KeyOfAssignment(a: string, b: string)
    requires '=' !in a
    ensures KeyOf(a + ['='] + b) == NamedKey(TrimSpace(a))
    ensures IsHeader(a + ['='] + b) ==> TrimSpace(a) != "" && TrimSpace(a)[0] == '['
  {
    var line := a + ['='] + b;
    var l, r := TrimLeft(a, Spaces), TrimRight(b, Spaces);
    TrimLeftStops(a, '=', b, Spaces);
    TrimRightStops(l, '=', b, Spaces);
    var t := TrimSpace(line);
    assert t == l + ['='] + r;
    TrimLeftSpec(a, Spaces);
    IndexCharAt(l, '=', r);
    assert t[..|l|] == l;
    TrimAfterLeft(a, Spaces);
    TrimRightSpec(l, Spaces);
    assert l != "" ==> TrimRight(l, Spaces) != "" && TrimRight(l, Spaces)[0] == l[0] == t[0];
  }

  lemma {:induction false} TrimBlanks(indent: string, key: string)
    requires forall i :: 0 <= i < |indent| ==> Cuts(Spaces, indent[i])
    ensures TrimSpace(indent + key + " ") == TrimSpace(key)
  {
    if indent == "" {
      assert indent + key + " " == key + " ";
      TrimTrailing(key);
    } else {
      TrimBlanks(indent[1..], key);
      assert indent + key + " " == [indent[0]] + (indent[1..] + key + " ");
      TrimSkipsLead(indent[0], indent[1..] + key + " ", Spaces);
    }
  }

  lemma {:induction false} TrimTrailing(key: string)
    ensures TrimSpace(key + " ") == TrimSpace(key)
  {
    if key != "" && Cuts(Spaces, key[0]) {
      TrimTrailing(key[1..]);
      assert (key + " ")[1..] == key[1..] + " ";
    } else if key == "" {
      assert (key + " ")[1..] == "";
    } else {
      assert (key + " ")[0] == key[0];
      assert (key + " ")[..|key|] == key;
    }
  }

  /** A key that can be written without quotes and read back as itself. */
  predicate Plain(key: string) {
    && key != "" && '=' !in key && '\n' !in key && !HasBracket(key) && key[0] != '#'
    && !Cuts(Spaces, key[0]) && !Cuts(Spaces, key[|key| - 1])
    && !Cuts(Quotes, key[0]) && !Cuts(Quotes, key[|key| - 1])
  }

  lemma {:induction false} TrimShorter(s: string, cut: Cut)
    ensures |Trim(s, cut)| <= |s|
    ensures |Trim(s, cut)| == |s| ==> Trim(s, cut) == s && (s != "" ==> !Cuts(cut, s[0]) && !Cuts(cut, s[|s| - 1]))
  {
    TrimLeftSpec(s, cut);
    TrimRightSpec(TrimLeft(s, cut), cut);
  }

  /** Exactly the plain keys are named by themselves. */
  lemma {:induction false} NamedByItself(key: string)
    requires '=' !in key && '\n' !in key
    ensures NamedKey(TrimSpace(key)) == Some(key) <==> Plain(key)
  {
    var name := TrimSpace(key);
    TrimShorter(key, Spaces);
    TrimShorter(name, Quotes);
    if Plain(key) {
      TrimFixed(key, Spaces);
      TrimFixed(key, Quotes);
    }
  }

  lemma {:induction false} KeyHasNoEquals(line: string)
    ensures KeyOf(line).Some? ==> '=' !in KeyOf(line).value
  {
    var t := TrimSpace(line);
    var eq := IndexChar(t, '=');
    if KeyOf(line).Some? {
      TrimSubset(t[..eq], Spaces);
      TrimSubset(TrimSpace(t[..eq]), Quotes);
    }
  }

  /** An assignment as it is written: blanks, the key, an equals sign and the rest. */
  predicate IsAssignment(line: string, indent: string, key: string, rest: string) {
    line == indent + key + " = " + rest && forall i :: 0 <= i < |indent| ==> Cuts(Spaces, indent[i])
  }

  /** What is written reads back as its key exactly when the key is plain. */
  lemma {:induction false} WrittenReads(line: string, indent: string, key: string, rest: string)
    requires IsAssignment(line, indent, key, rest) && '\n' !in key
    ensures KeyOf(line) == Some(key) <==> Plain(key)
    ensures Plain(key) ==> !IsHeader(line)
  {
    if '=' !in key {
      var a := indent + key + " ";
      assert line == a + ['='] + (" " + rest);
      assert '=' !in a;
      KeyOfAssignment(a, " " + rest);
      TrimBlanks(indent, key);
      NamedByItself(key);
      TrimShorter(key, Spaces);
      if Plain(key) {
        TrimFixed(key, Spaces);
      }
    } else {
      KeyHasNoEquals(line);
    }
  }

  // ---- looking a setting up -----------------------------------------------

  predicate IsFor(st: Setting, section: string, key: string) {
    st.section == section && st.key == key
  }

  /** The line that sets a key, as the editor looks it up: the first one. */
  function First(settings: seq<Setting>, section: string, key: string): Option<string> {
    if settings == [] then None
    else if IsFor(settings[0], section, key) then Some(settings[0].line)
    else First(settings[1..], section, key)
  }

  /** Every other setting, in order. */
  function Others(settings: seq<Setting>, section: string, key: string): seq<Setting> {
    if settings == [] then []
    else (if IsFor(settings[0], section, key) then [] else [settings[0]]) + Others(settings[1..], section, key)
  }

  lemma {:induction false} OthersConcat(a: seq<Setting>, b: seq<Setting>, section: string, key: string)
    ensures Others(a + b, section, key) == Others(a, section, key) + Others(b, section, key)
  {
    if a == [] {
      assert a + b == b;
    } else {
      assert (a + b)[1..] == a[1..] + b;
      OthersConcat(a[1..], b, section, key);
    }
  }

  lemma {:induction false} FirstConcat(a: seq<Setting>, b: seq<Setting>, section: string, key: string)
    ensures First(a + b, section, key) ==
            if First(a, section, key).Some? then First(a, section, key) else First(b, section, key)
  {
    if a == [] {
      assert a + b == b;
    } else {
      assert (a + b)[1..] == a[1..] + b;
      FirstConcat(a[1..], b, section, key);
    }
  }

  /** A document was edited: one setting of the key added or changed, the first to be found, the others as they were. */
  ghost predicate Edited(before: seq<Setting>, after: seq<Setting>, section: string, key: string, line: string) {
    First(after, section, key) == Some(line) && Others(after, section, key) == Others(before, section, key)
  }

  lemma {:induction false} OneLineRead(section: string, key: string, line: string)
    ensures First([Setting(section, key, line)], section, key) == Some(line)
    ensures Others([Setting(section, key, line)], section, key) == []
  {}

  /** Settings with one of the key put in the middle, or in place of one. */
  lemma {:induction false} EditedMiddle(a: seq<Setting>, was: seq<Setting>, b: seq<Setting>, section: string,
                                        key: string, line: string)
    requires First(a, section, key) == None
    requires Others(was, section, key) == []
    ensures Edited(a + was + b, a + [Setting(section, key, line)] + b, section, key, line)
  {
    var one := [Setting(section, key, line)];
    OneLineRead(section, key, line);
    OthersConcat(a + was, b, section, key);
    OthersConcat(a, was, section, key);
    OthersConcat(a + one, b, section, key);
    OthersConcat(a, one, section, key);
    FirstConcat(a + one, b, section, key);
    FirstConcat(a, one, section, key);
  }

  /** Lines before the first hit set nothing under the key. */
  lemma {:induction false} NoHitNothingFound(lines: seq<string>, n: nat, section: string, key: string)
    requires n <= |lines| && forall j :: 0 <= j < n ==> !Hit(lines, j, section, key)
    ensures First(Reading("", lines[..n]), section, key) == None
  {
    if n > 0 {
      NoHitNothingFound(lines, n - 1, section, key);
      assert lines[..n] == lines[..n - 1] + [lines[n - 1]];
      ReadingSnoc("", lines[..n - 1], lines[n - 1]);
      var more := if IsHeader(lines[n - 1]) then [] else ReadLine(Ends("", lines[..n - 1]), lines[n - 1]);
      FirstConcat(Reading("", lines[..n - 1]), more, section, key);
      assert !Hit(lines, n - 1, section, key);
    }
  }

  // ---- the three ways of writing ------------------------------------------

  /** The line reads as the key and is no header. */
  predicate Reads(line: string, key: string) {
    KeyOf(line) == Some(key) && !IsHeader(line)
  }

  lemma {:induction false} ReadingAround(a: seq<string>, line: string, b: seq<string>, section: string, key: string)
    requires Ends("", a) == section && Reads(line, key)
    ensures Reading("", a + [line] + b) == Reading("", a) + [Setting(section, key, line)] + Reading(section, b)
  {
    ReadingConcat("", a + [line], b);
    ReadingSnoc("", a, line);
  }

  lemma {:induction false} InPieces<T>(s: seq<T>, i: nat, x: T)
    requires i < |s|
    ensures s == s[..i] + [s[i]] + s[i + 1..] && s[i := x] == s[..i] + [x] + s[i + 1..]
  {}

  /** Replacing the first assignment of the key. */
  lemma {:induction false} ReplaceEdits(lines: seq<string>, i: nat, line: string, section: string, key: string)
    requires FindKey(lines, section, key, 0) == Some(i) && Reads(line, key)
    ensures Edited(Reading("", lines), Reading("", lines[i := line]), section, key, line)
  {
    assert Hit(lines, i, section, key);
    NoHitNothingFound(lines, i, section, key);
    InPieces(lines, i, line);
    MiddleEdits(lines[..i], lines[i], line, lines[i + 1..], section, key);
  }

  lemma {:induction false} MiddleEdits(a: seq<string>, was: string, line: string, b: seq<string>, section: string,
                                       key: string)
    requires Ends("", a) == section && Reads(was, key) && Reads(line, key)
             && First(Reading("", a), section, key) == None
    ensures Edited(Reading("", a + [was] + b), Reading("", a + [line] + b), section, key, line)
  {
    ReadingAround(a, was, b, section, key);
    ReadingAround(a, line, b, section, key);
    OneLineRead(section, key, was);
    EditedMiddle(Reading("", a), [Setting(section, key, was)], Reading(section, b), section, key, line);
  }

  /** Inserting a line inside the section when the key is not set before it. */
  lemma {:induction false} BetweenEdits(a: seq<string>, line: string, b: seq<string>, section: string, key: string)
    requires Ends("", a) == section && Reads(line, key) && First(Reading("", a), section, key) == None
    ensures Edited(Reading("", a + b), Reading("", a + [line] + b), section, key, line)
  {
    ReadingConcat("", a, b);
    ReadingAround(a, line, b, section, key);
    var first, second := Reading("", a), Reading(section, b);
    assert first + [] + second == first + second;
    EditedMiddle(first, [], second, section, key, line);
  }

  lemma {:induction false} InsertEdits(lines: seq<string>, k: nat, line: string, section: string, key: string)
    requires k <= |lines| && Ends("", lines[..k]) == section && Reads(line, key)
    requires FindKey(lines, section, key, 0) == None
    ensures Edited(Reading("", lines), Reading("", lines[..k] + [line] + lines[k..]), section, key, line)
  {
    assert lines == lines[..k] + lines[k..];
    NoHitNothingFound(lines, k, section, key);
    BetweenEdits(lines[..k], line, lines[k..], section, key);
  }

  /** Going back over blank lines stays in the section. */
  lemma {:induction false} InsertInside(lines: seq<string>, start: int, k: nat)
    requires k <= |lines|
    ensures Ends("", lines[..InsertAt(lines, start, k)]) == Ends("", lines[..k])
  {
    if k > start + 1 && k > 0 && TrimSpace(lines[k - 1]) == "" {
      InsertInside(lines, start, k - 1);
      assert lines[..k] == lines[..k - 1] + [lines[k - 1]];
      ReadingSnoc("", lines[..k - 1], lines[k - 1]);
      NoKeyNoHeader(lines[k - 1]);
    }
  }

  lemma {:induction false} BlankReadsNothing(section: string, lines: seq<string>, blank: string)
    requires blank == ""
    ensures Reading(section, lines + [blank]) == Reading(section, lines)
    ensures Ends(section, lines + [blank]) == Ends(section, lines)
  {
    ReadingSnoc(section, lines, blank);
    NoKeyNoHeader(blank);
  }

  lemma {:induction false} SplitNewline(body: string, blank: string)
    requires blank == ""
    ensures Split(body + ['\n'], '\n') == Split(body, '\n') + [blank]
  {
    assert body + ['\n'] == body + ['\n'] + blank;
    SplitAt(body, '\n', blank);
    SplitWhole(blank, '\n');
  }

  lemma {:induction false} NewlineReadsNothing(body: string)
    ensures ReadDoc(body + ['\n']) == ReadDoc(body)
  {
    var blank := body[..0];
    SplitNewline(body, blank);
    BlankReadsNothing("", Split(body, '\n'), blank);
  }

  /** What a newline at the end does not change, all of them do not change. */
  lemma {:induction false} IgnoresNewlines<T>(doc: string, f: string -> T)
    requires forall body :: f(body + ['\n']) == f(body)
    ensures f(TrimRight(doc, Newlines)) == f(doc)
  {
    if doc != "" && doc[|doc| - 1] == '\n' {
      var body := doc[..|doc| - 1];
      assert doc == body + ['\n'];
      IgnoresNewlines(body, f);
    }
  }

  /** The blank lines that end a document set nothing. */
  lemma {:induction false} TrailingNewlines(doc: string)
    ensures ReadDoc(TrimRight(doc, Newlines)) == ReadDoc(doc)
  {
    forall body: string
      ensures ReadDoc(body + ['\n']) == ReadDoc(body)
    {
      NewlineReadsNothing(body);
    }
    IgnoresNewlines(doc, ReadDoc);
  }

  /** A section name that a header line gives back. */
  predicate Readable(section: string) {
    '\n' !in section && (section != "" ==> !Cuts(Brackets, section[0]) && !Cuts(Brackets, section[|section| - 1]))
  }

  lemma {:induction false} HeaderReads(section: string)
    requires Readable(section) && section != ""
    ensures IsHeader("[" + section + "]") && SectionOf("[" + section + "]") == section
  {
    var line := "[" + section + "]";
    TrimFixed(line, Spaces);
    assert line == ['['] + (section + [']']);
    TrimSkipsLead('[', section + [']'], Brackets);
    assert (section + [']'])[..|section|] == section;
    TrimFixed(section, Brackets);
    assert (section + [']'])[0] == section[0];
  }

  /** A line put on top of a document. */
  lemma {:induction false} TopLineReads(line: string, doc: string, key: string)
    requires '\n' !in line && Reads(line, key)
    ensures ReadDoc(line + ['\n'] + doc) == [Setting("", key, line)] + ReadDoc(doc)
  {
    SplitAt(line, '\n', doc);
    SplitWhole(line, '\n');
    ReadingConcat("", [line], Split(doc, '\n'));
    ReadingOne("", line);
  }

  lemma {:induction false} AppendTop(doc: string, key: string, value: string)
    requires Plain(key) && '\n' !in value
    ensures Edited(ReadDoc(doc), ReadDoc(Appended(doc, "", key, value)), "", key, Assigned(key, value))
  {
    var line := Assigned(key, value);
    AssignedReads(key, value);
    TopAppended(doc, line, key);
    EditedTop(ReadDoc(doc), "", key, line);
    assert Appended(doc, "", key, value) == line + ['\n'] + (TrimRight(doc, Newlines) + ['\n']);
  }

  lemma {:induction false} TopAppended(doc: string, line: string, key: string)
    requires '\n' !in line && Reads(line, key)
    ensures ReadDoc(line + ['\n'] + (TrimRight(doc, Newlines) + ['\n'])) == [Setting("", key, line)] + ReadDoc(doc)
  {
    var body := TrimRight(doc, Newlines);
    TopLineReads(line, body + ['\n'], key);
    NewlineReadsNothing(body);
    TrailingNewlines(doc);
  }

  lemma {:induction false} EditedTop(read: seq<Setting>, section: string, key: string, line: string)
    ensures Edited(read, [Setting(section, key, line)] + read, section, key, line)
  {
    var one, none := [Setting(section, key, line)], read[..0];
    assert none + one + read == one + read && none + none + read == read;
    EditedMiddle(none, none, read, section, key, line);
  }

  lemma {:induction false} AssignedReads(key: string, value: string)
    requires Plain(key) && '\n' !in value
    ensures Reads(Assigned(key, value), key) && '\n' !in Assigned(key, value)
  {
    assert Assigned(key, value) == "" + key + " = " + value;
    WrittenReads(Assigned(key, value), "", key, value);
  }

  lemma {:induction false} AppendedText(doc: string, section: string, key: string, value: string)
    requires section != ""
    ensures Appended(doc, section, key, value) ==
            TrimRight(doc, Newlines) + ['\n']
            + ("" + ['\n'] + ("[" + section + "]" + ['\n'] + (Assigned(key, value) + ['\n'])))
  {}

  lemma {:induction false} SplitFour(body: string, blank: string, header: string, line: string)
    requires blank == "" && '\n' !in header && '\n' !in line
    ensures Split(body + ['\n'] + (blank + ['\n'] + (header + ['\n'] + (line + ['\n']))), '\n') ==
            Split(body, '\n') + ([blank] + ([header] + ([line] + [blank])))
  {
    var last := line + ['\n'];
    SplitNewline(line, blank);
    SplitWhole(line, '\n');
    SplitAt(header, '\n', last);
    SplitWhole(header, '\n');
    SplitAt(blank, '\n', header + ['\n'] + last);
    SplitWhole(blank, '\n');
    SplitAt(body, '\n', blank + ['\n'] + (header + ['\n'] + last));
  }

  lemma {:induction false} AppendedLines(doc: string, section: string, key: string, value: string)
    requires section != "" && '\n' !in section && '\n' !in key && '\n' !in value
    ensures Split(Appended(doc, section, key, value), '\n') ==
            Split(TrimRight(doc, Newlines), '\n') + [""] + ["[" + section + "]"] + [Assigned(key, value)] + [""]
  {
    AppendedText(doc, section, key, value);
    SplitFour(TrimRight(doc, Newlines), "", "[" + section + "]", Assigned(key, value));
  }

  lemma {:induction false} AppendSection(doc: string, section: string, key: string, value: string)
    requires section != "" && Readable(section) && Plain(key) && '\n' !in value
    requires FindKey(Split(doc, '\n'), section, key, 0) == None
    ensures Edited(ReadDoc(doc), ReadDoc(Appended(doc, section, key, value)), section, key, Assigned(key, value))
  {
    var line, header := Assigned(key, value), "[" + section + "]";
    var lines := Split(TrimRight(doc, Newlines), '\n');
    AppendedLines(doc, section, key, value);
    AssignedReads(key, value);
    HeaderReads(section);
    SectionOnTheEnd(lines, header, line, section, key);
    TrailingNewlines(doc);
    var all := Split(doc, '\n');
    assert all[..|all|] == all;
    NoHitNothingFound(all, |all|, section, key);
    EditedEnd(ReadDoc(doc), section, key, line);
  }

  lemma {:induction false} EditedEnd(read: seq<Setting>, section: string, key: string, line: string)
    requires First(read, section, key) == None
    ensures Edited(read, read + [Setting(section, key, line)], section, key, line)
  {
    var one, none := [Setting(section, key, line)], read[..0];
    assert read + one + none == read + one && read + none + none == read;
    EditedMiddle(read, none, none, section, key, line);
  }

  lemma {:induction false} SectionOnTheEnd(lines: seq<string>, header: string, line: string, section: string,
                                           key: string)
    requires IsHeader(header) && SectionOf(header) == section && Reads(line, key)
    ensures Reading("", lines + [""] + [header] + [line] + [""]) == Reading("", lines) + [Setting(section, key, line)]
  {
    BlankReadsNothing("", lines, "");
    ReadingSnoc("", lines + [""], header);
    ReadingSnoc("", lines + [""] + [header], line);
    BlankReadsNothing("", lines + [""] + [header] + [line], "");
  }

  // ---- the theorems -------------------------------------------------------

  lemma {:induction false} IndentIsBlank(line: string)
    ensures forall i :: 0 <= i < |Indent(line)| ==> Cuts(Spaces, Indent(line)[i])
  {
    TrimLeftSpec(line, Wsp);
  }

  lemma {:induction false} CommentFromClean(line: string, i: nat, quote: Option<char>)
    requires '\n' !in line
    ensures '\n' !in CommentFrom(line, i, quote)
    decreases |line| - i
  {
    if i < |line| {
      if quote.Some? {
        CommentFromClean(line, i + 1, if line[i] == quote.value then None else quote);
      } else if line[i] == '"' || line[i] == '\'' {
        CommentFromClean(line, i + 1, Some(line[i]));
      } else if line[i] == '#' {
        TrimSubset(line[i..], Spaces);
      } else {
        CommentFromClean(line, i + 1, None);
      }
    }
  }

  lemma {:induction false} RewrittenReads(line: string, key: string, value: string)
    requires '\n' !in line && Plain(key) && '\n' !in value
    ensures Reads(Rewritten(line, key, value), key) && '\n' !in Rewritten(line, key, value)
  {
    var rest := value + Comment(line);
    RewrittenForm(line, key, value);
    WrittenReads(Rewritten(line, key, value), Indent(line), key, rest);
    TrimLeftSpec(line, Wsp);
    var eq := IndexChar(line, '=');
    if eq >= 0 {
      CommentFromClean(line, eq + 1, None);
    }
  }

  /** The settings once the section.key tables have gone. */
  function Remaining(settings: seq<Setting>, section: string, key: string): seq<Setting> {
    if section == "" then settings else Outside(settings, section + "." + key)
  }

  lemma {:induction false} ClearedReads(doc: string, section: string, key: string)
    ensures ReadDoc(Cleared(doc, section, key)) == Remaining(ReadDoc(doc), section, key)
  {
    if section != "" {
      var table, lines := section + "." + key, Split(doc, '\n');
      var kept := Kept(lines, table, false, []);
      assert TrimSpace("") == "" && !Below("", table);
      ReadingKept("", lines, table);
      NoneLeft(lines, table, false, []);
      if kept == [] {
        SplitWhole("", '\n');
        ReadingOne("", "");
        NoKeyNoHeader("");
      } else {
        SplitJoin(kept, '\n');
      }
    }
  }

  lemma {:induction false} ReplaceDoc(lines: seq<string>, i: nat, section: string, key: string, value: string)
    requires forall l :: l in lines ==> '\n' !in l
    requires FindKey(lines, section, key, 0) == Some(i) && Plain(key) && '\n' !in value
    ensures var line := Rewritten(lines[i], key, value);
            Edited(Reading("", lines), ReadDoc(Join(lines[i := line], "\n")), section, key, line)
  {
    var line := Rewritten(lines[i], key, value);
    RewrittenReads(lines[i], key, value);
    ReplaceEdits(lines, i, line, section, key);
    SplitJoin(lines[i := line], '\n');
  }

  lemma {:induction false} InsertDoc(lines: seq<string>, section: string, key: string, value: string)
    requires forall l :: l in lines ==> '\n' !in l
    requires FindKey(lines, section, key, 0) == None && Plain(key) && '\n' !in value
    requires Scanned(section, lines).start >= 0
    ensures var scan := Scanned(section, lines);
            scan.end <= |lines| &&
            var k := InsertAt(lines, scan.start, if scan.end < 0 then |lines| else scan.end);
            Edited(Reading("", lines), ReadDoc(Join(lines[..k] + [Assigned(key, value)] + lines[k..], "\n")),
                   section, key, Assigned(key, value))
  {
    var scan, line := Scanned(section, lines), Assigned(key, value);
    ScanSpec(section, lines);
    var from := if scan.end < 0 then |lines| else scan.end;
    var k := InsertAt(lines, scan.start, from);
    assert lines[..|lines|] == lines;
    InsertInside(lines, scan.start, from);
    AssignedReads(key, value);
    InsertEdits(lines, k, line, section, key);
    SplitJoin(lines[..k] + [line] + lines[k..], '\n');
  }

  /**
   Setting a plain key in a readable section: the lookup finds the line written, and
   every other setting outside the replaced section.key tables is the same line as
   before, in the same order.
   */
  lemma {:induction false} SetEdits(doc: string, section: string, key: string, value: string)
    requires Plain(key) && Readable(section) && '\n' !in value
    ensures Edited(Remaining(ReadDoc(doc), section, key), ReadDoc(SetDoc(doc, section, key, value)),
                   section, key, WrittenLine(doc, section, key, value))
  {
    ClearedReads(doc, section, key);
    var left := Cleared(doc, section, key);
    var lines := Split(left, '\n');
    var found := FindKey(lines, section, key, 0);
    if found.Some? {
      ReplaceDoc(lines, found.value, section, key, value);
    } else if Scanned(section, lines).start >= 0 {
      InsertDoc(lines, section, key, value);
    } else if section == "" {
      AppendTop(left, key, value);
    } else {
      AppendSection(left, section, key, value);
    }
  }

  /** Every setting read is what its line says, under a section a header can name. */
  lemma {:induction false} ReadingIsHonest(section: string, lines: seq<string>, st: Setting)
    requires Readable(section) && (forall l :: l in lines ==> '\n' !in l) && st in Reading(section, lines)
    ensures KeyOf(st.line) == Some(st.key) && '\n' !in st.line && Readable(st.section)
    decreases |lines|
  {
    var line := lines[0];
    if IsHeader(line) {
      var t := TrimSpace(line);
      TrimSubset(line, Spaces);
      TrimSubset(t, Brackets);
      TrimLeftSpec(t, Brackets);
      TrimRightSpec(TrimLeft(t, Brackets), Brackets);
      ReadingIsHonest(SectionOf(line), lines[1..], st);
    } else if st !in ReadLine(section, line) {
      ReadingIsHonest(section, lines[1..], st);
    }
  }

  lemma {:induction false} FirstIsThere(settings: seq<Setting>, section: string, key: string)
    ensures First(settings, section, key).Some? ==>
              Setting(section, key, First(settings, section, key).value) in settings
  {
    if settings != [] && !IsFor(settings[0], section, key) {
      FirstIsThere(settings[1..], section, key);
    }
  }

  /** The lookup finds the line written exactly when the key is plain and the section can be named by a header. */
  lemma {:induction false} SetReadsBackIff(doc: string, section: string, key: string, value: string)
    requires '\n' !in value
    ensures First(ReadDoc(SetDoc(doc, section, key, value)), section, key)
            == Some(WrittenLine(doc, section, key, value))
            <==> Plain(key) && Readable(section)
  {
    var after, line := ReadDoc(SetDoc(doc, section, key, value)), WrittenLine(doc, section, key, value);
    if Plain(key) && Readable(section) {
      SetEdits(doc, section, key, value);
    } else if First(after, section, key) == Some(line) {
      FirstIsThere(after, section, key);
      ReadingIsHonest("", Split(SetDoc(doc, section, key, value), '\n'), Setting(section, key, line));
      var indent, rest := WrittenForm(doc, section, key, value);
      assert '\n' !in key by {
        assert forall c :: c in key ==> c in line;
      }
      WrittenReads(line, indent, key, rest);
    }
  }

  lemma {:induction false} RewrittenForm(line: string, key: string, value: string)
    ensures IsAssignment(Rewritten(line, key, value), Indent(line), key, value + Comment(line))
  {
    IndentIsBlank(line);
  }

  lemma {:induction false} WrittenForm(doc: string, section: string, key: string, value: string)
    returns (indent: string, rest: string)
    ensures IsAssignment(WrittenLine(doc, section, key, value), indent, key, rest)
  {
    var lines := Split(Cleared(doc, section, key), '\n');
    var found := FindKey(lines, section, key, 0);
    if found.Some? {
      var line := lines[found.value];
      RewrittenForm(line, key, value);
      indent, rest := Indent(line), value + Comment(line);
    } else {
      indent, rest := "", value;
      assert Assigned(key, value) == indent + key + " = " + rest;
    }
  }

  /** When the key was set and no section.key table stood in the way, exactly that one line changes. */
  lemma {:induction false} OneLineChanges(doc: string, section: string, key: string, value: string, i: nat)
    requires Plain(key) && '\n' !in value
    requires FindKey(Split(doc, '\n'), section, key, 0) == Some(i)
    requires section != "" ==>
      forall l :: l in Split(doc, '\n') && IsHeader(l) ==> !Removes(l, section + "." + key)
    ensures Split(SetDoc(doc, section, key, value), '\n')
            == Split(doc, '\n')[i := Rewritten(Split(doc, '\n')[i], key, value)]
  {
    var lines := Split(doc, '\n');
    if section != "" {
      NothingToRemove(lines, section + "." + key);
      JoinSplit(doc, '\n');
    }
    assert Cleared(doc, section, key) == doc;
    RewrittenReads(lines[i], key, value);
    SplitJoin(lines[i := Rewritten(lines[i], key, value)], '\n');
  }

  lemma {:induction false} FirstOfOthers(settings: seq<Setting>, section: string, key: string, s: string, k: string)
    requires s != section || k != key
    ensures First(Others(settings, section, key), s, k) == First(settings, s, k)
  {
    if settings != [] {
      FirstOfOthers(settings[1..], section, key, s, k);
      var rest := Others(settings[1..], section, key);
      assert ([settings[0]] + rest)[1..] == rest && [] + rest == rest;
    }
  }

  lemma {:induction false} FirstOutside(settings: seq<Setting>, table: string, s: string, k: string)
    requires !Below(TrimSpace(s), table)
    ensures First(Outside(settings, table), s, k) == First(settings, s, k)
  {
    if settings != [] {
      FirstOutside(settings[1..], table, s, k);
      var rest := Outside(settings[1..], table);
      assert ([settings[0]] + rest)[1..] == rest && [] + rest == rest;
    }
  }

  /** Any other section and key, outside the replaced tables, finds the line it found before. */
  lemma {:induction false} OtherSettingsStay(doc: string, section: string, key: string, value: string, s: string,
                                             k: string)
    requires Plain(key) && Readable(section) && '\n' !in value
    requires s != section || k != key
    requires section != "" ==> !Below(TrimSpace(s), section + "." + key)
    ensures First(ReadDoc(SetDoc(doc, section, key, value)), s, k) == First(ReadDoc(doc), s, k)
  {
    var before, after := ReadDoc(doc), ReadDoc(SetDoc(doc, section, key, value));
    SetEdits(doc, section, key, value);
    FirstOfOthers(after, section, key, s, k);
    FirstOfOthers(Remaining(before, section, key), section, key, s, k);
    if section != "" {
      FirstOutside(before, section + "." + key, s, k);
    }
  }

  // ---- where a new key goes -----------------------------------------------

  /** Only blank lines are passed over, and all of them. */
  lemma {:induction false} PassesBlanks(lines: seq<string>, start: int, k: nat)
    requires 0 <= start < k <= |lines|
    ensures var r := InsertAt(lines, start, k);
            && start < r && (forall i :: r <= i < k ==> TrimSpace(lines[i]) == "")
            && (r == start + 1 || TrimSpace(lines[r - 1]) != "")
  {
    if k > start + 1 && TrimSpace(lines[k - 1]) == "" {
      PassesBlanks(lines, start, k - 1);
    }
  }

  predicate Opens(section: string, line: string) {
    IsHeader(line) && SectionOf(line) == section
  }

  /** The last place where the section begins: its last header, or the top of a document for no section. */
  predicate Begins(section: string, lines: seq<string>, start: int) {
    && 0 <= start < |lines|
    && (forall i :: start < i < |lines| ==> !Opens(section, lines[i]))
    && (Opens(section, lines[start]) || (section == "" && start == 0 && !IsHeader(lines[0])))
  }

  /** The lines up to here hold no header behind the start, and the next one, if there is one, is a header. */
  predicate Reaches(lines: seq<string>, start: int, e: int) {
    && 0 <= start < e <= |lines|
    && (forall i :: start < i < e ==> !IsHeader(lines[i]))
    && (e < |lines| ==> IsHeader(lines[e]))
  }

  /** A place behind the last line of the section that is not blank, where the section last begins. */
  ghost predicate GoesLast(section: string, lines: seq<string>, r: nat) {
    exists start, e :: Begins(section, lines, start) && Reaches(lines, start, e) && start < r <= e
      && (forall i :: r <= i < e ==> TrimSpace(lines[i]) == "")
      && (r == start + 1 || TrimSpace(lines[r - 1]) != "")
  }

  /** What the bounds of the scan are. */
  lemma {:induction false} ScanBounds(section: string, lines: seq<string>)
    ensures var s := Scanned(section, lines);
            && s.start < |lines| && s.end < |lines|
            && (s.start >= 0 ==> Begins(section, lines, s.start))
            && (s.start < 0 ==> forall i :: 0 <= i < |lines| ==> !Opens(section, lines[i]))
            && (section == "" && s.current == "" && s.start < 0 ==> lines == [])
            && (s.start >= 0 && s.current == section ==> forall i :: s.start < i < |lines| ==> !IsHeader(lines[i]))
            && (s.start >= 0 && s.current != section ==> s.start < s.end)
            && (0 <= s.start < s.end ==> Reaches(lines, s.start, s.end))
  {
    if lines != [] {
      var n := |lines| - 1;
      var before := lines[..n];
      ScanBounds(section, before);
      assert forall i :: 0 <= i < n ==> before[i] == lines[i];
    }
  }

  lemma {:induction false} BeginsOnce(section: string, lines: seq<string>, a: int, b: int)
    requires Begins(section, lines, a) && Begins(section, lines, b)
    ensures a == b
  {}

  /**
   A new key goes behind the last line of its section that is not blank exactly when the
   section has not ended before it last begins. It has where its header is repeated, as
   array tables are, and the last of them runs to the end of the document.
   */
  lemma {:induction false} InsertedAfterTextIff(section: string, lines: seq<string>)
    requires Scanned(section, lines).start >= 0
    ensures var s := Scanned(section, lines);
            && s.end < |lines|
            && (GoesLast(section, lines, InsertAt(lines, s.start, if s.end < 0 then |lines| else s.end))
                <==> s.end < 0 || s.start < s.end)
  {
    ScanBounds(section, lines);
    var s := Scanned(section, lines);
    var k := if s.end < 0 then |lines| else s.end;
    var r := InsertAt(lines, s.start, k);
    if s.end < 0 || s.start < s.end {
      PassesBlanks(lines, s.start, k);
      assert Reaches(lines, s.start, k);
    } else {
      NotBefore(section, lines, s.start, r);
    }
  }

  lemma {:induction false} NotBefore(section: string, lines: seq<string>, start: int, r: nat)
    requires Begins(section, lines, start) && r <= start
    ensures !GoesLast(section, lines, r)
  {
    forall other | Begins(section, lines, other)
      ensures other == start
    {
      BeginsOnce(section, lines, other, start);
    }
  }

  lemma {:induction false} RepeatedScan(section: string, h: string, gap: string, other: string)
    requires Opens(section, h) && !IsHeader(gap) && IsHeader(other) && SectionOf(other) != section && section != ""
    ensures Scanned(section, [h, gap, other, h]) == Scan(section, 3, 2)
  {
    ScanMore(section, [], h);
    ScanMore(section, [h], gap);
    ScanMore(section, [h, gap], other);
    ScanMore(section, [h, gap, other], h);
    assert [] + [h] == [h] && [h] + [gap] == [h, gap];
    assert [h, gap] + [other] == [h, gap, other] && [h, gap, other] + [h] == [h, gap, other, h];
  }

  lemma {:induction false} ScanMore(section: string, lines: seq<string>, line: string)
    ensures Scanned(section, lines + [line]) == ScanLine(section, Scanned(section, lines), line, |lines|)
  {
    assert (lines + [line])[..|lines|] == lines;
  }

  lemma {:induction false} ArrayTableOpens(name: string, line: string)
    requires name != "" && !Cuts(Brackets, name[0]) && !Cuts(Brackets, name[|name| - 1])
    requires line == ['[', '['] + name + [']', ']']
    ensures Opens(name, line)
  {
    TrimFixed(line, Spaces);
    var inner, right := name + [']', ']'], name + [']'];
    assert line[1..] == ['['] + inner && line[1..][1..] == inner;
    assert TrimLeft(line, Brackets) == TrimLeft(line[1..], Brackets) == TrimLeft(inner, Brackets) == inner;
    assert inner[..|inner| - 1] == right && right[..|right| - 1] == name;
    assert TrimRight(inner, Brackets) == TrimRight(right, Brackets) == TrimRight(name, Brackets) == name;
  }

  lemma {:induction false} TableOpens(name: string, line: string)
    requires name != "" && !Cuts(Brackets, name[0]) && !Cuts(Brackets, name[|name| - 1])
    requires line == ['['] + name + [']']
    ensures Opens(name, line)
  {
    TrimFixed(line, Spaces);
    var right := name + [']'];
    assert line[1..] == right && right[..|right| - 1] == name;
    assert TrimLeft(line, Brackets) == TrimLeft(right, Brackets) == right;
    assert TrimRight(right, Brackets) == TrimRight(name, Brackets) == name;
  }

  /** With two array tables of one name, a new key goes behind the blank line of the first instead. */
  lemma {:induction false} RepeatedTable(section: string, other: string, lines: seq<string>)
    requires section == "a" && other == "b" && lines == ["[[a]]", "", "[b]", "[[a]]"]
    ensures Scanned(section, lines) == Scan(section, 3, 2)
    ensures InsertAt(lines, 3, 2) == 2 && lines[1] == "" && !GoesLast(section, lines, 2)
  {
    ArrayTableOpens(section, lines[0]);
    TableOpens(other, lines[2]);
    RepeatedScan(section, lines[0], lines[1], lines[2]);
    assert lines == [lines[0], lines[1], lines[2], lines[0]];
    InsertedAfterTextIff(section, lines);
  }
}
