/**
 The streaming body canonicalizer (internal/arc/body_reader.go). It keeps pending
 white space and empty lines as flags and a counter, because only a later
 nonempty line decides whether they are hashed. The bytes it writes are the
 canonical body, however the body is cut into reads.
 */
module ArcBodyReader {
  import opened Text
  import opened ArcCanonical

  /** What has been written once `done` lines are complete and the open line's canonical form is `cur`. */
  function Emitted(done: seq<string>, cur: string): string {
    if cur == "" then Terminated(StripEmpty(done)) else Terminated(done) + cur
  }

  /** Empty lines seen since the last content. */
  function Owed(done: seq<string>): nat {
    |done| - |StripEmpty(done)|
  }

  function Blank(n: nat): string {
    if n == 0 then "" else Blank(n - 1) + CRLF
  }

  lemma {:induction false} StripThenBlank(lines: seq<string>)
    ensures Terminated(lines) == Terminated(StripEmpty(lines)) + Blank(Owed(lines))
  {
    if lines != [] && lines[|lines| - 1] == "" {
      var init := lines[..|lines| - 1];
      StripThenBlank(init);
      assert lines == init + [""];
      OneMoreBlank(init);
      Regroup(Terminated(StripEmpty(init)), Blank(Owed(init)), CRLF);
    } else {
      assert Terminated(lines) + "" == Terminated(lines);
    }
  }

  lemma {:induction false} OneMoreBlank(init: seq<string>)
    ensures Terminated(init + [""]) == Terminated(init) + CRLF
    ensures StripEmpty(init + [""]) == StripEmpty(init) && Owed(init + [""]) == Owed(init) + 1
  {
    assert (init + [""])[..|init|] == init && "" + CRLF == CRLF;
  }

  lemma {:induction false} Regroup(a: string, b: string, c: string)
    ensures a + b + c == a + (b + c)
  {}

  /** Ending a line: an empty one is only counted, any other is terminated. */
  lemma {:induction false} EmittedEndLine(done: seq<string>, cur: string)
    ensures Emitted(done + [cur], "") == Emitted(done, cur) + (if cur == "" then "" else CRLF)
    ensures Owed(done + [cur]) == if cur == "" then Owed(done) + 1 else 0
    ensures StripEmpty(done + [cur]) == if cur == "" then StripEmpty(done) else done + [cur]
  {
    assert (done + [cur])[..|done|] == done;
  }

  /** The variables captured by the reader's two closures. */
  class Writer {
    const canon: Canonicalization
    var out: string
    var emptyLines: nat
    var lineHasContent: bool
    var wroteContent: bool
    var pendingWsp: bool
    ghost var done: seq<string>  // the finished lines, canonical
    ghost var cur: string        // the open line's canonical form
    ghost var seen: string       // the bytes handled so far, with "\n" for a line ending

    ghost predicate Valid()
      reads this
    {
      InStep() && Holds()
    }

    /** The counters and flags fit the lines. */
    ghost predicate InStep()
      reads this
    {
      && out == Emitted(done, cur)
      && lineHasContent == (cur != "")
      && emptyLines == (if cur == "" then Owed(done) else 0)
      && wroteContent == (cur != "" || StripEmpty(done) != [])
    }

    constructor (canon: Canonicalization)
      ensures Valid() && seen == "" && this.canon == canon
    {
      this.canon := canon;
      out, emptyLines, done, cur, seen := "", 0, [], "", "";
      lineHasContent, wroteContent, pendingWsp := false, false, false;
    }

    /** The `writeContent` closure. */
    method WriteContent(c: char)
      requires InStep()
      modifies this
      ensures InStep() && done == old(done) && seen == old(seen)
      ensures canon.Relaxed? && IsWsp(c) ==> pendingWsp && cur == old(cur)
      ensures !(canon.Relaxed? && IsWsp(c)) ==>
                !pendingWsp && cur == old(cur) + (if old(pendingWsp) then " " else "") + [c]
    {
      if canon == Relaxed && (c == ' ' || c == '\t') {
        pendingWsp := true;
        return;
      }
      if !lineHasContent {
        FlushEmptyLines();
        lineHasContent := true;
      }
      if pendingWsp {
        Emit(' ');
        pendingWsp := false;
      }
      Emit(c);
      wroteContent := true;
    }

    /** One byte of the open line. */
    method Emit(c: char)
      requires out == Terminated(done) + cur
      modifies this`out, this`cur
      ensures out == Terminated(done) + cur && cur == old(cur) + [c]
    {
      out, cur := out + [c], cur + [c];
    }

    /** The loop of `writeContent` that writes the empty lines held back. */
    method FlushEmptyLines()
      requires out == Terminated(StripEmpty(done)) && emptyLines == Owed(done)
      modifies this`out, this`emptyLines
      ensures out == Terminated(done) && emptyLines == 0
    {
      StripThenBlank(done);
      while emptyLines > 0
        invariant out + Blank(emptyLines) == Terminated(done)
      {
        BlankFront(emptyLines);
        assert out + (CRLF + Blank(emptyLines - 1)) == out + CRLF + Blank(emptyLines - 1);
        out := out + CRLF;
        emptyLines := emptyLines - 1;
      }
    }

    /** The `endLine` closure. */
    method EndLine()
      requires InStep()
      modifies this
      ensures InStep() && done == old(done) + [old(cur)] && cur == "" && !pendingWsp && seen == old(seen)
    {
      EmittedEndLine(done, cur);
      if lineHasContent {
        out := out + CRLF;
      } else {
        emptyLines := emptyLines + 1;
      }
      lineHasContent := false;
      pendingWsp := false;
      done, cur := done + [cur], "";
    }

    /** The lines held are those of the bytes handled so far. */
    ghost predicate Holds()
      reads this
    {
      && done == CanonLines(DoneLines(seen), canon)
      && cur == CanonLine(OpenLine(seen), canon)
      && pendingWsp == (canon.Relaxed? && EndsInWsp(OpenLine(seen)))
    }

    /** One byte, or line ending, of the body. */
    method Take(c: char)
      requires Valid()
      modifies this
      ensures Valid() && seen == old(seen) + [c]
    {
      LinesSnoc(seen, c, canon);
      if c == '\n' {
        EndLine();
      } else {
        WriteContent(c);
      }
      seen := seen + [c];
    }
  }

  /** The last line of the bytes so far, still open, and the finished ones before it. */
  function OpenLine(t: string): string {
    var p := Split(t, '\n');
    p[|p| - 1]
  }

  function DoneLines(t: string): seq<string> {
    var p := Split(t, '\n');
    p[..|p| - 1]
  }

  lemma {:induction false} LinesSnoc(t: string, c: char, canon: Canonicalization)
    ensures c == '\n' ==> OpenLine(t + [c]) == "" && DoneLines(t + [c]) == DoneLines(t) + [OpenLine(t)]
    ensures c == '\n' ==> CanonLines(DoneLines(t + [c]), canon)
                          == CanonLines(DoneLines(t), canon) + [CanonLine(OpenLine(t), canon)]
    ensures c == '\n' ==> CanonLine(OpenLine(t + [c]), canon) == ""
    ensures c != '\n' ==> OpenLine(t + [c]) == OpenLine(t) + [c] && DoneLines(t + [c]) == DoneLines(t)
    ensures c != '\n' ==>
              CanonLine(OpenLine(t + [c]), canon)
              == if canon.Relaxed? && IsWsp(c) then CanonLine(OpenLine(t), canon)
                 else CanonLine(OpenLine(t), canon)
                      + (if canon.Relaxed? && EndsInWsp(OpenLine(t)) then " " else "") + [c]
  {
    if c == '\n' {
      SplitAt(t, '\n', "");
      assert t + [c] + "" == t + [c];
      assert Split("", '\n') == [""];
    } else {
      SplitSnoc(t, '\n', c);
      CanonLineSnoc(OpenLine(t), canon, c);
    }
  }

  lemma {:induction false} BlankFront(n: nat)
    requires n > 0
    ensures Blank(n) == CRLF + Blank(n - 1)
  {
    if n > 1 {
      BlankFront(n - 1);
    }
  }

  function Concat(chunks: seq<string>): string {
    if chunks == [] then "" else Concat(chunks[..|chunks| - 1]) + chunks[|chunks| - 1]
  }

  predicate EndsInCr(s: string) {
    s != "" && s[|s| - 1] == '\r'
  }

  lemma {:induction false} CrlfToLfSnoc(s: string, c: char)
    requires !(EndsInCr(s) && c == '\n')
    ensures CrlfToLf(s + [c]) == CrlfToLf(s) + [c]
  {
    CrlfToLfConcat(s, [c]);
    assert CrlfToLf([c]) == [c];
  }

  /** What the bytes consumed so far come to, a carriage return held back if one is pending. */
  ghost predicate Consumed(seen: string, bytes: string, pendingCr: bool) {
    EndsInCr(bytes) == pendingCr && seen == CrlfToLf(if pendingCr then bytes[..|bytes| - 1] else bytes)
  }

  lemma {:induction false} ConsumedPending(seen: string, bytes: string, c: char)
    requires Consumed(seen, bytes, true)
    ensures c == '\n' ==> Consumed(seen + "\n", bytes + [c], false)
    ensures CrlfToLf(bytes) == seen + "\r"
  {
    var bare := bytes[..|bytes| - 1];
    assert bytes == bare + ['\r'];
    CrlfToLfSnoc(bare, '\r');
    CrlfToLfConcat(bare, CRLF);
    assert bytes + ['\n'] == bare + CRLF;
    assert CrlfToLf(CRLF) == "\n";
  }

  lemma {:induction false} ConsumedNext(bytes: string, c: char)
    requires !(EndsInCr(bytes) && c == '\n')
    ensures Consumed(if c == '\r' then CrlfToLf(bytes) else CrlfToLf(bytes) + [c], bytes + [c], c == '\r')
  {
    CrlfToLfSnoc(bytes, c);
    assert (bytes + [c])[..|bytes|] == bytes;
  }

  /** One iteration of the loop over a read. */
  method Feed(w: Writer, c: char, held: bool, ghost bytes: string) returns (pendingCr: bool)
    requires w.Valid() && Consumed(w.seen, bytes, held)
    modifies w
    ensures w.Valid() && Consumed(w.seen, bytes + [c], pendingCr)
  {
    pendingCr := held;
    if pendingCr {
      pendingCr := false;
      ConsumedPending(w.seen, bytes, c);
      if c == '\n' {
        w.Take('\n');
        return;
      }
      w.Take('\r');
    }
    ConsumedNext(bytes, c);
    if c == '\r' {
      pendingCr := true;
    } else {
      w.Take(c);
    }
  }

  /** The loop over one read. */
  method FeedChunk(w: Writer, chunk: string, held: bool, ghost bytes: string) returns (pendingCr: bool)
    requires w.Valid() && Consumed(w.seen, bytes, held)
    modifies w
    ensures w.Valid() && Consumed(w.seen, bytes + chunk, pendingCr)
  {
    pendingCr := held;
    PrefixEnds(bytes, chunk);
    for i := 0 to |chunk|
      invariant w.Valid() && Consumed(w.seen, bytes + chunk[..i], pendingCr)
    {
      PrefixSnoc(bytes, chunk, i);
      pendingCr := Feed(w, chunk[i], pendingCr, bytes + chunk[..i]);
    }
  }

  lemma {:induction false} PrefixEnds(bytes: string, chunk: string)
    ensures bytes + chunk[..0] == bytes && bytes + chunk[..|chunk|] == bytes + chunk
  {}

  lemma {:induction false} PrefixSnoc(bytes: string, chunk: string, i: nat)
    requires i < |chunk|
    ensures bytes + chunk[..i] + [chunk[i]] == bytes + chunk[..i + 1]
  {}

  /**
   `bodyHashReader`, up to the hash: the bytes written are the canonical form of the
   whole body, whatever the reads are. `complete` says the reader ended at EOF; a
   failed read or a cancelled context returns no bytes.
   */
  method CanonicalStream(chunks: seq<string>, complete: bool, canon: Canonicalization) returns (text: Option<string>)
    ensures text == if complete then Some(CanonicalBody(Concat(chunks), canon)) else None
  {
    var w := new Writer(canon);
    var pendingCr := false;
    ghost var taken := "";
    for i := 0 to |chunks|
      invariant w.canon == canon && w.Valid() && Consumed(w.seen, taken, pendingCr)
      invariant taken == Concat(chunks[..i])
    {
      pendingCr := FeedChunk(w, chunks[i], pendingCr, taken);
      taken := taken + chunks[i];
      assert chunks[..i + 1][..i] == chunks[..i];
    }
    assert chunks[..|chunks|] == chunks;
    if !complete {
      return None;
    }
    var out := Finish(w, pendingCr, taken);
    return Some(out);
  }

  /** The reader's end: a held carriage return is content, and an open line is terminated. */
  method Finish(w: Writer, pendingCr: bool, ghost body: string) returns (out: string)
    requires w.Valid() && Consumed(w.seen, body, pendingCr)
    modifies w
    ensures out == CanonicalBody(body, w.canon)
  {
    if pendingCr {
      ConsumedPending(w.seen, body, ' ');
      w.Take('\r');
    }
    StreamEnd(body, w.canon);
    out := w.out;
    if w.lineHasContent || (!w.wroteContent && w.canon == Simple) {
      out := out + CRLF;
    }
  }

  /** Leaving out a final empty part makes no difference to the lines kept. */
  lemma {:induction false} KeptLines(parts: seq<string>, canon: Canonicalization)
    requires parts != []
    ensures var n := |parts| - 1;
            var done, cur := CanonLines(parts[..n], canon), CanonLine(parts[n], canon);
            StripEmpty(CanonLines(if parts[n] == "" then parts[..n] else parts, canon))
            == if cur == "" then StripEmpty(done) else done + [cur]
  {
    var n := |parts| - 1;
    var done, cur := CanonLines(parts[..n], canon), CanonLine(parts[n], canon);
    if parts[n] != "" {
      assert CanonLines(parts, canon) == done + [cur];
      EmittedEndLine(done, cur);
    }
  }

  /** The batch form, in the terms of the streaming one. */
  lemma {:induction false} StreamEnd(body: string, canon: Canonicalization)
    ensures var t := CrlfToLf(body);
            var done, cur := CanonLines(DoneLines(t), canon), CanonLine(OpenLine(t), canon);
            CanonicalBody(body, canon) == Emitted(done, cur)
              + (if cur != "" || (StripEmpty(done) == [] && canon.Simple?) then CRLF else "")
  {
    var t := CrlfToLf(body);
    var done, cur := CanonLines(DoneLines(t), canon), CanonLine(OpenLine(t), canon);
    KeptLines(Split(t, '\n'), canon);
    var kept := if cur == "" then StripEmpty(done) else done + [cur];
    EmittedEndLine(done, cur);
    if kept != [] {
      JoinIsTerminated(kept);
    }
  }
}
