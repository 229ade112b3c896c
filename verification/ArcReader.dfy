/**
 Verifying a spooled message without holding its body: parseMessageReader
 (internal/arc/message.go) and VerifyReader (internal/arc/arc.go), which split a
 message at the first blank line of either kind. parseMessage, which sealing uses,
 prefers a CRLF one wherever it is.
 */
module ArcReader {
  import opened Text
  import opened ArcCanonical
  import opened ArcMessage
  import opened ArcChain
  import opened ArcVerify
  import opened ArcSeal
  import opened ArcFields
  import opened ArcHops

  const MAX_HEAD: nat := 256 * 1024

  /** The first blank line with CRLF line ends, and the first with bare ones; -1 without. */
  function CrlfBlank(s: string): (i: int)
    ensures i == -1 || OccursAt(s, "\r\n\r\n", i)
    ensures forall j :: (i < 0 || j < i) ==> !OccursAt(s, "\r\n\r\n", j)
  {
    Index(s, "\r\n\r\n")
  }

  function LfBlank(s: string): (i: int)
    ensures i == -1 || OccursAt(s, "\n\n", i)
    ensures forall j :: (i < 0 || j < i) ==> !OccursAt(s, "\n\n", j)
  {
    Index(s, "\n\n")
  }

  /** Where the reader stops reading headers: after the blank line that ends first. */
  function HeadLength(raw: string): (n: nat)
    ensures n <= |raw|
  {
    var i, j := CrlfBlank(raw), LfBlank(raw);
    if i < 0 && j < 0 then |raw|
    else if i < 0 || 0 <= j < i then j + 2
    else i + 4
  }

  /** The message the reader makes of its input; `None` is the error for a head over 256 KiB. */
  function ReadMessage(raw: string): Option<Message> {
    var n := HeadLength(raw);
    if n > MAX_HEAD then None else Some(Message(ParseMessage(raw[..n]).headers, raw[n..]))
  }

  // ---- the loop -----------------------------------------------------------

  /** A part as ReadSlice returns it: a line feed only at its end. */
  predicate IsPart(p: string) {
    forall i :: 0 <= i < |p| - 1 ==> p[i] != '\n'
  }

  /** No blank line ends inside this text. */
  ghost predicate Unfinished(head: string) {
    forall j :: !OccursAt(head, "\r\n\r\n", j) && !OccursAt(head, "\n\n", j)
  }

  predicate EndsHead(head: string) {
    HasSuffix(head, "\r\n\r\n") || HasSuffix(head, "\n\n")
  }

  /** A blank line that ends inside a prefix is one of the prefix. */
  lemma {:induction false} OccursInPrefix(s: string, sub: string, n: nat, j: int)
    requires n <= |s|
    ensures OccursAt(s[..n], sub, j) <==> OccursAt(s, sub, j) && j + |sub| <= n
  {
    if 0 <= j && j + |sub| <= n {
      assert s[..n][j..j + |sub|] == s[j..j + |sub|];
    }
  }

  lemma {:induction false} LastChar(s: string, sub: string, j: int)
    requires OccursAt(s, sub, j) && sub != ""
    ensures s[j + |sub| - 1] == sub[|sub| - 1]
  {
    assert s[j..j + |sub|][|sub| - 1] == s[j + |sub| - 1];
  }

  /** A blank line that ends inside a longer text ends in the old part or at a line feed of the new one. */
  lemma {:induction false} EndsLater(head: string, part: string, rest: string, sub: string, j: int)
    requires IsPart(part) && OccursAt(head + part + rest, sub, j) && sub != "" && sub[|sub| - 1] == '\n'
    requires !OccursAt(head, sub, j)
    ensures j + |sub| >= |head + part|
  {
    var all := head + part + rest;
    LastChar(all, sub, j);
    assert all[..|head|] == head;
    OccursInPrefix(all, sub, |head|, j);
    assert forall k :: |head| <= k < |head + part| ==> all[k] == part[k - |head|];
  }

  /** Appending a part either ends the head or leaves it unfinished. */
  lemma {:induction false} PartAdded(head: string, part: string)
    requires Unfinished(head) && IsPart(part)
    ensures Unfinished(head + part) || EndsHead(head + part)
  {
    var now := head + part;
    assert now + "" == now;
    forall j | !EndsHead(now)
      ensures !OccursAt(now, "\r\n\r\n", j) && !OccursAt(now, "\n\n", j)
    {
      if OccursAt(now, "\r\n\r\n", j) {
        EndsLater(head, part, "", "\r\n\r\n", j);
      }
      if OccursAt(now, "\n\n", j) {
        EndsLater(head, part, "", "\n\n", j);
      }
    }
  }

  /** Nothing ends before the part does. */
  lemma {:induction false} NotBefore(head: string, part: string, rest: string)
    requires Unfinished(head) && IsPart(part)
    ensures var all, n := head + part + rest, |head + part|;
            && (CrlfBlank(all) >= 0 ==> CrlfBlank(all) + 4 >= n) && (LfBlank(all) >= 0 ==> LfBlank(all) + 2 >= n)
            && HeadLength(all) >= n
  {
    var all := head + part + rest;
    var i, j := CrlfBlank(all), LfBlank(all);
    if i >= 0 {
      EndsLater(head, part, rest, "\r\n\r\n", i);
    }
    if j >= 0 {
      EndsLater(head, part, rest, "\n\n", j);
    }
  }

  /** Once the head ends, it ends there. */
  lemma {:induction false} EndsHere(head: string, part: string, rest: string)
    requires Unfinished(head) && IsPart(part) && EndsHead(head + part)
    ensures HeadLength(head + part + rest) == |head + part|
  {
    var now, all := head + part, head + part + rest;
    var i, j := CrlfBlank(all), LfBlank(all);
    NotBefore(head, part, rest);
    assert all[..|now|] == now;
    if HasSuffix(now, "\r\n\r\n") {
      OccursInPrefix(all, "\r\n\r\n", |now|, |now| - 4);
    } else {
      OccursInPrefix(all, "\n\n", |now|, |now| - 2);
      assert j == |now| - 2;
      if 0 <= i <= j {
        BareEndsAfter(all, i, j);
      }
    }
  }

  lemma {:induction false} NeverEnds(raw: string)
    requires Unfinished(raw)
    ensures HeadLength(raw) == |raw| && ParseMessage(raw).body == ""
  {}

  /** The text of some parts from a position on. */
  function From(parts: seq<string>, i: nat): string
    requires i <= |parts|
    decreases |parts| - i
  {
    if i == |parts| then "" else parts[i] + From(parts, i + 1)
  }

  /** `parseMessageReader`, given what each ReadSlice returns up to the end of input. */
  method ParseReader(parts: seq<string>) returns (r: Option<Message>)
    requires forall i :: 0 <= i < |parts| ==> IsPart(parts[i])
    ensures r == ReadMessage(From(parts, 0))
  {
    var head := "";
    assert Unfinished(head);
    for i := 0 to |parts|
      invariant Unfinished(head) && |head| <= MAX_HEAD
      invariant head + From(parts, i) == From(parts, 0)
    {
      ghost var rest := From(parts, i + 1);
      assert head + (parts[i] + rest) == head + parts[i] + rest;
      NotBefore(head, parts[i], rest);
      if |head| + |parts[i]| > MAX_HEAD {
        return None;
      }
      PartAdded(head, parts[i]);
      if EndsHead(head + parts[i]) {
        EndsHere(head, parts[i], rest);
        head := head + parts[i];
        ghost var all := head + rest;
        assert all[..|head|] == head && all[|head|..] == rest;
        return Some(Message(ParseMessage(head).headers, From(parts, i + 1)));
      }
      head := head + parts[i];
    }
    NeverEnds(head);
    assert head + "" == head && head[..|head|] == head && head[|head|..] == "";
    return Some(ParseMessage(head));
  }

  // ---- the two splits -----------------------------------------------------

  /** No blank line of bare line feeds comes before the first CRLF one. */
  predicate SplitsAlike(raw: string) {
    CrlfBlank(raw) >= 0 && LfBlank(raw) >= 0 ==> LfBlank(raw) >= CrlfBlank(raw)
  }

  /** A bare blank line at or after a CRLF one ends after it. */
  lemma {:induction false} BareEndsAfter(raw: string, i: nat, j: nat)
    requires OccursAt(raw, "\r\n\r\n", i) && OccursAt(raw, "\n\n", j) && j >= i
    ensures j + 2 > i + 4
  {
    assert raw[i..i + 4][0] == raw[i] && raw[i..i + 4][2] == raw[i + 2] && raw[i..i + 4][3] == raw[i + 3];
    assert raw[j..j + 2][0] == raw[j] && raw[j..j + 2][1] == raw[j + 1];
  }

  lemma {:induction false} IndexInPrefix(s: string, sub: string, n: nat)
    requires n <= |s|
    ensures Index(s[..n], sub) == if Index(s, sub) >= 0 && Index(s, sub) + |sub| <= n then Index(s, sub) else -1
  {
    OccursInPrefix(s, sub, n, Index(s, sub));
    OccursInPrefix(s, sub, n, Index(s[..n], sub));
  }

  /** The header block of the head alone is that of the whole message. */
  lemma {:induction false} HeadersSame(raw: string)
    requires SplitsAlike(raw)
    ensures var n := HeadLength(raw);
            n == HeaderEnd(raw).1 && ParseMessage(raw[..n]).headers == ParseMessage(raw).headers
  {
    var i, j, n := CrlfBlank(raw), LfBlank(raw), HeadLength(raw);
    IndexInPrefix(raw, "\r\n\r\n", n);
    IndexInPrefix(raw, "\n\n", n);
    if i >= 0 && j >= 0 {
      BareEndsAfter(raw, i, j);
    }
    EndsSame(raw, raw[..n]);
  }

  lemma {:induction false} EndsSame(raw: string, head: string)
    requires HeaderEnd(head) == HeaderEnd(raw) && head <= raw
    ensures ParseMessage(head).headers == ParseMessage(raw).headers
  {
    var end := HeaderEnd(raw).0;
    assert head[..end] == raw[..end];
  }

  /**
   The reader and parseMessage agree on a message exactly when no bare blank line comes
   before its first CRLF one and its head is at most 256 KiB.
   */
  lemma {:induction false} SplitsAgreeIff(raw: string)
    ensures ReadMessage(raw) == Some(ParseMessage(raw)) <==> SplitsAlike(raw) && HeadLength(raw) <= MAX_HEAD
  {
    if SplitsAlike(raw) {
      HeadersSame(raw);
    } else if ReadMessage(raw).Some? {
      var n, m := HeadLength(raw), HeaderEnd(raw).1;
      assert n < m;
      assert |raw[n..]| != |raw[m..]|;
    }
  }

  lemma {:induction false} FirstBlanks(raw: string, i: nat, j: nat)
    requires OccursAt(raw, "\r\n\r\n", i) && OccursAt(raw, "\n\n", j) && j < i
    requires (forall k :: 0 <= k < i ==> raw[k] != '\r') && forall k :: 0 <= k < j ==> raw[k] != '\n'
    ensures CrlfBlank(raw) == i && LfBlank(raw) == j
  {
    forall k | 0 <= k < i
      ensures !OccursAt(raw, "\r\n\r\n", k)
    {
      OccursChar(raw, "\r\n\r\n", k, 0);
    }
    forall k | 0 <= k < j
      ensures !OccursAt(raw, "\n\n", k)
    {
      OccursChar(raw, "\n\n", k, 0);
    }
  }

  /** On this message they give different bodies. */
  lemma {:induction false} SplitsCanDiffer(raw: string)
    requires raw == "From: a\n\nhello\r\n\r\nworld"
    ensures ReadMessage(raw).Some? && ReadMessage(raw).value.body == "hello\r\n\r\nworld"
    ensures ParseMessage(raw).body == "world"
  {
    assert raw[14..18] == "\r\n\r\n" && raw[7..9] == "\n\n";
    FirstBlanks(raw, 14, 7);
    assert raw[9..] == "hello\r\n\r\nworld" && raw[18..] == "world";
  }

  // ---- verifying spooled mail ---------------------------------------------

  /** `VerifyReader`. */
  ghost function VerifyReader(suite: Suite, zone: Zone, raw: string): Verdict {
    match ReadMessage(raw)
    case None => ChainFail
    case Some(msg) => VerifyMessage(suite, zone, msg)
  }

  lemma {:induction false} LineKeepsSplit(field: string, raw: string)
    requires IsLine(field) && StartsWithField(raw)
    ensures SplitsAlike(field + CRLF + raw) <==> SplitsAlike(raw)
    ensures StartsWithField(field + CRLF + raw)
  {
    var p := field + CRLF;
    NoBreakInLine(field, raw);
    IndexShift(p, raw, "\r\n\r\n");
    IndexShift(p, raw, "\n\n");
  }

  lemma {:induction false} SetKeepsSplit(s: ArcSet, raw: string)
    requires IsLine(s.aar) && IsLine(s.ams) && IsLine(s.seal) && StartsWithField(raw)
    ensures SplitsAlike(SetText(s) + raw) <==> SplitsAlike(raw)
  {
    LineKeepsSplit(s.seal, raw);
    LineKeepsSplit(s.ams, s.seal + CRLF + raw);
    LineKeepsSplit(s.aar, s.ams + CRLF + (s.seal + CRLF + raw));
    SetTextIs(s, raw);
  }

  /** Sealing does not change whether the two splits agree. */
  lemma {:induction false} SealKeepsSplit(suite: Suite, zone: Zone, raw: string, opts: SealOptions, sealed: string)
    requires Encodes(suite) && Configured(opts) && StartsWithField(raw)
    requires SealMessage(suite, zone, raw, opts) == Some(sealed)
    ensures SplitsAlike(sealed) <==> SplitsAlike(raw)
    ensures StartsWithField(sealed)
  {
    var msg := ParseMessage(raw);
    SealMessageIs(suite, zone, raw, opts);
    NextSetPrinted(suite, msg, Existing(msg), Asserted(suite, zone, msg), opts);
    var s := NextSet(suite, msg, Existing(msg), Asserted(suite, zone, msg), opts).value;
    SetKeepsSplit(s, raw);
    SetPrepended(s, raw);
  }

  lemma {:induction false} JourneyKeepsSplit(suite: Suite, zone: Zone, hops: seq<SealOptions>, msgs: seq<string>,
                                             i: nat)
    requires Encodes(suite) && i <= |hops| && IsJourney(suite, zone, hops, msgs) && StartsWithField(msgs[0])
    requires forall i :: 0 <= i < |hops| ==> Configured(hops[i])
    ensures SplitsAlike(msgs[i]) <==> SplitsAlike(msgs[0])
    ensures StartsWithField(msgs[i])
  {
    if i > 0 {
      var k := i - 1;
      JourneyKeepsSplit(suite, zone, hops, msgs, k);
      assert Sealing(suite, zone)(msgs[k], hops[k], msgs[k + 1]);
      SealKeepsSplit(suite, zone, msgs[k], hops[k], msgs[i]);
    }
  }

  /**
   A journey seen by a verifier that reads spooled mail: if no bare blank line came before
   the first CRLF one in the message as it left, then after i hops it passes with the
   reader too, as long as its head is at most 256 KiB.
   */
  lemma {:induction false} JourneyPassesReader(suite: Suite, zone: Zone, hops: seq<SealOptions>, msgs: seq<string>,
                                               i: nat)
    requires Lawful(suite) && i <= |hops| <= MAX_SETS && IsJourney(suite, zone, hops, msgs)
    requires Good(suite, zone, msgs[0], 0)
    requires forall i :: 0 <= i < |hops| ==> Ready(suite, zone, hops[i]) && KeepsInstance(hops[i], i + 1)
    requires SplitsAlike(msgs[0]) && HeadLength(msgs[i]) <= MAX_HEAD
    ensures VerifyReader(suite, zone, msgs[i]) == if i == 0 then ChainNone else ChainPass
  {
    JourneyPasses(suite, zone, hops, msgs, i);
    LawfulEncodes(suite);
    JourneyKeepsSplit(suite, zone, hops, msgs, i);
    SplitsAgreeIff(msgs[i]);
  }
}
