/**
 A freshly built set verifies: its message signature over the message it is
 prepended to, and its seal over the chain it extends.
 */
module ArcSigned {
  import opened Text
  import opened ArcCanonical
  import opened ArcMessage
  import opened ArcTags
  import opened ArcSelect
  import opened ArcChain
  import opened ArcVerify
  import opened ArcSeal
  import opened ArcFields

  // ---- constants read back ------------------------------------------------

  lemma {:induction false} LowerWord(s: string)
    requires forall i :: 0 <= i < |s| ==> !IsSpace(s[i]) && !('A' <= s[i] <= 'Z')
    ensures TrimSpace(s) == s && Folded(s) == s && Folded(TrimSpace(s)) == s
  {
    TrimFixed(s, Spaces);
    assert ToLower(s) == s;
  }

  lemma {:induction false} AlgorithmRead(a: string)
    requires a == ALGORITHM
    ensures CheckAlgorithm(TrimSpace(a))
  {
    LowerWord(a);
  }

  lemma {:induction false} VerdictRead(text: string, v: Verdict)
    requires text == VerdictName(v)
    ensures Folded(TrimSpace(text)) == text
  {
    LowerWord(text);
  }

  predicate LowerLetters(s: string) {
    s != "" && forall i :: 0 <= i < |s| ==> 'a' <= s[i] <= 'z'
  }

  lemma {:induction false} CanonNameRead(c: Canonicalization)
    ensures CanonOf(CanonName(c)) == Some(c) && LowerLetters(CanonName(c))
  {}

  lemma {:induction false} CanonRead(h: string, b: string)
    requires LowerLetters(h) && LowerLetters(b) && CanonOf(h).Some? && CanonOf(b).Some?
    ensures CanonicalizationsOf(TrimSpace(h + "/" + b)) == Some((CanonOf(h).value, CanonOf(b).value))
  {
    var text := h + "/" + b;
    LowerWord(text);
    LowerWord(h);
    LowerWord(b);
    CutAt(h, '/', b);
  }

  lemma {:induction false} KeyRead(zone: Zone, selector: string, domain: string)
    ensures FetchKey(zone, TrimSpace(selector), TrimSpace(domain)) == FetchKey(zone, selector, domain)
  {
    TrimTwice(selector, Spaces);
    TrimTwice(domain, Spaces);
  }

  // ---- the list of signed names -------------------------------------------

  lemma {:induction false} NoColonInNames(lines: seq<string>, current: string)
    ensures forall h :: h in Gather(lines, current) ==> ':' !in h.name
    decreases lines
  {
    FoldedLacks(Before(current, ':'));
    if lines != [] {
      NoColonInNames(lines[1..], current);
      if lines[0] != "" {
        NoColonInNames(lines[1..], if current == "" then "" else current + CRLF + lines[0]);
        NoColonInNames(lines[1..], lines[0]);
      }
    }
  }

  lemma {:induction false} FoldedLacks(name: string)
    ensures ':' in name <==> ':' in Folded(name)
  {
    TrimKeeps(name, Spaces, ':');
    LowerColon(TrimSpace(name));
  }

  lemma {:induction false} LowerColon(s: string)
    ensures ':' in s <==> ':' in ToLower(s)
  {
    if ':' in s {
      var i :| 0 <= i < |s| && s[i] == ':';
      assert ToLower(s)[i] == ':';
    }
  }

  predicate ColonFree(headers: seq<Header>) {
    forall i :: 0 <= i < |headers| ==> ':' !in headers[i].name
  }

  lemma {:induction false} ParsedColonFree(raw: string)
    ensures ColonFree(ParseMessage(raw).headers)
  {
    var (end, body) := HeaderEnd(raw);
    NoColonInNames(Split(CrlfToLf(raw[..end]), '\n'), "");
  }

  lemma {:induction false} FieldsOf(headers: seq<Header>, name: string)
    requires Fields(headers, name) > 0
    ensures exists i :: 0 <= i < |headers| && headers[i].name == name
  {
    var n := |headers| - 1;
    if headers[n].name != name {
      FieldsOf(headers[..n], name);
    }
  }

  /** Names that are signed hold no colon, so the list reads back as it was joined. */
  lemma {:induction false} SignedListRead(headers: seq<Header>, names: seq<string>)
    requires ColonFree(headers) && Selected(headers, names) != []
    ensures var selected := Selected(headers, names);
            NamesOf(TrimSpace(Join(selected, ":"))) == FoldAll(selected)
  {
    var selected := Selected(headers, names);
    SelectedFrom(headers, names);
    forall n | n in selected
      ensures ':' !in n
    {
      FieldsOf(headers, Folded(n));
      FoldedLacks(n);
    }
    NamesOfJoin(selected);
  }

  /** A field that the message has and the list names is signed. */
  lemma {:induction false} NamedIsSelected(headers: seq<Header>, names: seq<string>, name: string)
    requires Fields(headers, name) > 0 && name in FoldAll(names) && name != "" && !HasPrefix(name, "arc-")
    ensures name in FoldAll(Selected(headers, names))
  {
    var n := |names| - 1;
    var before := names[..n];
    var some := Selected(headers, before);
    if Signs(headers, names[n]) {
      FoldAllSnoc(some, names[n]);
    } else {
      assert Selected(headers, names) == some;
    }
    assert FoldAll(names) == FoldAll(before) + [Folded(names[n])];
    if Folded(names[n]) != name {
      NamedIsSelected(headers, before, name);
    }
  }

  lemma {:induction false} NeverMentioned(names: seq<string>, name: string)
    requires forall n :: n in names ==> Folded(n) != name
    ensures Mentions(FoldAll(names), name) == 0
  {
    if names != [] {
      NeverMentioned(names[..|names| - 1], name);
    }
  }

  // ---- the new fields on top ----------------------------------------------

  function Three(s: ArcSet): seq<Header> {
    [HeaderOf(s.aar), HeaderOf(s.ams), HeaderOf(s.seal)]
  }

  predicate ArcNamed(three: seq<Header>) {
    forall i :: 0 <= i < |three| ==> HasPrefix(three[i].name, "arc-")
  }

  /** A set on top leaves what is signed alone: the list names no ARC field. */
  lemma {:induction false} SelectUnderSet(three: seq<Header>, headers: seq<Header>, names: seq<string>,
                                          canon: Canonicalization)
    requires ArcNamed(three)
    ensures var selected := Selected(headers, names);
            Select(three + headers, FoldAll(selected), canon) == Select(headers, FoldAll(selected), canon)
  {
    var selected := Selected(headers, names);
    SelectedFrom(headers, names);
    forall n | n != "" && Fields(three, n) > 0
      ensures Mentions(FoldAll(selected), n) <= Fields(headers, n)
    {
      FieldsOf(three, n);
      NeverMentioned(selected, n);
    }
    SelectStable(three, headers, FoldAll(selected), canon);
  }

  // ---- the message signature ----------------------------------------------

  /** The tags of a signature field, by position. */
  ghost predicate Reads(field: string, ts: seq<TagValue>, sig: string) {
    && (forall i :: 0 <= i < |ts| ==> ts[i].name != "" && FieldTag(field, ts[i].name) == TrimSpace(ts[i].value))
    && FieldTag(field, "b") == TrimSpace(sig)
  }

  lemma {:induction false} FieldReads(name: string, ts: seq<TagValue>, sig: string)
    requires IsFieldName(name) && AllFit(ts) && Distinct(ts) && Base64Text(sig)
    ensures Reads(SignatureField(name, ts, sig), ts, sig)
  {
    FitIsSignable(ts);
    Base64IsInert(sig);
    forall i | 0 <= i < |ts|
      ensures ts[i].name != "" && FieldTag(SignatureField(name, ts, sig), ts[i].name) == TrimSpace(ts[i].value)
    {
      SignatureFieldRead(name, ts, sig, i);
    }
    SignatureFieldRead(name, ts, sig, |ts|);
  }

  lemma {:induction false} AmsLacksLength(instance: nat, opts: SealOptions, selected: seq<string>, bh: string,
                                          sig: string)
    requires AllFit(AmsTags(instance, opts, selected, bh)) && Base64Text(sig)
    ensures FieldTag(SignatureField(AMS_NAME, AmsTags(instance, opts, selected, bh), sig), "l") == ""
  {
    var ts := AmsTags(instance, opts, selected, bh);
    FitIsSignable(ts);
    AmsName();
    Base64IsInert(sig);
    assert forall i :: 0 <= i < 8 ==> ts[i].name[0] != 'l';
    SignatureFieldLacks(AMS_NAME, ts, sig, "l");
  }

  /** The signature is made over the same text before and after it is written in. */
  lemma {:induction false} AmsDataStable(headers: seq<Header>, three: seq<Header>, instance: nat, opts: SealOptions,
                                         bh: string, sig: string)
    requires Configured(opts) && Base64Text(bh) && Base64Text(sig)
    requires ColonFree(headers) && ArcNamed(three) && Selected(headers, SignedNames(opts)) != []
    ensures var ts := AmsTags(instance, opts, Selected(headers, SignedNames(opts)), bh);
            AmsSignedData(three + headers, SignatureField(AMS_NAME, ts, sig), opts.headerCanon)
            == AmsSignedData(headers, SignatureField(AMS_NAME, ts, ""), opts.headerCanon)
  {
    var selected := Selected(headers, SignedNames(opts));
    var ts := AmsTags(instance, opts, selected, bh);
    ConfiguredFits(headers, instance, opts, bh);
    AmsTagsDistinct(instance, opts, selected, bh);
    AmsName();
    FieldReads(AMS_NAME, ts, sig);
    FieldReads(AMS_NAME, ts, "");
    assert ts[6] == TagValue("h", Join(selected, ":"));
    FitIsSignable(ts);
    Base64IsInert(sig);
    SignatureFieldEmptied(AMS_NAME, ts, sig);
    SignatureFieldEmptied(AMS_NAME, ts, "");
    SignedListRead(headers, SignedNames(opts));
    SelectUnderSet(three, headers, SignedNames(opts), opts.headerCanon);
  }

  /** The key a hop signs with is published, and signing works. */
  ghost predicate Published(suite: Suite, zone: Zone, opts: SealOptions) {
    && FetchKey(zone, opts.selector, opts.domain) == Some(suite.publicKey(opts.key))
    && forall digest :: suite.sign(opts.key, digest).Some?
  }

  /** The tags of a message signature, by position. */
  ghost predicate AmsLayout(ts: seq<TagValue>, opts: SealOptions, list: string, bh: string) {
    && |ts| == 8
    && ts[1].name == "a" && CheckAlgorithm(TrimSpace(ts[1].value))
    && ts[2].name == "c" && CanonicalizationsOf(TrimSpace(ts[2].value)) == Some((opts.headerCanon, opts.bodyCanon))
    && ts[3] == TagValue("d", opts.domain) && ts[4] == TagValue("s", opts.selector)
    && ts[6] == TagValue("h", list) && ts[7] == TagValue("bh", bh)
  }

  lemma {:induction false} AmsTagsLaidOut(instance: nat, opts: SealOptions, selected: seq<string>, bh: string)
    ensures AmsLayout(AmsTags(instance, opts, selected, bh), opts, Join(selected, ":"), bh)
  {
    AlgorithmRead(ALGORITHM);
    CanonNameRead(opts.headerCanon);
    CanonNameRead(opts.bodyCanon);
    var header, body := CanonName(opts.headerCanon), CanonName(opts.bodyCanon);
    CanonRead(header, body);
    LayOut(Itoa(instance), ALGORITHM, header + "/" + body, FormatInt(opts.now), opts, Join(selected, ":"), bh);
  }

  lemma {:induction false} LayOut(number: string, alg: string, canon: string, stamp: string, opts: SealOptions,
                                  list: string, bh: string)
    requires CheckAlgorithm(TrimSpace(alg))
    requires CanonicalizationsOf(TrimSpace(canon)) == Some((opts.headerCanon, opts.bodyCanon))
    ensures AmsLayout([TagValue("i", number), TagValue("a", alg), TagValue("c", canon), TagValue("d", opts.domain),
                       TagValue("s", opts.selector), TagValue("t", stamp), TagValue("h", list), TagValue("bh", bh)],
                      opts, list, bh)
  {}

  lemma {:induction false} BuildAmsIs(suite: Suite, msg: Message, instance: nat, opts: SealOptions)
    requires "from" in FoldAll(Selected(msg.headers, SignedNames(opts)))
    ensures var ts := AmsTags(instance, opts, Selected(msg.headers, SignedNames(opts)),
                              suite.encode(BodyHash(suite, msg.body, opts.bodyCanon)));
            var signature := SignRsa(suite, opts.key,
                AmsSignedData(msg.headers, SignatureField(AMS_NAME, ts, ""), opts.headerCanon));
            BuildAms(suite, msg, instance, opts)
            == if signature.None? then None else Some(SignatureField(AMS_NAME, ts, signature.value))
  {}

  lemma {:induction false} AmsVerifies(suite: Suite, zone: Zone, msg: Message, three: seq<Header>, instance: nat,
                                       opts: SealOptions)
    requires Lawful(suite) && Configured(opts) && Published(suite, zone, opts)
    requires ColonFree(msg.headers) && ArcNamed(three)
    requires "from" in FoldAll(Selected(msg.headers, SignedNames(opts)))
    ensures BuildAms(suite, msg, instance, opts).Some?
    ensures VerifyAms(suite, zone, Message(three + msg.headers, msg.body), BuildAms(suite, msg, instance, opts).value)
  {
    var selected := Selected(msg.headers, SignedNames(opts));
    var digest := BodyHash(suite, msg.body, opts.bodyCanon);
    var bh := suite.encode(digest);
    DecodeEncoded(suite, digest);
    var ts := AmsTags(instance, opts, selected, bh);
    var data := AmsSignedData(msg.headers, SignatureField(AMS_NAME, ts, ""), opts.headerCanon);
    SigningWorks(suite, zone, opts, data);
    BuildAmsIs(suite, msg, instance, opts);
    SignedAmsVerifies(suite, zone, msg, three, instance, opts, bh, SignRsa(suite, opts.key, data).value);
  }

  lemma {:induction false} SigningWorks(suite: Suite, zone: Zone, opts: SealOptions, data: string)
    requires Lawful(suite) && Published(suite, zone, opts)
    ensures var signature := SignRsa(suite, opts.key, data);
            signature.Some? && Base64Text(signature.value)
            && VerifyRsa(suite, suite.publicKey(opts.key), data, TrimSpace(signature.value))
  {
    assert suite.sign(opts.key, suite.hash(data)).Some?;
    SignedVerifies(suite, opts.key, data);
  }

  lemma {:induction false} SignedAmsVerifies(suite: Suite, zone: Zone, msg: Message, three: seq<Header>,
                                             instance: nat, opts: SealOptions, bh: string, sig: string)
    requires Configured(opts) && Base64Text(bh) && Base64Text(sig)
    requires FetchKey(zone, opts.selector, opts.domain) == Some(suite.publicKey(opts.key))
    requires ColonFree(msg.headers) && ArcNamed(three)
    requires "from" in FoldAll(Selected(msg.headers, SignedNames(opts)))
    requires DecodeBase64(suite, TrimSpace(bh)) == Some(BodyHash(suite, msg.body, opts.bodyCanon))
    requires var ts := AmsTags(instance, opts, Selected(msg.headers, SignedNames(opts)), bh);
             VerifyRsa(suite, suite.publicKey(opts.key),
                       AmsSignedData(msg.headers, SignatureField(AMS_NAME, ts, ""), opts.headerCanon), TrimSpace(sig))
    ensures var ts := AmsTags(instance, opts, Selected(msg.headers, SignedNames(opts)), bh);
            VerifyAms(suite, zone, Message(three + msg.headers, msg.body), SignatureField(AMS_NAME, ts, sig))
  {
    var selected := Selected(msg.headers, SignedNames(opts));
    SignedListRead(msg.headers, SignedNames(opts));
    AmsDataStable(msg.headers, three, instance, opts, bh, sig);
    ConfiguredFits(msg.headers, instance, opts, bh);
    AmsTagsDistinct(instance, opts, selected, bh);
    AmsTagsLaidOut(instance, opts, selected, bh);
    AmsLacksLength(instance, opts, selected, bh, sig);
    AmsName();
    FieldReads(AMS_NAME, AmsTags(instance, opts, selected, bh), sig);
    KeyRead(zone, opts.selector, opts.domain);
    AmsByTags(suite, zone, Message(three + msg.headers, msg.body), AmsTags(instance, opts, selected, bh),
              sig, opts, Join(selected, ":"), bh);
  }

  /** `verifyAMS`, given the tags it reads. */
  lemma {:induction false} AmsByTags(suite: Suite, zone: Zone, msg: Message, ts: seq<TagValue>, sig: string,
                                     opts: SealOptions, list: string, bh: string)
    requires AmsLayout(ts, opts, list, bh)
    requires Reads(SignatureField(AMS_NAME, ts, sig), ts, sig) && FieldTag(SignatureField(AMS_NAME, ts, sig), "l") == ""
    requires "from" in NamesOf(TrimSpace(list))
    requires DecodeBase64(suite, TrimSpace(bh)) == Some(BodyHash(suite, msg.body, opts.bodyCanon))
    requires FetchKey(zone, TrimSpace(opts.selector), TrimSpace(opts.domain)) == Some(suite.publicKey(opts.key))
    requires VerifyRsa(suite, suite.publicKey(opts.key),
                       AmsSignedData(msg.headers, SignatureField(AMS_NAME, ts, sig), opts.headerCanon), TrimSpace(sig))
    ensures VerifyAms(suite, zone, msg, SignatureField(AMS_NAME, ts, sig))
  {
    var ams := SignatureField(AMS_NAME, ts, sig);
    assert FieldTag(ams, ts[1].name) == TrimSpace(ts[1].value);
    assert FieldTag(ams, ts[2].name) == TrimSpace(ts[2].value);
    assert FieldTag(ams, ts[3].name) == TrimSpace(ts[3].value);
    assert FieldTag(ams, ts[4].name) == TrimSpace(ts[4].value);
    assert FieldTag(ams, ts[6].name) == TrimSpace(ts[6].value);
    assert FieldTag(ams, ts[7].name) == TrimSpace(ts[7].value);
  }

  // ---- the seal -----------------------------------------------------------

  /** The tags of a seal, by position. */
  ghost predicate SealLayout(ts: seq<TagValue>, cv: Verdict, opts: SealOptions) {
    && |ts| == 6
    && ts[1].name == "a" && CheckAlgorithm(TrimSpace(ts[1].value))
    && ts[3].name == "cv" && Folded(TrimSpace(ts[3].value)) == VerdictName(cv)
    && ts[4] == TagValue("d", opts.domain) && ts[5] == TagValue("s", opts.selector)
  }

  lemma {:induction false} SealTagsLaidOut(instance: nat, cv: Verdict, opts: SealOptions)
    ensures SealLayout(SealTags(instance, cv, opts), cv, opts)
  {
    AlgorithmRead(ALGORITHM);
    VerdictRead(VerdictName(cv), cv);
  }

  lemma {:induction false} SealFieldReads(instance: nat, cv: Verdict, opts: SealOptions, sig: string)
    requires Configured(opts) && Base64Text(sig)
    ensures var ts := SealTags(instance, cv, opts);
            SealLayout(ts, cv, opts) && Reads(SignatureField(SEAL_NAME, ts, sig), ts, sig)
            && WithEmptyTag(SignatureField(SEAL_NAME, ts, sig), "b") == SignatureField(SEAL_NAME, ts, "")
  {
    var ts := SealTags(instance, cv, opts);
    SealTagsFit(instance, cv, opts);
    SealTagsDistinct(instance, cv, opts);
    SealTagsLaidOut(instance, cv, opts);
    SealName();
    FieldReads(SEAL_NAME, ts, sig);
    FitIsSignable(ts);
    Base64IsInert(sig);
    SignatureFieldEmptied(SEAL_NAME, ts, sig);
  }

  /** A seal signed over the chain without its signature verifies over the chain with it. */
  lemma {:induction false} SealVerifies(suite: Suite, zone: Zone, existing: seq<ArcSet>, bare: ArcSet,
                                        ts: seq<TagValue>, cv: Verdict, opts: SealOptions, sig: string)
    requires FetchKey(zone, opts.selector, opts.domain) == Some(suite.publicKey(opts.key))
    requires forall i :: 0 <= i < |existing| ==> existing[i].instance == i + 1
    requires bare.instance == |existing| + 1 && bare.seal == SignatureField(SEAL_NAME, ts, "")
    requires SealLayout(ts, cv, opts) && Reads(SignatureField(SEAL_NAME, ts, sig), ts, sig)
    requires WithEmptyTag(SignatureField(SEAL_NAME, ts, ""), "b") == SignatureField(SEAL_NAME, ts, "")
    requires WithEmptyTag(SignatureField(SEAL_NAME, ts, sig), "b") == SignatureField(SEAL_NAME, ts, "")
    requires VerifyRsa(suite, suite.publicKey(opts.key), SealSignedData(existing + [bare], bare.instance),
                       TrimSpace(sig))
    ensures var s := bare.(seal := SignatureField(SEAL_NAME, ts, sig));
            VerifySeal(suite, zone, existing + [s], s)
  {
    var s := bare.(seal := SignatureField(SEAL_NAME, ts, sig));
    SealDataOwn(existing, bare, s, bare.instance);
    KeyRead(zone, opts.selector, opts.domain);
    assert FieldTag(s.seal, ts[1].name) == TrimSpace(ts[1].value);
    assert FieldTag(s.seal, ts[4].name) == TrimSpace(ts[4].value);
    assert FieldTag(s.seal, ts[5].name) == TrimSpace(ts[5].value);
  }

  /** A seal says what its hop asserted. */
  lemma {:induction false} SealRecords(instance: nat, cv: Verdict, opts: SealOptions, sig: string)
    requires Configured(opts) && Base64Text(sig)
    ensures Folded(FieldTag(SignatureField(SEAL_NAME, SealTags(instance, cv, opts), sig), "cv")) == VerdictName(cv)
  {
    var ts := SealTags(instance, cv, opts);
    SealFieldReads(instance, cv, opts, sig);
    assert FieldTag(SignatureField(SEAL_NAME, ts, sig), ts[3].name) == TrimSpace(ts[3].value);
  }
}
