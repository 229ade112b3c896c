/**
 Whole journeys of a message: any number of hops sealing it in turn.
 */
module ArcHops {
  import opened Text
  import opened ArcCanonical
  import opened ArcMessage
  import opened ArcTags
  import opened ArcSelect
  import opened ArcChain
  import opened ArcCollect
  import opened ArcVerify
  import opened ArcSeal
  import opened ArcFields
  import opened ArcSigned

  /** A journey: the message as it leaves, and after each hop in turn has sealed it. */
  ghost predicate IsJourney(suite: Suite, zone: Zone, hops: seq<SealOptions>, msgs: seq<string>) {
    Linked(Sealing(suite, zone), hops, msgs)
  }

  ghost function Sealing(suite: Suite, zone: Zone): (string, SealOptions, string) -> bool {
    (raw, opts, sealed) => SealMessage(suite, zone, raw, opts) == Some(sealed)
  }

  // ---- what a sealed message parses to ------------------------------------

  /** The three fields of a set are lines, the last two read as their kind and instance. */
  ghost predicate WellPrinted(s: ArcSet) {
    && IsLine(s.aar) && IsLine(s.ams) && IsLine(s.seal)
    && Classify(HeaderOf(s.aar)).kind == Some(Results)
    && Matches(Classify(HeaderOf(s.ams)), Signature, s.instance)
    && Matches(Classify(HeaderOf(s.seal)), ArcChain.Seal, s.instance)
    && ArcNamed(Three(s))
  }

  lemma {:induction false} PrintedSignature(name: string, ts: seq<TagValue>, sig: string, instance: nat)
    requires IsFieldName(name) && AllFit(ts) && Distinct(ts) && Base64Text(sig) && 1 <= instance <= MAX_SETS
    requires ts != [] && ts[0] == TagValue("i", Itoa(instance))
    ensures var field := SignatureField(name, ts, sig);
            IsLine(field) && InstanceOf(field) == instance && HeaderOf(field) == Header(ToLower(name), field)
  {
    SignatureFieldIsLine(name, ts, sig);
    SignatureFieldInstance(name, ts, sig, instance);
    FieldNameRead(name, PrintTags(ts + [TagValue("b", sig)]));
  }

  lemma {:induction false} PrintedAmsField(headers: seq<Header>, instance: nat, opts: SealOptions, bh: string,
                                           sig: string)
    requires Configured(opts) && Base64Text(bh) && Base64Text(sig) && 1 <= instance <= MAX_SETS
    ensures var ams := SignatureField(AMS_NAME, AmsTags(instance, opts, Selected(headers, SignedNames(opts)), bh), sig);
            IsLine(ams) && InstanceOf(ams) == instance && HeaderOf(ams) == Header("arc-message-signature", ams)
  {
    var selected := Selected(headers, SignedNames(opts));
    ConfiguredFits(headers, instance, opts, bh);
    AmsTagsDistinct(instance, opts, selected, bh);
    AmsName();
    PrintedSignature(AMS_NAME, AmsTags(instance, opts, selected, bh), sig, instance);
  }

  lemma {:induction false} SignatureIsEncoded(suite: Suite, key: string, data: string)
    requires Encodes(suite) && SignRsa(suite, key, data).Some?
    ensures Base64Text(SignRsa(suite, key, data).value)
  {}

  lemma {:induction false} BuildAmsNeedsFrom(suite: Suite, msg: Message, instance: nat, opts: SealOptions)
    requires BuildAms(suite, msg, instance, opts).Some?
    ensures "from" in FoldAll(Selected(msg.headers, SignedNames(opts)))
  {}

  lemma {:induction false} PrintedAms(suite: Suite, msg: Message, instance: nat, opts: SealOptions)
    requires Encodes(suite) && Configured(opts) && 1 <= instance <= MAX_SETS
    requires BuildAms(suite, msg, instance, opts).Some?
    ensures var ams := BuildAms(suite, msg, instance, opts).value;
            IsLine(ams) && InstanceOf(ams) == instance && HeaderOf(ams) == Header("arc-message-signature", ams)
  {
    BuildAmsNeedsFrom(suite, msg, instance, opts);
    BuildAmsIs(suite, msg, instance, opts);
    var bh := suite.encode(BodyHash(suite, msg.body, opts.bodyCanon));
    var ts := AmsTags(instance, opts, Selected(msg.headers, SignedNames(opts)), bh);
    var data := AmsSignedData(msg.headers, SignatureField(AMS_NAME, ts, ""), opts.headerCanon);
    SignatureIsEncoded(suite, opts.key, data);
    PrintedAmsField(msg.headers, instance, opts, bh, SignRsa(suite, opts.key, data).value);
  }

  lemma {:induction false} PrintedSeal(instance: nat, cv: Verdict, opts: SealOptions, sig: string)
    requires Configured(opts) && Base64Text(sig) && 1 <= instance <= MAX_SETS
    ensures var seal := SignatureField(SEAL_NAME, SealTags(instance, cv, opts), sig);
            IsLine(seal) && InstanceOf(seal) == instance && HeaderOf(seal) == Header("arc-seal", seal)
  {
    SealTagsFit(instance, cv, opts);
    SealTagsDistinct(instance, cv, opts);
    SealName();
    PrintedSignature(SEAL_NAME, SealTags(instance, cv, opts), sig, instance);
  }

  lemma {:induction false} PrintedAar(opts: SealOptions, instance: nat)
    requires 1 <= instance <= MAX_SETS
    ensures var aar := AarField(opts, instance);
            && IsLine(aar) && HeaderOf(aar) == Header("arc-authentication-results", aar)
            && (InstanceOf(aar) == instance <==> KeepsInstance(opts, instance))
  {
    AarIsLine(opts, instance);
    AarInstance(opts, instance);
    AarName();
    FieldNameRead(AAR_NAME, PrintTag(TagValue("i", Itoa(instance))) + ";" + (" " + SanitizeValue(opts.authResults)));
  }

  lemma {:induction false} ArcPrefixes()
    ensures HasPrefix("arc-authentication-results", "arc-")
    ensures HasPrefix("arc-message-signature", "arc-") && HasPrefix("arc-seal", "arc-")
  {}

  lemma {:induction false} NamedKinds(aar: string, ams: string, seal: string)
    requires HeaderOf(aar) == Header("arc-authentication-results", aar)
    requires HeaderOf(ams) == Header("arc-message-signature", ams)
    requires HeaderOf(seal) == Header("arc-seal", seal)
    ensures Classify(HeaderOf(aar)).kind == Some(Results) && Classify(HeaderOf(ams)).kind == Some(Signature)
    ensures Classify(HeaderOf(seal)).kind == Some(ArcChain.Seal)
    ensures HasPrefix(HeaderOf(aar).name, "arc-") && HasPrefix(HeaderOf(ams).name, "arc-")
            && HasPrefix(HeaderOf(seal).name, "arc-")
  {
    ArcPrefixes();
  }

  lemma {:induction false} NextSetIs(suite: Suite, msg: Message, existing: seq<ArcSet>, cv: Verdict, opts: SealOptions)
    returns (sig: string)
    requires Encodes(suite) && NextSet(suite, msg, existing, cv, opts).Some?
    ensures var n := |existing| + 1;
            BuildAms(suite, msg, n, opts).Some? && Base64Text(sig)
            && NextSet(suite, msg, existing, cv, opts).value
               == ArcSet(n, AarField(opts, n), BuildAms(suite, msg, n, opts).value,
                         SignatureField(SEAL_NAME, SealTags(n, cv, opts), sig))
  {
    var n := |existing| + 1;
    var ams := BuildAms(suite, msg, n, opts);
    assert ams.Some?;
    var bare := ArcSet(n, AarField(opts, n), ams.value, SignatureField(SEAL_NAME, SealTags(n, cv, opts), ""));
    var data := SealSignedData(existing + [bare], n);
    assert SignRsa(suite, opts.key, data).Some?;
    SignatureIsEncoded(suite, opts.key, data);
    sig := SignRsa(suite, opts.key, data).value;
  }

  /** What a hop adds, whatever its keys and signatures are worth. */
  lemma {:induction false} NextSetPrinted(suite: Suite, msg: Message, existing: seq<ArcSet>, cv: Verdict,
                                          opts: SealOptions)
    requires Encodes(suite) && Configured(opts) && |existing| < MAX_SETS
    requires NextSet(suite, msg, existing, cv, opts).Some?
    ensures var s := NextSet(suite, msg, existing, cv, opts).value;
            && s.instance == |existing| + 1 && WellPrinted(s)
            && (InstanceOf(s.aar) == s.instance <==> KeepsInstance(opts, s.instance))
            && Folded(FieldTag(s.seal, "cv")) == VerdictName(cv)
  {
    var n := |existing| + 1;
    var sig := NextSetIs(suite, msg, existing, cv, opts);
    SetPrinted(n, AarField(opts, n), BuildAms(suite, msg, n, opts).value, cv, opts, sig) by {
      PrintedAar(opts, n);
      PrintedAms(suite, msg, n, opts);
    }
    PrintedAar(opts, n);
  }

  lemma {:induction false} SetPrinted(n: nat, aar: string, ams: string, cv: Verdict, opts: SealOptions, sig: string)
    requires 1 <= n <= MAX_SETS && Configured(opts) && Base64Text(sig)
    requires IsLine(aar) && HeaderOf(aar) == Header("arc-authentication-results", aar)
    requires IsLine(ams) && HeaderOf(ams) == Header("arc-message-signature", ams) && InstanceOf(ams) == n
    ensures var seal := SignatureField(SEAL_NAME, SealTags(n, cv, opts), sig);
            WellPrinted(ArcSet(n, aar, ams, seal)) && Folded(FieldTag(seal, "cv")) == VerdictName(cv)
  {
    var seal := SignatureField(SEAL_NAME, SealTags(n, cv, opts), sig);
    PrintedSeal(n, cv, opts, sig);
    SealRecords(n, cv, opts, sig);
    NamedKinds(aar, ams, seal);
    NamedSet(ArcSet(n, aar, ams, seal));
  }

  lemma {:induction false} NamedSet(s: ArcSet)
    requires HasPrefix(HeaderOf(s.aar).name, "arc-") && HasPrefix(HeaderOf(s.ams).name, "arc-")
             && HasPrefix(HeaderOf(s.seal).name, "arc-")
    ensures ArcNamed(Three(s))
  {}

  lemma {:induction false} SetTextIs(s: ArcSet, raw: string)
    ensures SetText(s) + raw == s.aar + CRLF + (s.ams + CRLF + (s.seal + CRLF + raw))
  {}

  lemma {:induction false} ThreeOnTop<T>(a: T, b: T, c: T, rest: seq<T>)
    ensures [a] + ([b] + ([c] + rest)) == [a, b, c] + rest
  {}

  /** Prepending a set adds its three fields to the header block and nothing else. */
  lemma {:induction false} SetPrepended(s: ArcSet, raw: string)
    requires IsLine(s.aar) && IsLine(s.ams) && IsLine(s.seal) && StartsWithField(raw)
    ensures StartsWithField(SetText(s) + raw)
    ensures var m := ParseMessage(raw);
            ParseMessage(SetText(s) + raw) == Message(Three(s) + m.headers, m.body)
  {
    LineOnTop(s.seal, raw);
    LineOnTop(s.ams, s.seal + CRLF + raw);
    LineOnTop(s.aar, s.ams + CRLF + (s.seal + CRLF + raw));
    SetTextIs(s, raw);
    ThreeOnTop(HeaderOf(s.aar), HeaderOf(s.ams), HeaderOf(s.seal), ParseMessage(raw).headers);
  }

  lemma {:induction false} LineOnTop(field: string, raw: string)
    requires IsLine(field) && StartsWithField(raw)
    ensures StartsWithField(field + CRLF + raw)
    ensures var m := ParseMessage(raw);
            ParseMessage(field + CRLF + raw) == Message([HeaderOf(field)] + m.headers, m.body)
  {
    PrependField(field, raw);
  }

  function ThreeFields(s: ArcSet): seq<Field> {
    [Classify(HeaderOf(s.aar)), Classify(HeaderOf(s.ams)), Classify(HeaderOf(s.seal))]
  }

  lemma {:induction false} ClassifyThree(s: ArcSet, headers: seq<Header>)
    ensures ClassifyAll(Three(s) + headers) == ThreeFields(s) + ClassifyAll(headers)
  {
    var a, b, c := HeaderOf(s.aar), HeaderOf(s.ams), HeaderOf(s.seal);
    MapCons(Classify, c, headers);
    MapCons(Classify, b, [c] + headers);
    MapCons(Classify, a, [b] + ([c] + headers));
    ThreeOnTop(a, b, c, headers);
    ThreeOnTop(Classify(a), Classify(b), Classify(c), ClassifyAll(headers));
  }

  // ---- a passing chain stays passing --------------------------------------

  /** A message with a From field that carries a chain of n sets that passes. */
  ghost predicate GoodMessage(suite: Suite, zone: Zone, msg: Message, n: nat) {
    && Fields(msg.headers, "from") > 0
    && Collected(msg.headers).Sets?
    && |Collected(msg.headers).sets| == n
    && (n > 0 ==> Passes(suite, zone, msg, Collected(msg.headers).sets))
  }

  /** It opens with a field, not with white space or a line break. */
  ghost predicate Good(suite: Suite, zone: Zone, raw: string, n: nat) {
    StartsWithField(raw) && GoodMessage(suite, zone, ParseMessage(raw), n)
  }

  /** A hop is ready: configured text, a published key that signs, and From among the names it signs. */
  ghost predicate Ready(suite: Suite, zone: Zone, opts: SealOptions) {
    Configured(opts) && Published(suite, zone, opts) && "from" in FoldAll(SignedNames(opts))
  }

  lemma {:induction false} FromIsNotArc()
    ensures !HasPrefix("from", "arc-")
  {
    assert "from"[..4][0] == 'f';
  }

  lemma {:induction false} LawfulEncodes(suite: Suite)
    requires Lawful(suite)
    ensures Encodes(suite)
  {}

  lemma {:induction false} CollectedChain(headers: seq<Header>)
    requires Collected(headers).Sets?
    ensures IsChain(ClassifyAll(headers), Collected(headers).sets)
  {}

  lemma {:induction false} NextSetUnfold(suite: Suite, msg: Message, existing: seq<ArcSet>, cv: Verdict,
                                         opts: SealOptions)
    requires BuildAms(suite, msg, |existing| + 1, opts).Some?
    ensures var n := |existing| + 1;
            var bare := ArcSet(n, AarField(opts, n), BuildAms(suite, msg, n, opts).value,
                               SignatureField(SEAL_NAME, SealTags(n, cv, opts), ""));
            var signature := SignRsa(suite, opts.key, SealSignedData(existing + [bare], n));
            NextSet(suite, msg, existing, cv, opts)
            == if signature.None? then None
               else Some(bare.(seal := SignatureField(SEAL_NAME, SealTags(n, cv, opts), signature.value)))
  {}

  /** The seal a ready hop computes verifies over the chain it extends. */
  lemma {:induction false} NextSetSeals(suite: Suite, zone: Zone, msg: Message, existing: seq<ArcSet>, cv: Verdict,
                                        opts: SealOptions)
    requires Lawful(suite) && Configured(opts) && Published(suite, zone, opts)
    requires forall i :: 0 <= i < |existing| ==> existing[i].instance == i + 1
    requires BuildAms(suite, msg, |existing| + 1, opts).Some?
    ensures NextSet(suite, msg, existing, cv, opts).Some?
    ensures var s := NextSet(suite, msg, existing, cv, opts).value;
            s.ams == BuildAms(suite, msg, |existing| + 1, opts).value && VerifySeal(suite, zone, existing + [s], s)
  {
    var n := |existing| + 1;
    NextSetUnfold(suite, msg, existing, cv, opts);
    var bare := ArcSet(n, AarField(opts, n), BuildAms(suite, msg, n, opts).value,
                       SignatureField(SEAL_NAME, SealTags(n, cv, opts), ""));
    var data := SealSignedData(existing + [bare], n);
    SigningWorks(suite, zone, opts, data);
    var sig := SignRsa(suite, opts.key, data).value;
    SealFieldReads(n, cv, opts, "");
    SealFieldReads(n, cv, opts, sig);
    SealVerifies(suite, zone, existing, bare, SealTags(n, cv, opts), cv, opts, sig);
  }

  /** The set a ready hop builds verifies on top of what it was built for. */
  lemma {:induction false} NextSetVerifies(suite: Suite, zone: Zone, msg: Message, existing: seq<ArcSet>, cv: Verdict,
                                           opts: SealOptions)
    requires Lawful(suite) && Ready(suite, zone, opts) && |existing| < MAX_SETS
    requires ColonFree(msg.headers) && Fields(msg.headers, "from") > 0
    requires forall i :: 0 <= i < |existing| ==> existing[i].instance == i + 1
    ensures NextSet(suite, msg, existing, cv, opts).Some?
    ensures var s := NextSet(suite, msg, existing, cv, opts).value;
            && VerifySeal(suite, zone, existing + [s], s)
            && VerifyAms(suite, zone, Message(Three(s) + msg.headers, msg.body), s.ams)
  {
    var n := |existing| + 1;
    FromIsNotArc();
    NamedIsSelected(msg.headers, SignedNames(opts), "from");
    AmsVerifies(suite, zone, msg, [], n, opts);
    NextSetSeals(suite, zone, msg, existing, cv, opts);
    LawfulEncodes(suite);
    NextSetPrinted(suite, msg, existing, cv, opts);
    AmsVerifies(suite, zone, msg, Three(NextSet(suite, msg, existing, cv, opts).value), n, opts);
  }

  /** An earlier seal is verified over the same input as before. */
  lemma {:induction false} SealKept(suite: Suite, zone: Zone, sets: seq<ArcSet>, s: ArcSet, i: nat)
    requires forall j :: 0 <= j < |sets| ==> sets[j].instance == j + 1
    requires i < |sets| && VerifySeal(suite, zone, sets, sets[i])
    ensures VerifySeal(suite, zone, sets + [s], sets[i])
  {
    SealDataStable(sets, [s], 1, i + 1);
  }

  lemma {:induction false} AllOfSnoc<T>(s: seq<T>, x: T, p: T -> bool)
    ensures AllOf(s + [x], p) <==> AllOf(s, p) && p(x)
  {
    var all := s + [x];
    assert all[|s|] == x;
    assert forall i :: 0 <= i < |s| ==> all[i] == s[i];
  }

  lemma {:induction false} SealsKept(suite: Suite, zone: Zone, sets: seq<ArcSet>, s: ArcSet)
    requires forall j :: 0 <= j < |sets| ==> sets[j].instance == j + 1
    requires AllOf(sets, SealTest(suite, zone, sets))
    ensures AllOf(sets, SealTest(suite, zone, sets + [s]))
  {
    forall i | 0 <= i < |sets|
      ensures SealTest(suite, zone, sets + [s])(sets[i])
    {
      assert SealTest(suite, zone, sets)(sets[i]);
      SealKept(suite, zone, sets, s, i);
    }
  }

  /** A chain that passes, with one more verified set on top. */
  lemma {:induction false} PassesGrow(suite: Suite, zone: Zone, before: Message, after: Message, sets: seq<ArcSet>,
                                      s: ArcSet)
    requires sets != [] ==> Passes(suite, zone, before, sets)
    requires forall i :: 0 <= i < |sets| ==> sets[i].instance == i + 1
    requires VerifySeal(suite, zone, sets + [s], s) && VerifyAms(suite, zone, after, s.ams) && RecordsWell(s)
    ensures Passes(suite, zone, after, sets + [s])
  {
    NewestIs(suite, zone, after, sets + [s]);
    AllOfSnoc(sets, s, RecordsWell);
    SealsKept(suite, zone, sets, s);
    AllOfSnoc(sets, s, SealTest(suite, zone, sets + [s]));
  }

  lemma {:induction false} NextRecordsWell(s: ArcSet, cv: Verdict)
    requires Folded(FieldTag(s.seal, "cv")) == VerdictName(cv)
    ensures RecordsWell(s) <==> cv == if s.instance == 1 then ChainNone else ChainPass
  {
    assert "none"[0] == 'n' && "pass"[0] == 'p' && "fail"[0] == 'f';
  }

  /** What a good message makes a hop assert. */
  lemma {:induction false} GoodAsserted(suite: Suite, zone: Zone, msg: Message, n: nat)
    requires GoodMessage(suite, zone, msg, n)
    ensures Existing(msg) == Collected(msg.headers).sets && |Existing(msg)| == n
    ensures Asserted(suite, zone, msg) == if n == 0 then ChainNone else ChainPass
  {}

  /** A chain needs the same instance in all three kinds. */
  lemma {:induction false} KindsAgree(fields: seq<Field>, n: nat)
    requires |Raws(fields, Results, n)| != |Raws(fields, Signature, n)|
    ensures CollectedFields(fields) == Broken
  {
    forall sets
      ensures !IsChain(fields, sets)
    {
      assert IsChain(fields, sets) ==>
          Raws(fields, Results, n) == Wanted(sets, Results, n)
          && Raws(fields, Signature, n) == Wanted(sets, Signature, n);
    }
  }

  lemma {:induction false} RawsOfPrinted(s: ArcSet, n: nat)
    requires WellPrinted(s)
    ensures Raws(ThreeFields(s), Results, n) == if InstanceOf(s.aar) == n then [s.aar] else []
    ensures Raws(ThreeFields(s), Signature, n) == if s.instance == n then [s.ams] else []
    ensures Raws(ThreeFields(s), ArcChain.Seal, n) == if s.instance == n then [s.seal] else []
  {
    var three := ThreeFields(s);
    assert three[0].kind == Some(Results) && three[1].kind == Some(Signature) && three[2].kind == Some(ArcChain.Seal);
    RawsOfLoose(three, n);
  }

  /** The chain after a hop: one set longer when the results text kept its number, otherwise broken. */
  lemma {:induction false} ChainAfter(headers: seq<Header>, sets: seq<ArcSet>, s: ArcSet)
    requires IsChain(ClassifyAll(headers), sets) && |sets| < MAX_SETS && WellPrinted(s) && s.instance == |sets| + 1
    ensures Collected(Three(s) + headers) == if InstanceOf(s.aar) == s.instance then Sets(sets + [s]) else Broken
  {
    var fields := ClassifyAll(headers);
    ClassifyThree(s, headers);
    if InstanceOf(s.aar) == s.instance {
      ChainGrows(fields, sets, ThreeFields(s), s);
      CollectedIs(ThreeFields(s) + fields, sets + [s]);
    } else {
      var n := s.instance;
      RawsConcat(ThreeFields(s), fields, Results, n);
      RawsConcat(ThreeFields(s), fields, Signature, n);
      RawsOfPrinted(s, n);
      assert Raws(fields, Results, n) == Wanted(sets, Results, n);
      assert Raws(fields, Signature, n) == Wanted(sets, Signature, n);
      KindsAgree(ThreeFields(s) + fields, n);
    }
  }

  lemma {:induction false} FieldsConcat(a: seq<Header>, b: seq<Header>, name: string)
    ensures Fields(a + b, name) == Fields(a, name) + Fields(b, name)
  {
    if b == [] {
      assert a + b == a;
    } else {
      assert (a + b)[..|a + b| - 1] == a + b[..|b| - 1];
      FieldsConcat(a, b[..|b| - 1], name);
    }
  }

  /** The message after a hop. */
  ghost function After(msg: Message, s: ArcSet): Message {
    Message(Three(s) + msg.headers, msg.body)
  }

  lemma {:induction false} GrownIsGood(suite: Suite, zone: Zone, msg: Message, n: nat, s: ArcSet)
    requires GoodMessage(suite, zone, msg, n)
    requires Collected(After(msg, s).headers) == Sets(Collected(msg.headers).sets + [s])
    requires Passes(suite, zone, After(msg, s), Collected(msg.headers).sets + [s])
    ensures GoodMessage(suite, zone, After(msg, s), n + 1) && VerifyMessage(suite, zone, After(msg, s)) == ChainPass
  {
    FieldsConcat(Three(s), msg.headers, "from");
  }

  lemma {:induction false} NextKeeps(suite: Suite, msg: Message, existing: seq<ArcSet>, cv: Verdict, opts: SealOptions,
                                     n: nat, keeps: bool)
    requires Encodes(suite) && NextSet(suite, msg, existing, cv, opts).Some?
    requires n == |existing| + 1 <= MAX_SETS && keeps == KeepsInstance(opts, n)
    ensures InstanceOf(NextSet(suite, msg, existing, cv, opts).value.aar) == n <==> keeps
  {
    var sig := NextSetIs(suite, msg, existing, cv, opts);
    AarInstance(opts, n);
  }

  /** The set a ready hop builds: it can be built, is printed as it should be, and verifies. */
  lemma {:induction false} NextSetSound(suite: Suite, zone: Zone, msg: Message, existing: seq<ArcSet>, cv: Verdict,
                                        opts: SealOptions) returns (s: ArcSet)
    requires Lawful(suite) && Ready(suite, zone, opts) && |existing| < MAX_SETS
    requires ColonFree(msg.headers) && Fields(msg.headers, "from") > 0
    requires forall i :: 0 <= i < |existing| ==> existing[i].instance == i + 1
    ensures NextSet(suite, msg, existing, cv, opts) == Some(s)
    ensures s.instance == |existing| + 1 && WellPrinted(s)
    ensures RecordsWell(s) <==> cv == if s.instance == 1 then ChainNone else ChainPass
    ensures VerifySeal(suite, zone, existing + [s], s) && VerifyAms(suite, zone, After(msg, s), s.ams)
  {
    NextSetVerifies(suite, zone, msg, existing, cv, opts);
    s := NextSet(suite, msg, existing, cv, opts).value;
    LawfulEncodes(suite);
    NextSetPrinted(suite, msg, existing, cv, opts);
    NextRecordsWell(s, cv);
  }

  /** What a hop records of the chain below it, when that passes. */
  function Recorded(sets: seq<ArcSet>): Verdict {
    if sets == [] then ChainNone else ChainPass
  }

  lemma {:induction false} NextSetPasses(suite: Suite, zone: Zone, msg: Message, sets: seq<ArcSet>, opts: SealOptions)
    returns (s: ArcSet)
    requires Lawful(suite) && Ready(suite, zone, opts) && |sets| < MAX_SETS
    requires ColonFree(msg.headers) && Fields(msg.headers, "from") > 0
    requires forall i :: 0 <= i < |sets| ==> sets[i].instance == i + 1
    requires sets != [] ==> Passes(suite, zone, msg, sets)
    ensures NextSet(suite, msg, sets, Recorded(sets), opts) == Some(s)
    ensures s.instance == |sets| + 1 && WellPrinted(s)
    ensures Passes(suite, zone, After(msg, s), sets + [s])
  {
    s := NextSetSound(suite, zone, msg, sets, Recorded(sets), opts);
    PassesGrow(suite, zone, msg, After(msg, s), sets, s);
  }

  ghost function BuildTest(suite: Suite, msg: Message, existing: seq<ArcSet>, cv: Verdict, opts: SealOptions,
                           keeps: bool): ArcSet -> bool
  {
    s =>
      && NextSet(suite, msg, existing, cv, opts) == Some(s)
      && WellPrinted(s) && s.instance == |existing| + 1 && (InstanceOf(s.aar) == |existing| + 1 <==> keeps)
  }

  /** The set is the one a hop builds, and is printed as it should be, but for the number of its results. */
  ghost predicate IsBuilt(suite: Suite, msg: Message, existing: seq<ArcSet>, cv: Verdict, opts: SealOptions,
                          keeps: bool, s: ArcSet) {
    AllOf([s], BuildTest(suite, msg, existing, cv, opts, keeps))
  }

  lemma {:induction false} BuiltIs(suite: Suite, msg: Message, existing: seq<ArcSet>, cv: Verdict, opts: SealOptions,
                                   keeps: bool, s: ArcSet)
    ensures IsBuilt(suite, msg, existing, cv, opts, keeps, s) <==>
            && NextSet(suite, msg, existing, cv, opts) == Some(s)
            && WellPrinted(s) && s.instance == |existing| + 1 && (InstanceOf(s.aar) == |existing| + 1 <==> keeps)
  {
    OneOf(s, BuildTest(suite, msg, existing, cv, opts, keeps));
  }

  lemma {:induction false} NextBuilt(suite: Suite, zone: Zone, msg: Message, sets: seq<ArcSet>, cv: Verdict, n: nat,
                                     opts: SealOptions, keeps: bool) returns (s: ArcSet)
    requires Lawful(suite) && Ready(suite, zone, opts) && n == |sets| < MAX_SETS && cv == Recorded(sets)
    requires ColonFree(msg.headers) && Fields(msg.headers, "from") > 0 && keeps == KeepsInstance(opts, n + 1)
    requires forall i :: 0 <= i < |sets| ==> sets[i].instance == i + 1
    requires sets != [] ==> Passes(suite, zone, msg, sets)
    ensures IsBuilt(suite, msg, sets, cv, opts, keeps, s)
    ensures Passes(suite, zone, After(msg, s), sets + [s])
  {
    s := NextSetPasses(suite, zone, msg, sets, opts);
    LawfulEncodes(suite);
    NextKeeps(suite, msg, sets, cv, opts, n + 1, keeps);
    BuiltIs(suite, msg, sets, cv, opts, keeps, s);
  }

  /** And what the chain becomes with it. */
  lemma {:induction false} NextChain(suite: Suite, zone: Zone, msg: Message, sets: seq<ArcSet>, cv: Verdict, n: nat,
                                     opts: SealOptions, keeps: bool) returns (s: ArcSet)
    requires Lawful(suite) && Ready(suite, zone, opts) && n == |sets| < MAX_SETS && cv == Recorded(sets)
    requires ColonFree(msg.headers) && Fields(msg.headers, "from") > 0 && keeps == KeepsInstance(opts, n + 1)
    requires Collected(msg.headers) == Sets(sets) && (sets != [] ==> Passes(suite, zone, msg, sets))
    ensures IsBuilt(suite, msg, sets, cv, opts, keeps, s)
    ensures Passes(suite, zone, After(msg, s), sets + [s])
    ensures Collected(After(msg, s).headers) == if keeps then Sets(sets + [s]) else Broken
  {
    CollectedInOrder(msg.headers, sets);
    s := NextBuilt(suite, zone, msg, sets, cv, n, opts, keeps);
    BuiltChain(suite, msg, sets, cv, opts, keeps, s);
  }

  lemma {:induction false} BuiltChain(suite: Suite, msg: Message, sets: seq<ArcSet>, cv: Verdict, opts: SealOptions,
                                      keeps: bool, s: ArcSet)
    requires Collected(msg.headers) == Sets(sets) && |sets| < MAX_SETS
    requires IsBuilt(suite, msg, sets, cv, opts, keeps, s)
    ensures Collected(After(msg, s).headers) == if keeps then Sets(sets + [s]) else Broken
  {
    BuiltIs(suite, msg, sets, cv, opts, keeps, s);
    ChainBecomes(msg, sets, s, keeps);
  }

  lemma {:induction false} CollectedInOrder(headers: seq<Header>, sets: seq<ArcSet>)
    requires Collected(headers) == Sets(sets)
    ensures forall i :: 0 <= i < |sets| ==> sets[i].instance == i + 1
  {
    CollectedChain(headers);
  }

  lemma {:induction false} ChainBecomes(msg: Message, sets: seq<ArcSet>, s: ArcSet, keeps: bool)
    requires Collected(msg.headers) == Sets(sets) && |sets| < MAX_SETS
    requires WellPrinted(s) && s.instance == |sets| + 1 && (InstanceOf(s.aar) == |sets| + 1 <==> keeps)
    ensures Collected(After(msg, s).headers) == if keeps then Sets(sets + [s]) else Broken
  {
    CollectedChain(msg.headers);
    ChainAfter(msg.headers, sets, s);
  }

  /** What becomes of a good message when a verifying set on top makes its chain longer, or breaks it. */
  lemma {:induction false} StepVerdict(suite: Suite, zone: Zone, msg: Message, n: nat, s: ArcSet, keeps: bool)
    requires GoodMessage(suite, zone, msg, n)
    requires Passes(suite, zone, After(msg, s), Collected(msg.headers).sets + [s])
    requires Collected(After(msg, s).headers) == if keeps then Sets(Collected(msg.headers).sets + [s]) else Broken
    ensures keeps ==> GoodMessage(suite, zone, After(msg, s), n + 1)
    ensures VerifyMessage(suite, zone, After(msg, s)) == ChainPass <==> keeps
  {
    if keeps {
      GrownIsGood(suite, zone, msg, n, s);
    }
  }

  lemma {:induction false} GoodNext(suite: Suite, zone: Zone, msg: Message, n: nat, opts: SealOptions, keeps: bool)
    returns (s: ArcSet)
    requires Lawful(suite) && GoodMessage(suite, zone, msg, n) && n < MAX_SETS && Ready(suite, zone, opts)
    requires ColonFree(msg.headers) && keeps == KeepsInstance(opts, n + 1)
    ensures IsBuilt(suite, msg, Existing(msg), Asserted(suite, zone, msg), opts, keeps, s)
    ensures Passes(suite, zone, After(msg, s), Collected(msg.headers).sets + [s])
    ensures Collected(After(msg, s).headers) == if keeps then Sets(Collected(msg.headers).sets + [s]) else Broken
  {
    GoodAsserted(suite, zone, msg, n);
    s := NextChain(suite, zone, msg, Existing(msg), Asserted(suite, zone, msg), n, opts, keeps);
  }

  /** One hop, on the parsed message. */
  lemma {:induction false} MessageStep(suite: Suite, zone: Zone, msg: Message, n: nat, opts: SealOptions)
    returns (s: ArcSet)
    requires Lawful(suite) && GoodMessage(suite, zone, msg, n) && n < MAX_SETS && Ready(suite, zone, opts)
    requires ColonFree(msg.headers)
    ensures IsBuilt(suite, msg, Existing(msg), Asserted(suite, zone, msg), opts, KeepsInstance(opts, n + 1), s)
    ensures KeepsInstance(opts, n + 1) ==> GoodMessage(suite, zone, After(msg, s), n + 1)
    ensures VerifyMessage(suite, zone, After(msg, s)) == ChainPass <==> KeepsInstance(opts, n + 1)
  {
    var keeps := KeepsInstance(opts, n + 1);
    s := GoodNext(suite, zone, msg, n, opts, keeps);
    StepVerdict(suite, zone, msg, n, s, keeps);
  }

  lemma {:induction false} SealMessageIs(suite: Suite, zone: Zone, raw: string, opts: SealOptions)
    ensures var msg := ParseMessage(raw);
            var next := NextSet(suite, msg, Existing(msg), Asserted(suite, zone, msg), opts);
            SealMessage(suite, zone, raw, opts)
            == if |Existing(msg)| >= MAX_SETS || next.None? then None else Some(SetText(next.value) + raw)
  {}

  /**
   One hop: a ready hop always seals a good message, and the result passes with one
   more set exactly when the results text kept its instance number.
   */
  lemma {:induction false} SealStep(suite: Suite, zone: Zone, raw: string, n: nat, opts: SealOptions)
    requires Lawful(suite) && Good(suite, zone, raw, n) && n < MAX_SETS && Ready(suite, zone, opts)
    ensures SealMessage(suite, zone, raw, opts).Some?
    ensures var sealed := SealMessage(suite, zone, raw, opts).value;
            && (KeepsInstance(opts, n + 1) ==> Good(suite, zone, sealed, n + 1))
            && (VerifyChain(suite, zone, sealed) == ChainPass <==> KeepsInstance(opts, n + 1))
  {
    var msg := ParseMessage(raw);
    ParsedColonFree(raw);
    GoodAsserted(suite, zone, msg, n);
    var s := MessageStep(suite, zone, msg, n, opts);
    BuiltIs(suite, msg, Existing(msg), Asserted(suite, zone, msg), opts, KeepsInstance(opts, n + 1), s);
    SealMessageIs(suite, zone, raw, opts);
    SetPrepended(s, raw);
  }

  lemma {:induction false} GoodPasses(suite: Suite, zone: Zone, raw: string, n: nat)
    requires Good(suite, zone, raw, n)
    ensures VerifyChain(suite, zone, raw) == if n == 0 then ChainNone else ChainPass
  {}

  /** In any journey through ready hops, after i hops the message passes with exactly i sets. */
  lemma {:induction false} JourneyPasses(suite: Suite, zone: Zone, hops: seq<SealOptions>, msgs: seq<string>, i: nat)
    requires Lawful(suite) && i <= |hops| <= MAX_SETS && IsJourney(suite, zone, hops, msgs)
    requires Good(suite, zone, msgs[0], 0)
    requires forall i :: 0 <= i < |hops| ==> Ready(suite, zone, hops[i]) && KeepsInstance(hops[i], i + 1)
    ensures Good(suite, zone, msgs[i], i)
    ensures VerifyChain(suite, zone, msgs[i]) == if i == 0 then ChainNone else ChainPass
  {
    if i > 0 {
      var k := i - 1;
      JourneyPasses(suite, zone, hops, msgs, k);
      assert Sealing(suite, zone)(msgs[k], hops[k], msgs[k + 1]);
      assert Ready(suite, zone, hops[k]) && KeepsInstance(hops[k], k + 1);
      SealStep(suite, zone, msgs[k], k, hops[k]);
    }
    GoodPasses(suite, zone, msgs[i], i);
  }

  /**
   A message with a From field and no chain can be sealed by any number of ready hops
   up to 50 in a row, none of them refusing, and then passes with exactly that many
   sets;
   */
  lemma {:induction false} EveryHopPasses(suite: Suite, zone: Zone, raw: string, hops: seq<SealOptions>)
    returns (msgs: seq<string>)
    requires Lawful(suite) && Good(suite, zone, raw, 0) && |hops| <= MAX_SETS
    requires forall i :: 0 <= i < |hops| ==> Ready(suite, zone, hops[i]) && KeepsInstance(hops[i], i + 1)
    ensures IsJourney(suite, zone, hops, msgs) && msgs[0] == raw
    ensures Good(suite, zone, msgs[|hops|], |hops|)
    ensures VerifyChain(suite, zone, msgs[|hops|]) == if hops == [] then ChainNone else ChainPass
  {
    forall i: nat | i < |hops|
      ensures Steps(Sealing(suite, zone), GoodAt(suite, zone), hops[i], i)
    {
      HopCanBeTaken(suite, zone, i, hops[i]);
    }
    msgs := LinkedReaches(Sealing(suite, zone), GoodAt(suite, zone), hops, raw);
    GoodPasses(suite, zone, msgs[|hops|], |hops|);
  }

  lemma {:induction false} HopCanBeTaken(suite: Suite, zone: Zone, n: nat, opts: SealOptions)
    requires Lawful(suite) && n < MAX_SETS && Ready(suite, zone, opts) && KeepsInstance(opts, n + 1)
    ensures Steps(Sealing(suite, zone), GoodAt(suite, zone), opts, n)
  {
    forall raw | GoodAt(suite, zone)(raw, n)
      ensures exists sealed :: Sealing(suite, zone)(raw, opts, sealed) && GoodAt(suite, zone)(sealed, n + 1)
    {
      SealStep(suite, zone, raw, n, opts);
      var sealed := SealMessage(suite, zone, raw, opts).value;
      assert Sealing(suite, zone)(raw, opts, sealed) && GoodAt(suite, zone)(sealed, n + 1);
    }
  }

  ghost function GoodAt(suite: Suite, zone: Zone): (string, nat) -> bool {
    (raw: string, n: nat) => Good(suite, zone, raw, n)
  }

  /** the 51st seal is refused. */
  lemma {:induction false} FullChainRefuses(suite: Suite, zone: Zone, raw: string, opts: SealOptions)
    requires Good(suite, zone, raw, MAX_SETS)
    ensures SealMessage(suite, zone, raw, opts) == None
  {
    GoodAsserted(suite, zone, ParseMessage(raw), MAX_SETS);
    SealMessageIs(suite, zone, raw, opts);
  }

  // ---- a failed chain stays failed ----------------------------------------

  /** A hop as it seals: the keys it can see at that moment, and its configuration. */
  datatype Hop = Hop(zone: Zone, opts: SealOptions)

  /** A relay: the message as it arrives, and after each hop in turn has sealed it with the keys it saw. */
  ghost predicate IsRelay(suite: Suite, hops: seq<Hop>, msgs: seq<string>) {
    Linked(Relaying(suite), hops, msgs)
  }

  ghost function Relaying(suite: Suite): (string, Hop, string) -> bool {
    (raw, hop: Hop, sealed) => SealMessage(suite, hop.zone, raw, hop.opts) == Some(sealed)
  }

  /** A first message signature is there to stay. */
  ghost predicate Begun(msg: Message) {
    |Raws(ClassifyAll(msg.headers), Signature, 1)| >= 1
  }

  /** The chain is broken, or a set of it records a failure: no key can mend that. */
  ghost predicate Dead(msg: Message) {
    Begun(msg) && (Collected(msg.headers).Broken? || !AllRecordWell(Collected(msg.headers).sets))
  }

  lemma {:induction false} DeadFails(suite: Suite, zone: Zone, msg: Message)
    requires Dead(msg)
    ensures VerifyMessage(suite, zone, msg) == ChainFail
  {
    if Collected(msg.headers).Sets? {
      NoSetsRecordWell(Collected(msg.headers).sets);
    }
  }

  lemma {:induction false} NoSetsRecordWell(sets: seq<ArcSet>)
    ensures sets == [] ==> AllRecordWell(sets)
  {}

  /** A collectable chain that fails has a first set. */
  lemma {:induction false} FailedIsBegun(suite: Suite, zone: Zone, msg: Message)
    requires VerifyMessage(suite, zone, msg) == ChainFail && Collected(msg.headers).Sets?
    ensures Collected(msg.headers).sets != [] && Begun(msg)
  {
    var sets := Collected(msg.headers).sets;
    assert sets != [];
    CollectedChain(msg.headers);
    assert Raws(ClassifyAll(msg.headers), Signature, 1) == Wanted(sets, Signature, 1);
  }

  lemma {:induction false} SignaturesAfter(headers: seq<Header>, s: ArcSet)
    requires WellPrinted(s)
    ensures Raws(ClassifyAll(Three(s) + headers), Signature, 1)
            == (if s.instance == 1 then [s.ams] else []) + Raws(ClassifyAll(headers), Signature, 1)
  {
    ClassifyThree(s, headers);
    RawsConcat(ThreeFields(s), ClassifyAll(headers), Signature, 1);
    RawsOfPrinted(s, 1);
  }

  /** A second first signature can never be part of a chain. */
  lemma {:induction false} RepeatedSignature(fields: seq<Field>)
    requires |Raws(fields, Signature, 1)| >= 2
    ensures CollectedFields(fields) == Broken
  {
    NoChain(fields, [], Signature, 1);
    assert fields + [] == fields;
  }

  lemma {:induction false} FailedAsserted(suite: Suite, zone: Zone, msg: Message)
    requires VerifyMessage(suite, zone, msg) == ChainFail
    ensures Collected(msg.headers).Broken? ==> Existing(msg) == []
    ensures Collected(msg.headers).Sets? ==>
              Existing(msg) == Collected(msg.headers).sets != [] && Asserted(suite, zone, msg) == ChainFail
  {}

  /** A broken chain with a first signature gets a second one. */
  lemma {:induction false} BrokenIsDead(msg: Message, s: ArcSet)
    requires Begun(msg) && WellPrinted(s) && s.instance == 1
    ensures Dead(After(msg, s))
  {
    SignaturesAfter(msg.headers, s);
    RepeatedSignature(ClassifyAll(Three(s) + msg.headers));
  }

  /** A chain whose new set records a failure has that record for good. */
  lemma {:induction false} RecordedIsDead(msg: Message, sets: seq<ArcSet>, s: ArcSet)
    requires IsChain(ClassifyAll(msg.headers), sets) && 0 < |sets| < MAX_SETS && Begun(msg)
    requires WellPrinted(s) && s.instance == |sets| + 1
    requires Folded(FieldTag(s.seal, "cv")) == VerdictName(ChainFail)
    ensures Dead(After(msg, s))
  {
    SignaturesAfter(msg.headers, s);
    ChainAfter(msg.headers, sets, s);
    NextRecordsWell(s, ChainFail);
    AllOfSnoc(sets, s, RecordsWell);
  }

  /** A seal made while the chain fails, whatever the keys, leaves it failing for good. */
  lemma {:induction false} FailingSeal(suite: Suite, zone: Zone, msg: Message, opts: SealOptions)
    requires Encodes(suite) && Configured(opts) && |Existing(msg)| < MAX_SETS
    requires VerifyMessage(suite, zone, msg) == ChainFail && Begun(msg)
    requires NextSet(suite, msg, Existing(msg), Asserted(suite, zone, msg), opts).Some?
    ensures var s := NextSet(suite, msg, Existing(msg), Asserted(suite, zone, msg), opts).value;
            WellPrinted(s) && Dead(After(msg, s))
  {
    var existing, cv := Existing(msg), Asserted(suite, zone, msg);
    NextSetPrinted(suite, msg, existing, cv, opts);
    FailedAsserted(suite, zone, msg);
    var s := NextSet(suite, msg, existing, cv, opts).value;
    if Collected(msg.headers).Broken? {
      BrokenIsDead(msg, s);
    } else {
      CollectedChain(msg.headers);
      RecordedIsDead(msg, existing, s);
    }
  }

  ghost predicate DeadText(raw: string) {
    StartsWithField(raw) && Dead(ParseMessage(raw))
  }

  lemma {:induction false} FailingHop(suite: Suite, hop: Hop, raw: string, sealed: string)
    requires Encodes(suite) && Configured(hop.opts) && StartsWithField(raw) && Begun(ParseMessage(raw))
    requires VerifyChain(suite, hop.zone, raw) == ChainFail
    requires SealMessage(suite, hop.zone, raw, hop.opts) == Some(sealed)
    ensures DeadText(sealed)
  {
    var msg := ParseMessage(raw);
    SealMessageIs(suite, hop.zone, raw, hop.opts);
    FailingSeal(suite, hop.zone, msg, hop.opts);
    SetPrepended(NextSet(suite, msg, Existing(msg), Asserted(suite, hop.zone, msg), hop.opts).value, raw);
  }

  lemma {:induction false} DeadHop(suite: Suite, hop: Hop, raw: string, sealed: string)
    requires Encodes(suite) && Configured(hop.opts) && DeadText(raw)
    requires SealMessage(suite, hop.zone, raw, hop.opts) == Some(sealed)
    ensures DeadText(sealed)
  {
    DeadFails(suite, hop.zone, ParseMessage(raw));
    FailingHop(suite, hop, raw, sealed);
  }

  lemma {:induction false} DeadForever(suite: Suite, hops: seq<Hop>, msgs: seq<string>, i: nat)
    requires Encodes(suite) && 1 <= i <= |hops| && IsRelay(suite, hops, msgs)
    requires StartsWithField(msgs[0]) && Begun(ParseMessage(msgs[0]))
    requires VerifyChain(suite, hops[0].zone, msgs[0]) == ChainFail
    requires forall i :: 0 <= i < |hops| ==> Configured(hops[i].opts)
    ensures DeadText(msgs[i])
  {
    var k := i - 1;
    assert Relaying(suite)(msgs[k], hops[k], msgs[k + 1]);
    if k == 0 {
      FailingHop(suite, hops[k], msgs[k], msgs[i]);
    } else {
      DeadForever(suite, hops, msgs, k);
      DeadHop(suite, hops[k], msgs[k], msgs[i]);
    }
  }

  /**
   Failure is absorbing. If a chain fails with the keys one hop sees, because it is
   collectable and wrong or because it is broken beyond its first signature, then once
   that hop has sealed it the message fails with every set of keys, and so does every
   message further hops make of it, whatever keys they see.
   */
  lemma {:induction false} FailureIsAbsorbing(suite: Suite, hops: seq<Hop>, msgs: seq<string>, i: nat, zone: Zone)
    requires Encodes(suite) && 1 <= i <= |hops| && IsRelay(suite, hops, msgs)
    requires StartsWithField(msgs[0]) && VerifyChain(suite, hops[0].zone, msgs[0]) == ChainFail
    requires Collected(ParseMessage(msgs[0]).headers).Sets? || Begun(ParseMessage(msgs[0]))
    requires forall i :: 0 <= i < |hops| ==> Configured(hops[i].opts)
    ensures VerifyChain(suite, zone, msgs[i]) == ChainFail
  {
    if !Begun(ParseMessage(msgs[0])) {
      FailedIsBegun(suite, hops[0].zone, ParseMessage(msgs[0]));
    }
    DeadForever(suite, hops, msgs, i);
    DeadFails(suite, zone, ParseMessage(msgs[i]));
  }

  // ---- a chain that lost its beginning ------------------------------------

  /** What a first set brings whose results field reads as number m. */
  predicate Brings(kind: Kind, n: nat, m: nat) {
    if kind == Results then n == m else n == 1
  }

  /** The ARC fields are a chain's, all but its first signature, its first seal and its results of number m. */
  ghost predicate Lacking(fields: seq<Field>, sets: seq<ArcSet>, m: nat) {
    && 1 <= m <= |sets| <= MAX_SETS
    && (forall i :: 0 <= i < |sets| ==> sets[i].instance == i + 1)
    && (forall kind, n: nat :: Raws(fields, kind, n) == if Brings(kind, n, m) then [] else Wanted(sets, kind, n))
  }

  /** The chain with these three in place. */
  function Filled(sets: seq<ArcSet>, s: ArcSet, m: nat): seq<ArcSet>
    requires 1 <= m <= |sets|
  {
    var begun := sets[0 := sets[0].(ams := s.ams, seal := s.seal)];
    begun[m - 1 := begun[m - 1].(aar := s.aar)]
  }

  lemma {:induction false} FilledWanted(sets: seq<ArcSet>, s: ArcSet, m: nat, kind: Kind, n: nat)
    requires 1 <= m <= |sets|
    ensures Wanted(Filled(sets, s, m), kind, n)
            == if Brings(kind, n, m) then [Slot(s, kind)] else Wanted(sets, kind, n)
  {}

  /** The fields of a first set whose results field reads as number m. */
  predicate AreLoose(three: seq<Field>, s: ArcSet, m: nat) {
    three == [Field(Some(Results), m, s.aar), Field(Some(Signature), 1, s.ams), Field(Some(ArcChain.Seal), 1, s.seal)]
  }

  lemma {:induction false} RawsBrought(three: seq<Field>, s: ArcSet, m: nat, kind: Kind, n: nat)
    requires AreLoose(three, s, m)
    ensures Raws(three, kind, n) == if Brings(kind, n, m) then [Slot(s, kind)] else []
  {
    RawsOfLoose(three, n);
  }

  lemma {:induction false} FillMends(fields: seq<Field>, sets: seq<ArcSet>, three: seq<Field>, s: ArcSet, m: nat)
    requires AreLoose(three, s, m) && Lacking(fields, sets, m)
    ensures IsChain(three + fields, Filled(sets, s, m))
  {
    forall kind, n: nat
      ensures Raws(three + fields, kind, n) == Wanted(Filled(sets, s, m), kind, n)
    {
      RawsConcat(three, fields, kind, n);
      RawsBrought(three, s, m, kind, n);
      FilledWanted(sets, s, m, kind, n);
    }
  }

  lemma {:induction false} MendedWasLacking(fields: seq<Field>, sets: seq<ArcSet>, three: seq<Field>, s: ArcSet, m: nat)
    requires AreLoose(three, s, m) && IsChain(three + fields, sets)
    ensures Lacking(fields, sets, m)
  {
    forall kind, n: nat
      ensures Raws(fields, kind, n) == if Brings(kind, n, m) then [] else Wanted(sets, kind, n)
      ensures Brings(kind, n, m) ==> 1 <= n <= |sets|
    {
      RawsConcat(three, fields, kind, n);
      RawsBrought(three, s, m, kind, n);
      OneAlready(Raws(three, kind, n), Raws(fields, kind, n), sets, kind, n);
    }
    assert Brings(Results, m, m);
  }

  lemma {:induction false} OneAlready(own: seq<string>, below: seq<string>, sets: seq<ArcSet>, kind: Kind, n: nat)
    requires own + below == Wanted(sets, kind, n)
    ensures own == [] ==> below == Wanted(sets, kind, n)
    ensures own != [] ==> below == [] && 1 <= n <= |sets|
  {
    assert |own| + |below| <= 1;
  }

  lemma {:induction false} MendedFields(fields: seq<Field>, three: seq<Field>, s: ArcSet, m: nat)
    requires AreLoose(three, s, m)
    ensures CollectedFields(three + fields).Sets? <==> exists sets :: Lacking(fields, sets, m)
    ensures forall sets :: Lacking(fields, sets, m) ==> CollectedFields(three + fields) == Sets(Filled(sets, s, m))
  {
    forall sets | Lacking(fields, sets, m)
      ensures CollectedFields(three + fields) == Sets(Filled(sets, s, m))
    {
      FillMends(fields, sets, three, s, m);
      CollectedIs(three + fields, Filled(sets, s, m));
    }
    if sets :| IsChain(three + fields, sets) {
      MendedWasLacking(fields, sets, three, s, m);
    }
  }

  lemma {:induction false} PrintedIsLoose(s: ArcSet)
    requires WellPrinted(s) && s.instance == 1
    ensures AreLoose(ThreeFields(s), s, InstanceOf(s.aar))
  {}

  /** A set of instance 1 on top of a message leaves a chain exactly when the message lacked what it brings. */
  lemma {:induction false} MendedBySet(msg: Message, s: ArcSet)
    requires WellPrinted(s) && s.instance == 1
    ensures Collected(After(msg, s).headers).Sets? <==>
            exists sets :: Lacking(ClassifyAll(msg.headers), sets, InstanceOf(s.aar))
    ensures forall sets :: Lacking(ClassifyAll(msg.headers), sets, InstanceOf(s.aar)) ==>
              Collected(After(msg, s).headers) == Sets(Filled(sets, s, InstanceOf(s.aar)))
  {
    ClassifyThree(s, msg.headers);
    PrintedIsLoose(s);
    MendedFields(ClassifyAll(msg.headers), ThreeFields(s), s, InstanceOf(s.aar));
  }

  /**
   What absorption leaves out: a broken chain is sealed as if there were none, and is a
   chain again exactly when it lacked nothing but what the seal brings: the first
   signature, the first seal, and the results of the number its results text reads as.
   Verification then judges the mended chain afresh.
   */
  lemma {:induction false} MendedIff(suite: Suite, zone: Zone, raw: string, opts: SealOptions, sealed: string)
    requires Encodes(suite) && Configured(opts) && StartsWithField(raw)
    requires Collected(ParseMessage(raw).headers) == Broken && SealMessage(suite, zone, raw, opts) == Some(sealed)
    ensures Collected(ParseMessage(sealed).headers).Sets? <==>
            exists sets :: Lacking(ClassifyAll(ParseMessage(raw).headers), sets, InstanceOf(AarField(opts, 1)))
  {
    var msg := ParseMessage(raw);
    SealMessageIs(suite, zone, raw, opts);
    var cv := Asserted(suite, zone, msg);
    BrokenHasNone(msg);
    NextSetPrinted(suite, msg, [], cv, opts);
    var sig := NextSetIs(suite, msg, [], cv, opts);
    var s := NextSet(suite, msg, [], cv, opts).value;
    SetPrepended(s, raw);
    MendedBySet(msg, s);
  }

  lemma {:induction false} BrokenHasNone(msg: Message)
    requires Collected(msg.headers) == Broken
    ensures Existing(msg) == []
  {}

  /** The ARC fields are those of instances 2 to N, one of each kind, and nothing else: the first set was stripped. */
  ghost predicate Beheaded(fields: seq<Field>, rest: seq<ArcSet>) {
    && |rest| < MAX_SETS
    && (forall i :: 0 <= i < |rest| ==> rest[i].instance == i + 2)
    && (forall kind, n: nat :: Raws(fields, kind, n) == if 2 <= n <= |rest| + 1 then [Slot(rest[n - 2], kind)] else [])
  }

  lemma {:induction false} BeheadedLacks(fields: seq<Field>, rest: seq<ArcSet>, s: ArcSet)
    requires s.instance == 1
    ensures Beheaded(fields, rest) <==> Lacking(fields, [s] + rest, 1)
  {
    var sets := [s] + rest;
    forall kind, n: nat
      ensures (if Brings(kind, n, 1) then [] else Wanted(sets, kind, n))
              == if 2 <= n <= |rest| + 1 then [Slot(rest[n - 2], kind)] else []
    {
    }
    assert forall i :: 0 <= i < |rest| ==> rest[i] == sets[i + 1];
  }

  /** With results that keep their number, it is a chain again exactly when it had only lost its first set. */
  lemma {:induction false} MendedFirst(msg: Message, s: ArcSet)
    requires WellPrinted(s) && s.instance == 1 && InstanceOf(s.aar) == 1
    ensures Collected(After(msg, s).headers).Sets? <==> exists rest :: Beheaded(ClassifyAll(msg.headers), rest)
    ensures forall rest :: Beheaded(ClassifyAll(msg.headers), rest) ==>
              Collected(After(msg, s).headers) == Sets([s] + rest)
  {
    var fields := ClassifyAll(msg.headers);
    MendedBySet(msg, s);
    BeheadedIff(fields, s);
    forall rest | Beheaded(fields, rest)
      ensures Collected(After(msg, s).headers) == Sets([s] + rest)
    {
      BeheadedLacks(fields, rest, s);
      FilledHead(s, rest);
    }
  }

  lemma {:induction false} FilledHead(s: ArcSet, rest: seq<ArcSet>)
    ensures Filled([s] + rest, s, 1) == [s] + rest
  {}

  lemma {:induction false} BeheadedIff(fields: seq<Field>, s: ArcSet)
    requires s.instance == 1
    ensures (exists rest :: Beheaded(fields, rest)) <==> exists sets :: Lacking(fields, sets, 1)
  {
    if rest :| Beheaded(fields, rest) {
      BeheadedLacks(fields, rest, s);
    }
    if sets :| Lacking(fields, sets, 1) {
      assert [sets[0]] + sets[1..] == sets;
      BeheadedLacks(fields, sets[1..], sets[0]);
    }
  }

  /** Such a message of at least two sets is broken, and has no first signature. */
  lemma {:induction false} LackingIsBroken(msg: Message, sets: seq<ArcSet>, m: nat)
    requires Lacking(ClassifyAll(msg.headers), sets, m) && |sets| >= 2
    ensures Collected(msg.headers) == Broken && !Begun(msg)
  {
    var fields := ClassifyAll(msg.headers);
    assert !Brings(Signature, 2, m);
    assert Raws(fields, Signature, 1) == [] && Raws(fields, Signature, 2) == Wanted(sets, Signature, 2);
    forall other
      ensures !IsChain(fields, other)
    {
      assert IsChain(fields, other) ==>
          Raws(fields, Signature, 1) == Wanted(other, Signature, 1)
          && Raws(fields, Signature, 2) == Wanted(other, Signature, 2);
    }
  }

  /** Results text can mend what a first set would not: these fields lack no first set, and lack what i=2 brings. */
  lemma {:induction false} RenumberedMends(fields: seq<Field>, sets: seq<ArcSet>)
    requires |sets| == 2 && sets[0].instance == 1 && sets[1].instance == 2
    requires fields == [Field(Some(Results), 1, sets[0].aar), Field(Some(Signature), 2, sets[1].ams),
                        Field(Some(ArcChain.Seal), 2, sets[1].seal)]
    ensures Lacking(fields, sets, 2) && !exists rest :: Beheaded(fields, rest)
  {
    forall kind, n: nat
      ensures Raws(fields, kind, n) == if Brings(kind, n, 2) then [] else Wanted(sets, kind, n)
    {
      RawsOfLoose(fields, n);
    }
    forall rest
      ensures !Beheaded(fields, rest)
    {
      assert Raws(fields, Results, 1) != [];
    }
  }
}
