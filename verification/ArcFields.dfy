/**
 The fields a sealer writes, read back: each is one line, of its kind, with its
 instance number and tags.
 */
module ArcFields {
  import opened Text
  import opened ArcCanonical
  import opened ArcMessage
  import opened ArcTags
  import opened ArcChain
  import opened ArcVerify
  import opened ArcSeal

  /** Text that can stand in a tag list without ending the tag or the line. */
  predicate Harmless(v: string) {
    ';' !in v && '\r' !in v && '\n' !in v
  }

  /** And without looking like a signature tag. */
  predicate CanStand(v: string) {
    Harmless(v) && Inert(v)
  }

  /** The configured domain, selector and field names can stand in the fields they become part of. */
  predicate Configured(opts: SealOptions) {
    && CanStand(opts.domain)
    && CanStand(opts.selector)
    && forall n :: n in SignedNames(opts) ==> Harmless(n) && '=' !in n
  }

  /** The alphabet of encoded text. */
  ghost predicate Encodes(suite: Suite) {
    forall x :: Base64Text(suite.encode(x))
  }

  // ---- text that lacks a character ----------------------------------------

  lemma {:induction false} JoinLacks(parts: seq<string>, c: char)
    requires c != ':' && forall p :: p in parts ==> c !in p
    ensures c !in Join(parts, ":")
  {
    if |parts| > 1 {
      JoinLacks(parts[1..], c);
    }
  }

  lemma {:induction false} PrintLacks(ts: seq<TagValue>, c: char)
    requires c == '\r' || c == '\n'
    requires forall i :: 0 <= i < |ts| ==> IsTagName(ts[i].name) && c !in ts[i].value
    ensures c !in PrintTags(ts)
  {
    if ts != [] {
      var t := ts[|ts| - 1];
      assert c !in t.name;
      assert c !in PrintTag(t);
      PrintLacks(ts[..|ts| - 1], c);
    }
  }

  lemma {:induction false} SelectedFrom(headers: seq<Header>, names: seq<string>)
    ensures forall n :: n in Selected(headers, names) ==> n in names && Signs(headers, n)
  {
    if names != [] {
      SelectedFrom(headers, names[..|names| - 1]);
    }
  }

  // ---- values -------------------------------------------------------------

  /** Neither separator nor equals sign. */
  predicate Plain(v: string) {
    Harmless(v) && '=' !in v
  }

  lemma {:induction false} DigitsArePlain(s: string)
    requires forall c :: c in s ==> IsDigit(c)
    ensures Plain(s) && Plain("-" + s)
  {}

  lemma {:induction false} NumbersArePlain(n: int)
    ensures Plain(FormatInt(n))
  {
    DigitsArePlain(Itoa(if n < 0 then -n else n));
  }

  lemma {:induction false} AlgorithmIsPlain()
    ensures Plain(ALGORITHM)
  {}

  lemma {:induction false} CanonIsPlain(h: Canonicalization, b: Canonicalization)
    ensures Plain(CanonName(h) + "/" + CanonName(b))
  {}

  lemma {:induction false} VerdictIsPlain(v: Verdict)
    ensures Plain(VerdictName(v))
  {}

  lemma {:induction false} ListIsPlain(headers: seq<Header>, opts: SealOptions)
    requires Configured(opts)
    ensures Plain(Join(Selected(headers, SignedNames(opts)), ":"))
  {
    var names := Selected(headers, SignedNames(opts));
    SelectedFrom(headers, SignedNames(opts));
    JoinLacks(names, ';');
    JoinLacks(names, '\r');
    JoinLacks(names, '\n');
    JoinLacks(names, '=');
  }

  lemma {:induction false} Base64IsInert(s: string)
    requires Base64Text(s)
    ensures CanStand(s)
  {
    assert Dense(s);
  }

  predicate Fits(t: TagValue) {
    IsTagName(t.name) && t.name != "b" && CanStand(t.value)
  }

  predicate AllFit(ts: seq<TagValue>) {
    forall i :: 0 <= i < |ts| ==> Fits(ts[i])
  }

  lemma {:induction false} OneFits(name: string, value: string)
    requires IsTagName(name) && name != "b"
    ensures Fits(TagValue(name, value)) <==> CanStand(value)
  {}

  lemma {:induction false} TagNames()
    ensures IsTagName("i") && IsTagName("a") && IsTagName("c") && IsTagName("d") && IsTagName("s")
    ensures IsTagName("t") && IsTagName("h") && IsTagName("bh") && IsTagName("cv")
    ensures "bh" != "b"
  {}

  /** The eight tags of a message signature can stand in its field exactly when the configured ones among them can. */
  lemma {:induction false} AmsTagsFit(headers: seq<Header>, instance: nat, opts: SealOptions, bh: string)
    requires Base64Text(bh)
    ensures AllFit(AmsTags(instance, opts, Selected(headers, SignedNames(opts)), bh)) <==>
            CanStand(opts.domain) && CanStand(opts.selector)
            && CanStand(Join(Selected(headers, SignedNames(opts)), ":"))
  {
    var list := Join(Selected(headers, SignedNames(opts)), ":");
    var number, stamp := Itoa(instance), FormatInt(opts.now);
    var canon := CanonName(opts.headerCanon) + "/" + CanonName(opts.bodyCanon);
    NumbersArePlain(instance);
    AlgorithmIsPlain();
    CanonIsPlain(opts.headerCanon, opts.bodyCanon);
    NumbersArePlain(opts.now);
    Base64IsInert(bh);
    EightFit(number, canon, opts.domain, opts.selector, stamp, list, bh);
  }

  lemma {:induction false} ConfiguredFits(headers: seq<Header>, instance: nat, opts: SealOptions, bh: string)
    requires Configured(opts) && Base64Text(bh)
    ensures AllFit(AmsTags(instance, opts, Selected(headers, SignedNames(opts)), bh))
  {
    AmsTagsFit(headers, instance, opts, bh);
    ListIsPlain(headers, opts);
  }

  lemma {:induction false} EightFit(number: string, canon: string, domain: string, selector: string, stamp: string,
                                    list: string, bh: string)
    requires Plain(number) && Plain(ALGORITHM) && Plain(canon) && Plain(stamp) && CanStand(bh)
    ensures AllFit([TagValue("i", number), TagValue("a", ALGORITHM), TagValue("c", canon), TagValue("d", domain),
                    TagValue("s", selector), TagValue("t", stamp), TagValue("h", list), TagValue("bh", bh)]) <==>
            CanStand(domain) && CanStand(selector) && CanStand(list)
  {
    TagNames();
    OneFits("i", number);
    OneFits("a", ALGORITHM);
    OneFits("c", canon);
    OneFits("d", domain);
    OneFits("s", selector);
    OneFits("t", stamp);
    OneFits("h", list);
    OneFits("bh", bh);
    var ts := [TagValue("i", number), TagValue("a", ALGORITHM), TagValue("c", canon), TagValue("d", domain),
               TagValue("s", selector), TagValue("t", stamp), TagValue("h", list), TagValue("bh", bh)];
    assert ts[3].value == domain && ts[4].value == selector && ts[6].value == list;
  }

  lemma {:induction false} SealTagsFit(instance: nat, cv: Verdict, opts: SealOptions)
    requires Configured(opts)
    ensures AllFit(SealTags(instance, cv, opts))
  {
    var number, stamp := Itoa(instance), FormatInt(opts.now);
    NumbersArePlain(instance);
    AlgorithmIsPlain();
    VerdictIsPlain(cv);
    NumbersArePlain(opts.now);
    SixFit(number, stamp, VerdictName(cv), opts.domain, opts.selector);
  }

  lemma {:induction false} SixFit(number: string, stamp: string, cv: string, domain: string, selector: string)
    requires Plain(number) && Plain(ALGORITHM) && Plain(stamp) && Plain(cv)
    requires CanStand(domain) && CanStand(selector)
    ensures AllFit([TagValue("i", number), TagValue("a", ALGORITHM), TagValue("t", stamp), TagValue("cv", cv),
                    TagValue("d", domain), TagValue("s", selector)])
  {
    TagNames();
    OneFits("i", number);
    OneFits("a", ALGORITHM);
    OneFits("t", stamp);
    OneFits("cv", cv);
    OneFits("d", domain);
    OneFits("s", selector);
  }

  lemma {:induction false} AmsTagsDistinct(instance: nat, opts: SealOptions, selected: seq<string>, bh: string)
    ensures Distinct(AmsTags(instance, opts, selected, bh))
  {
    assert "bh"[0] == 'b' && |"bh"| == 2;
    var ts := AmsTags(instance, opts, selected, bh);
    assert forall i :: 0 <= i < 7 ==> |ts[i].name| == 1;
    assert ts[0].name[0] == 'i' && ts[1].name[0] == 'a' && ts[2].name[0] == 'c' && ts[3].name[0] == 'd';
    assert ts[4].name[0] == 's' && ts[5].name[0] == 't' && ts[6].name[0] == 'h';
  }

  lemma {:induction false} SealTagsDistinct(instance: nat, cv: Verdict, opts: SealOptions)
    ensures Distinct(SealTags(instance, cv, opts))
  {
    var ts := SealTags(instance, cv, opts);
    assert ts[0].name[0] == 'i' && ts[1].name[0] == 'a' && ts[2].name[0] == 't' && ts[3].name[0] == 'c';
    assert ts[4].name[0] == 'd' && ts[5].name[0] == 's';
  }

  // ---- a signature field --------------------------------------------------

  lemma {:induction false} FitIsSignable(ts: seq<TagValue>)
    requires AllFit(ts)
    ensures Signable(ts)
  {
    assert forall i :: 0 <= i < |ts| ==> Fits(ts[i]);
  }

  /** A field name as a sealer writes it. */
  predicate IsFieldName(name: string) {
    name != "" && forall i :: 0 <= i < |name| ==> 'a' <= name[i] <= 'z' || 'A' <= name[i] <= 'Z' || name[i] == '-'
  }

  lemma {:induction false} FieldNameRead(name: string, value: string)
    requires IsFieldName(name)
    ensures HeaderOf(name + ":" + value) == Header(ToLower(name), name + ":" + value)
    ensures HeaderValue(name + ":" + value) == value
  {
    CutAt(name, ':', value);
    TrimFixed(name, Spaces);
  }

  lemma {:induction false} SignatureFieldIsLine(name: string, ts: seq<TagValue>, sig: string)
    requires IsFieldName(name) && AllFit(ts) && Base64Text(sig)
    ensures IsLine(SignatureField(name, ts, sig))
  {
    var all := ts + [TagValue("b", sig)];
    assert IsTagName("b");
    Base64IsInert(sig);
    forall i | 0 <= i < |all|
      ensures IsTagName(all[i].name) && '\r' !in all[i].value && '\n' !in all[i].value
    {
      if i < |ts| {
        assert Fits(ts[i]);
      }
    }
    PrintLacks(all, '\r');
    PrintLacks(all, '\n');
    assert SignatureField(name, ts, sig)[0] == name[0];
  }

  lemma {:induction false} NumberRead(raw: string, instance: nat)
    requires 1 <= instance <= MAX_SETS && FieldTag(raw, "i") == TrimSpace(Itoa(instance))
    ensures InstanceOf(raw) == instance
  {
    AtoiTrimmed(instance);
  }

  /** A signature field whose first tag is its instance number is read as that instance. */
  lemma {:induction false} SignatureFieldInstance(name: string, ts: seq<TagValue>, sig: string, instance: nat)
    requires IsFieldName(name) && AllFit(ts) && Distinct(ts) && Base64Text(sig) && 1 <= instance <= MAX_SETS
    requires ts != [] && ts[0] == TagValue("i", Itoa(instance))
    ensures InstanceOf(SignatureField(name, ts, sig)) == instance
  {
    FitIsSignable(ts);
    Base64IsInert(sig);
    SignatureFieldRead(name, ts, sig, 0);
    NumberRead(SignatureField(name, ts, sig), instance);
  }

  // ---- the results field --------------------------------------------------

  /** The results text does not change the instance number: it has no i= tag, or one that says the same. */
  predicate KeepsInstance(opts: SealOptions, instance: nat) {
    var text := " " + SanitizeValue(opts.authResults);
    HasTag(text, "i") ==> Atoi(TrimSpace(Tag(text, "i"))) == Some(instance)
  }

  lemma {:induction false} NumberedText(number: string, text: string)
    requires Plain(number)
    ensures Lookup(Split(PrintTag(TagValue("i", number)) + ";" + text, ';'), "i")
            == if HasTag(text, "i") then Some(Tag(text, "i")) else Some(TrimSpace(number))
  {
    var t := TagValue("i", number);
    TagNames();
    LookupAt(PrintTag(t), text, "i");
    ParsePrintTag(t, "i");
  }

  lemma {:induction false} AarRead(number: string, text: string)
    requires Plain(number)
    ensures FieldTag(AAR_NAME + ":" + (PrintTag(TagValue("i", number)) + ";" + text), "i")
            == if HasTag(text, "i") then Tag(text, "i") else TrimSpace(number)
  {
    AarName();
    FieldNameRead(AAR_NAME, PrintTag(TagValue("i", number)) + ";" + text);
    NumberedText(number, text);
  }

  lemma {:induction false} AarInstance(opts: SealOptions, instance: nat)
    requires 1 <= instance <= MAX_SETS
    ensures InstanceOf(AarField(opts, instance)) == instance <==> KeepsInstance(opts, instance)
  {
    var field := AarField(opts, instance);
    var text := " " + SanitizeValue(opts.authResults);
    NumbersArePlain(instance);
    AarRead(Itoa(instance), text);
    if !HasTag(text, "i") {
      NumberRead(field, instance);
    } else {
      assert FieldTag(field, "i") == Tag(text, "i");
    }
  }

  lemma {:induction false} NumberIsOwnText(number: string)
    requires number != "" && forall c :: c in number ==> IsDigit(c)
    ensures SanitizeValue("i=" + number) == "i=" + number
  {
    var value := "i=" + number;
    assert IsDigit(number[|number| - 1]);
    assert forall i :: 2 <= i < |value| ==> value[i] in number;
    assert BreaksToSpaces(value) == value;
    assert value[0] == 'i' && value[|value| - 1] == number[|number| - 1];
    TrimFixed(value, Spaces);
  }

  lemma {:induction false} NumberIsRead(number: string)
    requires number != "" && forall c :: c in number ==> IsDigit(c)
    ensures var text := " " + SanitizeValue("i=" + number); HasTag(text, "i") && Tag(text, "i") == TrimSpace(number)
  {
    var t := TagValue("i", number);
    NumberIsOwnText(number);
    assert " " + ("i=" + number) == PrintTag(t);
    TagNames();
    DigitsArePlain(number);
    ParsePrintTag(t, "i");
  }

  /** Results text that is an i= tag of its own gives the field another number. */
  lemma {:induction false} ResultsCanRenumber(opts: SealOptions, m: nat, n: nat)
    requires opts.authResults == "i=" + Itoa(m) && m != n && m <= MAX_INT64
    ensures !KeepsInstance(opts, n)
  {
    NumberIsRead(Itoa(m));
    AtoiTrimmed(m);
  }

  lemma {:induction false} LineOf(name: string, number: string, text: string)
    requires IsFieldName(name) && Plain(number) && '\r' !in text && '\n' !in text
    ensures IsLine(name + ":" + (PrintTag(TagValue("i", number)) + ";" + (" " + text)))
  {
    var line := name + ":" + (" " + "i" + "=" + number + ";" + (" " + text));
    assert line[0] == name[0];
    assert '\r' !in name && '\n' !in name;
  }

  lemma {:induction false} AarIsLine(opts: SealOptions, instance: nat)
    ensures IsLine(AarField(opts, instance))
  {
    NumbersArePlain(instance);
    AarName();
    LineOf(AAR_NAME, Itoa(instance), SanitizeValue(opts.authResults));
  }

  // ---- the kinds ----------------------------------------------------------

  lemma {:induction false} AarName()
    ensures IsFieldName(AAR_NAME) && ToLower(AAR_NAME) == "arc-authentication-results"
  {}

  lemma {:induction false} AmsName()
    ensures IsFieldName(AMS_NAME) && ToLower(AMS_NAME) == "arc-message-signature"
  {}

  lemma {:induction false} SealName()
    ensures IsFieldName(SEAL_NAME) && ToLower(SEAL_NAME) == "arc-seal"
  {}
}
