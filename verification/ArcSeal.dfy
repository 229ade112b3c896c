/**
 Adding an ARC set to a message (internal/arc/seal.go).
 */
module ArcSeal {
  import opened Text
  import opened ArcCanonical
  import opened ArcMessage
  import opened ArcTags
  import opened ArcSelect
  import opened ArcChain
  import opened ArcCollect
  import opened ArcVerify

  /** The configuration of one sealing operation. */
  datatype SealOptions = SealOptions(
    domain: string,
    selector: string,
    key: string,
    headerCanon: Canonicalization,
    bodyCanon: Canonicalization,
    headersToSign: seq<string>,
    authResults: string,
    now: int)

  const AAR_NAME := "ARC-Authentication-Results"
  const AMS_NAME := "ARC-Message-Signature"
  const SEAL_NAME := "ARC-Seal"

  const DEFAULT_SIGNED_HEADERS: seq<string> := [
    "From", "To", "Cc", "Subject", "Date", "Message-ID",
    "MIME-Version", "Content-Type", "Reply-To", "In-Reply-To", "References",
    "DKIM-Signature"]

  // ---- the three fields ---------------------------------------------------

  /** fmt's %d. */
  function FormatInt(n: int): string {
    if n < 0 then "-" + Itoa(-n) else Itoa(n)
  }

  function CanonName(canon: Canonicalization): string {
    if canon.Simple? then "simple" else "relaxed"
  }

  function VerdictName(v: Verdict): string {
    match v
    case ChainNone => "none"
    case ChainPass => "pass"
    case ChainFail => "fail"
  }

  function BreaksToSpaces(value: string): (r: string)
    ensures |r| == |value|
    ensures forall i :: 0 <= i < |r| ==> r[i] != '\r' && r[i] != '\n'
  {
    seq(|value|, i requires 0 <= i < |value| => if value[i] == '\r' || value[i] == '\n' then ' ' else value[i])
  }

  /** `sanitizeValue`. */
  function SanitizeValue(value: string): (r: string)
    ensures r != "" && '\r' !in r && '\n' !in r
  {
    var text := BreaksToSpaces(value);
    var trimmed := TrimSpace(text);
    TrimSubset(text, Spaces);
    if trimmed == "" then "none" else trimmed
  }

  function AarField(opts: SealOptions, instance: nat): string {
    AAR_NAME + ":" + (PrintTag(TagValue("i", Itoa(instance))) + ";" + (" " + SanitizeValue(opts.authResults)))
  }

  function SignedNames(opts: SealOptions): seq<string> {
    if opts.headersToSign == [] then DEFAULT_SIGNED_HEADERS else opts.headersToSign
  }

  /** Only fields the message has are signed, and never an ARC field. */
  predicate Signs(headers: seq<Header>, name: string) {
    var lower := Folded(name);
    lower != "" && Fields(headers, lower) > 0 && !HasPrefix(lower, "arc-")
  }

  function Selected(headers: seq<Header>, names: seq<string>): seq<string> {
    if names == [] then []
    else
      var name := names[|names| - 1];
      Selected(headers, names[..|names| - 1]) + if Signs(headers, name) then [name] else []
  }

  function AmsTags(instance: nat, opts: SealOptions, selected: seq<string>, bh: string): seq<TagValue> {
    [ TagValue("i", Itoa(instance)),
      TagValue("a", ALGORITHM),
      TagValue("c", CanonName(opts.headerCanon) + "/" + CanonName(opts.bodyCanon)),
      TagValue("d", opts.domain),
      TagValue("s", opts.selector),
      TagValue("t", FormatInt(opts.now)),
      TagValue("h", Join(selected, ":")),
      TagValue("bh", bh) ]
  }

  /** `buildAMS`: refused without a From field to sign, or when signing fails. */
  function BuildAms(suite: Suite, msg: Message, instance: nat, opts: SealOptions): Option<string> {
    var selected := Selected(msg.headers, SignedNames(opts));
    if "from" !in FoldAll(selected) then None
    else
      var ts := AmsTags(instance, opts, selected, suite.encode(BodyHash(suite, msg.body, opts.bodyCanon)));
      var field := SignatureField(AMS_NAME, ts, "");
      match SignRsa(suite, opts.key, AmsSignedData(msg.headers, field, opts.headerCanon))
      case None => None
      case Some(signature) => Some(SignatureField(AMS_NAME, ts, signature))
  }

  function SealTags(instance: nat, cv: Verdict, opts: SealOptions): seq<TagValue> {
    [ TagValue("i", Itoa(instance)),
      TagValue("a", ALGORITHM),
      TagValue("t", FormatInt(opts.now)),
      TagValue("cv", VerdictName(cv)),
      TagValue("d", opts.domain),
      TagValue("s", opts.selector) ]
  }

  /** The new set: its fields bound together by a seal over the whole chain. */
  function NextSet(suite: Suite, msg: Message, existing: seq<ArcSet>, cv: Verdict, opts: SealOptions): Option<ArcSet> {
    var instance := |existing| + 1;
    match BuildAms(suite, msg, instance, opts)
    case None => None
    case Some(ams) =>
      var ts := SealTags(instance, cv, opts);
      var bare := ArcSet(instance, AarField(opts, instance), ams, SignatureField(SEAL_NAME, ts, ""));
      match SignRsa(suite, opts.key, SealSignedData(existing + [bare], instance))
      case None => None
      case Some(signature) => Some(bare.(seal := SignatureField(SEAL_NAME, ts, signature)))
  }

  function SetText(s: ArcSet): string {
    s.aar + CRLF + s.ams + CRLF + s.seal + CRLF
  }

  /** A broken chain is sealed as if there were none. */
  ghost function Existing(msg: Message): seq<ArcSet> {
    match Collected(msg.headers)
    case Broken => []
    case Sets(sets) => sets
  }

  /** What a hop asserts about the chain it received. */
  ghost function Asserted(suite: Suite, zone: Zone, msg: Message): Verdict {
    if Existing(msg) == [] then ChainNone
    else if VerifyMessage(suite, zone, msg) == ChainNone then ChainFail
    else VerifyMessage(suite, zone, msg)
  }

  /** `sealMessage`. */
  ghost function SealMessage(suite: Suite, zone: Zone, raw: string, opts: SealOptions): Option<string> {
    var msg := ParseMessage(raw);
    if |Existing(msg)| + 1 > MAX_SETS then None
    else match NextSet(suite, msg, Existing(msg), Asserted(suite, zone, msg), opts)
      case None => None
      case Some(s) => Some(SetText(s) + raw)
  }

  // ---- as it runs ---------------------------------------------------------

  /** The loop of `buildAMS` that notes which names are present. */
  method Present(headers: seq<Header>) returns (present: set<string>)
    ensures forall n :: n in present <==> Fields(headers, n) > 0
  {
    present := {};
    for i := 0 to |headers|
      invariant forall n :: n in present <==> Fields(headers[..i], n) > 0
    {
      assert headers[..i + 1][..i] == headers[..i];
      present := present + {headers[i].name};
    }
    assert headers[..|headers|] == headers;
  }

  /** The loop of `buildAMS` that picks the names to sign. */
  method PickNames(headers: seq<Header>, names: seq<string>) returns (selected: seq<string>, hasFrom: bool)
    ensures selected == Selected(headers, names)
    ensures hasFrom == ("from" in FoldAll(selected))
  {
    var present := Present(headers);
    selected, hasFrom := [], false;
    for i := 0 to |names|
      invariant selected == Selected(headers, names[..i])
      invariant hasFrom == ("from" in FoldAll(selected))
    {
      SelectedNext(headers, names, i);
      var lower := Folded(names[i]);
      if lower == "" || lower !in present {
        continue;
      }
      if HasPrefix(lower, "arc-") {
        continue;
      }
      if lower == "from" {
        hasFrom := true;
      }
      FoldAllSnoc(selected, names[i]);
      selected := selected + [names[i]];
    }
    assert names[..|names|] == names;
  }

  lemma {:induction false} SelectedNext(headers: seq<Header>, names: seq<string>, i: nat)
    requires i < |names|
    ensures Selected(headers, names[..i + 1])
            == Selected(headers, names[..i]) + if Signs(headers, names[i]) then [names[i]] else []
  {
    assert names[..i + 1][..i] == names[..i];
  }

  lemma {:induction false} FoldAllSnoc(names: seq<string>, name: string)
    ensures FoldAll(names + [name]) == FoldAll(names) + [Folded(name)]
  {
    assert (names + [name])[..|names|] == names;
  }

  /** `sealMessage` as it runs. */
  method Seal(suite: Suite, zone: Zone, raw: string, opts: SealOptions) returns (sealed: Option<string>)
    ensures sealed == SealMessage(suite, zone, raw, opts)
  {
    var msg := ParseMessage(raw);
    var chain := CollectSets(msg.headers);
    var existing := if chain.Broken? then [] else chain.sets;
    var instance := |existing| + 1;
    if instance > MAX_SETS {
      return None;
    }
    var cv := ChainNone;
    if |existing| > 0 {
      cv := CheckMessage(suite, zone, msg);
      if cv == ChainNone {
        cv := ChainFail;
      }
    }
    var s := MakeSet(suite, msg, existing, cv, opts);
    if s.None? {
      return None;
    }
    return Some(SetText(s.value) + raw);
  }

  /** `buildAMS` as it runs. */
  method MakeAms(suite: Suite, msg: Message, instance: nat, opts: SealOptions) returns (ams: Option<string>)
    ensures ams == BuildAms(suite, msg, instance, opts)
  {
    var selected, hasFrom := PickNames(msg.headers, SignedNames(opts));
    if !hasFrom {
      return None;
    }
    var body := CanonicalizeBody(msg.body, opts.bodyCanon);
    var ts := AmsTags(instance, opts, selected, suite.encode(suite.hash(body)));
    var field := SignatureField(AMS_NAME, ts, "");
    var signature := SignRsa(suite, opts.key, AmsSignedData(msg.headers, field, opts.headerCanon));
    if signature.None? {
      return None;
    }
    return Some(SignatureField(AMS_NAME, ts, signature.value));
  }

  /** The rest of `sealMessage`: the seal is computed last, over the chain with the new results and signature. */
  method MakeSet(suite: Suite, msg: Message, existing: seq<ArcSet>, cv: Verdict, opts: SealOptions)
    returns (s: Option<ArcSet>)
    ensures s == NextSet(suite, msg, existing, cv, opts)
  {
    var instance := |existing| + 1;
    var ams := MakeAms(suite, msg, instance, opts);
    if ams.None? {
      return None;
    }
    var ts := SealTags(instance, cv, opts);
    var bare := ArcSet(instance, AarField(opts, instance), ams.value, SignatureField(SEAL_NAME, ts, ""));
    var data := SealInput(existing + [bare], instance);
    var signature := SignRsa(suite, opts.key, data);
    if signature.None? {
      return None;
    }
    return Some(bare.(seal := SignatureField(SEAL_NAME, ts, signature.value)));
  }
}
