/**
 The signed inputs (internal/arc/crypto.go) and the evaluation of a chain
 (internal/arc/verify.go). Hashing, base64, RSA and the DNS zone are parameters.
 */
module ArcVerify {
  import opened Text
  import opened ArcCanonical
  import opened ArcMessage
  import opened ArcTags
  import opened ArcSelect
  import opened ArcChain
  import opened ArcCollect

  // ---- the primitives -----------------------------------------------------

  /** SHA-256, base64 and RSA. */
  datatype Suite = Suite(
    hash: string -> string,
    encode: string -> string,
    decodeStd: string -> Option<string>,
    decodeRaw: string -> Option<string>,
    sign: (string, string) -> Option<string>,       // private key, digest
    verify: (string, string, string) -> bool,       // public key, digest, signature
    publicKey: string -> string)

  /** The key usable at a DNS name, if there is one. */
  type Zone = string -> Option<string>

  predicate IsBase64(c: char) {
    'a' <= c <= 'z' || 'A' <= c <= 'Z' || '0' <= c <= '9' || c == '+' || c == '/' || c == '='
  }

  predicate Base64Text(s: string) {
    forall i :: 0 <= i < |s| ==> IsBase64(s[i])
  }

  /**
   What is assumed of the primitives: encoded text decodes, in its alphabet, and a signature
   verifies under the signer's public key.
   */
  ghost predicate Lawful(suite: Suite) {
    && (forall x :: suite.decodeStd(suite.encode(x)) == Some(x))
    && (forall x :: Base64Text(suite.encode(x)))
    && (forall key, digest :: suite.sign(key, digest).Some? ==>
          suite.verify(suite.publicKey(key), digest, suite.sign(key, digest).value))
  }

  /** `stripWSP`. */
  function StripWsp(s: string): string {
    if s == "" then ""
    else if IsFold(s[0]) then StripWsp(s[1..])
    else [s[0]] + StripWsp(s[1..])
  }

  /** `decodeBase64`: folded and unpadded text is accepted. */
  function DecodeBase64(suite: Suite, value: string): Option<string> {
    var text := StripWsp(value);
    if suite.decodeStd(text).Some? then suite.decodeStd(text) else suite.decodeRaw(TrimRight(text, Padding))
  }

  function SignRsa(suite: Suite, key: string, data: string): Option<string> {
    match suite.sign(key, suite.hash(data))
    case None => None
    case Some(signature) => Some(suite.encode(signature))
  }

  function VerifyRsa(suite: Suite, key: string, data: string, signature: string): bool {
    match DecodeBase64(suite, signature)
    case None => false
    case Some(raw) => suite.verify(key, suite.hash(data), raw)
  }

  lemma {:induction false} StripDense(s: string)
    requires Base64Text(s)
    ensures StripWsp(s) == s
  {
    if s != "" {
      StripDense(s[1..]);
    }
  }

  /** Encoded text reaches the decoder unharmed by trimming and white space removal. */
  lemma {:induction false} DecodeEncoded(suite: Suite, x: string)
    requires Lawful(suite)
    ensures DecodeBase64(suite, TrimSpace(suite.encode(x))) == Some(x)
    ensures Base64Text(suite.encode(x))
  {
    TrimFixed(suite.encode(x), Spaces);
    StripDense(suite.encode(x));
  }

  lemma {:induction false} SignedVerifies(suite: Suite, key: string, data: string)
    requires Lawful(suite) && SignRsa(suite, key, data).Some?
    ensures var signature := SignRsa(suite, key, data).value;
            Base64Text(signature) && VerifyRsa(suite, suite.publicKey(key), data, TrimSpace(signature))
  {
    DecodeEncoded(suite, suite.sign(key, suite.hash(data)).value);
  }

  // ---- what is signed -----------------------------------------------------

  function BodyHash(suite: Suite, body: string, canon: Canonicalization): string {
    suite.hash(CanonicalBody(body, canon))
  }

  /** The field being signed, without its signature and its final CRLF. */
  function SelfSigned(field: string, canon: Canonicalization): string {
    TrimSuffix(CanonicalHeader(WithEmptyTag(field, "b"), canon), CRLF)
  }

  /** `amsSignedData`. */
  function AmsSignedData(headers: seq<Header>, ams: string, canon: Canonicalization): string {
    Select(headers, NamesOf(FieldTag(ams, "h")), canon) + SelfSigned(ams, canon)
  }

  /** The part of a seal's input that one set contributes. */
  function SealPart(s: ArcSet, own: bool): string {
    CanonicalHeader(s.aar, Relaxed) + CanonicalHeader(s.ams, Relaxed)
    + if own then SelfSigned(s.seal, Relaxed) else CanonicalHeader(s.seal, Relaxed)
  }

  /** `sealSignedData`: every set up to one's own, its own seal last and without its signature. */
  function SealSignedData(sets: seq<ArcSet>, upto: nat): string {
    if sets == [] || sets[0].instance > upto then ""
    else if sets[0].instance == upto then SealPart(sets[0], true)
    else SealPart(sets[0], false) + SealSignedData(sets[1..], upto)
  }

  /** The loop of `sealSignedData`. */
  method SealInput(sets: seq<ArcSet>, upto: nat) returns (out: string)
    ensures out == SealSignedData(sets, upto)
  {
    out := "";
    for i := 0 to |sets|
      invariant out + SealSignedData(sets[i..], upto) == SealSignedData(sets, upto)
    {
      var s := sets[i];
      assert sets[i..][0] == s && sets[i..][1..] == sets[i + 1..];
      if s.instance > upto {
        break;
      }
      if s.instance == upto {
        out := out + SealPart(s, true);
        return;
      }
      ghost var before, rest := out, SealSignedData(sets[i + 1..], upto);
      out := out + SealPart(s, false);
      assert before + (SealPart(s, false) + rest) == out + rest;
    }
  }

  /** Later sets never reach an earlier seal's input. */
  lemma {:induction false} SealDataStable(sets: seq<ArcSet>, more: seq<ArcSet>, from: nat, k: nat)
    requires forall i :: 0 <= i < |sets| ==> sets[i].instance == from + i
    requires from <= k < from + |sets|
    ensures SealSignedData(sets + more, k) == SealSignedData(sets, k)
  {
    assert (sets + more)[0] == sets[0];
    if sets[0].instance < k {
      assert (sets + more)[1..] == sets[1..] + more;
      SealDataStable(sets[1..], more, from + 1, k);
    }
  }

  /** A seal's input is the same before and after the signature is written into it. */
  lemma {:induction false} SealDataOwn(sets: seq<ArcSet>, a: ArcSet, b: ArcSet, k: nat)
    requires forall i :: 0 <= i < |sets| ==> sets[i].instance < k
    requires a.instance == b.instance == k && a.aar == b.aar && a.ams == b.ams
    requires WithEmptyTag(a.seal, "b") == WithEmptyTag(b.seal, "b")
    ensures SealSignedData(sets + [a], k) == SealSignedData(sets + [b], k)
  {
    if sets == [] {
      assert sets + [a] == [a] && sets + [b] == [b];
      SealDataLast(a);
      SealDataLast(b);
    } else {
      SealDataFirst(sets, a, k);
      SealDataFirst(sets, b, k);
      SealDataOwn(sets[1..], a, b, k);
    }
  }

  lemma {:induction false} SealDataLast(s: ArcSet)
    ensures SealSignedData([s], s.instance) == SealPart(s, true)
  {}

  lemma {:induction false} SealDataFirst(sets: seq<ArcSet>, s: ArcSet, k: nat)
    requires sets != [] && sets[0].instance < k
    ensures SealSignedData(sets + [s], k) == SealPart(sets[0], false) + SealSignedData(sets[1..] + [s], k)
  {
    assert (sets + [s])[1..] == sets[1..] + [s];
  }

  // ---- keys and algorithms ------------------------------------------------

  const ALGORITHM := "rsa-sha256"

  function FetchKey(zone: Zone, selector: string, domain: string): Option<string> {
    var s, d := TrimSpace(selector), TrimSpace(domain);
    if s == "" || d == "" then None else zone(s + "._domainkey." + d)
  }

  predicate CheckAlgorithm(value: string) {
    Folded(value) == ALGORITHM
  }

  function CanonOf(text: string): Option<Canonicalization> {
    if text == "simple" then Some(Simple)
    else if text == "relaxed" then Some(Relaxed)
    else None
  }

  /** `canonicalizationsOf`: absent means simple/simple, one word names the header form. */
  function CanonicalizationsOf(value: string): Option<(Canonicalization, Canonicalization)> {
    var text := Folded(value);
    if text == "" then Some((Simple, Simple))
    else
      var body := match After(text, '/') case None => "" case Some(b) => TrimSpace(b);
      match (CanonOf(TrimSpace(Before(text, '/'))), if body == "" then Some(Simple) else CanonOf(body))
      case (Some(h), Some(b)) => Some((h, b))
      case _ => None
  }

  /** `coversFrom`. */
  predicate CoversFrom(list: string) {
    "from" in NamesOf(list)
  }

  // ---- verification -------------------------------------------------------

  datatype Verdict = ChainNone | ChainPass | ChainFail

  /** `verifyAMS`: covers From, whole body, body hash, signature. */
  predicate VerifyAms(suite: Suite, zone: Zone, msg: Message, ams: string) {
    && CheckAlgorithm(FieldTag(ams, "a"))
    && CoversFrom(FieldTag(ams, "h"))
    && CanonicalizationsOf(FieldTag(ams, "c")).Some?
    && var (headerCanon, bodyCanon) := CanonicalizationsOf(FieldTag(ams, "c")).value;
    && DecodeBase64(suite, FieldTag(ams, "bh")) == Some(BodyHash(suite, msg.body, bodyCanon))
    && TrimSpace(FieldTag(ams, "l")) == ""
    && var key := FetchKey(zone, FieldTag(ams, "s"), FieldTag(ams, "d"));
    && key.Some?
    && VerifyRsa(suite, key.value, AmsSignedData(msg.headers, ams, headerCanon), FieldTag(ams, "b"))
  }

  /** `verifySeal`. */
  predicate VerifySeal(suite: Suite, zone: Zone, sets: seq<ArcSet>, s: ArcSet) {
    && CheckAlgorithm(FieldTag(s.seal, "a"))
    && var key := FetchKey(zone, FieldTag(s.seal, "s"), FieldTag(s.seal, "d"));
    && key.Some?
    && VerifyRsa(suite, key.value, SealSignedData(sets, s.instance), FieldTag(s.seal, "b"))
  }

  /** The first set records that there was no chain, every later one that the chain below passed. */
  predicate RecordsWell(s: ArcSet) {
    Folded(FieldTag(s.seal, "cv")) == if s.instance == 1 then "none" else "pass"
  }

  predicate AllRecordWell(sets: seq<ArcSet>) {
    AllOf(sets, RecordsWell)
  }

  predicate AllSealsVerify(suite: Suite, zone: Zone, sets: seq<ArcSet>) {
    AllOf(sets, SealTest(suite, zone, sets))
  }

  function SealTest(suite: Suite, zone: Zone, sets: seq<ArcSet>): ArcSet -> bool {
    s => VerifySeal(suite, zone, sets, s)
  }

  function AmsTest(suite: Suite, zone: Zone, msg: Message): ArcSet -> bool {
    (s: ArcSet) => VerifyAms(suite, zone, msg, s.ams)
  }

  /** Only the newest message signature counts: relays may change a message. */
  predicate NewestVerifies(suite: Suite, zone: Zone, msg: Message, sets: seq<ArcSet>)
    requires sets != []
  {
    AllOf([sets[|sets| - 1]], AmsTest(suite, zone, msg))
  }

  lemma {:induction false} NewestIs(suite: Suite, zone: Zone, msg: Message, sets: seq<ArcSet>)
    requires sets != []
    ensures NewestVerifies(suite, zone, msg, sets) <==> VerifyAms(suite, zone, msg, sets[|sets| - 1].ams)
  {
    OneOf(sets[|sets| - 1], AmsTest(suite, zone, msg));
  }

  lemma {:induction false} OneOf<T>(x: T, p: T -> bool)
    ensures AllOf([x], p) <==> p(x)
  {
    assert [x][0] == x;
  }

  /** What `verifyMessage` asks of a chain. */
  predicate Passes(suite: Suite, zone: Zone, msg: Message, sets: seq<ArcSet>)
    requires sets != []
  {
    && AllRecordWell(sets)
    && NewestVerifies(suite, zone, msg, sets)
    && AllSealsVerify(suite, zone, sets)
  }

  ghost function VerifyMessage(suite: Suite, zone: Zone, msg: Message): Verdict {
    match Collected(msg.headers)
    case Broken => ChainFail
    case Sets(sets) =>
      if sets == [] then ChainNone
      else if Passes(suite, zone, msg, sets) then ChainPass
      else ChainFail
  }

  ghost function VerifyChain(suite: Suite, zone: Zone, raw: string): Verdict {
    VerifyMessage(suite, zone, ParseMessage(raw))
  }

  /** The two loops of `verifyMessage`, each leaving at the first set that fails. */
  method CheckRecords(sets: seq<ArcSet>) returns (ok: bool)
    ensures ok == AllRecordWell(sets)
  {
    ok := CheckAll(sets, RecordsWell);
  }

  method CheckSeals(suite: Suite, zone: Zone, sets: seq<ArcSet>) returns (ok: bool)
    ensures ok == AllSealsVerify(suite, zone, sets)
  {
    ok := CheckAll(sets, SealTest(suite, zone, sets));
  }

  /** `verifyMessage` as it runs, leaving at the first thing wrong. */
  method CheckMessage(suite: Suite, zone: Zone, msg: Message) returns (v: Verdict)
    ensures v == VerifyMessage(suite, zone, msg)
  {
    var chain := CollectSets(msg.headers);
    if chain.Broken? {
      return ChainFail;
    }
    var sets := chain.sets;
    if |sets| == 0 {
      return ChainNone;
    }
    var recorded := CheckRecords(sets);
    if !recorded {
      return ChainFail;
    }
    NewestIs(suite, zone, msg, sets);
    if !VerifyAms(suite, zone, msg, sets[|sets| - 1].ams) {
      return ChainFail;
    }
    var sealed := CheckSeals(suite, zone, sets);
    return if sealed then ChainPass else ChainFail;
  }
}
