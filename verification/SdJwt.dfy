/**
 SD-JWT issue, presentation and verification (src/trustlib/sdjwt.py; section 4
 of RFC 9901).  The text of a token is a sequence of symbols: the separator, or
 one base64url blob, which stands for what it encodes.  Digests and signatures
 are ideal: a digest is the text it covers, a JWS verifies under its signer's key only.
 */
module SdJwt {
  import opened Wrappers
  import opened Delimited

  datatype Key = Key(id: nat)

  datatype Value =
    | Str(text: string)
    | Num(n: int)
    | Jwk(key: Key)
    | Digests(digests: seq<Digest>)
    | Hash(digest: Digest)

  type Claims = map<string, Value>

  datatype Digest = Sha(text: seq<Symbol>)

  datatype Symbol = Tilde | Blob(part: Part)

  datatype Part =
    | Jws(kid: string, claims: Claims, signer: Key)
    | Disclosure(salt: nat, name: string, value: Value)
    | Noise(id: nat)

  type Text = seq<Symbol>

  /** One selectively disclosable claim, with the random salt it gets. */
  datatype Selective = Selective(salt: nat, name: string, value: Value)

  datatype Outcome =
    | Verified(claims: Claims)
    | InvalidSignature
    | Expired
    | NotYetValid
    | InvalidKeyBinding
    | Malformed                  // an exception that is not an SDJWTError

  function DisclosureText(s: Selective): Text {
    [Blob(Disclosure(s.salt, s.name, s.value))]
  }

  function DisclosureTexts(selective: seq<Selective>): seq<Text> {
    seq(|selective|, i requires 0 <= i < |selective| => DisclosureText(selective[i]))
  }

  function DigestsOf(texts: seq<Text>): seq<Digest> {
    seq(|texts|, i requires 0 <= i < |texts| => Sha(texts[i]))
  }

  function Payload(claims: Claims, selective: seq<Selective>): Claims {
    if selective == [] then claims
    else claims["_sd" := Digests(DigestsOf(DisclosureTexts(selective)))]["_sd_alg" := Str("sha-256")]
  }

  function TokenText(claims: Claims, key: Key, kid: string, selective: seq<Selective>): Text {
    [Blob(Jws(kid, Payload(claims, selective), key))]
  }

  /** What a holder shows: the token, some disclosures, and the trailing separator. */
  function Presentation(token: Text, disclosures: seq<Text>): Text {
    Join([token] + disclosures, Tilde) + [Tilde]
  }

  method Issue(claims: Claims, key: Key, kid: string, selective: seq<Selective>) returns (text: Text)
    ensures text == Presentation(TokenText(claims, key, kid, selective), DisclosureTexts(selective))
  {
    var payload := claims;
    var disclosures: seq<Text> := [];
    if |selective| > 0 {
      var digests: seq<Digest> := [];
      for i := 0 to |selective|
        invariant |disclosures| == |digests| == i
        invariant forall k :: 0 <= k < i ==>
          disclosures[k] == DisclosureText(selective[k]) && digests[k] == Sha(disclosures[k])
      {
        var disclosure := DisclosureText(selective[i]);
        disclosures := disclosures + [disclosure];
        digests := digests + [Sha(disclosure)];
      }
      assert disclosures == DisclosureTexts(selective);
      assert digests == DigestsOf(disclosures);
      payload := payload["_sd" := Digests(digests)]["_sd_alg" := Str("sha-256")];
    }
    text := Join([[Blob(Jws(kid, payload, key))]] + disclosures, Tilde) + [Tilde];
    assert |selective| == 0 ==> disclosures == DisclosureTexts(selective);
  }

  function EndsWithTilde(text: Text): bool {
    text != [] && text[|text| - 1] == Tilde
  }

  function KeyBinding(presented: Text, holder: Key, nonce: string, aud: string, iat: int): Text {
    [Blob(Jws("", map["nonce" := Str(nonce), "aud" := Str(aud), "iat" := Num(iat),
                      "sd_hash" := Hash(Sha(presented))], holder))]
  }

  function AttachKeyBinding(sdJwt: Text, holder: Key, nonce: string, aud: string, iat: int): Text {
    var presented := if EndsWithTilde(sdJwt) then sdJwt else sdJwt + [Tilde];
    presented + KeyBinding(presented, holder, nonce, aud, iat)
  }

  // ------------------------------------------------------------- splitting

  datatype Parts = Parts(issuer: Text, disclosures: seq<Text>, kb: Option<Text>)

  function NonEmpty(texts: seq<Text>): seq<Text> {
    if texts == [] then []
    else NonEmpty(texts[..|texts| - 1])
         + (if texts[|texts| - 1] != [] then [texts[|texts| - 1]] else [])
  }

  function PartsOf(text: Text): Parts {
    var parts := Split(text, Tilde);
    var rest := parts[1..];
    var n := |rest|;
    if n > 0 && rest[n - 1] != [] then
      var rest' := rest[..n - 1];
      var rest'' := if n > 1 && rest'[n - 2] == [] then rest'[..n - 2] else rest';
      Parts(parts[0], NonEmpty(rest''), Some(rest[n - 1]))
    else
      Parts(parts[0], NonEmpty(if n > 0 then rest[..n - 1] else rest), None)
  }

  method SplitParts(text: Text) returns (p: Parts)
    ensures p == PartsOf(text)
  {
    var parts := Split(text, Tilde);
    var rest := parts[1..];
    var kb := None;
    if |rest| > 0 && rest[|rest| - 1] != [] {
      kb := Some(rest[|rest| - 1]);
      rest := rest[..|rest| - 1];
    }
    if |rest| > 0 && rest[|rest| - 1] == [] {
      rest := rest[..|rest| - 1];
    }
    var disclosures: seq<Text> := [];
    for i := 0 to |rest|
      invariant disclosures == NonEmpty(rest[..i])
    {
      assert rest[..i + 1][..i] == rest[..i];
      if rest[i] != [] {
        disclosures := disclosures + [rest[i]];
      }
    }
    assert rest[..|rest|] == rest;
    p := Parts(parts[0], disclosures, kb);
  }

  /** The text `sd_hash` is compared against. */
  function Rebuild(issuer: Text, disclosures: seq<Text>): Text {
    issuer + (if disclosures != [] then [Tilde] + Join(disclosures, Tilde) else []) + [Tilde]
  }

  // ------------------------------------------------------------- verifying

  function LookUp(keys: seq<(string, Key)>, kid: string): Option<Key> {
    if keys == [] then None
    else if kid == "" || keys[0].0 == kid then Some(keys[0].1)
    else LookUp(keys[1..], kid)
  }

  function VerifyCompact(text: Text, key: Key): Option<Claims> {
    if |text| == 1 && text[0].Blob? && text[0].part.Jws? && text[0].part.signer == key
    then Some(text[0].part.claims) else None
  }

  /** The signed digests; a text or an object in their place has no digest among its parts. */
  function SignedDigests(claims: Claims): seq<Digest> {
    if "_sd" in claims && claims["_sd"].Digests? then claims["_sd"].digests else []
  }

  /** Collecting the digests raises: the signed `_sd` is a number, and there is something to look up. */
  predicate DigestsRaise(claims: Claims, disclosures: seq<Text>) {
    disclosures != [] && "_sd" in claims && claims["_sd"].Num?
  }

  datatype Merge = Merged(claims: Claims) | Unsigned | Unreadable

  /** Disclosures merged in order; the digests are those of the signed payload. */
  function MergeAll(claims: Claims, signed: seq<Digest>, disclosures: seq<Text>): Merge {
    if disclosures == [] then Merged(claims)
    else
      var last := disclosures[|disclosures| - 1];
      match MergeAll(claims, signed, disclosures[..|disclosures| - 1])
      case Unsigned => Unsigned
      case Unreadable => Unreadable
      case Merged(sofar) =>
        if Sha(last) !in signed then Unsigned
        else if |last| == 1 && last[0].Blob? && last[0].part.Disclosure? then
          Merged(sofar[last[0].part.name := last[0].part.value])
        else Unreadable
  }

  function TimeFault(claims: Claims, now: int, leeway: int): Option<Outcome> {
    if "exp" in claims && !claims["exp"].Num? then Some(Malformed)
    else if "exp" in claims && now > claims["exp"].n + leeway then Some(Expired)
    else if "nbf" in claims && !claims["nbf"].Num? then Some(Malformed)
    else if "nbf" in claims && now + leeway < claims["nbf"].n then Some(NotYetValid)
    else None
  }

  datatype Policy = Policy(nonce: Option<string>, aud: Option<string>, requireKeyBinding: bool, now: int, leeway: int)

  predicate Carries(kb: Claims, name: string, want: Option<string>) {
    want.Some? ==> name in kb && kb[name] == Str(want.value)
  }

  predicate BindingHolds(claims: Claims, p: Parts, policy: Policy) {
    && p.kb.Some?
    && "cnf" in claims && claims["cnf"].Jwk?
    && var kb := VerifyCompact(p.kb.value, claims["cnf"].key);
       && kb.Some?
       && Carries(kb.value, "nonce", policy.nonce)
       && Carries(kb.value, "aud", policy.aud)
       && "sd_hash" in kb.value
       && kb.value["sd_hash"] == Hash(Sha(Rebuild(p.issuer, p.disclosures)))
  }

  /** A `cnf` that is neither an object nor falsy; asking it for its key raises. */
  predicate CnfRaises(claims: Claims) {
    "cnf" in claims && !claims["cnf"].Jwk? && claims["cnf"] !in {Str(""), Num(0), Digests([])}
  }

  function Conclude(claims: Claims, p: Parts, policy: Policy): Outcome {
    if !policy.requireKeyBinding && p.kb.None? then Verified(claims - {"_sd", "_sd_alg"})
    else if p.kb.None? then InvalidKeyBinding
    else if CnfRaises(claims) then Malformed
    else if !BindingHolds(claims, p, policy) then InvalidKeyBinding
    else Verified(claims - {"_sd", "_sd_alg"})
  }

  /** The issuer part has a header to read the key id from. */
  predicate HasHeader(issuer: Text) {
    |issuer| == 1 && issuer[0].Blob? && issuer[0].part.Jws?
  }

  function IssuerClaims(p: Parts, keys: seq<(string, Key)>): Option<Claims>
    requires HasHeader(p.issuer)
  {
    var key := LookUp(keys, p.issuer[0].part.kid);
    if key.None? then None else VerifyCompact(p.issuer, key.value)
  }

  function VerifyText(text: Text, keys: seq<(string, Key)>, policy: Policy): Outcome {
    var p := PartsOf(text);
    if !HasHeader(p.issuer) then Malformed
    else
      match IssuerClaims(p, keys)
      case None => InvalidSignature
      case Some(claims) =>
        var fault := TimeFault(claims, policy.now, policy.leeway);
        if fault.Some? then fault.value
        else if DigestsRaise(claims, p.disclosures) then Malformed
        else
          match MergeAll(claims, SignedDigests(claims), p.disclosures)
          case Unsigned => InvalidSignature
          case Unreadable => Malformed
          case Merged(merged) => Conclude(merged, p, policy)
  }

  method Verify(text: Text, keys: seq<(string, Key)>, policy: Policy) returns (outcome: Outcome)
    ensures outcome == VerifyText(text, keys, policy)
  {
    var p := SplitParts(text);
    // 1. issuer signature
    if !HasHeader(p.issuer) {
      return Malformed;
    }
    var signed := IssuerClaims(p, keys);
    if signed.None? {
      return InvalidSignature;
    }
    var claims := signed.value;
    // 2. temporal window
    var fault := TimeFault(claims, policy.now, policy.leeway);
    if fault.Some? {
      return fault.value;
    }
    // 3. disclosures
    if DigestsRaise(claims, p.disclosures) {
      return Malformed;
    }
    var digests := SignedDigests(claims);
    for i := 0 to |p.disclosures|
      invariant MergeAll(signed.value, digests, p.disclosures[..i]) == Merged(claims)
    {
      var d := p.disclosures[i];
      assert p.disclosures[..i + 1][..i] == p.disclosures[..i];
      if Sha(d) !in digests {
        FaultStays(signed.value, digests, p.disclosures, i + 1);
        return InvalidSignature;
      }
      if !(|d| == 1 && d[0].Blob? && d[0].part.Disclosure?) {
        FaultStays(signed.value, digests, p.disclosures, i + 1);
        return Malformed;
      }
      claims := claims[d[0].part.name := d[0].part.value];
    }
    assert p.disclosures[..|p.disclosures|] == p.disclosures;
    // 4. key binding
    outcome := Conclude(claims, p, policy);
  }

  lemma {:induction false} FaultStays(claims: Claims, signed: seq<Digest>, disclosures: seq<Text>, n: nat)
    requires n <= |disclosures| && !MergeAll(claims, signed, disclosures[..n]).Merged?
    ensures MergeAll(claims, signed, disclosures) == MergeAll(claims, signed, disclosures[..n])
    decreases |disclosures|
  {
    if n == |disclosures| {
      assert disclosures[..n] == disclosures;
    } else {
      assert disclosures[..|disclosures| - 1][..n] == disclosures[..n];
      FaultStays(claims, signed, disclosures[..|disclosures| - 1], n);
    }
  }
}
