/**
 The SD-JWT round trip, the text a key binding covers, and what a verified
 presentation proves (sections 4 and 4.3.1 of RFC 9901).
 */
module SdJwtProofs {
  import opened Wrappers
  import opened Delimited
  import opened SdJwt

  ghost predicate Blobs(texts: seq<Text>) {
    Clean(texts, Tilde) && forall i :: 0 <= i < |texts| ==> texts[i] != []
  }

  lemma SplitOfPresentation(token: Text, texts: seq<Text>, tail: Text)
    requires Clean([token], Tilde) && Clean(texts, Tilde) && Tilde !in tail
    ensures Split(Presentation(token, texts) + tail, Tilde) == [token] + texts + [tail]
  {
    var parts := [token] + texts + [tail];
    assert Tilde !in [token][0];
    forall i | 0 <= i < |parts|
      ensures Tilde !in parts[i]
    {
      if 1 <= i <= |texts| {
        assert parts[i] == texts[i - 1];
      }
    }
    JoinAppend([token] + texts, tail, Tilde);
    assert Join(parts, Tilde) == Presentation(token, texts) + tail;
    SplitOfJoin(parts, Tilde);
  }

  lemma RebuildIsPresentation(token: Text, texts: seq<Text>)
    ensures Rebuild(token, texts) == Presentation(token, texts)
  {
    if texts != [] {
      assert ([token] + texts)[1..] == texts;
    }
  }

  // ------------------------------------------------ what sd_hash covers

  function Size(texts: seq<Text>): nat {
    if texts == [] then 0 else Size(texts[..|texts| - 1]) + |texts[|texts| - 1]| + 1
  }

  lemma {:induction false} SizeOfConcat(a: seq<Text>, b: seq<Text>)
    ensures Size(a + b) == Size(a) + Size(b)
  {
    if b == [] {
      assert a + b == a;
    } else {
      var n := |b| - 1;
      assert (a + b)[..|a + b| - 1] == a + b[..n];
      SizeOfConcat(a, b[..n]);
    }
  }

  lemma {:induction false} SizeOfJoin(texts: seq<Text>)
    requires texts != []
    ensures |Join(texts, Tilde)| + 1 == Size(texts)
  {
    if |texts| == 1 {
      assert texts[..0] == [];
    } else {
      SizeOfJoin(texts[1..]);
      assert texts == [texts[0]] + texts[1..];
      SizeOfConcat([texts[0]], texts[1..]);
      assert [texts[0]][..0] == [];
    }
  }

  lemma {:induction false} SizeOfNonEmpty(texts: seq<Text>)
    ensures Size(NonEmpty(texts)) <= Size(texts)
    ensures (exists i :: 0 <= i < |texts| && texts[i] == []) ==> Size(NonEmpty(texts)) < Size(texts)
  {
    if texts != [] {
      var n := |texts| - 1;
      SizeOfNonEmpty(texts[..n]);
      if texts[n] != [] {
        SizeOfConcat(NonEmpty(texts[..n]), [texts[n]]);
        assert [texts[n]][..0] == [];
        if i :| 0 <= i < |texts| && texts[i] == [] {
          assert texts[..n][i] == [];
        }
      } else {
        assert NonEmpty(texts) == NonEmpty(texts[..n]);
      }
    }
  }

  lemma SizeOfPresentation(token: Text, texts: seq<Text>)
    ensures |Presentation(token, texts)| == |token| + 1 + Size(texts)
  {
    SizeOfJoin([token] + texts);
    SizeOfConcat([token], texts);
    assert [token][..0] == [];
  }

  lemma NonEmptyIgnoresLastEmpty(texts: seq<Text>)
    requires texts != [] && texts[|texts| - 1] == []
    ensures NonEmpty(texts) == NonEmpty(texts[..|texts| - 1])
  {
  }

  lemma PartsWithEmpties(token: Text, texts: seq<Text>, kb: Text)
    requires Clean([token], Tilde) && Clean(texts, Tilde) && kb != [] && Tilde !in kb
    ensures PartsOf(Presentation(token, texts) + kb) == Parts(token, NonEmpty(texts), Some(kb))
  {
    SplitOfPresentation(token, texts, kb);
    var parts := [token] + texts + [kb];
    assert parts[1..] == texts + [kb];
    assert (texts + [kb])[..|texts|] == texts;
    if texts != [] && texts[|texts| - 1] == [] {
      NonEmptyIgnoresLastEmpty(texts);
    }
  }

  lemma {:induction false} NonEmptyKeepsBlobs(texts: seq<Text>)
    requires forall i :: 0 <= i < |texts| ==> texts[i] != []
    ensures NonEmpty(texts) == texts
  {
    if texts != [] {
      assert forall i :: 0 <= i < |texts| - 1 ==> texts[..|texts| - 1][i] == texts[i];
      NonEmptyKeepsBlobs(texts[..|texts| - 1]);
    }
  }

  lemma PartsUnbound(token: Text, texts: seq<Text>)
    requires Clean([token], Tilde) && Blobs(texts)
    ensures PartsOf(Presentation(token, texts)) == Parts(token, texts, None)
  {
    SplitOfPresentation(token, texts, []);
    assert Presentation(token, texts) + [] == Presentation(token, texts);
    var parts := [token] + texts + [[]];
    assert parts[1..] == texts + [[]];
    assert (texts + [[]])[..|texts|] == texts;
    NonEmptyKeepsBlobs(texts);
  }

  /** `_split` gives back what a holder presented, with or without a key binding. */
  lemma PartsOfPresentation(token: Text, texts: seq<Text>, kb: Text)
    requires Clean([token], Tilde) && Blobs(texts) && kb != [] && Tilde !in kb
    ensures PartsOf(Presentation(token, texts)) == Parts(token, texts, None)
    ensures PartsOf(Presentation(token, texts) + kb) == Parts(token, texts, Some(kb))
  {
    PartsUnbound(token, texts);
    PartsWithEmpties(token, texts, kb);
    NonEmptyKeepsBlobs(texts);
  }

  /**
   The verifier rebuilds exactly the text the holder hashed if and only if no
   component between two separators is empty; a stray empty one breaks the binding.
   */
  lemma RebuiltTextIsHashedText(token: Text, texts: seq<Text>, kb: Text)
    requires Clean([token], Tilde) && Clean(texts, Tilde) && kb != [] && Tilde !in kb
    ensures var p := PartsOf(Presentation(token, texts) + kb);
      && p.issuer == token && p.kb == Some(kb) && p.disclosures == NonEmpty(texts)
      && (Rebuild(p.issuer, p.disclosures) == Presentation(token, texts)
          <==> forall i :: 0 <= i < |texts| ==> texts[i] != [])
  {
    PartsWithEmpties(token, texts, kb);
    RebuildIsPresentation(token, NonEmpty(texts));
    if forall i :: 0 <= i < |texts| ==> texts[i] != [] {
      NonEmptyKeepsBlobs(texts);
    } else {
      SizeOfNonEmpty(texts);
      SizeOfPresentation(token, texts);
      SizeOfPresentation(token, NonEmpty(texts));
    }
  }

  // ---------------------------------------------------- what is accepted

  /** A token may be used from its `nbf` to its `exp`, where it has them, give or take the leeway. */
  predicate InWindow(claims: Claims, now: int, leeway: int) {
    && ("exp" in claims ==> claims["exp"].Num? && now <= claims["exp"].n + leeway)
    && ("nbf" in claims ==> claims["nbf"].Num? && claims["nbf"].n <= now + leeway)
  }

  lemma WindowExactly(claims: Claims, now: int, leeway: int)
    ensures TimeFault(claims, now, leeway) == None <==> InWindow(claims, now, leeway)
    ensures TimeFault(claims, now, leeway) == Some(Expired) <==>
      "exp" in claims && claims["exp"].Num? && claims["exp"].n + leeway < now
    ensures TimeFault(claims, now, leeway) != Some(Verified(claims))
  {
  }

  /** The key the verifier takes: the first of that id, or the first of all where the header names none. */
  ghost predicate TakesKey(keys: seq<(string, Key)>, kid: string, key: Key) {
    exists k :: 0 <= k < |keys| && keys[k].1 == key && (kid == "" || keys[k].0 == kid)
      && forall i :: 0 <= i < k ==> kid != "" && keys[i].0 != kid
  }

  lemma {:induction false} LookUpTakesFirst(keys: seq<(string, Key)>, kid: string, key: Key)
    ensures LookUp(keys, kid) == Some(key) <==> TakesKey(keys, kid, key)
  {
    if keys != [] {
      LookUpTakesFirst(keys[1..], kid, key);
    }
  }

  /** The text is one JWS with these claims, signed with this key. */
  predicate IsJws(text: Text, kid: string, claims: Claims, key: Key) {
    text == [Blob(Jws(kid, claims, key))]
  }

  predicate IsDisclosure(text: Text) {
    |text| == 1 && text[0].Blob? && text[0].part.Disclosure?
  }

  /** Disclosure `i` is about this claim, and no later one is. */
  ghost predicate LastNamed(texts: seq<Text>, i: int, name: string) {
    && 0 <= i < |texts| && IsDisclosure(texts[i]) && texts[i][0].part.name == name
    && forall j :: i < j < |texts| && IsDisclosure(texts[j]) ==> texts[j][0].part.name != name
  }

  ghost predicate AllSigned(signed: seq<Digest>, texts: seq<Text>) {
    forall i :: 0 <= i < |texts| ==> Sha(texts[i]) in signed && IsDisclosure(texts[i])
  }

  /** Merging succeeds exactly on signed, readable disclosures, and the last one of a name decides its value. */
  lemma {:induction false} MergesExactlyWhenSigned(claims: Claims, signed: seq<Digest>, texts: seq<Text>, name: string)
    ensures var m := MergeAll(claims, signed, texts);
      && (m.Merged? <==> AllSigned(signed, texts))
      && (m.Merged? ==>
            && (name in m.claims <==> name in claims || exists i :: LastNamed(texts, i, name))
            && (forall i :: LastNamed(texts, i, name) ==> m.claims[name] == texts[i][0].part.value)
            && (name in m.claims && !(exists i :: LastNamed(texts, i, name)) ==> m.claims[name] == claims[name]))
  {
    if texts != [] {
      var n := |texts| - 1;
      var before := texts[..n];
      MergesExactlyWhenSigned(claims, signed, before, name);
      assert texts == before + [texts[n]];
      assert AllSigned(signed, texts)
        <==> AllSigned(signed, before) && Sha(texts[n]) in signed && IsDisclosure(texts[n]);
      if MergeAll(claims, signed, texts).Merged? {
        LastNamedNext(texts, name);
      }
    }
  }

  lemma LastNamedNext(texts: seq<Text>, name: string)
    requires texts != [] && IsDisclosure(texts[|texts| - 1])
    ensures var n, before := |texts| - 1, texts[..|texts| - 1];
      && (forall i :: LastNamed(texts, i, name) <==>
            if texts[n][0].part.name == name then i == n else LastNamed(before, i, name))
      && ((exists i :: LastNamed(texts, i, name)) <==>
            texts[n][0].part.name == name || exists i :: LastNamed(before, i, name))
  {
    var n := |texts| - 1;
    forall i
      ensures LastNamed(texts, i, name) <==>
        if texts[n][0].part.name == name then i == n else LastNamed(texts[..n], i, name)
    {
      if LastNamed(texts[..n], i, name) && texts[n][0].part.name != name {
        assert forall j :: i < j < n ==> texts[j] == texts[..n][j];
      }
    }
    if i :| LastNamed(texts[..n], i, name) {
      assert texts[n][0].part.name != name ==> LastNamed(texts, i, name);
    }
    assert texts[n][0].part.name == name ==> LastNamed(texts, n, name);
  }

  /** The holder named in the claims signed over this presentation, for this nonce and audience. */
  ghost predicate Bound(claims: Claims, p: Parts, policy: Policy) {
    && "cnf" in claims && claims["cnf"].Jwk? && p.kb.Some?
    && exists kid, kb ::
      && IsJws(p.kb.value, kid, kb, claims["cnf"].key)
      && (policy.nonce.Some? ==> "nonce" in kb && kb["nonce"] == Str(policy.nonce.value))
      && (policy.aud.Some? ==> "aud" in kb && kb["aud"] == Str(policy.aud.value))
      && "sd_hash" in kb && kb["sd_hash"] == Hash(Sha(Presentation(p.issuer, p.disclosures)))
  }

  lemma BoundExactly(claims: Claims, p: Parts, policy: Policy)
    ensures BindingHolds(claims, p, policy) <==> Bound(claims, p, policy)
  {
    RebuildIsPresentation(p.issuer, p.disclosures);
    if BindingHolds(claims, p, policy) {
      assert IsJws(p.kb.value, p.kb.value[0].part.kid, p.kb.value[0].part.claims, claims["cnf"].key);
    }
  }

  /** What an accepted text says: the issuer's claims with every disclosure merged in. */
  ghost predicate Accepts(text: Text, keys: seq<(string, Key)>, policy: Policy, kid: string, claims: Claims, key: Key) {
    var p := PartsOf(text);
    && IsJws(p.issuer, kid, claims, key) && TakesKey(keys, kid, key)
    && InWindow(claims, policy.now, policy.leeway)
    && AllSigned(SignedDigests(claims), p.disclosures)
    && (p.kb.None? ==> !policy.requireKeyBinding)
    && (p.kb.Some? ==>
          var m := MergeAll(claims, SignedDigests(claims), p.disclosures);
          m.Merged? && Bound(m.claims, p, policy))
  }

  /**
   A text verifies if and only if its issuer part is signed with the key the
   verifier takes for it, the claims are inside their window, every disclosure
   is one the issuer signed, and it is bound to its holder, nonce and audience
   where it has a binding or must have one.
   */
  lemma VerifiesExactlyWhen(text: Text, keys: seq<(string, Key)>, policy: Policy)
    ensures VerifyText(text, keys, policy).Verified? <==>
      exists kid, claims, key :: Accepts(text, keys, policy, kid, claims, key)
  {
    var p := PartsOf(text);
    if HasHeader(p.issuer) {
      var part := p.issuer[0].part;
      VerifiesKnownClaims(text, keys, policy, part.kid, part.claims, part.signer);
    }
  }

  lemma VerifiesKnownClaims(text: Text, keys: seq<(string, Key)>, policy: Policy, kid: string, claims: Claims, key: Key)
    requires IsJws(PartsOf(text).issuer, kid, claims, key)
    ensures VerifyText(text, keys, policy).Verified? <==> Accepts(text, keys, policy, kid, claims, key)
  {
    var p := PartsOf(text);
    LookUpTakesFirst(keys, kid, key);
    WindowExactly(claims, policy.now, policy.leeway);
    MergesExactlyWhenSigned(claims, SignedDigests(claims), p.disclosures, "");
    if AllSigned(SignedDigests(claims), p.disclosures) {
      BoundExactly(MergeAll(claims, SignedDigests(claims), p.disclosures).claims, p, policy);
    }
  }

  /** Disclosure `k` is the first that does not fit: not signed by the issuer, or signed and not a disclosure. */
  ghost predicate FirstBad(signed: seq<Digest>, texts: seq<Text>, k: int, known: bool) {
    && 0 <= k < |texts| && AllSigned(signed, texts[..k])
    && (Sha(texts[k]) in signed <==> known) && (known ==> !IsDisclosure(texts[k]))
  }

  /** And it decides what is wrong with them all. */
  lemma {:induction false} FirstBadDecides(claims: Claims, signed: seq<Digest>, texts: seq<Text>)
    ensures var m := MergeAll(claims, signed, texts);
      && (m == Unsigned <==> exists k :: FirstBad(signed, texts, k, false))
      && (m == Unreadable <==> exists k :: FirstBad(signed, texts, k, true))
  {
    if texts != [] {
      var n := |texts| - 1;
      FirstBadDecides(claims, signed, texts[..n]);
      MergesExactlyWhenSigned(claims, signed, texts[..n], "");
      FirstBadNext(signed, texts, false);
      FirstBadNext(signed, texts, true);
    }
  }

  lemma FirstBadNext(signed: seq<Digest>, texts: seq<Text>, known: bool)
    requires texts != []
    ensures var n, before := |texts| - 1, texts[..|texts| - 1];
      (exists k :: FirstBad(signed, texts, k, known)) <==>
        || (exists k :: FirstBad(signed, before, k, known))
        || (AllSigned(signed, before) && (Sha(texts[n]) in signed <==> known) && (known ==> !IsDisclosure(texts[n])))
  {
    var n, before := |texts| - 1, texts[..|texts| - 1];
    assert forall k :: 0 <= k < n ==> texts[..k] == before[..k];
    if k :| FirstBad(signed, texts, k, known) {
      assert k < n ==> FirstBad(signed, before, k, known);
    }
    if k :| FirstBad(signed, before, k, known) {
      assert FirstBad(signed, texts, k, known);
    }
    assert AllSigned(signed, before) && (Sha(texts[n]) in signed <==> known) && (known ==> !IsDisclosure(texts[n]))
      ==> FirstBad(signed, texts, n, known);
  }

  /** The holder is neither named by a key nor left blank, so that reading the key raises. */
  predicate OddHolder(claims: Claims) {
    "cnf" in claims &&
    match claims["cnf"]
    case Jwk(_) => false
    case Str(text) => text != ""
    case Num(n) => n != 0
    case Digests(list) => list != []
    case Hash(_) => true
  }

  /** Where a text does not verify, which step refuses it. */
  lemma RefusalNamesTheStep(text: Text, keys: seq<(string, Key)>, policy: Policy, kid: string, claims: Claims, key: Key)
    requires IsJws(PartsOf(text).issuer, kid, claims, key)
    ensures var o, p, signed := VerifyText(text, keys, policy), PartsOf(text), SignedDigests(claims);
      var late := "exp" in claims && claims["exp"].Num? && claims["exp"].n + policy.leeway < policy.now;
      var early := "nbf" in claims && claims["nbf"].Num? && policy.now + policy.leeway < claims["nbf"].n;
      var timely := TakesKey(keys, kid, key) && InWindow(claims, policy.now, policy.leeway);
      && (o == Expired <==> TakesKey(keys, kid, key) && late)
      && (o == NotYetValid <==>
            TakesKey(keys, kid, key) && early && ("exp" in claims ==> claims["exp"].Num?) && !late)
      && (o == InvalidSignature <==>
            || !TakesKey(keys, kid, key)
            || (timely && !("_sd" in claims && claims["_sd"].Num?)
                && exists k :: FirstBad(signed, p.disclosures, k, false)))
      && (o == InvalidKeyBinding ==> timely && AllSigned(signed, p.disclosures))
  {
    LookUpTakesFirst(keys, kid, key);
    WindowExactly(claims, policy.now, policy.leeway);
    MergesExactlyWhenSigned(claims, SignedDigests(claims), PartsOf(text).disclosures, "");
    FirstBadDecides(claims, SignedDigests(claims), PartsOf(text).disclosures);
  }

  /** And when all before it is in order, what the last step answers. */
  lemma BindingAnswers(text: Text, keys: seq<(string, Key)>, policy: Policy, kid: string, claims: Claims, key: Key)
    requires IsJws(PartsOf(text).issuer, kid, claims, key) && TakesKey(keys, kid, key)
    requires InWindow(claims, policy.now, policy.leeway)
    requires AllSigned(SignedDigests(claims), PartsOf(text).disclosures)
    ensures var p := PartsOf(text);
      var merged := MergeAll(claims, SignedDigests(claims), p.disclosures);
      && merged.Merged?
      && VerifyText(text, keys, policy) ==
           if p.kb.None? then
             if policy.requireKeyBinding then InvalidKeyBinding else Verified(merged.claims - RESERVED)
           else if OddHolder(merged.claims) then Malformed
           else if Bound(merged.claims, p, policy) then Verified(merged.claims - RESERVED)
           else InvalidKeyBinding
  {
    var p := PartsOf(text);
    LookUpTakesFirst(keys, kid, key);
    WindowExactly(claims, policy.now, policy.leeway);
    MergesExactlyWhenSigned(claims, SignedDigests(claims), p.disclosures, "");
    var merged := MergeAll(claims, SignedDigests(claims), p.disclosures).claims;
    BoundExactly(merged, p, policy);
    assert OddHolder(merged) <==> CnfRaises(merged);
    assert VerifyText(text, keys, policy) == Conclude(merged, p, policy);
  }

  /** Outside its window nothing verifies, whatever is presented with it and whoever signed it. */
  lemma OutsideWindowIsRefused(text: Text, kid: string, claims: Claims, key: Key,
                               keys: seq<(string, Key)>, policy: Policy)
    requires IsJws(PartsOf(text).issuer, kid, claims, key) && !InWindow(claims, policy.now, policy.leeway)
    ensures !VerifyText(text, keys, policy).Verified?
  {
    VerifiesKnownClaims(text, keys, policy, kid, claims, key);
  }

  // -------------------------------------------------------- the round trip

  const RESERVED := {"_sd", "_sd_alg"}

  /** Selective names are distinct, unused by the plain claims, and not reserved. */
  ghost predicate FreshNames(claims: Claims, selective: seq<Selective>) {
    && claims.Keys !! RESERVED
    && (forall i :: 0 <= i < |selective| ==>
          selective[i].name !in claims && selective[i].name !in RESERVED)
    && (forall i, j :: 0 <= i < j < |selective| ==> selective[i].name != selective[j].name)
  }

  predicate Indices(chosen: seq<nat>, n: nat) {
    forall i :: 0 <= i < |chosen| ==> chosen[i] < n
  }

  /** The disclosures a holder picks, in whatever order. */
  function Shown(selective: seq<Selective>, chosen: seq<nat>): seq<Text>
    requires Indices(chosen, |selective|)
  {
    seq(|chosen|, i requires 0 <= i < |chosen| => DisclosureText(selective[chosen[i]]))
  }

  function Reveal(claims: Claims, selective: seq<Selective>, chosen: seq<nat>): Claims
    requires Indices(chosen, |selective|)
  {
    if chosen == [] then claims
    else
      var s := selective[chosen[|chosen| - 1]];
      Reveal(claims, selective, chosen[..|chosen| - 1])[s.name := s.value]
  }

  /** The claims plus exactly the chosen ones. */
  lemma {:induction false} RevealIsExact(claims: Claims, selective: seq<Selective>, chosen: seq<nat>)
    requires Indices(chosen, |selective|) && FreshNames(claims, selective)
    ensures forall k :: k in claims ==>
      k in Reveal(claims, selective, chosen) && Reveal(claims, selective, chosen)[k] == claims[k]
    ensures forall c :: c in chosen ==>
      selective[c].name in Reveal(claims, selective, chosen)
      && Reveal(claims, selective, chosen)[selective[c].name] == selective[c].value
    ensures forall k :: k in Reveal(claims, selective, chosen) && k !in claims ==>
      exists c :: c in chosen && selective[c].name == k
  {
    if chosen != [] {
      var n := |chosen| - 1;
      RevealIsExact(claims, selective, chosen[..n]);
      assert chosen == chosen[..n] + [chosen[n]];
      assert chosen[n] in chosen;
    }
  }

  lemma PayloadSigns(claims: Claims, selective: seq<Selective>)
    requires claims.Keys !! RESERVED
    ensures SignedDigests(Payload(claims, selective)) == DigestsOf(DisclosureTexts(selective))
    ensures forall k :: k !in RESERVED ==>
      (k in Payload(claims, selective) <==> k in claims)
      && (k in claims ==> Payload(claims, selective)[k] == claims[k])
  {
    if selective == [] {
      assert "_sd" !in claims;
      assert DigestsOf(DisclosureTexts(selective)) == [];
    }
  }

  /** What the issuer signs: the plain claims, and for selective ones their digests in order and the hash they use. */
  lemma IssuedPayload(claims: Claims, selective: seq<Selective>, name: string)
    ensures var payload := Payload(claims, selective);
      && (selective == [] ==> payload == claims)
      && (selective != [] && name !in RESERVED ==>
            (name in payload <==> name in claims) && (name in claims ==> payload[name] == claims[name]))
      && (selective != [] ==>
            && "_sd_alg" in payload && payload["_sd_alg"] == Str("sha-256")
            && "_sd" in payload && payload["_sd"].Digests? && |payload["_sd"].digests| == |selective|
            && forall i :: 0 <= i < |selective| ==>
                 payload["_sd"].digests[i]
                   == Sha([Blob(Disclosure(selective[i].salt, selective[i].name, selective[i].value))]))
  {
  }

  lemma {:induction false} MergeShown(claims: Claims, selective: seq<Selective>, chosen: seq<nat>)
    requires Indices(chosen, |selective|) && claims.Keys !! RESERVED
    ensures var payload := Payload(claims, selective);
      MergeAll(payload, SignedDigests(payload), Shown(selective, chosen))
        == Merged(Reveal(payload, selective, chosen))
  {
    PayloadSigns(claims, selective);
    if chosen != [] {
      var n := |chosen| - 1;
      MergeShown(claims, selective, chosen[..n]);
      assert Shown(selective, chosen)[..n] == Shown(selective, chosen[..n]);
      var digests := DigestsOf(DisclosureTexts(selective));
      assert digests[chosen[n]] == Sha(Shown(selective, chosen)[n]);
    }
  }

  lemma {:induction false} RevealDropsReserved(claims: Claims, selective: seq<Selective>, chosen: seq<nat>)
    requires Indices(chosen, |selective|) && FreshNames(claims, selective)
    ensures Reveal(Payload(claims, selective), selective, chosen) - RESERVED == Reveal(claims, selective, chosen)
  {
    PayloadSigns(claims, selective);
    if chosen == [] {
      assert Payload(claims, selective) - RESERVED == claims;
    } else {
      var n := |chosen| - 1;
      RevealDropsReserved(claims, selective, chosen[..n]);
      var s := selective[chosen[n]];
      var before := Reveal(Payload(claims, selective), selective, chosen[..n]);
      assert s.name !in RESERVED;
      assert before[s.name := s.value] - RESERVED == (before - RESERVED)[s.name := s.value];
    }
  }

  lemma ShownAreBlobs(selective: seq<Selective>, chosen: seq<nat>)
    requires Indices(chosen, |selective|)
    ensures Blobs(Shown(selective, chosen))
  {
  }

  /** Up to the key binding, verifying what the holder shows merges exactly that. */
  lemma VerifiesToMerge(text: Text, claims: Claims, selective: seq<Selective>, chosen: seq<nat>, issuer: Key,
                        kid: string, keys: seq<(string, Key)>, policy: Policy)
    requires FreshNames(claims, selective) && Indices(chosen, |selective|)
    requires LookUp(keys, kid) == Some(issuer)
    requires InWindow(claims, policy.now, policy.leeway)
    requires PartsOf(text).issuer == TokenText(claims, issuer, kid, selective)
    requires PartsOf(text).disclosures == Shown(selective, chosen)
    ensures VerifyText(text, keys, policy)
         == Conclude(Reveal(Payload(claims, selective), selective, chosen), PartsOf(text), policy)
  {
    var payload := Payload(claims, selective);
    assert IssuerClaims(PartsOf(text), keys) == Some(payload);
    PayloadSigns(claims, selective);
    WindowExactly(payload, policy.now, policy.leeway);
    assert TimeFault(payload, policy.now, policy.leeway) == None;
    MergeShown(claims, selective, chosen);
  }

  /**
   Round trip: for all claims, all selective claims with fresh names and any
   subset the holder shows, in any order, a key-bound presentation inside the
   validity window verifies to the claims plus exactly that subset.
   */
  lemma RoundTrip(claims: Claims, selective: seq<Selective>, chosen: seq<nat>, issuer: Key, kid: string,
                  keys: seq<(string, Key)>, holder: Key, nonce: string, aud: string, iat: int, policy: Policy)
    requires FreshNames(claims, selective) && Indices(chosen, |selective|)
    requires LookUp(keys, kid) == Some(issuer)
    requires InWindow(claims, policy.now, policy.leeway)
    requires "cnf" in claims && claims["cnf"] == Jwk(holder)
    requires policy.nonce in {None, Some(nonce)} && policy.aud in {None, Some(aud)}
    ensures var shown := Presentation(TokenText(claims, issuer, kid, selective), Shown(selective, chosen));
      VerifyText(AttachKeyBinding(shown, holder, nonce, aud, iat), keys, policy)
        == Verified(Reveal(claims, selective, chosen))
  {
    var token := TokenText(claims, issuer, kid, selective);
    var texts := Shown(selective, chosen);
    var shown := Presentation(token, texts);
    var kb := KeyBinding(shown, holder, nonce, aud, iat);
    ShownAreBlobs(selective, chosen);
    PartsOfPresentation(token, texts, kb);
    assert AttachKeyBinding(shown, holder, nonce, aud, iat) == shown + kb;
    VerifiesToMerge(shown + kb, claims, selective, chosen, issuer, kid, keys, policy);
    var merged := Reveal(Payload(claims, selective), selective, chosen);
    RevealDropsReserved(claims, selective, chosen);
    RevealIsExact(claims, selective, chosen);
    assert (merged - RESERVED)["cnf"] == Jwk(holder);
    RebuildIsPresentation(token, texts);
    BindingOfAttached(merged, PartsOf(shown + kb), shown, holder, nonce, aud, iat, policy);
  }

  lemma BindingOfAttached(merged: Claims, p: Parts, shown: Text, holder: Key, nonce: string, aud: string,
                          iat: int, policy: Policy)
    requires "cnf" in merged && merged["cnf"] == Jwk(holder)
    requires p.kb == Some(KeyBinding(shown, holder, nonce, aud, iat))
    requires Rebuild(p.issuer, p.disclosures) == shown
    requires policy.nonce in {None, Some(nonce)} && policy.aud in {None, Some(aud)}
    ensures BindingHolds(merged, p, policy)
  {
    var kb := VerifyCompact(p.kb.value, holder);
    assert kb.Some?;
    assert kb.value["nonce"] == Str(nonce) && kb.value["aud"] == Str(aud);
  }

  /** Without a key binding the same holds, unless the verifier demands one. */
  lemma RoundTripUnbound(claims: Claims, selective: seq<Selective>, chosen: seq<nat>, issuer: Key, kid: string,
                         keys: seq<(string, Key)>, policy: Policy)
    requires FreshNames(claims, selective) && Indices(chosen, |selective|)
    requires LookUp(keys, kid) == Some(issuer)
    requires InWindow(claims, policy.now, policy.leeway)
    ensures VerifyText(Presentation(TokenText(claims, issuer, kid, selective), Shown(selective, chosen)), keys, policy)
      == if policy.requireKeyBinding then InvalidKeyBinding else Verified(Reveal(claims, selective, chosen))
  {
    var token := TokenText(claims, issuer, kid, selective);
    var shown := Presentation(token, Shown(selective, chosen));
    ShownAreBlobs(selective, chosen);
    PartsOfPresentation(token, Shown(selective, chosen), token);
    VerifiesToMerge(shown, claims, selective, chosen, issuer, kid, keys, policy);
    RevealDropsReserved(claims, selective, chosen);
  }

  // -------------------------------------------------- what is never accepted

  lemma {:induction false} MergedIsSigned(claims: Claims, signed: seq<Digest>, texts: seq<Text>)
    requires MergeAll(claims, signed, texts).Merged?
    ensures forall d :: d in texts ==> Sha(d) in signed
  {
    if texts != [] {
      var n := |texts| - 1;
      MergedIsSigned(claims, signed, texts[..n]);
      assert texts == texts[..n] + [texts[n]];
    }
  }

  lemma {:induction false} ReadableUnlessUnsigned(claims: Claims, selective: seq<Selective>, texts: seq<Text>)
    ensures !MergeAll(claims, DigestsOf(DisclosureTexts(selective)), texts).Unreadable?
  {
    if texts != [] {
      var n := |texts| - 1;
      ReadableUnlessUnsigned(claims, selective, texts[..n]);
      if Sha(texts[n]) in DigestsOf(DisclosureTexts(selective)) {
        var i :| 0 <= i < |selective| && DigestsOf(DisclosureTexts(selective))[i] == Sha(texts[n]);
        assert texts[n] == DisclosureText(selective[i]);
      }
    }
  }

  /** Any text at all: one disclosure the issuer did not sign and the presentation is refused. */
  lemma UnsignedDisclosureIsRefused(text: Text, claims: Claims, selective: seq<Selective>, issuer: Key, kid: string,
                                    keys: seq<(string, Key)>, policy: Policy, d: Text)
    requires claims.Keys !! RESERVED
    requires PartsOf(text).issuer == TokenText(claims, issuer, kid, selective)
    requires d in PartsOf(text).disclosures && d !in DisclosureTexts(selective)
    ensures !VerifyText(text, keys, policy).Verified?
    ensures LookUp(keys, kid) == Some(issuer) && InWindow(claims, policy.now, policy.leeway)
      ==> VerifyText(text, keys, policy) == InvalidSignature
  {
    var p := PartsOf(text);
    var payload := Payload(claims, selective);
    var digests := DigestsOf(DisclosureTexts(selective));
    PayloadSigns(claims, selective);
    forall i | 0 <= i < |digests|
      ensures digests[i] != Sha(d)
    {
      assert DisclosureTexts(selective)[i] in DisclosureTexts(selective);
    }
    if MergeAll(payload, digests, p.disclosures).Merged? {
      MergedIsSigned(payload, digests, p.disclosures);
    }
    ReadableUnlessUnsigned(payload, selective, p.disclosures);
    assert IssuerClaims(p, keys).Some? ==> IssuerClaims(p, keys) == Some(payload);
    WindowExactly(claims, policy.now, policy.leeway);
    assert TimeFault(payload, policy.now, policy.leeway) == TimeFault(claims, policy.now, policy.leeway);
  }

  /** A verified presentation is the very text its key binding was made over. */
  lemma BindingCoversText(text: Text, presented: Text, holder: Key, nonce: string, aud: string, iat: int,
                          keys: seq<(string, Key)>, policy: Policy)
    requires PartsOf(text).kb == Some(KeyBinding(presented, holder, nonce, aud, iat))
    requires VerifyText(text, keys, policy).Verified?
    ensures Rebuild(PartsOf(text).issuer, PartsOf(text).disclosures) == presented
  {
    var p := PartsOf(text);
    var claims := IssuerClaims(p, keys).value;
    var merged := MergeAll(claims, SignedDigests(claims), p.disclosures).claims;
    assert BindingHolds(merged, p, policy);
  }

  /** A key binding cannot be lifted onto other disclosures than the ones it was made for. */
  lemma LiftedBindingIsRefused(token: Text, texts: seq<Text>, others: seq<Text>, holder: Key, nonce: string,
                               aud: string, iat: int, keys: seq<(string, Key)>, policy: Policy)
    requires Clean([token], Tilde) && Blobs(texts) && Blobs(others) && texts != others
    ensures var kb := KeyBinding(Presentation(token, texts), holder, nonce, aud, iat);
      !VerifyText(Presentation(token, others) + kb, keys, policy).Verified?
  {
    var kb := KeyBinding(Presentation(token, texts), holder, nonce, aud, iat);
    PartsOfPresentation(token, others, kb);
    PartsUnbound(token, texts);
    RebuildIsPresentation(token, others);
    if VerifyText(Presentation(token, others) + kb, keys, policy).Verified? {
      BindingCoversText(Presentation(token, others) + kb, Presentation(token, texts), holder, nonce, aud, iat,
                        keys, policy);
    }
  }
}
