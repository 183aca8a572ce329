/**
 What a verified ledger proves about its past: everything up to the end of any
 signed range it still shows, and nothing after it.
 */
module LedgerTamper {
  import opened Wrappers
  import opened HashChain
  import opened Ledger
  import opened LedgerProofs

  // -------------------------------------------------------- tamper evidence

  lemma {:induction false} GoodHashIsHead(events: seq<Event>, k: nat)
    requires GoodPrefix(events, |events|, None) && k < |events| && events[0].seqNo == Some(1)
    ensures events[k].hash == HeadOf(Contents(events)[..k + 1])
  {
    assert CheckAt(events, k, None) == Good;
    assert Contents(events)[..k + 1][..k] == Contents(events)[..k];
    if k > 0 {
      GoodHashIsHead(events, k - 1);
    }
  }

  lemma {:induction false} WithinComesFrom(events: seq<Event>, s: int, e: int)
    ensures forall x :: x in Within(events, s, e) ==> x in events
  {
    if events != [] {
      WithinComesFrom(events[..|events| - 1], s, e);
    }
  }

  /**
   Against a verified ledger, a single hash decides everything before it: the
   first `e` events are the honest ones exactly when some event carries the
   honest hash of event `e`, and then it is the e-th.
   */
  lemma HashDecidesPrefix(events: seq<Event>, edited: seq<Event>, e: nat, k: nat)
    requires Chained(events) && 1 <= e <= |events|
    requires GoodPrefix(edited, |edited|, None) && k < |edited| && edited[0].seqNo == Some(1)
    ensures edited[k].hash == events[e - 1].hash
      <==> k + 1 == e && Contents(edited)[..e] == Contents(events)[..e]
  {
    ChainedIsGood(events);
    assert LinkedAt(events, 0);
    GoodHashIsHead(events, e - 1);
    GoodHashIsHead(edited, k);
    if edited[k].hash == events[e - 1].hash {
      HeadDeterminesContents(Contents(edited)[..k + 1], Contents(events)[..e]);
      assert |Contents(edited)[..k + 1]| == |Contents(events)[..e]|;
    }
  }

  /**
   Tamper evidence.  If an arbitrarily edited ledger still verifies, starts at
   sequence number 1 and still shows a signed range whose witnessed checkpoint
   nobody touched, then everything up to the end of that range has the hashed
   content it had when it was signed.
   */
  lemma VerifiedMeansUntouched(events: seq<Event>, archive: Witness,
                               edited: seq<Event>, archive': Witness, r: Range)
    requires Sound(events, archive)
    requires Verified(edited, archive') && edited != [] && edited[0].seqNo == Some(1)
    requires r in Groups(edited)
    requires (r.start, r.end) in archive && (r.start, r.end) in archive'
    requires archive'[(r.start, r.end)] == archive[(r.start, r.end)]
    ensures 1 <= r.end <= |events| && r.end <= |edited|
    ensures Contents(edited)[..r.end] == Contents(events)[..r.end]
  {
    var ranges := Groups(edited);
    var i :| 0 <= i < |ranges| && ranges[i] == r;
    assert CheckRange(edited, archive', ranges[i]) == Good;
    var inside := Within(edited, r.start, r.end);
    var last := inside[|inside| - 1];
    WithinComesFrom(edited, r.start, r.end);
    assert last in inside;
    var k :| 0 <= k < |edited| && edited[k] == last;
    assert last.hash == events[r.end - 1].hash;
    HashDecidesPrefix(events, edited, r.end, k);
  }

  // ------------------------------------------------- what can be rewritten

  /** No signature, or one whose range ends here. */
  ghost predicate EndsRange(events: seq<Event>, m: nat) {
    m == 0 ||
    (m <= |events| && events[m - 1].rootSig.Some? && events[m - 1].rootSig.value.Signed?
     && events[m - 1].rootSig.value.root.seqEnd == m)
  }

  function Upto(archive: Witness, m: nat): Witness {
    map k | k in archive && k.1 <= m :: archive[k]
  }

  /** Cut at the end of a signed range, a sound ledger stays sound. */
  lemma CutIsSound(events: seq<Event>, archive: Witness, m: nat)
    requires Sound(events, archive) && EndsRange(events, m)
    ensures Sound(events[..m], Upto(archive, m))
  {
    PrefixIsChained(events, m);
    forall i | 0 <= i < m
      ensures SignedAsRange(events[..m], Upto(archive, m), i)
    {
      assert SignedAsRange(events, archive, i);
      if events[i].rootSig.Some? {
        SignatureReaches(events, archive, i, events[i].rootSig.value, m - 1);
      }
    }
  }

  predicate Named(contents: seq<Content>) {
    forall i :: 0 <= i < |contents| ==> contents[i].mandate != "" && contents[i].kind != ""
  }

  /** Honest appends after whatever is there. */
  function Extended(events: seq<Event>, contents: seq<Content>): seq<Event> {
    if contents == [] then events
    else Appended(Extended(events, contents[..|contents| - 1]), contents[|contents| - 1])
  }

  /** An unsigned event closes the last group and opens none. */
  lemma AppendKeepsGroups(events: seq<Event>, c: Content)
    ensures Groups(Appended(events, c)) == Groups(events)
  {
    assert Appended(events, c)[..|events|] == events;
  }

  lemma {:induction false} ExtendedIsSound(events: seq<Event>, archive: Witness, contents: seq<Content>)
    requires Sound(events, archive) && Named(contents)
    ensures Sound(Extended(events, contents), archive)
    ensures Contents(Extended(events, contents)) == Contents(events) + contents
    ensures Groups(Extended(events, contents)) == Groups(events)
  {
    if contents != [] {
      var n := |contents| - 1;
      var before := Extended(events, contents[..n]);
      ExtendedIsSound(events, archive, contents[..n]);
      TailIsHashable(before);
      AppendKeepsSound(before, archive, contents[n]);
      AppendKeepsGroups(before, contents[n]);
      assert Contents(Appended(before, contents[n])) == Contents(before) + [contents[n]];
      assert contents == contents[..n] + [contents[n]];
    }
  }

  lemma TailIsHashable(events: seq<Event>)
    requires Chained(events)
    ensures !TailHash(events).Malformed?
  {
    if events != [] {
      assert LinkedAt(events, |events| - 1);
    }
  }

  lemma MoreWitnesses(events: seq<Event>, some: Witness, archive: Witness)
    requires Verified(events, some)
    requires forall k :: k in some ==> k in archive && archive[k] == some[k]
    ensures Verified(events, archive)
  {
    var ranges := Groups(events);
    forall k | 0 <= k < |ranges|
      ensures CheckRange(events, archive, ranges[k]) == Good
    {
      assert CheckRange(events, some, ranges[k]) == Good;
    }
  }

  /**
   The limit of tamper evidence: everything after the end of a signed range can
   be rewritten, with the later signatures dropped, and the ledger verifies
   against the same witness, showing exactly the groups up to there.
   */
  lemma TailCanBeRewritten(events: seq<Event>, archive: Witness, m: nat, contents: seq<Content>)
    requires Sound(events, archive) && EndsRange(events, m) && Named(contents)
    requires m <= |contents| && contents[..m] == Contents(events)[..m]
    ensures var edited := Extended(events[..m], contents[m..]);
      && Contents(edited) == contents && Chained(edited)
      && Groups(edited) == Groups(events[..m])
      && Verified(edited, archive)
  {
    var edited := Extended(events[..m], contents[m..]);
    CutIsSound(events, archive, m);
    ExtendedIsSound(events[..m], Upto(archive, m), contents[m..]);
    assert Contents(events[..m]) == Contents(events)[..m];
    assert contents == contents[..m] + contents[m..];
    SoundIsVerified(edited, Upto(archive, m));
    MoreWitnesses(edited, Upto(archive, m), archive);
  }

  /** A ledger with these contents passes verification and still shows range `r`. */
  ghost predicate Passes(edited: seq<Event>, archive: Witness, contents: seq<Content>, r: Range) {
    && edited != [] && edited[0].seqNo == Some(1) && Contents(edited) == contents
    && Verified(edited, archive) && r in Groups(edited)
  }

  lemma CutShowsRange(events: seq<Event>, archive: Witness, r: Range)
    requires Sound(events, archive) && r in Groups(events)
    ensures 0 < r.end <= |events| && EndsRange(events, r.end) && r in Groups(events[..r.end])
  {
    GroupsAreMaximal(events);
    assert MaximalRun(events, r);
    GroupIsSignedRange(events, archive, r);
    assert events[r.end - 1].rootSig == Some(r.sig);
    CutIsSound(events, archive, r.end);
    var cut := events[..r.end];
    ScanCovers(cut, r.end - 1);
    GroupsAreMaximal(cut);
    var k :| 0 <= k < |Groups(cut)| && Groups(cut)[k].sig == r.sig
      && Groups(cut)[k].start <= r.end <= Groups(cut)[k].end;
    assert Groups(cut)[k] in Groups(cut);
    GroupIsSignedRange(cut, Upto(archive, r.end), Groups(cut)[k]);
  }

  /**
   Tamper evidence, exactly: against an untouched witness, a ledger with the
   given contents can verify and show a signed range if and only if it agrees
   with the honest one up to the end of that range.
   */
  lemma ShownRangeProtectsExactly(events: seq<Event>, archive: Witness, r: Range, contents: seq<Content>)
    requires Sound(events, archive) && r in Groups(events) && Named(contents)
    ensures 0 < r.end <= |events|
    ensures (exists edited :: Passes(edited, archive, contents, r))
      <==> r.end <= |contents| && contents[..r.end] == Contents(events)[..r.end]
  {
    CutShowsRange(events, archive, r);
    GroupsAreMaximal(events);
    GroupIsSignedRange(events, archive, r);
    if edited :| Passes(edited, archive, contents, r) {
      VerifiedMeansUntouched(events, archive, edited, archive, r);
    }
    if r.end <= |contents| && contents[..r.end] == Contents(events)[..r.end] {
      TailCanBeRewritten(events, archive, r.end, contents);
      var edited := Extended(events[..r.end], contents[r.end..]);
      assert |edited| == |Contents(edited)| == |contents|;
      assert LinkedAt(edited, 0);
      assert Passes(edited, archive, contents, r);
    }
  }

  /** With no signature shown, nothing is protected: any history verifies against any witness at all. */
  lemma StrippedHistoryVerifies(contents: seq<Content>, archive: Witness)
    requires Named(contents)
    ensures exists edited :: Contents(edited) == contents && Chained(edited) && Verified(edited, archive)
  {
    TailCanBeRewritten([], map[], 0, contents);
    var edited := Extended([][..0], contents[0..]);
    MoreWitnesses(edited, map[], archive);
    assert Contents(edited) == contents && Chained(edited) && Verified(edited, archive);
  }
}
