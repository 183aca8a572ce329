/**
 What the ledger promises over whole runs: it verifies exactly when no signature
 was made over a partly signed range.
 */
module LedgerProofs {
  import opened Wrappers
  import opened HashChain
  import opened Ledger

  function Contents(events: seq<Event>): seq<Content> {
    seq(|events|, i requires 0 <= i < |events| => events[i].content)
  }

  // ---------------------------------------------------- the honest ledger

  ghost predicate LinkedAt(events: seq<Event>, i: nat)
    requires i < |events|
  {
    && events[i].seqNo == Some(i + 1)
    && Hashable(events[i].content, events[i].prev)
    && events[i].prev == TailHash(events[..i])
    && events[i].hash == Sealed(events[i].prev, events[i].content)
  }

  ghost predicate Chained(events: seq<Event>) {
    forall i :: 0 <= i < |events| ==> LinkedAt(events, i)
  }

  lemma PrefixIsChained(events: seq<Event>, n: nat)
    requires Chained(events) && n <= |events|
    ensures Chained(events[..n])
  {
    forall i | 0 <= i < n
      ensures LinkedAt(events[..n], i)
    {
      assert LinkedAt(events, i);
      assert events[..n][..i] == events[..i];
    }
  }

  ghost predicate RootFits(events: seq<Event>, root: RootHash) {
    && 1 <= root.seqStart <= root.seqEnd <= |events|
    && root == RootHash(root.seqStart, root.seqEnd, events[root.seqEnd - 1].hash,
                        root.seqEnd - root.seqStart + 1)
  }

  /** The signature an event carries covers a whole range of events that carry it too. */
  ghost predicate SignedAsRange(events: seq<Event>, archive: Witness, i: nat)
    requires i < |events|
  {
    match events[i].rootSig
    case None => true
    case Some(Forged(_)) => false
    case Some(Signed(root)) =>
      && RootFits(events, root)
      && root.seqStart <= i + 1 <= root.seqEnd
      && (forall k :: root.seqStart <= k + 1 <= root.seqEnd ==> events[k].rootSig == events[i].rootSig)
      && (root.seqStart, root.seqEnd) in archive
  }

  ghost predicate ArchiveOk(events: seq<Event>, archive: Witness) {
    forall s, e :: (s, e) in archive ==>
      && 1 <= s <= e <= |events|
      && archive[(s, e)].root == RootHash(s, e, events[e - 1].hash, e - s + 1)
      && archive[(s, e)].sig == Signed(archive[(s, e)].root)
      && archive[(s, e)].cardinality == e - s + 1
      && events[e - 1].rootSig.Some?
  }

  ghost predicate Sound(events: seq<Event>, archive: Witness) {
    && Chained(events)
    && ArchiveOk(events, archive)
    && forall i :: 0 <= i < |events| ==> SignedAsRange(events, archive, i)
  }

  /** Event `i` follows the one before it, starts where it must, and has the hash of its own content. */
  ghost predicate Follows(events: seq<Event>, i: nat, start: Option<Hash>)
    requires i < |events|
  {
    var e := events[i];
    && e.hash == Sealed(e.prev, e.content)
    && e.content.mandate != "" && e.content.kind != "" && !e.prev.Malformed?
    && (i > 0 ==> e.prev == events[i - 1].hash)
    && (i > 0 && events[i - 1].seqNo.Some? && e.seqNo.Some? ==> e.seqNo.value == events[i - 1].seqNo.value + 1)
    && (i == 0 && start.Some? ==> e.prev == start.value)
    && (i == 0 && start.None? && e.seqNo == Some(1) ==> e.prev == Genesis)
  }

  lemma FollowsExactly(events: seq<Event>, i: nat, start: Option<Hash>)
    requires i < |events|
    ensures CheckAt(events, i, start) == Good <==> Follows(events, i, start)
  {
  }

  /**
   What validation accepts, on any events at all: numbers that follow each
   other wherever both are there, every link to the hash before it, the first
   to the given start or, from number one, to the genesis value, and every
   hash that of its own content.
   */
  lemma ValidExactlyWhen(events: seq<Event>, start: Option<Hash>)
    ensures GoodPrefix(events, |events|, start) <==> forall i :: 0 <= i < |events| ==> Follows(events, i, start)
  {
    forall i | 0 <= i < |events|
      ensures CheckAt(events, i, start) == Good <==> Follows(events, i, start)
    {
      FollowsExactly(events, i, start);
    }
  }

  // ------------------------------------------------- reading ranges back

  ghost predicate Numbered(events: seq<Event>) {
    forall i :: 0 <= i < |events| ==> events[i].seqNo == Some(i + 1)
  }

  /** The positions a range of sequence numbers covers. */
  function Slice(events: seq<Event>, s: int, e: int): seq<Event> {
    if s <= e && s <= |events| && 1 <= e then events[Max(s, 1) - 1..Min(e, |events|)] else []
  }

  /** One more event at the end of the ledger. */
  lemma SliceGrows(events: seq<Event>, s: int, e: int)
    requires events != []
    ensures var n := |events| - 1;
      Slice(events, s, e) == Slice(events[..n], s, e) + if s <= n + 1 <= e then [events[n]] else []
  {
    var n := |events| - 1;
    var from := Max(s, 1) - 1;
    if s <= n + 1 <= e {
      assert events[from..n + 1] == events[from..n] + [events[n]];
      assert from <= n && events[..n][from..n] == events[from..n];
    } else if s <= e <= n && 1 <= e {
      assert events[..n][from..e] == events[from..e];
    }
  }

  lemma {:induction false} NumberedWithin(events: seq<Event>, s: int, e: int)
    requires Numbered(events)
    ensures Within(events, s, e) == Slice(events, s, e)
  {
    if events != [] {
      var n := |events| - 1;
      NumberedWithin(events[..n], s, e);
      SliceGrows(events, s, e);
      assert events[n].seqNo == Some(n + 1);
    }
  }

  lemma WithinIsSlice(events: seq<Event>, s: int, e: int)
    requires Chained(events)
    ensures Within(events, s, e) == Slice(events, s, e)
  {
    forall i | 0 <= i < |events|
      ensures events[i].seqNo == Some(i + 1)
    {
      assert LinkedAt(events, i);
    }
    NumberedWithin(events, s, e);
  }

  /** A group is a maximal run of one signature. */
  ghost predicate MaximalRun(events: seq<Event>, r: Range) {
    && 1 <= r.start <= r.end <= |events|
    && (forall k :: r.start <= k + 1 <= r.end ==> events[k].rootSig == Some(r.sig))
    && (r.start > 1 ==> events[r.start - 2].rootSig != Some(r.sig))
    && (r.end < |events| ==> events[r.end].rootSig != Some(r.sig))
  }

  ghost predicate CursorOk(events: seq<Event>, c: Cursor) {
    if c.start.None? then
      c.sig.None? && forall k :: 0 <= k < |events| ==> events[k].rootSig.None?
    else
      && c.last == Some(|events|)
      && 1 <= c.start.value <= |events|
      && (forall k :: c.start.value <= k + 1 <= |events| ==> events[k].rootSig == c.sig)
      && (c.start.value > 1 ==> events[c.start.value - 2].rootSig != c.sig)
  }

  ghost predicate InSome(ranges: seq<Range>, i: int, sig: Signature) {
    exists k :: 0 <= k < |ranges| && ranges[k].sig == sig && ranges[k].start <= i + 1 <= ranges[k].end
  }

  lemma {:induction false} ScanShape(events: seq<Event>)
    requires Chained(events)
    ensures CursorOk(events, Scan(events).1)
    ensures forall r :: r in Scan(events).0 ==> MaximalRun(events, r) && r.end < |events|
  {
    if events != [] {
      var n := |events| - 1;
      var before := events[..n];
      PrefixIsChained(events, n);
      ScanShape(before);
      assert LinkedAt(events, n);
      var (ranges, c) := Scan(before);
      assert forall k :: 0 <= k < n ==> before[k] == events[k];
      forall r | r in ranges
        ensures MaximalRun(events, r)
      {
        assert MaximalRun(before, r);
        assert before[r.end] == events[r.end];
      }
      if events[n].rootSig != c.sig && c.sig.Some? {
        assert MaximalRun(events, Range(c.start.value, c.last.value, c.sig.value));
      }
    }
  }

  /** Every signed event belongs to a group that carries its signature. */
  lemma {:induction false} ScanCovers(events: seq<Event>, i: nat)
    requires Chained(events) && i < |events| && events[i].rootSig.Some?
    ensures InSome(Groups(events), i, events[i].rootSig.value)
  {
    var n := |events| - 1;
    var before := events[..n];
    var sig := events[i].rootSig.value;
    PrefixIsChained(events, n);
    assert LinkedAt(events, n);
    ScanShape(events);
    ScanShape(before);
    var (ranges, c) := Scan(before);
    var (ranges', c') := Scan(events);
    if i == n {
      var g := Groups(events);
      assert g[|g| - 1] == Range(c'.start.value, c'.last.value, sig);
    } else {
      ScanCovers(before, i);
      var k :| 0 <= k < |Groups(before)| && Groups(before)[k].sig == sig
        && Groups(before)[k].start <= i + 1 <= Groups(before)[k].end;
      if events[n].rootSig != c.sig {
        assert Groups(events)[k] == Groups(before)[k];
      } else if k < |ranges| {
        assert Groups(events)[k] == ranges[k];
      } else {
        assert Groups(events)[k] == Groups(before)[k].(end := n + 1);
      }
    }
  }

  lemma GroupsAreMaximal(events: seq<Event>)
    requires Chained(events)
    ensures forall r :: r in Groups(events) ==> MaximalRun(events, r)
  {
    ScanShape(events);
  }

  // --------------------------------------- sound ledgers verify, and back

  /** Grouping equal signatures recovers exactly the range each signature was made for. */
  lemma GroupIsSignedRange(events: seq<Event>, archive: Witness, r: Range)
    requires Sound(events, archive) && MaximalRun(events, r)
    ensures r.sig.Signed? && RootFits(events, r.sig.root)
    ensures r.start == r.sig.root.seqStart && r.end == r.sig.root.seqEnd
    ensures (r.start, r.end) in archive
  {
    SignatureReaches(events, archive, r.start - 1, r.sig, r.start - 2);
    SignatureReaches(events, archive, r.end - 1, r.sig, r.end);
  }

  /** A signature that one event carries is carried by its whole range. */
  lemma SignatureReaches(events: seq<Event>, archive: Witness, i: nat, sig: Signature, k: int)
    requires Sound(events, archive) && i < |events| && events[i].rootSig == Some(sig)
    ensures sig.Signed? && RootFits(events, sig.root)
    ensures sig.root.seqStart <= i + 1 <= sig.root.seqEnd
    ensures (sig.root.seqStart, sig.root.seqEnd) in archive
    ensures sig.root.seqStart <= k + 1 <= sig.root.seqEnd ==> events[k].rootSig == Some(sig)
  {
    assert SignedAsRange(events, archive, i);
  }

  lemma ChainedIsGood(events: seq<Event>)
    requires Chained(events)
    ensures GoodPrefix(events, |events|, None)
  {
    forall i | 0 <= i < |events|
      ensures CheckAt(events, i, None) == Good
    {
      assert LinkedAt(events, i);
      if i > 0 {
        assert LinkedAt(events, i - 1);
      }
    }
  }

  lemma WholeRange(events: seq<Event>, s: int, e: int)
    requires Chained(events) && 1 <= s <= e <= |events|
    ensures var inside := Within(events, s, e);
      |inside| == e - s + 1 && inside[|inside| - 1] == events[e - 1] && !events[e - 1].hash.Malformed?
  {
    WithinIsSlice(events, s, e);
    assert LinkedAt(events, e - 1);
  }

  /** The archive holds the checkpoint the range was signed with. */
  lemma WitnessAgrees(events: seq<Event>, archive: Witness, r: Range)
    requires Sound(events, archive) && MaximalRun(events, r)
    ensures r.sig.Signed? && (r.start, r.end) in archive
    ensures r.sig.root == RootHash(r.start, r.end, events[r.end - 1].hash, r.end - r.start + 1)
    ensures var cp := archive[(r.start, r.end)];
      cp.root == r.sig.root && cp.sig == r.sig && cp.cardinality == r.end - r.start + 1
  {
    GroupIsSignedRange(events, archive, r);
  }

  lemma SignedRangeChecks(events: seq<Event>, archive: Witness, r: Range)
    requires Sound(events, archive) && MaximalRun(events, r)
    ensures CheckRange(events, archive, r) == Good
  {
    WitnessAgrees(events, archive, r);
    WholeRange(events, r.start, r.end);
  }

  lemma SoundIsVerified(events: seq<Event>, archive: Witness)
    requires Sound(events, archive)
    ensures Verified(events, archive)
  {
    ChainedIsGood(events);
    GroupsAreMaximal(events);
    var ranges := Groups(events);
    forall k | 0 <= k < |ranges|
      ensures CheckRange(events, archive, ranges[k]) == Good
    {
      assert ranges[k] in ranges;
      SignedRangeChecks(events, archive, ranges[k]);
    }
  }

  // --------------------------------------------------------- one operation

  lemma AppendIsChained(events: seq<Event>, c: Content)
    requires Chained(events) && EventHash(c, TailHash(events)).Some?
    ensures Chained(Appended(events, c))
  {
    var events' := Appended(events, c);
    forall i | 0 <= i < |events'|
      ensures LinkedAt(events', i)
    {
      assert events'[..i] == events[..i];
      if i < |events| {
        assert LinkedAt(events, i);
      } else {
        assert events[..i] == events;
      }
    }
  }

  lemma AppendKeepsSound(events: seq<Event>, archive: Witness, c: Content)
    requires Sound(events, archive) && EventHash(c, TailHash(events)).Some?
    ensures Sound(Appended(events, c), archive)
  {
    var events' := Appended(events, c);
    AppendIsChained(events, c);
    assert forall k :: 0 <= k < |events| ==> events'[k] == events[k];
    forall i | 0 <= i < |events'|
      ensures SignedAsRange(events', archive, i)
    {
      if i < |events| {
        assert SignedAsRange(events, archive, i);
      }
    }
  }

  ghost predicate NoneSigned(events: seq<Event>, s: int, e: int) {
    forall k :: 0 <= k < |events| && s <= k + 1 <= e ==> events[k].rootSig.None?
  }

  ghost predicate AllSigned(events: seq<Event>, s: int, e: int) {
    forall k :: 0 <= k < |events| && s <= k + 1 <= e ==> events[k].rootSig.Some?
  }

  lemma RootShape(events: seq<Event>, s: int, e: int, root: RootHash)
    requires Chained(events) && Within(events, s, e) != []
    requires var inside := Within(events, s, e);
      RootOf(s, e, inside[|inside| - 1].hash, |inside|) == Some(root)
    ensures RootFits(events, root) && root.seqStart == s && root.seqEnd == e
    ensures root.cardinality == |Within(events, s, e)|
  {
    WithinIsSlice(events, s, e);
  }

  lemma PreparedShape(events: seq<Event>, seqStart: Option<int>, seqEnd: Option<int>)
    requires Chained(events) && Prepared(events, seqStart, seqEnd).Some?
    ensures var cp := Prepared(events, seqStart, seqEnd).value;
      && RootFits(events, cp.root)
      && cp == Checkpoint(cp.root.seqStart, cp.root.seqEnd, cp.root, Signed(cp.root), cp.root.cardinality)
      && (cp.seqStart, cp.seqEnd) == Target(events, seqStart, seqEnd)
  {
    var (s, e) := Target(events, seqStart, seqEnd);
    RootShape(events, s, e, Prepared(events, seqStart, seqEnd).value.root);
  }

  /**
   Whatever the ledger holds, a signature is made exactly when the range is
   there in full, starts at a positive number, and is a valid chain from its
   own first link: a broken range is never signed.
   */
  lemma SignsOnlyValidRanges(events: seq<Event>, seqStart: Option<int>, seqEnd: Option<int>)
    requires events != []
    ensures var (s, e) := Target(events, seqStart, seqEnd);
      var inside := Within(events, s, e);
      var start := if inside == [] then None else Some(inside[0].prev);
      Prepared(events, seqStart, seqEnd).Some? <==>
        && 1 <= s <= e && |inside| == e - s + 1
        && forall i :: 0 <= i < |inside| ==> Follows(inside, i, start)
  {
    var (s, e) := Target(events, seqStart, seqEnd);
    var inside := Within(events, s, e);
    if inside != [] {
      ValidExactlyWhen(inside, Some(inside[0].prev));
      FollowsExactly(inside, |inside| - 1, Some(inside[0].prev));
    }
  }

  /** Any stretch of an honest ledger is a valid chain from its own first link. */
  lemma StretchIsGood(events: seq<Event>, s: int, e: int)
    requires Chained(events) && 1 <= s <= e <= |events|
    ensures var inside := Within(events, s, e);
      inside != [] && GoodPrefix(inside, |inside|, Some(inside[0].prev))
  {
    WithinIsSlice(events, s, e);
    var inside := Within(events, s, e);
    forall i | 0 <= i < |inside|
      ensures CheckAt(inside, i, Some(inside[0].prev)) == Good
    {
      assert LinkedAt(events, s - 1 + i);
      if i > 0 {
        assert LinkedAt(events, s - 2 + i);
        assert inside[i - 1] == events[s - 2 + i];
      }
    }
  }

  /**
   A signature is made exactly when the range lies within the ledger, and it
   signs that range and the hash of its last event; there is no other reason
   to refuse.
   */
  lemma SignsExactlyWithin(events: seq<Event>, seqStart: Option<int>, seqEnd: Option<int>)
    requires Chained(events)
    ensures Prepared(events, seqStart, seqEnd).Some? <==>
      events != [] && var (s, e) := Target(events, seqStart, seqEnd); 1 <= s <= e <= |events|
    ensures Prepared(events, seqStart, seqEnd).Some? ==>
      var (s, e) := Target(events, seqStart, seqEnd);
      var root := RootHash(s, e, events[e - 1].hash, e - s + 1);
      && (seqStart.Some? ==> s == seqStart.value) && (seqEnd.Some? ==> e == seqEnd.value)
      && Prepared(events, seqStart, seqEnd).value == Checkpoint(s, e, root, Signed(root), e - s + 1)
  {
    if events != [] {
      var (s, e) := Target(events, seqStart, seqEnd);
      if 1 <= s <= e <= |events| {
        StretchIsGood(events, s, e);
        WholeRange(events, s, e);
      } else if Prepared(events, seqStart, seqEnd).Some? {
        PreparedShape(events, seqStart, seqEnd);
      }
    }
  }

  lemma AnnotatedShape(events: seq<Event>, s: int, e: int, sig: Signature)
    requires Chained(events)
    ensures Chained(Annotated(events, s, e, sig))
    ensures forall k :: 0 <= k < |events| ==>
      Annotated(events, s, e, sig)[k] ==
        if s <= k + 1 <= e && events[k].rootSig.None? then events[k].(rootSig := Some(sig)) else events[k]
  {
    var events' := Annotated(events, s, e, sig);
    forall k | 0 <= k < |events|
      ensures events'[k] ==
        if s <= k + 1 <= e && events[k].rootSig.None? then events[k].(rootSig := Some(sig)) else events[k]
    {
      assert LinkedAt(events, k);
    }
    forall k | 0 <= k < |events|
      ensures LinkedAt(events', k)
    {
      assert LinkedAt(events, k);
    }
  }

  /** The positions a signature over a range is written to: those in it that carry none. */
  function Newly(events: seq<Event>, s: int, e: int, sig: Signature): set<int> {
    set i | 0 <= i < |events| && AnnotateOne(events[i], s, e, sig) != events[i]
  }

  /** The count an annotation reports is the number of events it signed. */
  lemma {:induction false} UnsignedCountsSigned(events: seq<Event>, s: int, e: int, sig: Signature)
    ensures Unsigned(events, s, e) == |Newly(events, s, e, sig)|
  {
    if events != [] {
      var n := |events| - 1;
      UnsignedCountsSigned(events[..n], s, e, sig);
      assert Newly(events, s, e, sig)
        == Newly(events[..n], s, e, sig) + (if AnnotateOne(events[n], s, e, sig) != events[n] then {n} else {});
    }
  }

  lemma SignFreshKeepsSound(events: seq<Event>, archive: Witness, cp: Checkpoint)
    requires Sound(events, archive) && RootFits(events, cp.root)
    requires cp == Checkpoint(cp.root.seqStart, cp.root.seqEnd, cp.root, Signed(cp.root), cp.root.cardinality)
    requires NoneSigned(events, cp.seqStart, cp.seqEnd)
    ensures (cp.seqStart, cp.seqEnd) !in archive
    ensures Sound(Annotated(events, cp.seqStart, cp.seqEnd, cp.sig), Witnessed(archive, cp))
  {
    var events' := Annotated(events, cp.seqStart, cp.seqEnd, cp.sig);
    var archive' := Witnessed(archive, cp);
    AnnotatedShape(events, cp.seqStart, cp.seqEnd, cp.sig);
    assert events[cp.seqEnd - 1].rootSig.None?;
    assert archive' == archive[(cp.seqStart, cp.seqEnd) := cp];
    forall i | 0 <= i < |events'|
      ensures SignedAsRange(events', archive', i)
    {
      assert SignedAsRange(events, archive, i);
      if cp.seqStart <= i + 1 <= cp.seqEnd {
        assert events'[i].rootSig == Some(cp.sig);
      } else if events[i].rootSig.Some? {
        OldRangeSurvives(events, archive, cp, i);
      }
    }
  }

  lemma OldRangeSurvives(events: seq<Event>, archive: Witness, cp: Checkpoint, i: nat)
    requires Chained(events) && RootFits(events, cp.root)
    requires cp.seqStart == cp.root.seqStart && cp.seqEnd == cp.root.seqEnd
    requires NoneSigned(events, cp.seqStart, cp.seqEnd)
    requires i < |events| && events[i].rootSig.Some? && SignedAsRange(events, archive, i)
    ensures SignedAsRange(Annotated(events, cp.seqStart, cp.seqEnd, cp.sig), Witnessed(archive, cp), i)
  {
    var events' := Annotated(events, cp.seqStart, cp.seqEnd, cp.sig);
    AnnotatedShape(events, cp.seqStart, cp.seqEnd, cp.sig);
    var root := events[i].rootSig.value.root;
    forall k | root.seqStart <= k + 1 <= root.seqEnd
      ensures events'[k].rootSig == events'[i].rootSig
    {
      assert events[k].rootSig == events[i].rootSig;
    }
    assert events'[root.seqEnd - 1].hash == events[root.seqEnd - 1].hash;
  }

  lemma SignAgainKeepsSound(events: seq<Event>, archive: Witness, cp: Checkpoint)
    requires Sound(events, archive) && RootFits(events, cp.root)
    requires cp == Checkpoint(cp.root.seqStart, cp.root.seqEnd, cp.root, Signed(cp.root), cp.root.cardinality)
    requires AllSigned(events, cp.seqStart, cp.seqEnd)
    ensures Annotated(events, cp.seqStart, cp.seqEnd, cp.sig) == events
    ensures Sound(events, Witnessed(archive, cp))
  {
    var events' := Annotated(events, cp.seqStart, cp.seqEnd, cp.sig);
    AnnotatedShape(events, cp.seqStart, cp.seqEnd, cp.sig);
    assert events' == events;
    forall i | 0 <= i < |events|
      ensures SignedAsRange(events, Witnessed(archive, cp), i)
    {
      assert SignedAsRange(events, archive, i);
    }
  }

  /** A signature over part of a range is not the signature of the whole range. */
  lemma PartlySignedDiffers(events: seq<Event>, archive: Witness, cp: Checkpoint, unsigned: nat, signed: nat)
    requires Sound(events, archive) && cp.sig == Signed(cp.root)
    requires cp.seqStart == cp.root.seqStart && cp.seqEnd == cp.root.seqEnd
    requires unsigned < |events| && cp.seqStart <= unsigned + 1 <= cp.seqEnd && events[unsigned].rootSig.None?
    requires signed < |events| && events[signed].rootSig.Some?
    ensures events[signed].rootSig != Some(cp.sig)
  {
    assert SignedAsRange(events, archive, signed);
  }

  lemma WrongRangeFails(events: seq<Event>, archive: Witness, r: Range, root: RootHash)
    requires r.sig == Signed(root) && (r.start != root.seqStart || r.end != root.seqEnd)
    ensures CheckRange(events, archive, r) != Good
  {
  }

  lemma BadGroupFails(events: seq<Event>, archive: Witness, k: nat)
    requires k < |Groups(events)| && CheckRange(events, archive, Groups(events)[k]) != Good
    ensures !Verified(events, archive)
  {
  }

  /** Inside the range of its own signature, an event carries another one. */
  ghost predicate SplitAt(events: seq<Event>, i: nat, j: nat) {
    && i < |events| && j < |events|
    && events[i].rootSig.Some? && events[i].rootSig.value.Signed? && events[j].rootSig.Some?
    && events[j].rootSig != events[i].rootSig
    && events[i].rootSig.value.root.seqStart <= j + 1 <= events[i].rootSig.value.root.seqEnd
  }

  ghost predicate Split(events: seq<Event>) {
    Chained(events) && exists i: nat, j: nat :: SplitAt(events, i, j)
  }

  /** The groups of a split ledger cannot be the ranges that were signed. */
  lemma SplitFails(events: seq<Event>, archive: Witness)
    requires Split(events)
    ensures !Verified(events, archive)
  {
    var i: nat, j: nat :| SplitAt(events, i, j);
    var sig := events[i].rootSig.value;
    ScanCovers(events, i);
    GroupsAreMaximal(events);
    var groups := Groups(events);
    var k :| 0 <= k < |groups| && groups[k].sig == sig && groups[k].start <= i + 1 <= groups[k].end;
    assert groups[k] in groups;
    assert MaximalRun(events, groups[k]);
    assert groups[k].start != sig.root.seqStart || groups[k].end != sig.root.seqEnd;
    WrongRangeFails(events, archive, groups[k], sig.root);
    BadGroupFails(events, archive, k);
  }

  /** Signing over a partly signed range splits it. */
  lemma SignMixedSplits(events: seq<Event>, archive: Witness, cp: Checkpoint, unsigned: nat, signed: nat)
    requires Sound(events, archive) && RootFits(events, cp.root)
    requires cp == Checkpoint(cp.root.seqStart, cp.root.seqEnd, cp.root, Signed(cp.root), cp.root.cardinality)
    requires unsigned < |events| && cp.seqStart <= unsigned + 1 <= cp.seqEnd && events[unsigned].rootSig.None?
    requires signed < |events| && cp.seqStart <= signed + 1 <= cp.seqEnd && events[signed].rootSig.Some?
    ensures Split(Annotated(events, cp.seqStart, cp.seqEnd, cp.sig))
  {
    var events' := Annotated(events, cp.seqStart, cp.seqEnd, cp.sig);
    AnnotatedShape(events, cp.seqStart, cp.seqEnd, cp.sig);
    PartlySignedDiffers(events, archive, cp, unsigned, signed);
    assert SplitAt(events', unsigned, signed);
  }

  /**
   A signature keeps the ledger verifiable exactly when its range was entirely
   unsigned, or entirely signed already.
   */
  lemma SignKeepsVerified(events: seq<Event>, archive: Witness, seqStart: Option<int>, seqEnd: Option<int>)
    requires Sound(events, archive) && Prepared(events, seqStart, seqEnd).Some?
    ensures var cp := Prepared(events, seqStart, seqEnd).value;
      Verified(Annotated(events, cp.seqStart, cp.seqEnd, cp.sig), Witnessed(archive, cp))
      <==> NoneSigned(events, cp.seqStart, cp.seqEnd) || AllSigned(events, cp.seqStart, cp.seqEnd)
  {
    var cp := Prepared(events, seqStart, seqEnd).value;
    PreparedShape(events, seqStart, seqEnd);
    if NoneSigned(events, cp.seqStart, cp.seqEnd) {
      SignFreshKeepsSound(events, archive, cp);
      SoundIsVerified(Annotated(events, cp.seqStart, cp.seqEnd, cp.sig), Witnessed(archive, cp));
    } else if AllSigned(events, cp.seqStart, cp.seqEnd) {
      SignAgainKeepsSound(events, archive, cp);
      SoundIsVerified(events, Witnessed(archive, cp));
    } else {
      var u :| 0 <= u < |events| && cp.seqStart <= u + 1 <= cp.seqEnd && events[u].rootSig.None?;
      var g :| 0 <= g < |events| && cp.seqStart <= g + 1 <= cp.seqEnd && events[g].rootSig.Some?;
      SignMixedSplits(events, archive, cp, u, g);
      SplitFails(Annotated(events, cp.seqStart, cp.seqEnd, cp.sig), Witnessed(archive, cp));
    }
  }

  // ------------------------------------------------------------ whole runs

  datatype Op = Append(c: Content) | Sign(seqStart: Option<int>, seqEnd: Option<int>)

  datatype State = State(events: seq<Event>, archive: Witness)

  /** What `append` and `sign_root` do to the repository and the witness. */
  function Apply(s: State, op: Op): State {
    match op
    case Append(c) =>
      if EventHash(c, TailHash(s.events)).Some? then s.(events := Appended(s.events, c)) else s
    case Sign(seqStart, seqEnd) =>
      match Prepared(s.events, seqStart, seqEnd)
      case None => s
      case Some(cp) =>
        State(Annotated(s.events, cp.seqStart, cp.seqEnd, cp.sig), Witnessed(s.archive, cp))
  }

  function Run(s: State, ops: seq<Op>): State
    decreases |ops|
  {
    if ops == [] then s else Run(Apply(s, ops[0]), ops[1..])
  }

  /** The step signs a range that is unsigned throughout or signed throughout, if it signs. */
  ghost predicate CleanStep(s: State, op: Op) {
    op.Sign? ==>
      match Prepared(s.events, op.seqStart, op.seqEnd)
      case None => true
      case Some(cp) =>
        NoneSigned(s.events, cp.seqStart, cp.seqEnd) || AllSigned(s.events, cp.seqStart, cp.seqEnd)
  }

  /** Every signature of the run is over a range that is unsigned, or signed, throughout. */
  ghost predicate CleanRun(s: State, ops: seq<Op>)
    decreases |ops|
  {
    ops == [] || (CleanStep(s, ops[0]) && CleanRun(Apply(s, ops[0]), ops[1..]))
  }

  lemma ApplyKeepsSound(s: State, op: Op)
    requires Sound(s.events, s.archive) && CleanStep(s, op)
    ensures Sound(Apply(s, op).events, Apply(s, op).archive)
  {
    match op
    case Append(c) =>
      if EventHash(c, TailHash(s.events)).Some? {
        AppendKeepsSound(s.events, s.archive, c);
      }
    case Sign(seqStart, seqEnd) =>
      match Prepared(s.events, seqStart, seqEnd)
      case None =>
      case Some(cp) =>
        PreparedShape(s.events, seqStart, seqEnd);
        if NoneSigned(s.events, cp.seqStart, cp.seqEnd) {
          SignFreshKeepsSound(s.events, s.archive, cp);
        } else {
          SignAgainKeepsSound(s.events, s.archive, cp);
        }
  }

  lemma {:induction false} CleanRunsStaySound(s: State, ops: seq<Op>)
    requires Sound(s.events, s.archive) && CleanRun(s, ops)
    ensures Sound(Run(s, ops).events, Run(s, ops).archive)
    decreases |ops|
  {
    if ops != [] {
      ApplyKeepsSound(s, ops[0]);
      CleanRunsStaySound(Apply(s, ops[0]), ops[1..]);
    }
  }

  /** After any clean run the whole ledger verifies. */
  lemma CleanRunsVerify(ops: seq<Op>)
    requires CleanRun(State([], map[]), ops)
    ensures Verified(Run(State([], map[]), ops).events, Run(State([], map[]), ops).archive)
  {
    CleanRunsStaySound(State([], map[]), ops);
    SoundIsVerified(Run(State([], map[]), ops).events, Run(State([], map[]), ops).archive);
  }

  /** No operation takes a signature away, so a split stays. */
  lemma ApplyKeepsSplit(s: State, op: Op)
    requires Split(s.events)
    ensures Split(Apply(s, op).events)
  {
    var i: nat, j: nat :| SplitAt(s.events, i, j);
    match op
    case Append(c) =>
      if EventHash(c, TailHash(s.events)).Some? {
        AppendIsChained(s.events, c);
        assert SplitAt(Apply(s, op).events, i, j);
      }
    case Sign(seqStart, seqEnd) =>
      match Prepared(s.events, seqStart, seqEnd)
      case None =>
      case Some(cp) =>
        AnnotatedShape(s.events, cp.seqStart, cp.seqEnd, cp.sig);
        assert SplitAt(Apply(s, op).events, i, j);
  }

  lemma {:induction false} RunKeepsSplit(s: State, ops: seq<Op>)
    requires Split(s.events)
    ensures Split(Run(s, ops).events)
    decreases |ops|
  {
    if ops != [] {
      ApplyKeepsSplit(s, ops[0]);
      RunKeepsSplit(Apply(s, ops[0]), ops[1..]);
    }
  }

  lemma UncleanStepSplits(s: State, op: Op)
    requires Sound(s.events, s.archive) && !CleanStep(s, op)
    ensures Split(Apply(s, op).events)
  {
    var cp := Prepared(s.events, op.seqStart, op.seqEnd).value;
    PreparedShape(s.events, op.seqStart, op.seqEnd);
    var u :| 0 <= u < |s.events| && cp.seqStart <= u + 1 <= cp.seqEnd && s.events[u].rootSig.None?;
    var g :| 0 <= g < |s.events| && cp.seqStart <= g + 1 <= cp.seqEnd && s.events[g].rootSig.Some?;
    SignMixedSplits(s.events, s.archive, cp, u, g);
  }

  /**
   Over whole runs of appends and signatures over any ranges: the ledger
   verifies at the end if and only if every signature on the way was over a
   range that was unsigned throughout or signed throughout.  One over a partly
   signed range is never made good.
   */
  lemma {:induction false} RunVerifiesExactlyWhenClean(s: State, ops: seq<Op>)
    requires Sound(s.events, s.archive)
    ensures Verified(Run(s, ops).events, Run(s, ops).archive) <==> CleanRun(s, ops)
    decreases |ops|
  {
    if ops == [] {
      SoundIsVerified(s.events, s.archive);
    } else if CleanStep(s, ops[0]) {
      ApplyKeepsSound(s, ops[0]);
      RunVerifiesExactlyWhenClean(Apply(s, ops[0]), ops[1..]);
    } else {
      UncleanStepSplits(s, ops[0]);
      RunKeepsSplit(Apply(s, ops[0]), ops[1..]);
      SplitFails(Run(s, ops).events, Run(s, ops).archive);
    }
  }

  // ------------------------------------------------- default ranges are clean

  lemma {:induction false} LastSignedIsLast(events: seq<Event>)
    requires Chained(events)
    ensures match LastSigned(events)
      case None => forall k :: 0 <= k < |events| ==> events[k].rootSig.None?
      case Some(m) =>
        && 1 <= m <= |events| && events[m - 1].rootSig.Some?
        && forall k :: m <= k < |events| ==> events[k].rootSig.None?
  {
    if events != [] {
      PrefixIsChained(events, |events| - 1);
      assert LinkedAt(events, |events| - 1);
      LastSignedIsLast(events[..|events| - 1]);
    }
  }

  ghost predicate DefaultSigns(ops: seq<Op>) {
    forall k :: 0 <= k < |ops| && ops[k].Sign? ==> ops[k] == Sign(None, None)
  }

  /** The signed events are a prefix of the ledger. */
  ghost predicate SignedPrefix(events: seq<Event>) {
    forall i, j :: 0 <= i < j < |events| && events[j].rootSig.Some? ==> events[i].rootSig.Some?
  }

  /** The default range is the unsigned tail, all of it and nothing else. */
  lemma DefaultSignsTheTail(events: seq<Event>)
    requires Chained(events) && events != []
    ensures var (s, e) := Target(events, None, None);
      && e == |events| && 1 <= s <= e + 1
      && NoneSigned(events, s, e)
      && (s > 1 ==> events[s - 2].rootSig.Some?)
      && (SignedPrefix(events) ==> forall k :: 0 <= k < |events| && k + 1 < s ==> events[k].rootSig.Some?)
  {
    LastSignedIsLast(events);
    assert LinkedAt(events, 0) && LinkedAt(events, |events| - 1);
  }

  lemma ApplyKeepsPrefix(s: State, op: Op)
    requires Chained(s.events) && SignedPrefix(s.events)
    requires op.Sign? ==> op == Sign(None, None)
    ensures SignedPrefix(Apply(s, op).events)
  {
    if op.Sign? && Prepared(s.events, None, None).Some? {
      var cp := Prepared(s.events, None, None).value;
      PreparedShape(s.events, None, None);
      DefaultSignsTheTail(s.events);
      AnnotatedShape(s.events, cp.seqStart, cp.seqEnd, cp.sig);
    }
  }

  lemma {:induction false} DefaultRunsAreClean(s: State, ops: seq<Op>)
    requires Sound(s.events, s.archive) && SignedPrefix(s.events) && DefaultSigns(ops)
    ensures CleanRun(s, ops) && SignedPrefix(Run(s, ops).events)
    decreases |ops|
  {
    if ops != [] {
      var op := ops[0];
      if op.Sign? {
        assert op == Sign(None, None);
        if Prepared(s.events, None, None).Some? {
          PreparedShape(s.events, None, None);
          DefaultSignsTheTail(s.events);
        }
      }
      ApplyKeepsSound(s, op);
      ApplyKeepsPrefix(s, op);
      DefaultRunsAreClean(Apply(s, op), ops[1..]);
    }
  }

  /**
   Sign/verify agreement: after any appends and default-range signatures, in
   any order, the ledger verifies, and the signed ranges partition a prefix of it.
   */
  lemma DefaultRunsVerify(ops: seq<Op>)
    requires DefaultSigns(ops)
    ensures var s := Run(State([], map[]), ops);
      && Verified(s.events, s.archive)
      && SignedPrefix(s.events)
      && (forall r :: r in Groups(s.events) ==>
            MaximalRun(s.events, r) && r.sig.Signed?
            && r.start == r.sig.root.seqStart && r.end == r.sig.root.seqEnd)
      && (forall i :: 0 <= i < |s.events| && s.events[i].rootSig.Some? ==>
            InSome(Groups(s.events), i, s.events[i].rootSig.value))
  {
    var s0 := State([], map[]);
    DefaultRunsAreClean(s0, ops);
    CleanRunsVerify(ops);
    CleanRunsStaySound(s0, ops);
    var s := Run(s0, ops);
    GroupsAreMaximal(s.events);
    forall r | r in Groups(s.events)
      ensures r.sig.Signed? && r.start == r.sig.root.seqStart && r.end == r.sig.root.seqEnd
    {
      GroupIsSignedRange(s.events, s.archive, r);
    }
    forall i | 0 <= i < |s.events| && s.events[i].rootSig.Some?
      ensures InSome(Groups(s.events), i, s.events[i].rootSig.value)
    {
      ScanCovers(s.events, i);
    }
  }

  lemma {:induction false} RunMore(s: State, ops: seq<Op>, op: Op)
    ensures Run(s, ops + [op]) == Apply(Run(s, ops), op)
    decreases |ops|
  {
    if ops == [] {
      assert [] + [op] == [op] && [op][1..] == [];
    } else {
      assert (ops + [op])[1..] == ops[1..] + [op];
      RunMore(Apply(s, ops[0]), ops[1..], op);
    }
  }

  /** One default-range signature is made exactly when something is unsigned, and leaves nothing unsigned. */
  lemma DefaultSignCompletes(s: State)
    requires Chained(s.events) && SignedPrefix(s.events)
    ensures var s' := Apply(s, Sign(None, None));
      && AllSigned(s'.events, 1, |s'.events|)
      && Contents(s'.events) == Contents(s.events)
      && (Prepared(s.events, None, None).Some? <==> !AllSigned(s.events, 1, |s.events|))
  {
    if s.events != [] {
      SignsExactlyWithin(s.events, None, None);
      DefaultSignsTheTail(s.events);
      if Prepared(s.events, None, None).Some? {
        var cp := Prepared(s.events, None, None).value;
        AnnotatedShape(s.events, cp.seqStart, cp.seqEnd, cp.sig);
        assert s.events[|s.events| - 1].rootSig.None?;
      }
    }
  }

  /**
   Signing by default ranges leaves nothing out: after any appends and
   default-range signatures, one more signature and every event there is is
   signed, and the ledger verifies.
   */
  lemma DefaultRunsSignEverything(ops: seq<Op>)
    requires DefaultSigns(ops)
    ensures var before := Run(State([], map[]), ops);
      var s := Run(State([], map[]), ops + [Sign(None, None)]);
      && Contents(s.events) == Contents(before.events)
      && AllSigned(s.events, 1, |s.events|)
      && Verified(s.events, s.archive)
  {
    var s0 := State([], map[]);
    DefaultRunsAreClean(s0, ops);
    CleanRunsStaySound(s0, ops);
    RunMore(s0, ops, Sign(None, None));
    DefaultSignCompletes(Run(s0, ops));
    DefaultRunsVerify(ops + [Sign(None, None)]);
  }
}
