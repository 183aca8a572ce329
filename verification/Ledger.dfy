/**
 The evidence ledger of the API lane (src/api/audit): hash-chained events in an
 in-memory repository, signed root checkpoints, an external witness, and the
 verification that ties the three together.
 */
module Ledger {
  import opened Wrappers
  import opened HashChain

  /** The hashed part of an event; `seq` and `root_sig` are not in it. */
  datatype Content = Content(mandate: string, kind: string, payload: string, createdAt: int)

  type Hash = Digest<Content>

  datatype RootHash = RootHash(seqStart: int, seqEnd: int, lastHash: Hash, cardinality: int)

  /** An ideal signature: `Signed(r)` is the one text that verifies against `r`. */
  datatype Signature = Signed(root: RootHash) | Forged(id: nat)

  datatype Event = Event(seqNo: Option<int>, content: Content, prev: Hash, hash: Hash, rootSig: Option<Signature>)

  datatype Checkpoint = Checkpoint(seqStart: int, seqEnd: int, root: RootHash, sig: Signature, cardinality: int)

  type Witness = map<(int, int), Checkpoint>

  datatype Fault = SequenceGap | PrevMismatch | HashMismatch | BadSignature | NoWitness | WitnessDiverges

  /** `Error` is an exception that escapes, such as the ValueError of a hash over malformed input. */
  datatype ChainResult =
    | Ok(verified: nat, lastHash: Option<Hash>)
    | Bad(firstBad: int, why: Fault, count: nat)
    | Error

  // -------------------------------------------------------------- hashing

  predicate Hashable(c: Content, prev: Hash) {
    c.mandate != "" && c.kind != "" && !prev.Malformed?
  }

  /** None where `compute_event_hash` raises. */
  function EventHash(c: Content, prev: Hash): Option<Hash> {
    if Hashable(c, prev) then Some(Sealed(prev, c)) else None
  }

  /** None where `compute_root_hash` raises. */
  function RootOf(seqStart: int, seqEnd: int, lastHash: Hash, cardinality: int): Option<RootHash> {
    if 1 <= seqStart <= seqEnd && cardinality == seqEnd - seqStart + 1 && !lastHash.Malformed?
    then Some(RootHash(seqStart, seqEnd, lastHash, cardinality))
    else None
  }

  // ---------------------------------------------------- validating a chain

  datatype Check = Good | Faulty(why: Fault) | Raises

  function ValidateEvent(e: Event, expectedPrev: Hash): Check {
    if e.prev != expectedPrev then Faulty(PrevMismatch)
    else
      match EventHash(e.content, e.prev)
      case None => Raises
      case Some(h) => if e.hash == h then Good else Faulty(HashMismatch)
  }

  function ExpectedPrev(events: seq<Event>, i: nat, start: Option<Hash>): Hash
    requires i < |events|
  {
    if i > 0 then events[i - 1].hash
    else if start.Some? then start.value
    else if events[0].seqNo == Some(1) then Genesis
    else events[0].prev
  }

  predicate Gap(events: seq<Event>, i: nat)
    requires i < |events|
  {
    i > 0 && events[i - 1].seqNo.Some? && events[i].seqNo.Some?
    && events[i].seqNo.value != events[i - 1].seqNo.value + 1
  }

  function CheckAt(events: seq<Event>, i: nat, start: Option<Hash>): Check
    requires i < |events|
  {
    if Gap(events, i) then Faulty(SequenceGap)
    else ValidateEvent(events[i], ExpectedPrev(events, i, start))
  }

  predicate GoodPrefix(events: seq<Event>, n: nat, start: Option<Hash>)
    requires n <= |events|
  {
    forall i :: 0 <= i < n ==> CheckAt(events, i, start) == Good
  }

  function LastHash(events: seq<Event>): Option<Hash> {
    if events == [] then None else Some(events[|events| - 1].hash)
  }

  function SeqOf(e: Event, i: nat): int {
    if e.seqNo.Some? then e.seqNo.value else i + 1
  }

  /** Ok for a chain that is good throughout; otherwise the least bad index and the longest good prefix. */
  method ValidateChain(events: seq<Event>, start: Option<Hash>) returns (r: ChainResult)
    ensures r.Ok? <==> GoodPrefix(events, |events|, start)
    ensures r.Ok? ==> r == Ok(|events|, LastHash(events))
    ensures r.Bad? ==>
      && r.count < |events| && GoodPrefix(events, r.count, start)
      && CheckAt(events, r.count, start) == Faulty(r.why)
      && r.firstBad == match events[r.count].seqNo case Some(n) => n case None => r.count + 1
    ensures r.Error? ==>
      exists i :: 0 <= i < |events| && GoodPrefix(events, i, start) && CheckAt(events, i, start) == Raises
  {
    if |events| == 0 {
      return Ok(0, None);
    }
    for i := 0 to |events|
      invariant GoodPrefix(events, i, start)
    {
      var event := events[i];
      if i > 0 && events[i - 1].seqNo.Some? && event.seqNo.Some? {
        if event.seqNo.value != events[i - 1].seqNo.value + 1 {
          assert CheckAt(events, i, start) == Faulty(SequenceGap);
          return Bad(event.seqNo.value, SequenceGap, i);
        }
      }
      var expected := ExpectedPrev(events, i, start);
      var check := ValidateEvent(event, expected);
      assert CheckAt(events, i, start) == check;
      match check {
        case Faulty(why) => return Bad(SeqOf(event, i), why, i);
        case Raises => return Error;
        case Good =>
      }
    }
    return Ok(|events|, LastHash(events));
  }

  // --------------------------------------------- grouping by root signature

  datatype Range = Range(start: int, end: int, sig: Signature)

  /** The run of equal signatures the grouping loop is in. */
  datatype Cursor = Cursor(sig: Option<Signature>, start: Option<int>, last: Option<int>)

  function Flush(ranges: seq<Range>, c: Cursor): seq<Range> {
    if c.sig.Some? && c.start.Some? && c.last.Some?
    then ranges + [Range(c.start.value, c.last.value, c.sig.value)]
    else ranges
  }

  function Scan(events: seq<Event>): (seq<Range>, Cursor) {
    if events == [] then ([], Cursor(None, None, None))
    else
      var e := events[|events| - 1];
      var (ranges, c) := Scan(events[..|events| - 1]);
      if e.seqNo.None? then (ranges, c)
      else if e.rootSig != c.sig then (Flush(ranges, c), Cursor(e.rootSig, e.seqNo, e.seqNo))
      else (ranges, c.(last := e.seqNo))
  }

  function Groups(events: seq<Event>): seq<Range> {
    var (ranges, c) := Scan(events);
    Flush(ranges, c)
  }

  function Within(events: seq<Event>, start: int, end: int): seq<Event> {
    if events == [] then []
    else
      var e := events[|events| - 1];
      Within(events[..|events| - 1], start, end)
      + (if e.seqNo.Some? && start <= e.seqNo.value <= end then [e] else [])
  }

  /** What is checked for one signed range: its root, the signature over it, the witness. */
  function CheckRange(events: seq<Event>, archive: Witness, r: Range): Check {
    var inside := Within(events, r.start, r.end);
    if inside == [] then Raises
    else
      match RootOf(r.start, r.end, inside[|inside| - 1].hash, |inside|)
      case None => Raises
      case Some(root) =>
        if r.sig != Signed(root) then Faulty(BadSignature)
        else if (r.start, r.end) !in archive then Faulty(NoWitness)
        else
          var cp := archive[(r.start, r.end)];
          if cp.root != root || cp.sig != r.sig || cp.cardinality != |inside| then Faulty(WitnessDiverges)
          else Good
  }

  predicate RangesGood(events: seq<Event>, archive: Witness, ranges: seq<Range>) {
    forall k :: 0 <= k < |ranges| ==> CheckRange(events, archive, ranges[k]) == Good
  }

  predicate Verified(events: seq<Event>, archive: Witness) {
    GoodPrefix(events, |events|, None) && RangesGood(events, archive, Groups(events))
  }

  /** The answer names the first signed range that does not check. */
  ghost predicate BlamesRange(events: seq<Event>, archive: Witness, r: ChainResult) {
    var ranges := Groups(events);
    exists k :: 0 <= k < |ranges| && RangesGood(events, archive, ranges[..k])
      && match CheckRange(events, archive, ranges[k])
         case Good => false
         case Raises => r == Error
         case Faulty(why) => r == Bad(ranges[k].start, why, |events|)
  }

  // --------------------------------------------------------- the components

  class LedgerRepository {
    var events: seq<Event>

    constructor ()
      ensures events == []
    {
      events := [];
    }

    /** AuditEvent refuses empty names; nothing is stored then. */
    method Append(c: Content) returns (stored: bool)
      modifies this
      ensures stored <==> EventHash(c, TailHash(old(events))).Some?
      ensures events == if stored then Appended(old(events), c) else old(events)
    {
      var seqNo := |events| + 1;
      var prev := if |events| > 0 then events[|events| - 1].hash else Genesis;
      var hash := EventHash(c, prev);
      if hash.None? {
        return false;
      }
      events := events + [Event(Some(seqNo), c, prev, hash.value, None)];
      return true;
    }

    method GetRange(seqStart: int, seqEnd: int) returns (r: seq<Event>)
      ensures r == Within(events, seqStart, seqEnd)
    {
      r := [];
      for i := 0 to |events|
        invariant r == Within(events[..i], seqStart, seqEnd)
      {
        var e := events[i];
        assert events[..i + 1][..i] == events[..i];
        if e.seqNo.Some? && seqStart <= e.seqNo.value <= seqEnd {
          r := r + [e];
        }
      }
      assert events[..|events|] == events;
    }

    method AnnotateRoot(seqStart: int, seqEnd: int, sig: Signature) returns (updated: nat)
      modifies this
      ensures events == Annotated(old(events), seqStart, seqEnd, sig)
      ensures updated == Unsigned(old(events), seqStart, seqEnd)
    {
      updated := 0;
      var newEvents: seq<Event> := [];
      for i := 0 to |events|
        invariant |newEvents| == i
        invariant forall k :: 0 <= k < i ==> newEvents[k] == AnnotateOne(events[k], seqStart, seqEnd, sig)
        invariant updated == Unsigned(events[..i], seqStart, seqEnd)
      {
        var e := events[i];
        assert events[..i + 1][..i] == events[..i];
        if e.seqNo.Some? && seqStart <= e.seqNo.value <= seqEnd && e.rootSig.None? {
          newEvents := newEvents + [e.(rootSig := Some(sig))];
          updated := updated + 1;
        } else {
          newEvents := newEvents + [e];
        }
      }
      assert events[..|events|] == events;
      events := newEvents;
    }
  }

  /** How many events of a range carry no signature yet. */
  function Unsigned(events: seq<Event>, seqStart: int, seqEnd: int): nat {
    if events == [] then 0
    else
      var e := events[|events| - 1];
      Unsigned(events[..|events| - 1], seqStart, seqEnd)
      + (if e.seqNo.Some? && seqStart <= e.seqNo.value <= seqEnd && e.rootSig.None? then 1 else 0)
  }

  function TailHash(events: seq<Event>): Hash {
    if events == [] then Genesis else events[|events| - 1].hash
  }

  function Appended(events: seq<Event>, c: Content): seq<Event> {
    events + [Event(Some(|events| + 1), c, TailHash(events), Sealed(TailHash(events), c), None)]
  }

  function AnnotateOne(e: Event, seqStart: int, seqEnd: int, sig: Signature): Event {
    if e.seqNo.Some? && seqStart <= e.seqNo.value <= seqEnd && e.rootSig.None?
    then e.(rootSig := Some(sig)) else e
  }

  function Annotated(events: seq<Event>, seqStart: int, seqEnd: int, sig: Signature): seq<Event> {
    seq(|events|, i requires 0 <= i < |events| => AnnotateOne(events[i], seqStart, seqEnd, sig))
  }

  class MemoryWitness {
    var checkpoints: Witness

    constructor ()
      ensures checkpoints == map[]
    {
      checkpoints := map[];
    }

    /** Write-once; a second checkpoint for the same range is refused. */
    method Put(cp: Checkpoint) returns (stored: bool)
      modifies this
      ensures stored <==> (cp.seqStart, cp.seqEnd) !in old(checkpoints)
      ensures checkpoints ==
        if stored then old(checkpoints)[(cp.seqStart, cp.seqEnd) := cp] else old(checkpoints)
    {
      if (cp.seqStart, cp.seqEnd) in checkpoints {
        return false;
      }
      checkpoints := checkpoints[(cp.seqStart, cp.seqEnd) := cp];
      return true;
    }
  }

  /** One past the largest signed sequence number, or the first one of the ledger. */
  function DefaultStart(events: seq<Event>): int
    requires events != []
  {
    var m := LastSigned(events);
    if m.Some? then m.value + 1
    else if events[0].seqNo.Some? && events[0].seqNo.value != 0 then events[0].seqNo.value else 1
  }

  function LastSigned(events: seq<Event>): Option<int> {
    if events == [] then None
    else
      var e := events[|events| - 1];
      var before := LastSigned(events[..|events| - 1]);
      if e.seqNo.Some? && e.rootSig.Some? then
        Some(if before.Some? then Max(before.value, e.seqNo.value) else e.seqNo.value)
      else before
  }

  function DefaultEnd(events: seq<Event>): int
    requires events != []
  {
    var e := events[|events| - 1];
    if e.seqNo.Some? && e.seqNo.value != 0 then e.seqNo.value else |events|
  }

  /** The range `sign_root` works on. */
  function Target(events: seq<Event>, seqStart: Option<int>, seqEnd: Option<int>): (int, int)
    requires events != []
  {
    (if seqStart.Some? then seqStart.value else DefaultStart(events),
     if seqEnd.Some? then seqEnd.value else DefaultEnd(events))
  }

  /** The checkpoint `sign_root` makes, or None where it raises before writing anything. */
  function Prepared(events: seq<Event>, seqStart: Option<int>, seqEnd: Option<int>): Option<Checkpoint> {
    if events == [] then None
    else
      var (s, e) := Target(events, seqStart, seqEnd);
      var inside := Within(events, s, e);
      if s > e || inside == [] then None
      else if !GoodPrefix(inside, |inside|, Some(inside[0].prev)) then None
      else
        match RootOf(s, e, inside[|inside| - 1].hash, |inside|)
        case None => None
        case Some(root) => Some(Checkpoint(s, e, root, Signed(root), |inside|))
  }

  class LedgerService {
    const repo: LedgerRepository
    const archive: MemoryWitness

    constructor (repo: LedgerRepository, archive: MemoryWitness)
      ensures this.repo == repo && this.archive == archive
    {
      this.repo, this.archive := repo, archive;
    }

    method LastAnnotated(events: seq<Event>) returns (m: Option<int>)
      ensures m == LastSigned(events)
    {
      m := None;
      for i := 0 to |events|
        invariant m == LastSigned(events[..i])
      {
        assert events[..i + 1][..i] == events[..i];
        if events[i].seqNo.Some? && events[i].rootSig.Some? {
          m := Some(if m.Some? then Max(m.value, events[i].seqNo.value) else events[i].seqNo.value);
        }
      }
      assert events[..|events|] == events;
    }

    /** The repository is annotated first; a witness that already has the range then raises. */
    method SignRoot(seqStart: Option<int>, seqEnd: Option<int>) returns (signed: Option<Checkpoint>)
      modifies repo, archive
      ensures var cp := Prepared(old(repo.events), seqStart, seqEnd);
        if cp.None? then
          repo.events == old(repo.events) && archive.checkpoints == old(archive.checkpoints) && signed == None
        else
          && repo.events == Annotated(old(repo.events), cp.value.seqStart, cp.value.seqEnd, cp.value.sig)
          && archive.checkpoints == Witnessed(old(archive.checkpoints), cp.value)
          && signed == if (cp.value.seqStart, cp.value.seqEnd) in old(archive.checkpoints) then None else cp
    {
      var events := repo.events;
      if |events| == 0 {
        return None;
      }
      var s, e;
      if seqStart.Some? {
        s := seqStart.value;
      } else {
        var m := LastAnnotated(events);
        s := if m.Some? then m.value + 1
             else if events[0].seqNo.Some? && events[0].seqNo.value != 0 then events[0].seqNo.value else 1;
      }
      e := if seqEnd.Some? then seqEnd.value else DefaultEnd(events);
      assert (s, e) == Target(events, seqStart, seqEnd);
      if s > e {
        return None;
      }
      var inside := repo.GetRange(s, e);
      if |inside| == 0 {
        return None;
      }
      var valid := ValidateChain(inside, Some(inside[0].prev));
      if !valid.Ok? {
        return None;
      }
      var root := RootOf(s, e, inside[|inside| - 1].hash, |inside|);
      if root.None? {
        return None;
      }
      var cp := Checkpoint(s, e, root.value, Signed(root.value), |inside|);
      var _ := repo.AnnotateRoot(s, e, cp.sig);
      var stored := archive.Put(cp);
      return if stored then Some(cp) else None;
    }

    /** The grouping loop: contiguous events with the same signature. */
    method CollectRanges(events: seq<Event>) returns (ranges: seq<Range>)
      ensures ranges == Groups(events)
    {
      ranges := [];
      var cur := Cursor(None, None, None);
      for i := 0 to |events|
        invariant (ranges, cur) == Scan(events[..i])
      {
        var e := events[i];
        assert events[..i + 1][..i] == events[..i];
        if e.seqNo.None? {
          continue;
        }
        if e.rootSig != cur.sig {
          ranges := Flush(ranges, cur);
          cur := Cursor(e.rootSig, e.seqNo, cur.last);
        }
        cur := cur.(last := e.seqNo);
      }
      assert events[..|events|] == events;
      ranges := Flush(ranges, cur);
    }

    method VerifyRange(events: seq<Event>, range: Range) returns (check: Check)
      requires events == repo.events
      ensures check == CheckRange(events, archive.checkpoints, range)
    {
      var inside := repo.GetRange(range.start, range.end);
      if |inside| == 0 {
        return Raises;
      }
      var root := RootOf(range.start, range.end, inside[|inside| - 1].hash, |inside|);
      if root.None? {
        return Raises;
      }
      if range.sig != Signed(root.value) {
        return Faulty(BadSignature);
      }
      if (range.start, range.end) !in archive.checkpoints {
        return Faulty(NoWitness);
      }
      var cp := archive.checkpoints[(range.start, range.end)];
      if cp.root != root.value || cp.sig != range.sig || cp.cardinality != |inside| {
        return Faulty(WitnessDiverges);
      }
      return Good;
    }

    /** The whole ledger: chain first, then every signed range against its witness. */
    method VerifyChain() returns (r: ChainResult)
      ensures r.Ok? <==> Verified(repo.events, archive.checkpoints)
      ensures r.Ok? ==> r == Ok(|repo.events|, LastHash(repo.events))
      ensures !r.Ok? && GoodPrefix(repo.events, |repo.events|, None) ==>
        BlamesRange(repo.events, archive.checkpoints, r)
      ensures r.Bad? && !GoodPrefix(repo.events, |repo.events|, None) ==>
        r.count < |repo.events| && GoodPrefix(repo.events, r.count, None)
        && r.firstBad == SeqOf(repo.events[r.count], r.count)
    {
      var events := repo.events;
      if |events| == 0 {
        assert Groups(events) == [];
        return Ok(0, None);
      }
      var chain := ValidateChain(events, None);
      if !chain.Ok? {
        return chain;
      }
      var ranges := CollectRanges(events);
      for k := 0 to |ranges|
        invariant RangesGood(events, archive.checkpoints, ranges[..k])
      {
        var check := VerifyRange(events, ranges[k]);
        match check {
          case Raises => return Error;
          case Faulty(why) => return Bad(ranges[k].start, why, |events|);
          case Good =>
        }
        assert ranges[..k + 1] == ranges[..k] + [ranges[k]];
      }
      assert ranges[..|ranges|] == ranges;
      return Ok(|events|, LastHash(events));
    }
  }

  function Witnessed(w: Witness, cp: Checkpoint): Witness {
    if (cp.seqStart, cp.seqEnd) in w then w else w[(cp.seqStart, cp.seqEnd) := cp]
  }
}
