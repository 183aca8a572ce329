/**
 The partitioned evidence chain of the agent lane (src/agent/audit.py): one
 hash chain per mandate or agent, and one signed root over every chain head.
 */
module AgentAudit {
  import opened Wrappers
  import opened HashChain

  const SYSTEM_CHAIN := "system"

  /** The hashed row, its chain key included. */
  datatype Entry = Entry(chainKey: string, eventId: string, kind: string, actor: string,
                         mandate: string, agent: string, payload: string, createdAt: int)

  type Hash = Digest<Entry>

  datatype Stored = Stored(entry: Entry, prev: Hash, hash: Hash)

  datatype Head = Head(hash: Hash, length: nat)

  /** The root is the fingerprint of the sorted (key, head) pairs, that is, of this map. */
  type Root = map<string, Hash>

  datatype Checkpoint = Checkpoint(root: Root, chains: nat)

  /** Absent identifiers are empty strings, which the source tests by truthiness. */
  function ChainKeyFor(mandate: string, agent: string): string {
    if mandate != "" then mandate
    else if agent != "" then "agent:" + agent
    else SYSTEM_CHAIN
  }

  function Keyed(named: string, draft: Entry): Entry {
    draft.(chainKey := if named != "" then named else ChainKeyFor(draft.mandate, draft.agent))
  }

  type Chains = map<string, Head>
  type Events = map<string, seq<Stored>>

  datatype Database = Database(chains: Chains, events: Events)

  /** The rows of one chain, in `chain_seq` order. */
  function RowsOf(events: Events, key: string): seq<Stored> {
    if key in events then events[key] else []
  }

  function HeadHash(chains: Chains, key: string): Hash {
    if key in chains then chains[key].hash else Genesis
  }

  function NewHead(chains: Chains, e: Entry): Head {
    Head(Sealed(HeadHash(chains, e.chainKey), e),
         (if e.chainKey in chains then chains[e.chainKey].length else 0) + 1)
  }

  function NewRow(chains: Chains, e: Entry): Stored {
    var prev := HeadHash(chains, e.chainKey);
    Stored(e, prev, Sealed(prev, e))
  }

  function Append(db: Database, e: Entry): Database {
    Database(db.chains[e.chainKey := NewHead(db.chains, e)],
             db.events[e.chainKey := RowsOf(db.events, e.chainKey) + [NewRow(db.chains, e)]])
  }

  function Heads(chains: Chains): Root {
    map k | k in chains :: chains[k].hash
  }

  // --------------------------------------------------------- verification

  function PrevOf(rows: seq<Stored>, i: nat): Hash
    requires i <= |rows|
  {
    if i == 0 then Genesis else rows[i - 1].hash
  }

  predicate RowGood(rows: seq<Stored>, i: nat)
    requires i < |rows|
  {
    && rows[i].prev == PrevOf(rows, i)
    && rows[i].hash == Sealed(PrevOf(rows, i), rows[i].entry)
  }

  predicate GoodUpTo(rows: seq<Stored>, n: nat)
    requires n <= |rows|
  {
    forall i :: 0 <= i < n ==> RowGood(rows, i)
  }

  predicate Replays(db: Database, key: string) {
    var rows := RowsOf(db.events, key);
    && GoodUpTo(rows, |rows|)
    && (key in db.chains ==> db.chains[key].hash == PrevOf(rows, |rows|))
  }

  predicate AllReplay(db: Database) {
    forall key :: key in db.chains ==> Replays(db, key)
  }

  datatype Verdict = Valid(checked: nat, head: Hash) | Broken(at: nat) | HeadMismatch(checkedAll: nat)

  class EvidenceStore {
    var chains: Chains
    var events: Events
    var outbox: seq<string>
    var checkpoints: seq<Checkpoint>

    constructor ()
      ensures chains == map[] && events == map[] && outbox == [] && checkpoints == []
    {
      chains, events, outbox, checkpoints := map[], map[], [], [];
    }

    function Db(): Database
      reads this
    {
      Database(chains, events)
    }

    /**
     One transaction: lock the head, add the row, move the head, queue the event.
     The chain is the one that was named, else the mandate's, the agent's or the system's.
     */
    method AppendEvent(named: string, draft: Entry, relay: bool)
      modifies this
      ensures Db() == Append(old(Db()), Keyed(named, draft))
      ensures outbox == if relay then old(outbox) + [draft.eventId] else old(outbox)
      ensures checkpoints == old(checkpoints)
    {
      var e := Keyed(named, draft);
      if e.chainKey !in chains {
        chains := chains[e.chainKey := Head(Genesis, 0)];
      }
      var head := chains[e.chainKey];
      var digest := Sealed(head.hash, e);
      var row := Stored(e, head.hash, digest);
      events := events[e.chainKey := RowsOf(events, e.chainKey) + [row]];
      chains := chains[e.chainKey := Head(digest, head.length + 1)];
      if relay {
        outbox := outbox + [e.eventId];
      }
    }

    method VerifyChain(key: string) returns (v: Verdict)
      ensures v.Valid? <==> Replays(Db(), key)
      ensures var rows := RowsOf(events, key);
        && (v.Valid? ==> v == Valid(|rows|, PrevOf(rows, |rows|)))
        && (v.Broken? ==> v.at < |rows| && GoodUpTo(rows, v.at) && !RowGood(rows, v.at))
        && (v.HeadMismatch? ==> v.checkedAll == |rows| && GoodUpTo(rows, |rows|))
    {
      var rows := RowsOf(events, key);
      var prevHash := Genesis;
      var checked := 0;
      while checked < |rows|
        invariant 0 <= checked <= |rows|
        invariant prevHash == PrevOf(rows, checked)
        invariant GoodUpTo(rows, checked)
      {
        var row := rows[checked];
        if row.prev != prevHash {
          assert !RowGood(rows, checked);
          return Broken(checked);
        }
        var expected := Sealed(prevHash, row.entry);
        if expected != row.hash {
          assert !RowGood(rows, checked);
          return Broken(checked);
        }
        prevHash := row.hash;
        checked := checked + 1;
      }
      if key in chains && chains[key].hash != prevHash {
        return HeadMismatch(checked);
      }
      return Valid(checked, prevHash);
    }

    method VerifyAll() returns (broken: set<string>)
      ensures broken == set key | key in chains && !Replays(Db(), key)
    {
      broken := {};
      var left := chains.Keys;
      while left != {}
        invariant left <= chains.Keys
        invariant broken == set key | key in chains.Keys - left && !Replays(Db(), key)
        decreases |left|
      {
        var key :| key in left;
        var v := VerifyChain(key);
        if !v.Valid? {
          broken := broken + {key};
        }
        left := left - {key};
      }
    }

    method SignCheckpoint() returns (cp: Checkpoint)
      modifies this
      ensures cp.root == Heads(chains) && cp.chains == |chains|
      ensures checkpoints == old(checkpoints) + [cp]
      ensures Db() == old(Db()) && outbox == old(outbox)
    {
      cp := Checkpoint(Heads(chains), |chains|);
      checkpoints := checkpoints + [cp];
    }

    /** None when nothing has been signed yet. */
    method VerifyCheckpoint() returns (valid: Option<bool>)
      ensures valid.None? <==> checkpoints == []
      ensures valid.Some? ==>
        (valid.value <==> AllReplay(Db()) && checkpoints[|checkpoints| - 1].root == Heads(chains))
    {
      if |checkpoints| == 0 {
        return None;
      }
      var broken := VerifyAll();
      if broken != {} {
        return Some(false);
      }
      assert forall key :: key in chains && !Replays(Db(), key) ==> key in broken;
      return Some(checkpoints[|checkpoints| - 1].root == Heads(chains));
    }
  }

  /** An event goes to the chain it names, else to its mandate's, its agent's or the system's; to that one only. */
  lemma AppendedToItsChain(db: Database, named: string, draft: Entry, key: string)
    ensures var db' := Append(db, Keyed(named, draft));
      var mine :=
        if named != "" then key == named
        else if draft.mandate != "" then key == draft.mandate
        else if draft.agent != "" then key == "agent:" + draft.agent
        else key == SYSTEM_CHAIN;
      var prev := if key in db.chains then db.chains[key].hash else Genesis;
      var e := draft.(chainKey := key);
      && (mine ==> key in db'.chains && db'.chains[key].hash == Sealed(prev, e)
                   && RowsOf(db'.events, key) == RowsOf(db.events, key) + [Stored(e, prev, Sealed(prev, e))])
      && (!mine ==> RowsOf(db'.events, key) == RowsOf(db.events, key) && (key in db'.chains <==> key in db.chains)
                    && (key in db.chains ==> db'.chains[key] == db.chains[key]))
  {
  }

  /** Row `i` is linked to the one before it and has the hash of its own entry. */
  predicate Linked(rows: seq<Stored>, i: nat)
    requires i < |rows|
  {
    && rows[i].hash == Sealed(rows[i].prev, rows[i].entry)
    && if i == 0 then rows[i].prev == Genesis else rows[i].prev == rows[i - 1].hash
  }

  /** What verification accepts: every row linked back to the genesis value, and a head that is the last row's hash. */
  lemma ReplaysExactlyWhen(db: Database, key: string)
    ensures var rows := RowsOf(db.events, key);
      Replays(db, key) <==>
        && (forall i :: 0 <= i < |rows| ==> Linked(rows, i))
        && (key in db.chains ==> db.chains[key].hash == if rows == [] then Genesis else rows[|rows| - 1].hash)
  {
    var rows := RowsOf(db.events, key);
    forall i | 0 <= i < |rows|
      ensures RowGood(rows, i) <==> Linked(rows, i)
    {
    }
  }

  // ------------------------------------------------------------ whole runs

  function RunAppends(db: Database, entries: seq<Entry>): Database {
    if entries == [] then db
    else Append(RunAppends(db, entries[..|entries| - 1]), entries[|entries| - 1])
  }

  /** The part of a run that belongs to one chain, in order. */
  function OnChain(entries: seq<Entry>, key: string): seq<Entry> {
    if entries == [] then []
    else
      var last := entries[|entries| - 1];
      OnChain(entries[..|entries| - 1], key) + (if last.chainKey == key then [last] else [])
  }

  function EntriesOf(rows: seq<Stored>): seq<Entry> {
    seq(|rows|, i requires 0 <= i < |rows| => rows[i].entry)
  }

  lemma {:induction false} GoodRowsHashToHead(rows: seq<Stored>)
    requires GoodUpTo(rows, |rows|)
    ensures PrevOf(rows, |rows|) == HeadOf(EntriesOf(rows))
  {
    if rows != [] {
      var n := |rows| - 1;
      forall i | 0 <= i < n
        ensures RowGood(rows[..n], i)
      {
        assert RowGood(rows, i);
      }
      GoodRowsHashToHead(rows[..n]);
      assert EntriesOf(rows)[..n] == EntriesOf(rows[..n]);
      assert RowGood(rows, n);
    }
  }

  /** What any run of appends leaves behind, chain by chain. */
  ghost predicate Faithful(db: Database, entries: seq<Entry>) {
    && (forall key :: key in db.chains <==> OnChain(entries, key) != [])
    && (forall key :: Replays(db, key))
    && (forall key :: EntriesOf(RowsOf(db.events, key)) == OnChain(entries, key))
    && (forall key :: key in db.chains ==> db.chains[key].length == |OnChain(entries, key)|)
  }

  /**
   Every run of `append` keeps `verify_all` valid, and each chain holds exactly
   its own part of the run, in order, however the writers were interleaved.
   */
  lemma {:induction false} AppendsStayValid(entries: seq<Entry>)
    ensures Faithful(RunAppends(Database(map[], map[]), entries), entries)
    ensures AllReplay(RunAppends(Database(map[], map[]), entries))
  {
    var start := Database(map[], map[]);
    if entries != [] {
      var n := |entries| - 1;
      var e := entries[n];
      AppendsStayValid(entries[..n]);
      var db := RunAppends(start, entries[..n]);
      var db' := RunAppends(start, entries);
      forall key
        ensures Replays(db', key)
        ensures EntriesOf(RowsOf(db'.events, key)) == OnChain(entries, key)
      {
        AppendOnOneChain(db, e, key);
        assert EntriesOf(RowsOf(db.events, key)) == OnChain(entries[..n], key);
      }
    }
  }

  lemma AppendOnOneChain(db: Database, e: Entry, key: string)
    requires Replays(db, key)
    requires key !in db.chains ==> RowsOf(db.events, key) == []
    ensures Replays(Append(db, e), key)
    ensures EntriesOf(RowsOf(Append(db, e).events, key))
         == EntriesOf(RowsOf(db.events, key)) + (if e.chainKey == key then [e] else [])
  {
    var rows, rows' := RowsOf(db.events, key), RowsOf(Append(db, e).events, key);
    forall i | 0 <= i < |rows|
      ensures RowGood(rows', i)
    {
      assert RowGood(rows, i);
    }
    if e.chainKey == key {
      assert RowGood(rows', |rows|);
    }
  }

  lemma UpdatesCommute<K, V>(m: map<K, V>, j: K, x: V, k: K, y: V)
    requires j != k
    ensures m[j := x][k := y] == m[k := y][j := x]
  {
  }

  /** Appends to different chains commute: same chains, same heads, same root. */
  lemma AppendsCommute(db: Database, a: Entry, b: Entry)
    requires a.chainKey != b.chainKey
    ensures Append(Append(db, a), b) == Append(Append(db, b), a)
    ensures Heads(Append(Append(db, a), b).chains) == Heads(Append(Append(db, b), a).chains)
  {
    var afterA, afterB := Append(db, a), Append(db, b);
    assert NewHead(afterA.chains, b) == NewHead(db.chains, b) && NewRow(afterA.chains, b) == NewRow(db.chains, b);
    assert NewHead(afterB.chains, a) == NewHead(db.chains, a) && NewRow(afterB.chains, a) == NewRow(db.chains, a);
    UpdatesCommute(db.chains, a.chainKey, NewHead(db.chains, a), b.chainKey, NewHead(db.chains, b));
    UpdatesCommute(db.events, a.chainKey, RowsOf(db.events, a.chainKey) + [NewRow(db.chains, a)],
                   b.chainKey, RowsOf(db.events, b.chainKey) + [NewRow(db.chains, b)]);
  }

  /** A mandate's events share a chain with an agent's exactly when its id spells that agent's key. */
  lemma ChainsAreTheirOwn(mandate: string, agent: string, other: string)
    requires mandate != ""
    ensures ChainKeyFor(mandate, agent) == ChainKeyFor("", other)
      <==> mandate == if other != "" then "agent:" + other else SYSTEM_CHAIN
  {
  }

  // -------------------------------------------------------- tamper evidence

  /**
   On a database that replays, the signed root decides everything: it matches
   exactly when the listed chains are the ones that were signed and each holds
   the very rows it held then.
   */
  lemma RootDecidesRows(signed: Database, now: Database)
    requires AllReplay(signed) && AllReplay(now)
    ensures Heads(now.chains) == Heads(signed.chains) <==>
      && now.chains.Keys == signed.chains.Keys
      && forall key :: key in signed.chains ==>
          EntriesOf(RowsOf(now.events, key)) == EntriesOf(RowsOf(signed.events, key))
  {
    assert Heads(now.chains).Keys == now.chains.Keys;
    assert Heads(signed.chains).Keys == signed.chains.Keys;
    if now.chains.Keys == signed.chains.Keys {
      forall key | key in signed.chains
        ensures now.chains[key].hash == signed.chains[key].hash
          <==> EntriesOf(RowsOf(now.events, key)) == EntriesOf(RowsOf(signed.events, key))
      {
        OneChainDecides(signed, now, key);
      }
      if forall key :: key in signed.chains ==>
          EntriesOf(RowsOf(now.events, key)) == EntriesOf(RowsOf(signed.events, key)) {
        assert Heads(now.chains) == Heads(signed.chains);
      } else {
        var key :| key in signed.chains
          && EntriesOf(RowsOf(now.events, key)) != EntriesOf(RowsOf(signed.events, key));
        assert Heads(now.chains)[key] != Heads(signed.chains)[key];
      }
    }
  }

  lemma OneChainDecides(signed: Database, now: Database, key: string)
    requires Replays(signed, key) && Replays(now, key)
    requires key in signed.chains && key in now.chains
    ensures now.chains[key].hash == signed.chains[key].hash
      <==> EntriesOf(RowsOf(now.events, key)) == EntriesOf(RowsOf(signed.events, key))
  {
    GoodRowsHashToHead(RowsOf(signed.events, key));
    GoodRowsHashToHead(RowsOf(now.events, key));
    if now.chains[key].hash == signed.chains[key].hash {
      HeadDeterminesContents(EntriesOf(RowsOf(now.events, key)), EntriesOf(RowsOf(signed.events, key)));
    }
  }

  /**
   Whatever was edited since, a checkpoint that still verifies means every
   listed chain replays to exactly the events of the run that was signed.
   */
  lemma CheckpointMeansUntouched(entries: seq<Entry>, now: Database, cp: Checkpoint)
    requires cp.root == Heads(RunAppends(Database(map[], map[]), entries).chains)
    requires AllReplay(now) && cp.root == Heads(now.chains)
    ensures forall key :: key in now.chains <==> OnChain(entries, key) != []
    ensures forall key :: key in now.chains ==> EntriesOf(RowsOf(now.events, key)) == OnChain(entries, key)
  {
    AppendsStayValid(entries);
    var signed := RunAppends(Database(map[], map[]), entries);
    RootDecidesRows(signed, now);
    forall key | key in now.chains
      ensures EntriesOf(RowsOf(now.events, key)) == OnChain(entries, key)
    {
      assert key in signed.chains;
    }
  }

  /** Rows under a key with no `chains` entry are outside every check. */
  lemma UnlistedRowsGoUnseen(db: Database, key: string, rows: seq<Stored>)
    requires AllReplay(db) && key !in db.chains
    ensures var now := db.(events := db.events[key := rows]);
      AllReplay(now) && Heads(now.chains) == Heads(db.chains)
  {
    var now := db.(events := db.events[key := rows]);
    forall k | k in now.chains
      ensures Replays(now, k)
    {
      assert Replays(db, k);
    }
  }
}
