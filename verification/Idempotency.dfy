/**
 The idempotency-claim store (src/api/decision/repository_memory.py,
 src/api/decision/idempotency.py, src/api/domain/idempotency.py): who owns a
 key, for how long, and which response it gets.  The derived key is an ideal
 HMAC: it determines the source id and the secret.
 */
module Idempotency {
  import opened Wrappers

  const TTL := 45 * 24 * 3600

  datatype Key = Derived(jti: string, secret: string) | Foreign(id: nat)

  datatype Record = Record(key: Key, scope: string, derivedFrom: string, fingerprint: string,
                           expiresAt: int, response: Option<string>, token: nat)

  type Records = map<Key, Record>

  predicate Expired(r: Record, now: int) {
    now >= r.expiresAt
  }

  predicate SameOperation(a: Record, b: Record) {
    a.scope == b.scope && a.derivedFrom == b.derivedFrom && a.fingerprint == b.fingerprint
  }

  function MakeRecord(jti: string, secret: string, scope: string, fingerprint: string,
                      createdAt: int, token: nat): Record
  {
    Record(Derived(jti, secret), scope, jti, fingerprint, createdAt + TTL, None, token)
  }

  datatype Reply = Held(record: Record) | Conflict | Missing

  class IdempotencyStore {
    const secret: string
    var records: Records

    constructor (secret: string)
      ensures this.secret == secret && records == map[]
    {
      this.secret := secret;
      records := map[];
    }

    /** The first claim, or the live record of the same operation, or a conflict. */
    method Reserve(candidate: Record, now: int) returns (reply: Reply)
      modifies this
      ensures (records, reply) == ReserveIn(old(records), secret, candidate, now)
    {
      if candidate.key != Derived(candidate.derivedFrom, secret) {
        return Conflict;
      }
      if candidate.key !in records || Expired(records[candidate.key], now) {
        records := records[candidate.key := candidate];
        return Held(candidate);
      }
      var existing := records[candidate.key];
      if existing.scope != candidate.scope || existing.derivedFrom != candidate.derivedFrom
         || existing.fingerprint != candidate.fingerprint {
        return Conflict;
      }
      return Held(existing);
    }

    method Get(key: Key, now: int) returns (r: Option<Record>)
      modifies this
      ensures records == DropIfExpired(old(records), key, now)
      ensures r == if key in records then Some(records[key]) else None
    {
      if key in records && Expired(records[key], now) {
        records := records - {key};
        return None;
      }
      return if key in records then Some(records[key]) else None;
    }

    method SaveResponse(key: Key, response: string, now: int) returns (reply: Reply)
      modifies this
      ensures records == SaveIn(old(records), key, response, now)
      ensures reply == if key in records then Held(records[key]) else Missing
    {
      if key !in records {
        return Missing;
      }
      if Expired(records[key], now) {
        records := records - {key};
        return Missing;
      }
      if records[key].response.Some? {
        return Held(records[key]);
      }
      records := records[key := records[key].(response := Some(response))];
      return Held(records[key]);
    }

    method PurgeExpired(now: int) returns (purged: nat)
      modifies this
      ensures records == Live(old(records), now)
      ensures purged == |set k | k in old(records) && Expired(old(records)[k], now)|
    {
      var expired := set k | k in records && Expired(records[k], now);
      var left := expired;
      purged := 0;
      while left != {}
        invariant left <= expired
        invariant forall k :: k in records <==> k in old(records) && (k !in expired || k in left)
        invariant forall k :: k in records ==> records[k] == old(records)[k]
        invariant purged + |left| == |expired|
        decreases |left|
      {
        var k :| k in left;
        records := records - {k};
        left := left - {k};
        purged := purged + 1;
      }
      assert records == Live(old(records), now);
    }

    /** A claim with a fresh token; the caller owns it when its own token comes back. */
    method Claim(jti: string, callerSecret: string, scope: string, fingerprint: string,
                 createdAt: int, now: int, token: nat) returns (reply: Reply, owns: bool)
      modifies this
      ensures (records, reply) ==
        ReserveIn(old(records), secret, MakeRecord(jti, callerSecret, scope, fingerprint, createdAt, token), now)
      ensures owns <==> reply.Held? && reply.record.token == token
    {
      reply := Reserve(MakeRecord(jti, callerSecret, scope, fingerprint, createdAt, token), now);
      owns := reply.Held? && reply.record.token == token;
    }
  }

  function ReserveIn(records: Records, secret: string, c: Record, now: int): (Records, Reply) {
    if c.key != Derived(c.derivedFrom, secret) then (records, Conflict)
    else if c.key !in records || Expired(records[c.key], now) then (records[c.key := c], Held(c))
    else if !SameOperation(records[c.key], c) then (records, Conflict)
    else (records, Held(records[c.key]))
  }

  function DropIfExpired(records: Records, key: Key, now: int): Records {
    if key in records && Expired(records[key], now) then records - {key} else records
  }

  function SaveIn(records: Records, key: Key, response: string, now: int): Records {
    var live := DropIfExpired(records, key, now);
    if key in live && live[key].response.None? then live[key := live[key].(response := Some(response))]
    else live
  }

  function Live(records: Records, now: int): Records {
    map k | k in records && !Expired(records[k], now) :: records[k]
  }

  // ------------------------------------------------------------ whole runs

  datatype Event =
    | Reserving(candidate: Record)
    | Getting(key: Key)
    | Saving(target: Key, response: string)
    | Purging

  datatype Timed = Timed(event: Event, now: int)

  function Step(records: Records, secret: string, t: Timed): Records {
    match t.event
    case Reserving(c) => ReserveIn(records, secret, c, t.now).0
    case Getting(key) => DropIfExpired(records, key, t.now)
    case Saving(key, response) => SaveIn(records, key, response, t.now)
    case Purging => Live(records, t.now)
  }

  function Run(records: Records, secret: string, ts: seq<Timed>): Records
    decreases |ts|
  {
    if ts == [] then records else Run(Step(records, secret, ts[0]), secret, ts[1..])
  }

  /** Everything about a claim except the response it is still waiting for. */
  predicate SameClaim(a: Record, b: Record) {
    a.(response := None) == b.(response := None)
  }

  ghost predicate AllBefore(ts: seq<Timed>, deadline: int) {
    forall i :: 0 <= i < |ts| ==> ts[i].now < deadline
  }

  /** A reservation of `key` in the run that comes back with the caller's own token. */
  predicate Owns(records: Records, secret: string, t: Timed, key: Key) {
    && t.event.Reserving? && t.event.candidate.key == key
    && var reply := ReserveIn(records, secret, t.event.candidate, t.now).1;
       reply.Held? && reply.record.token == t.event.candidate.token
  }

  function Owners(records: Records, secret: string, ts: seq<Timed>, key: Key): nat
    decreases |ts|
  {
    if ts == [] then 0
    else (if Owns(records, secret, ts[0], key) then 1 else 0)
         + Owners(Step(records, secret, ts[0]), secret, ts[1..], key)
  }

  /** How often a stored response of `key` changes. */
  function ResponseWrites(records: Records, secret: string, ts: seq<Timed>, key: Key): nat
    requires key in records && AllBefore(ts, records[key].expiresAt)
    decreases |ts|
  {
    if ts == [] then 0
    else
      LiveRecordSurvives(records, secret, ts[0], key);
      var next := Step(records, secret, ts[0]);
      assert AllBefore(ts[1..], next[key].expiresAt) by {
        assert forall i :: 0 <= i < |ts[1..]| ==> ts[1..][i] == ts[i + 1];
      }
      (if next[key].response != records[key].response then 1 else 0)
      + ResponseWrites(next, secret, ts[1..], key)
  }

  /** Before its expiry no operation removes a record or hands its claim to anyone else. */
  lemma LiveRecordSurvives(records: Records, secret: string, t: Timed, key: Key)
    requires key in records && t.now < records[key].expiresAt
    ensures key in Step(records, secret, t)
    ensures SameClaim(Step(records, secret, t)[key], records[key])
    ensures records[key].response.Some? ==> Step(records, secret, t)[key] == records[key]
  {
  }

  ghost predicate FreshTokens(ts: seq<Timed>, token: nat) {
    forall i :: 0 <= i < |ts| && ts[i].event.Reserving? ==> ts[i].event.candidate.token != token
  }

  /**
   From a claim to its expiry: one owner, a fixed fingerprint and deadline, and
   a response written at most once.
   */
  lemma {:induction false} ClaimIsStable(records: Records, secret: string, ts: seq<Timed>, key: Key)
    requires key in records && AllBefore(ts, records[key].expiresAt)
    requires FreshTokens(ts, records[key].token)
    ensures key in Run(records, secret, ts) && SameClaim(Run(records, secret, ts)[key], records[key])
    ensures Owners(records, secret, ts, key) == 0
    ensures ResponseWrites(records, secret, ts, key) <= if records[key].response.Some? then 0 else 1
    ensures records[key].response.Some? ==>
      Run(records, secret, ts)[key].response == records[key].response
    decreases |ts|
  {
    if ts != [] {
      LiveRecordSurvives(records, secret, ts[0], key);
      assert forall i :: 0 <= i < |ts[1..]| ==> ts[1..][i] == ts[i + 1];
      ClaimIsStable(Step(records, secret, ts[0]), secret, ts[1..], key);
    }
  }

  /** The first claim of a free or expired key is owned by its caller, and by nobody else until it expires. */
  lemma ExactlyOneOwner(records: Records, secret: string, first: Record, now: int, ts: seq<Timed>)
    requires first.key == Derived(first.derivedFrom, secret)
    requires first.key !in records || records[first.key].expiresAt <= now
    requires FreshTokens(ts, first.token) && AllBefore(ts, first.expiresAt)
    ensures Owners(records, secret, [Timed(Reserving(first), now)] + ts, first.key) == 1
    ensures ReserveIn(records, secret, first, now).1 == Held(first)
  {
    var all := [Timed(Reserving(first), now)] + ts;
    assert all[1..] == ts;
    ClaimIsStable(Step(records, secret, all[0]), secret, ts, first.key);
  }

  /**
   While a claim is live, the same request for its key sees the owner's record,
   and one with another scope, source or body is rejected; neither changes anything.
   */
  lemma LiveClaimAnswers(records: Records, secret: string, c: Record, now: int)
    requires c.key == Derived(c.derivedFrom, secret)
    requires c.key in records && now < records[c.key].expiresAt
    ensures var live, (records', reply) := records[c.key], ReserveIn(records, secret, c, now);
      && records' == records
      && (reply == Held(live) <==>
            live.scope == c.scope && live.derivedFrom == c.derivedFrom && live.fingerprint == c.fingerprint)
      && (reply == Conflict <==>
            live.scope != c.scope || live.derivedFrom != c.derivedFrom || live.fingerprint != c.fingerprint)
  {
  }

  /**
   A claim of a key nobody holds is granted with no response yet, for 45 days
   from its creation and not a second longer; one made with another secret is refused.
   */
  lemma ClaimLastsFortyFiveDays(records: Records, secret: string, jti: string, callerSecret: string, scope: string,
                                fingerprint: string, createdAt: int, now: int, token: nat, later: int)
    requires Derived(jti, secret) in records ==> records[Derived(jti, secret)].expiresAt <= now
    ensures var (records', reply) :=
        ReserveIn(records, secret, MakeRecord(jti, callerSecret, scope, fingerprint, createdAt, token), now);
      if callerSecret != secret then records' == records && reply == Conflict
      else
        && reply.Held? && reply.record.response == None && reply.record.token == token
        && reply.record.derivedFrom == jti && reply.record.scope == scope && reply.record.fingerprint == fingerprint
        && records' == records[Derived(jti, secret) := reply.record]
        && (DropIfExpired(records', Derived(jti, secret), later) == records' <==> later < createdAt + 3_888_000)
  {
  }

  /** The first response is the one that stays, whatever happens until the claim expires. */
  lemma FirstResponseStays(records: Records, secret: string, key: Key, response: string, now: int, ts: seq<Timed>)
    requires key in records && records[key].response.None? && now < records[key].expiresAt
    requires AllBefore(ts, records[key].expiresAt) && FreshTokens(ts, records[key].token)
    ensures var next := SaveIn(records, key, response, now);
      && next == records[key := records[key].(response := Some(response))]
      && key in Run(next, secret, ts) && Run(next, secret, ts)[key] == next[key]
  {
    ClaimIsStable(SaveIn(records, key, response, now), secret, ts, key);
  }

  /** Once its time has come a claim counts for nothing: it is dropped when looked at, and free to be claimed again. */
  lemma ExpiredClaimIsGone(records: Records, secret: string, key: Key, now: int, response: string, c: Record)
    requires key in records && records[key].expiresAt <= now
    ensures DropIfExpired(records, key, now) == records - {key}
    ensures SaveIn(records, key, response, now) == records - {key}
    ensures c.key == key && key == Derived(c.derivedFrom, secret) ==>
      ReserveIn(records, secret, c, now) == (records[key := c], Held(c))
  {
  }

  /** Purging removes exactly the expired records. */
  lemma PurgeKeepsLiveRecords(records: Records, secret: string, now: int)
    ensures forall k :: k in Step(records, secret, Timed(Purging, now)) <==> k in records && now < records[k].expiresAt
    ensures forall k :: k in records && now < records[k].expiresAt ==>
      Step(records, secret, Timed(Purging, now))[k] == records[k]
  {
  }
}
