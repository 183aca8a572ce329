/**
 The outbox relay (src/agent/relay.py): a pass claims waiting rows with FOR
 UPDATE SKIP LOCKED, delivers each to every subscriber, and marks them in the
 transaction that holds the claim.  Any number of workers run passes at once.
 */
module Relay {
  /** `audience` is who was subscribed when the row was relayed. */
  datatype Row = Row(eventId: string, attempts: nat, relayed: bool, audience: set<string>)

  predicate Waiting(row: Row, max: nat) {
    !row.relayed && row.attempts < max
  }

  /** Subscribers that raise for row `i`. */
  type Refusals = set<(nat, string)>

  predicate AllAccept(i: nat, subscribers: set<string>, refusals: Refusals) {
    forall s :: s in subscribers ==> (i, s) !in refusals
  }

  /** A row after one delivery. */
  function Delivered(row: Row, i: nat, subscribers: set<string>, refusals: Refusals): Row {
    if AllAccept(i, subscribers, refusals)
    then row.(attempts := row.attempts + 1, relayed := true, audience := subscribers)
    else row.(attempts := row.attempts + 1)
  }

  /** The first `batch` waiting rows from position `i` on that nobody holds, in order. */
  function Pick(rows: seq<Row>, held: set<nat>, batch: nat, max: nat, i: nat): seq<nat>
    requires i <= |rows|
    decreases |rows| - i
  {
    if i == |rows| || batch == 0 then []
    else if Waiting(rows[i], max) && i !in held then [i] + Pick(rows, held, batch - 1, max, i + 1)
    else Pick(rows, held, batch, max, i + 1)
  }

  ghost predicate Increasing(s: seq<nat>) {
    forall i, j :: 0 <= i < j < |s| ==> s[i] < s[j]
  }

  predicate Below(s: seq<nat>, n: nat) {
    forall k :: 0 <= k < |s| ==> s[k] < n
  }

  predicate Free(rows: seq<Row>, held: set<nat>, max: nat, x: nat) {
    x < |rows| && Waiting(rows[x], max) && x !in held
  }

  ghost predicate AllFree(rows: seq<Row>, held: set<nat>, max: nat, p: seq<nat>, from: nat) {
    forall k :: 0 <= k < |p| ==> from <= p[k] && Free(rows, held, max, p[k])
  }

  /** A claim is an increasing list of waiting rows that nobody holds. */
  lemma {:induction false} PickIsFree(rows: seq<Row>, held: set<nat>, batch: nat, max: nat, i: nat)
    requires i <= |rows|
    ensures var p := Pick(rows, held, batch, max, i);
      Increasing(p) && |p| <= batch && AllFree(rows, held, max, p, i)
    decreases |rows| - i
  {
    if i < |rows| && batch > 0 {
      if Waiting(rows[i], max) && i !in held {
        PickIsFree(rows, held, batch - 1, max, i + 1);
        var rest := Pick(rows, held, batch - 1, max, i + 1);
        var p := [i] + rest;
        assert forall k :: 1 <= k < |p| ==> p[k] == rest[k - 1];
      } else {
        PickIsFree(rows, held, batch, max, i + 1);
      }
    }
  }

  /** A claim below the batch size leaves no free row behind. */
  lemma {:induction false} PickIsGreedy(rows: seq<Row>, held: set<nat>, batch: nat, max: nat, i: nat)
    requires i <= |rows| && |Pick(rows, held, batch, max, i)| < batch
    ensures forall x :: i <= x && Free(rows, held, max, x) ==> x in Pick(rows, held, batch, max, i)
    decreases |rows| - i
  {
    if i < |rows| {
      if Waiting(rows[i], max) && i !in held {
        PickIsGreedy(rows, held, batch - 1, max, i + 1);
      } else {
        PickIsGreedy(rows, held, batch, max, i + 1);
      }
    }
  }

  /** The rows after a whole claim has been delivered. */
  function DeliverAll(rows: seq<Row>, claimed: seq<nat>, subscribers: set<string>, refusals: Refusals): seq<Row>
    requires Below(claimed, |rows|)
    ensures |DeliverAll(rows, claimed, subscribers, refusals)| == |rows|
  {
    if claimed == [] then rows
    else
      var n := |claimed| - 1;
      var before := DeliverAll(rows, claimed[..n], subscribers, refusals);
      before[claimed[n] := Delivered(before[claimed[n]], claimed[n], subscribers, refusals)]
  }

  datatype Tally = Tally(waiting: nat, dead: nat, delivered: nat)

  /** What `pending` counts. */
  function Pending(rows: seq<Row>, max: nat): Tally {
    if rows == [] then Tally(0, 0, 0)
    else
      var n := |rows| - 1;
      var t := Pending(rows[..n], max);
      if rows[n].relayed then t.(delivered := t.delivered + 1)
      else if rows[n].attempts < max then t.(waiting := t.waiting + 1)
      else t.(dead := t.dead + 1)
  }

  /** Attempts still to be had by the waiting rows. */
  function Remaining(rows: seq<Row>, max: nat): nat {
    if rows == [] then 0
    else Remaining(rows[..|rows| - 1], max) + Left(rows[|rows| - 1], max)
  }

  function Left(row: Row, max: nat): nat {
    if Waiting(row, max) then max - row.attempts else 0
  }

  function One(row: Row, max: nat): Tally {
    if row.relayed then Tally(0, 0, 1) else if row.attempts < max then Tally(1, 0, 0) else Tally(0, 1, 0)
  }

  lemma {:induction false} ChangeOne(rows: seq<Row>, k: nat, row: Row, max: nat)
    requires k < |rows|
    ensures var before, after := Pending(rows, max), Pending(rows[k := row], max);
      && after.waiting + One(rows[k], max).waiting == before.waiting + One(row, max).waiting
      && after.dead + One(rows[k], max).dead == before.dead + One(row, max).dead
      && after.delivered + One(rows[k], max).delivered == before.delivered + One(row, max).delivered
  {
    var n := |rows| - 1;
    if k == n {
      assert rows[k := row][..n] == rows[..n];
    } else {
      assert rows[k := row][..n] == rows[..n][k := row];
      ChangeOne(rows[..n], k, row, max);
    }
  }

  lemma {:induction false} SpendOne(rows: seq<Row>, k: nat, row: Row, max: nat)
    requires k < |rows|
    ensures Remaining(rows[k := row], max) + Left(rows[k], max) == Remaining(rows, max) + Left(row, max)
  {
    var n := |rows| - 1;
    if k == n {
      assert rows[k := row][..n] == rows[..n];
    } else {
      assert rows[k := row][..n] == rows[..n][k := row];
      SpendOne(rows[..n], k, row, max);
    }
  }

  /** One delivery moves one waiting row: to delivered, to dead, or nowhere yet. */
  lemma DeliveryCounts(rows: seq<Row>, i: nat, subscribers: set<string>, refusals: Refusals, max: nat)
    requires i < |rows| && Waiting(rows[i], max)
    ensures var row := Delivered(rows[i], i, subscribers, refusals);
      var before, after := Pending(rows, max), Pending(rows[i := row], max);
      var dead := if !row.relayed && row.attempts >= max then 1 else 0;
      && row.relayed == AllAccept(i, subscribers, refusals)
      && after.delivered == before.delivered + (if row.relayed then 1 else 0)
      && after.dead == before.dead + dead
      && after.waiting + (if row.relayed then 1 else 0) + dead == before.waiting
      && Remaining(rows[i := row], max) + 1 <= Remaining(rows, max)
  {
    ChangeOne(rows, i, Delivered(rows[i], i, subscribers, refusals), max);
    SpendOne(rows, i, Delivered(rows[i], i, subscribers, refusals), max);
  }

  lemma {:induction false} DeliverAllShape(rows: seq<Row>, claimed: seq<nat>, subscribers: set<string>,
                                           refusals: Refusals)
    requires Increasing(claimed) && Below(claimed, |rows|)
    ensures forall i :: 0 <= i < |rows| ==>
      DeliverAll(rows, claimed, subscribers, refusals)[i] ==
        if i in claimed then Delivered(rows[i], i, subscribers, refusals) else rows[i]
  {
    if claimed != [] {
      var n := |claimed| - 1;
      DeliverAllShape(rows, claimed[..n], subscribers, refusals);
      assert claimed == claimed[..n] + [claimed[n]];
      assert claimed[n] !in claimed[..n];
    }
  }

  lemma DeliverNext(rows: seq<Row>, claimed: seq<nat>, k: nat, subscribers: set<string>, refusals: Refusals)
    requires Below(claimed, |rows|) && k < |claimed|
    ensures var before := DeliverAll(rows, claimed[..k], subscribers, refusals);
      DeliverAll(rows, claimed[..k + 1], subscribers, refusals)
        == before[claimed[k] := Delivered(before[claimed[k]], claimed[k], subscribers, refusals)]
  {
    assert claimed[..k + 1][..k] == claimed[..k];
  }

  class Outbox {
    const max: nat
    var rows: seq<Row>

    constructor (max: nat)
      ensures this.max == max && rows == []
    {
      this.max := max;
      rows := [];
    }

    /** One undisturbed pass. */
    method Drain(batch: nat, subscribers: set<string>, refusals: Refusals)
      returns (claimed: nat, delivered: nat, failed: nat, dead: nat)
      modifies this
      ensures var picked := Pick(old(rows), {}, batch, max, 0);
        && Below(picked, |old(rows)|)
        && rows == DeliverAll(old(rows), picked, subscribers, refusals)
        && claimed == |picked| == delivered + failed
      ensures Pending(rows, max).delivered == Pending(old(rows), max).delivered + delivered
      ensures Pending(rows, max).dead == Pending(old(rows), max).dead + dead
      ensures Pending(rows, max).waiting + delivered + dead == Pending(old(rows), max).waiting
      ensures Remaining(rows, max) + claimed <= Remaining(old(rows), max)
    {
      var picked := PickRows(batch);
      PickIsFree(rows, {}, batch, max, 0);
      delivered, failed, dead := 0, 0, 0;
      for k := 0 to |picked|
        invariant rows == DeliverAll(old(rows), picked[..k], subscribers, refusals)
        invariant forall j :: k <= j < |picked| ==> rows[picked[j]] == old(rows)[picked[j]]
        invariant delivered + failed == k
        invariant Pending(rows, max).delivered == Pending(old(rows), max).delivered + delivered
        invariant Pending(rows, max).dead == Pending(old(rows), max).dead + dead
        invariant Pending(rows, max).waiting + delivered + dead == Pending(old(rows), max).waiting
        invariant Remaining(rows, max) + k <= Remaining(old(rows), max)
      {
        DeliverNext(old(rows), picked, k, subscribers, refusals);
        var ok, isDead := DeliverCounted(picked[k], subscribers, refusals);
        delivered, failed := delivered + (if ok then 1 else 0), failed + (if ok then 0 else 1);
        dead := dead + (if isDead then 1 else 0);
      }
      assert picked[..|picked|] == picked;
      claimed := |picked|;
    }

    method DeliverCounted(i: nat, subscribers: set<string>, refusals: Refusals) returns (ok: bool, isDead: bool)
      requires i < |rows| && Waiting(rows[i], max)
      modifies this
      ensures rows == old(rows)[i := Delivered(old(rows)[i], i, subscribers, refusals)]
      ensures Pending(rows, max).delivered == Pending(old(rows), max).delivered + (if ok then 1 else 0)
      ensures Pending(rows, max).dead == Pending(old(rows), max).dead + (if isDead then 1 else 0)
      ensures Pending(rows, max).waiting + (if ok then 1 else 0) + (if isDead then 1 else 0)
           == Pending(old(rows), max).waiting
      ensures Remaining(rows, max) + 1 <= Remaining(old(rows), max)
    {
      DeliveryCounts(rows, i, subscribers, refusals, max);
      ok := DeliverRow(i, subscribers, refusals);
      isDead := !ok && rows[i].attempts >= max;
    }

    /** One event to every subscriber; any error means the row is tried again. */
    method DeliverRow(i: nat, subscribers: set<string>, refusals: Refusals) returns (ok: bool)
      requires i < |rows| && !rows[i].relayed
      modifies this
      ensures ok <==> forall s :: s in subscribers ==> (i, s) !in refusals
      ensures rows == old(rows)[i := Delivered(old(rows)[i], i, subscribers, refusals)]
      ensures rows == old(rows)[i := Row(old(rows)[i].eventId, old(rows)[i].attempts + 1, ok,
                                         if ok then subscribers else old(rows)[i].audience)]
    {
      var row := rows[i];
      var errors := set s | s in subscribers && (i, s) in refusals;
      assert forall s :: s in subscribers && (i, s) in refusals ==> s in errors;
      ok := errors == {};
      if ok {
        rows := rows[i := row.(attempts := row.attempts + 1, relayed := true, audience := subscribers)];
      } else {
        var s :| s in errors;
        assert !AllAccept(i, subscribers, refusals);
        rows := rows[i := row.(attempts := row.attempts + 1)];
      }
    }

    method PickRows(batch: nat) returns (picked: seq<nat>)
      ensures picked == Pick(rows, {}, batch, max, 0)
    {
      picked := [];
      var i := 0;
      while i < |rows| && |picked| < batch
        invariant 0 <= i <= |rows| && |picked| <= batch
        invariant picked + Pick(rows, {}, batch - |picked|, max, i) == Pick(rows, {}, batch, max, 0)
      {
        if Waiting(rows[i], max) {
          picked := picked + [i];
        }
        i := i + 1;
      }
    }
  }

  lemma {:induction false} PendingPartitions(rows: seq<Row>, max: nat)
    ensures Pending(rows, max).waiting + Pending(rows, max).dead + Pending(rows, max).delivered == |rows|
    ensures Remaining(rows, max) == 0 <==> Pending(rows, max).waiting == 0
  {
    if rows != [] {
      PendingPartitions(rows[..|rows| - 1], max);
    }
  }

  // ----------------------------------------------------- concurrent passes

  /** A worker's transaction: what it claimed and read, and what it has prepared so far. */
  datatype Txn = Txn(claimed: seq<nat>, read: seq<Row>, prepared: seq<Row>)

  /** `accepted` is every acceptance that ever happened, rolled back passes included. */
  datatype System = System(rows: seq<Row>, txns: map<nat, Txn>, accepted: set<(nat, string)>)

  datatype Step =
    | Emit(eventId: string)
    | Claim(worker: nat, batch: nat)
    | Deliver(worker: nat, subscribers: set<string>, refusals: Refusals)
    | Commit(worker: nat)
    | Rollback(worker: nat)

  function Held(s: System): set<nat> {
    set w, i | w in s.txns && i in s.txns[w].claimed :: i
  }

  predicate Possible(s: System, step: Step) {
    match step
    case Emit(_) => true
    case Claim(w, _) => w !in s.txns
    case Deliver(w, _, _) => w in s.txns && |s.txns[w].prepared| < |s.txns[w].claimed| == |s.txns[w].read|
    case Commit(w) =>
      && w in s.txns && |s.txns[w].prepared| == |s.txns[w].claimed|
      && Below(s.txns[w].claimed, |s.rows|)
    case Rollback(w) => w in s.txns
  }

  /** The UPDATEs of a committed pass. */
  function Write(rows: seq<Row>, claimed: seq<nat>, prepared: seq<Row>): seq<Row>
    requires |claimed| == |prepared| && Below(claimed, |rows|)
    ensures |Write(rows, claimed, prepared)| == |rows|
  {
    if claimed == [] then rows
    else
      var n := |claimed| - 1;
      Write(rows, claimed[..n], prepared[..n])[claimed[n] := prepared[n]]
  }

  function Next(s: System, step: Step, max: nat): System
    requires Possible(s, step)
  {
    match step
    case Emit(eventId) => s.(rows := s.rows + [Row(eventId, 0, false, {})])
    case Claim(w, batch) =>
      var picked := Pick(s.rows, Held(s), batch, max, 0);
      PickIsFree(s.rows, Held(s), batch, max, 0);
      s.(txns := s.txns[w := Txn(picked, seq(|picked|, k requires 0 <= k < |picked| => s.rows[picked[k]]), [])])
    case Deliver(w, subscribers, refusals) =>
      var t := s.txns[w];
      var k := |t.prepared|;
      s.(txns := s.txns[w := t.(prepared := t.prepared + [Delivered(t.read[k], t.claimed[k], subscribers, refusals)])],
         accepted := s.accepted + set x | x in subscribers && (t.claimed[k], x) !in refusals :: (t.claimed[k], x))
    case Commit(w) =>
      s.(rows := Write(s.rows, s.txns[w].claimed, s.txns[w].prepared), txns := s.txns - {w})
    case Rollback(w) => s.(txns := s.txns - {w})
  }

  ghost predicate RowOk(s: System, i: nat, row: Row, max: nat) {
    && row.attempts <= max
    && (row.relayed ==> 1 <= row.attempts && forall x :: x in row.audience ==> (i, x) in s.accepted)
  }

  /** What a worker holds is still exactly what it read. */
  ghost predicate TxnOk(s: System, w: nat, max: nat)
    requires w in s.txns
  {
    var t := s.txns[w];
    && Increasing(t.claimed) && |t.read| == |t.claimed| && |t.prepared| <= |t.claimed|
    && (forall k :: 0 <= k < |t.claimed| ==>
          && t.claimed[k] < |s.rows|
          && s.rows[t.claimed[k]] == t.read[k]
          && Waiting(t.read[k], max))
    && (forall k :: 0 <= k < |t.prepared| ==>
          && RowOk(s, t.claimed[k], t.prepared[k], max)
          && t.prepared[k].eventId == t.read[k].eventId
          && t.prepared[k].attempts == t.read[k].attempts + 1)
  }

  ghost predicate Consistent(s: System, max: nat) {
    && (forall i :: 0 <= i < |s.rows| ==> RowOk(s, i, s.rows[i], max))
    && (forall w :: w in s.txns ==> TxnOk(s, w, max))
    && (forall v, w, i :: v in s.txns && w in s.txns && v != w && i in s.txns[v].claimed ==> i !in s.txns[w].claimed)
  }

  lemma {:induction false} WriteShape(rows: seq<Row>, claimed: seq<nat>, prepared: seq<Row>)
    requires |claimed| == |prepared| && Increasing(claimed) && Below(claimed, |rows|)
    ensures forall k :: 0 <= k < |claimed| ==> Write(rows, claimed, prepared)[claimed[k]] == prepared[k]
    ensures forall i :: 0 <= i < |rows| && i !in claimed ==> Write(rows, claimed, prepared)[i] == rows[i]
  {
    if claimed != [] {
      var n := |claimed| - 1;
      WriteShape(rows, claimed[..n], prepared[..n]);
      assert claimed == claimed[..n] + [claimed[n]];
    }
  }

  lemma ClaimKeeps(s: System, w: nat, batch: nat, max: nat)
    requires Consistent(s, max) && Possible(s, Claim(w, batch))
    ensures Consistent(Next(s, Claim(w, batch), max), max)
  {
    var s' := Next(s, Claim(w, batch), max);
    PickIsFree(s.rows, Held(s), batch, max, 0);
    var t := s'.txns[w];
    forall k | 0 <= k < |t.claimed|
      ensures t.claimed[k] < |s'.rows| && s'.rows[t.claimed[k]] == t.read[k] && Waiting(t.read[k], max)
    {
      assert t.claimed[k] in t.claimed;
    }
    forall v | v in s'.txns
      ensures TxnOk(s', v, max)
    {
      if v != w {
        assert TxnOk(s, v, max);
      }
    }
    forall v, i | v in s.txns && v != w && i in s.txns[v].claimed
      ensures i !in t.claimed
    {
      assert i in Held(s);
    }
  }

  lemma DeliverKeeps(s: System, w: nat, subscribers: set<string>, refusals: Refusals, max: nat)
    requires Consistent(s, max) && Possible(s, Deliver(w, subscribers, refusals))
    ensures Consistent(Next(s, Deliver(w, subscribers, refusals), max), max)
  {
    var s' := Next(s, Deliver(w, subscribers, refusals), max);
    assert TxnOk(s, w, max);
    var t, t' := s.txns[w], s'.txns[w];
    var k := |t.prepared|;
    forall j | 0 <= j < |t'.prepared|
      ensures RowOk(s', t'.claimed[j], t'.prepared[j], max)
    {
      if j < k {
        assert RowOk(s, t.claimed[j], t.prepared[j], max);
      }
    }
    assert TxnOk(s', w, max);
    forall v | v in s'.txns
      ensures TxnOk(s', v, max)
    {
      if v != w {
        assert TxnOk(s, v, max);
        forall j | 0 <= j < |s.txns[v].prepared|
          ensures RowOk(s', s.txns[v].claimed[j], s.txns[v].prepared[j], max)
        {
          assert RowOk(s, s.txns[v].claimed[j], s.txns[v].prepared[j], max);
        }
      }
    }
    forall i | 0 <= i < |s'.rows|
      ensures RowOk(s', i, s'.rows[i], max)
    {
      assert RowOk(s, i, s.rows[i], max);
    }
  }

  lemma CommitKeeps(s: System, w: nat, max: nat)
    requires Consistent(s, max) && Possible(s, Commit(w))
    ensures Consistent(Next(s, Commit(w), max), max)
  {
    var s' := Next(s, Commit(w), max);
    assert TxnOk(s, w, max);
    var t := s.txns[w];
    WriteShape(s.rows, t.claimed, t.prepared);
    forall i | 0 <= i < |s'.rows|
      ensures RowOk(s', i, s'.rows[i], max)
    {
      if i in t.claimed {
        var k :| 0 <= k < |t.claimed| && t.claimed[k] == i;
        assert RowOk(s, t.claimed[k], t.prepared[k], max);
      } else {
        assert RowOk(s, i, s.rows[i], max);
      }
    }
    forall v | v in s'.txns
      ensures TxnOk(s', v, max)
    {
      assert v in s.txns && TxnOk(s, v, max);
      forall k | 0 <= k < |s.txns[v].claimed|
        ensures s'.rows[s.txns[v].claimed[k]] == s.txns[v].read[k]
      {
        assert s.txns[v].claimed[k] in s.txns[v].claimed;
      }
      forall k | 0 <= k < |s.txns[v].prepared|
        ensures RowOk(s', s.txns[v].claimed[k], s.txns[v].prepared[k], max)
      {
        assert RowOk(s, s.txns[v].claimed[k], s.txns[v].prepared[k], max);
      }
    }
  }

  lemma StepKeepsConsistent(s: System, step: Step, max: nat)
    requires Consistent(s, max) && Possible(s, step)
    ensures Consistent(Next(s, step, max), max)
  {
    match step
    case Claim(w, batch) => ClaimKeeps(s, w, batch, max);
    case Deliver(w, subscribers, refusals) => DeliverKeeps(s, w, subscribers, refusals, max);
    case Commit(w) => CommitKeeps(s, w, max);
    case Rollback(w) =>
      var s' := Next(s, step, max);
      forall v | v in s'.txns
        ensures TxnOk(s', v, max)
      {
        assert TxnOk(s, v, max);
      }
    case Emit(_) =>
      var s' := Next(s, step, max);
      forall v | v in s'.txns
        ensures TxnOk(s', v, max)
      {
        assert TxnOk(s, v, max);
      }
      forall i | 0 <= i < |s'.rows|
        ensures RowOk(s', i, s'.rows[i], max)
      {
        if i < |s.rows| {
          assert RowOk(s, i, s.rows[i], max);
        }
      }
  }

  ghost predicate Legal(s: System, steps: seq<Step>, max: nat)
    decreases |steps|
  {
    steps == [] || (Possible(s, steps[0]) && Legal(Next(s, steps[0], max), steps[1..], max))
  }

  ghost function Run(s: System, steps: seq<Step>, max: nat): System
    requires Legal(s, steps, max)
    decreases |steps|
  {
    if steps == [] then s else Run(Next(s, steps[0], max), steps[1..], max)
  }

  lemma {:induction false} RunKeepsConsistent(s: System, steps: seq<Step>, max: nat)
    requires Consistent(s, max) && Legal(s, steps, max)
    ensures Consistent(Run(s, steps, max), max)
    decreases |steps|
  {
    if steps != [] {
      StepKeepsConsistent(s, steps[0], max);
      RunKeepsConsistent(Next(s, steps[0], max), steps[1..], max);
    }
  }

  /**
   However many workers claim, deliver, commit and roll back: two open claims
   never share a row, no row is tried more than `max` times, and a relayed row
   was accepted by everyone subscribed when it was relayed.
   */
  lemma WorkersNeverCollide(steps: seq<Step>, max: nat)
    requires Legal(System([], map[], {}), steps, max)
    ensures var s := Run(System([], map[], {}), steps, max);
      && (forall v, w, i :: v in s.txns && w in s.txns && v != w && i in s.txns[v].claimed ==> i !in s.txns[w].claimed)
      && (forall i :: 0 <= i < |s.rows| ==> s.rows[i].attempts <= max)
      && (forall i, x :: 0 <= i < |s.rows| && s.rows[i].relayed && x in s.rows[i].audience ==> (i, x) in s.accepted)
  {
    RunKeepsConsistent(System([], map[], {}), steps, max);
    var s := Run(System([], map[], {}), steps, max);
    forall i | 0 <= i < |s.rows|
      ensures RowOk(s, i, s.rows[i], max)
    {
    }
  }

  // ------------------------------------------------ one worker's whole pass

  function Delivers(w: nat, subscribers: set<string>, refusals: Refusals, n: nat): seq<Step> {
    if n == 0 then [] else Delivers(w, subscribers, refusals, n - 1) + [Deliver(w, subscribers, refusals)]
  }

  /** What a transaction has prepared after its first `n` deliveries. */
  function PreparedBy(t: Txn, subscribers: set<string>, refusals: Refusals, n: nat): seq<Row>
    requires n <= |t.claimed| == |t.read|
  {
    seq(n, k requires 0 <= k < n => Delivered(t.read[k], t.claimed[k], subscribers, refusals))
  }

  lemma {:induction false} RunMore(s: System, steps: seq<Step>, step: Step, max: nat)
    requires Legal(s, steps, max) && Possible(Run(s, steps, max), step)
    ensures Legal(s, steps + [step], max) && Run(s, steps + [step], max) == Next(Run(s, steps, max), step, max)
    decreases |steps|
  {
    if steps == [] {
      assert [] + [step] == [step] && [step][1..] == [];
      assert Legal(Next(s, step, max), [], max);
    } else {
      assert (steps + [step])[1..] == steps[1..] + [step];
      RunMore(Next(s, steps[0], max), steps[1..], step, max);
    }
  }

  lemma {:induction false} DeliversPrepare(s: System, w: nat, subscribers: set<string>, refusals: Refusals,
                                           n: nat, max: nat)
    requires w in s.txns && n <= |s.txns[w].claimed| == |s.txns[w].read| && s.txns[w].prepared == []
    ensures var steps := Delivers(w, subscribers, refusals, n);
      && Legal(s, steps, max)
      && Run(s, steps, max).rows == s.rows
      && Run(s, steps, max).txns
           == s.txns[w := s.txns[w].(prepared := PreparedBy(s.txns[w], subscribers, refusals, n))]
  {
    var t := s.txns[w];
    if n == 0 {
      assert PreparedBy(t, subscribers, refusals, 0) == [] && t.(prepared := []) == t;
    } else {
      DeliversPrepare(s, w, subscribers, refusals, n - 1, max);
      RunMore(s, Delivers(w, subscribers, refusals, n - 1), Deliver(w, subscribers, refusals), max);
      assert PreparedBy(t, subscribers, refusals, n) == PreparedBy(t, subscribers, refusals, n - 1)
        + [Delivered(t.read[n - 1], t.claimed[n - 1], subscribers, refusals)];
    }
  }

  lemma {:induction false} WriteIsDeliverAll(rows: seq<Row>, t: Txn, subscribers: set<string>, refusals: Refusals,
                                             n: nat)
    requires n <= |t.claimed| == |t.read| && Increasing(t.claimed) && Below(t.claimed, |rows|)
    requires forall k :: 0 <= k < |t.claimed| ==> t.read[k] == rows[t.claimed[k]]
    ensures Write(rows, t.claimed[..n], PreparedBy(t, subscribers, refusals, n))
         == DeliverAll(rows, t.claimed[..n], subscribers, refusals)
  {
    if n > 0 {
      var claimed, prepared := t.claimed[..n], PreparedBy(t, subscribers, refusals, n);
      assert claimed[..n - 1] == t.claimed[..n - 1];
      assert prepared[..n - 1] == PreparedBy(t, subscribers, refusals, n - 1);
      WriteIsDeliverAll(rows, t, subscribers, refusals, n - 1);
      WriteShape(rows, claimed[..n - 1], prepared[..n - 1]);
      assert claimed[n - 1] !in claimed[..n - 1];
    }
  }

  lemma ClaimedIsDelivered(s: System, w: nat, subscribers: set<string>, refusals: Refusals, max: nat)
    requires w in s.txns && s.txns[w].prepared == [] && |s.txns[w].claimed| == |s.txns[w].read|
    requires Increasing(s.txns[w].claimed) && Below(s.txns[w].claimed, |s.rows|)
    requires forall k :: 0 <= k < |s.txns[w].claimed| ==> s.txns[w].read[k] == s.rows[s.txns[w].claimed[k]]
    ensures var t := s.txns[w];
      var steps := Delivers(w, subscribers, refusals, |t.claimed|) + [Commit(w)];
      && Legal(s, steps, max)
      && Run(s, steps, max).rows == DeliverAll(s.rows, t.claimed, subscribers, refusals)
      && Run(s, steps, max).txns == s.txns - {w}
  {
    var t := s.txns[w];
    var n := |t.claimed|;
    DeliversPrepare(s, w, subscribers, refusals, n, max);
    RunMore(s, Delivers(w, subscribers, refusals, n), Commit(w), max);
    WriteIsDeliverAll(s.rows, t, subscribers, refusals, n);
    assert t.claimed[..n] == t.claimed;
  }

  /**
   Whoever else holds claims, a pass that is not interrupted does to the rows
   what one call of `drain` does: everything free and waiting, up to the batch,
   is delivered, and the claim is gone with its commit.
   */
  lemma PassIsDrain(s: System, w: nat, batch: nat, subscribers: set<string>, refusals: Refusals, max: nat)
    requires w !in s.txns
    ensures var picked := Pick(s.rows, Held(s), batch, max, 0);
      var steps := [Claim(w, batch)] + Delivers(w, subscribers, refusals, |picked|) + [Commit(w)];
      && Legal(s, steps, max) && Below(picked, |s.rows|)
      && Run(s, steps, max).rows == DeliverAll(s.rows, picked, subscribers, refusals)
      && Run(s, steps, max).txns == s.txns
  {
    var picked := Pick(s.rows, Held(s), batch, max, 0);
    PickIsFree(s.rows, Held(s), batch, max, 0);
    var claimed := Next(s, Claim(w, batch), max);
    ClaimedIsDelivered(claimed, w, subscribers, refusals, max);
    var rest := Delivers(w, subscribers, refusals, |picked|) + [Commit(w)];
    var steps := [Claim(w, batch)] + Delivers(w, subscribers, refusals, |picked|) + [Commit(w)];
    assert steps == [Claim(w, batch)] + rest && steps[1..] == rest;
    assert claimed.txns - {w} == s.txns;
  }

  /** A new event waits for anybody; a pass that is rolled back leaves its rows as they were, free for others. */
  lemma NothingIsLost(s: System, step: Step, max: nat)
    requires Consistent(s, max) && Possible(s, step) && max > 0
    ensures step.Emit? ==>
      var s' := Next(s, step, max);
      && s'.rows == s.rows + [Row(step.eventId, 0, false, {})]
      && Free(s'.rows, Held(s'), max, |s.rows|)
    ensures step.Rollback? ==>
      var s' := Next(s, step, max);
      && s'.rows == s.rows
      && forall k :: 0 <= k < |s.txns[step.worker].claimed| ==>
           Free(s'.rows, Held(s'), max, s.txns[step.worker].claimed[k])
  {
    if step.Emit? {
      forall w | w in s.txns
        ensures |s.rows| !in s.txns[w].claimed
      {
        assert TxnOk(s, w, max);
      }
    }
    if step.Rollback? {
      assert TxnOk(s, step.worker, max);
    }
  }

  // ------------------------------------------------------------- progress

  lemma {:induction false} WriteSpends(rows: seq<Row>, claimed: seq<nat>, read: seq<Row>, prepared: seq<Row>, max: nat)
    requires |claimed| == |read| == |prepared| && Increasing(claimed)
    requires forall k :: 0 <= k < |claimed| ==>
      claimed[k] < |rows| && rows[claimed[k]] == read[k] && Waiting(read[k], max)
      && prepared[k].attempts == read[k].attempts + 1
    ensures Remaining(Write(rows, claimed, prepared), max) + |claimed| <= Remaining(rows, max)
  {
    if claimed != [] {
      var n := |claimed| - 1;
      WriteSpends(rows, claimed[..n], read[..n], prepared[..n], max);
      WriteShape(rows, claimed[..n], prepared[..n]);
      var before := Write(rows, claimed[..n], prepared[..n]);
      assert claimed[n] !in claimed[..n];
      assert before[claimed[n]] == read[n];
      SpendOne(before, claimed[n], prepared[n], max);
    }
  }

  /** Every non-empty committed pass uses up remaining attempts, so waiting rows drain away. */
  lemma CommittedPassMakesProgress(s: System, w: nat, max: nat)
    requires Consistent(s, max) && Possible(s, Commit(w)) && s.txns[w].claimed != []
    ensures Remaining(Next(s, Commit(w), max).rows, max) < Remaining(s.rows, max)
  {
    assert TxnOk(s, w, max);
    WriteSpends(s.rows, s.txns[w].claimed, s.txns[w].read, s.txns[w].prepared, max);
  }

  /** Only a new event adds waiting work. */
  lemma OnlyEmitAddsWork(s: System, step: Step, max: nat)
    requires Consistent(s, max) && Possible(s, step) && !step.Emit?
    ensures Remaining(Next(s, step, max).rows, max) <= Remaining(s.rows, max)
  {
    if step.Commit? {
      assert TxnOk(s, step.worker, max);
      var t := s.txns[step.worker];
      WriteSpends(s.rows, t.claimed, t.read, t.prepared, max);
    }
  }
}
