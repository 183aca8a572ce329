/**
 The mandate rows of the agent lane and the four operations that move money
 between their columns: `chain`, `reserve_chain`, `release` and `settle`
 (src/agent/kernel.py).  A mandate derived from another one is charged
 together with its whole ancestry.

 Amounts are integer cents.  The empty string stands for an absent
 `parent_jti`, which the source tests by truthiness.
 */
module BudgetTree {
  import opened Wrappers

  datatype Status = Active | Suspended | Exhausted | Expired | Revoked

  datatype Conditions = Unconditional | Rule(text: string)

  /** The part of the signed claims that the gate and the budget look at. */
  datatype Claims = Claims(
    totalBudget: int,
    maxPerTxn: int,
    maxCount: Option<int>,
    categories: set<string>,
    merchants: set<string>,
    currency: string,
    conditions: Conditions,
    validUntil: Option<int>,
    nbf: int,
    exp: int)

  datatype Mandate = Mandate(
    status: Status,
    claims: Claims,
    reserved: int,
    spent: int,
    txnCount: int,
    parent: string)

  type Rows = map<string, Mandate>

  // ---------------------------------------------------------------- chain

  function Links(rows: Rows): map<string, string> {
    map j | j in rows :: rows[j].parent
  }

  function Elems(s: seq<string>): set<string> {
    set x | x in s
  }

  /** The parent of `j`; absent rows and absent parents both end the chain. */
  function ParentOf(links: map<string, string>, j: string): string {
    if j in links then links[j] else ""
  }

  /** The rows not yet seen; a walk uses one up, or leaves the table for good. */
  lemma WalkProgress(links: map<string, string>, current: string, seen: seq<string>)
    requires current !in seen
    ensures links.Keys - Elems(seen + [current]) ==
      if current in links then links.Keys - Elems(seen) - {current} else links.Keys - Elems(seen)
  {
    assert Elems(seen + [current]) == Elems(seen) + {current};
  }

  function Walk(links: map<string, string>, current: string, seen: seq<string>): seq<string>
    decreases |links.Keys - Elems(seen)|, if current == "" then 0 else 1
  {
    if current == "" || current in seen then seen
    else
      WalkProgress(links, current, seen);
      Walk(links, ParentOf(links, current), seen + [current])
  }

  function Chain(links: map<string, string>, jti: string): seq<string> {
    Walk(links, jti, [])
  }

  predicate NoDup(s: seq<string>) {
    forall i, j :: 0 <= i < j < |s| ==> s[i] != s[j]
  }

  lemma {:induction false} WalkExtends(links: map<string, string>, current: string, seen: seq<string>)
    ensures seen <= Walk(links, current, seen)
    ensures current != "" ==> current in Walk(links, current, seen)
    decreases |links.Keys - Elems(seen)|, if current == "" then 0 else 1
  {
    if current != "" && current !in seen {
      WalkProgress(links, current, seen);
      WalkExtends(links, ParentOf(links, current), seen + [current]);
      var rest := Walk(links, ParentOf(links, current), seen + [current]);
      assert rest[|seen|] == (seen + [current])[|seen|] == current;
      assert seen <= seen + [current] <= rest;
    }
  }

  lemma NoDupSnoc(s: seq<string>, x: string)
    requires NoDup(s) && x !in s
    ensures NoDup(s + [x])
  {
  }

  lemma {:induction false} WalkNoDup(links: map<string, string>, current: string, seen: seq<string>)
    requires NoDup(seen)
    ensures NoDup(Walk(links, current, seen))
    decreases |links.Keys - Elems(seen)|, if current == "" then 0 else 1
  {
    if current != "" && current !in seen {
      WalkProgress(links, current, seen);
      NoDupSnoc(seen, current);
      WalkNoDup(links, ParentOf(links, current), seen + [current]);
    }
  }

  /** A walk stops only where there is no parent left to add. */
  lemma {:induction false} WalkClosed(links: map<string, string>, current: string, seen: seq<string>)
    requires forall s :: s in seen ==>
      ParentOf(links, s) in ["", current] || ParentOf(links, s) in seen
    ensures forall s :: s in Walk(links, current, seen) ==>
      ParentOf(links, s) == "" || ParentOf(links, s) in Walk(links, current, seen)
    decreases |links.Keys - Elems(seen)|, if current == "" then 0 else 1
  {
    if current != "" && current !in seen {
      WalkProgress(links, current, seen);
      WalkClosed(links, ParentOf(links, current), seen + [current]);
    }
  }

  /**
   `chain` terminates whatever the parents are, cycles included.  It starts at
   the mandate, repeats nothing, and leaves out no ancestor.
   */
  lemma ChainIsAncestry(links: map<string, string>, jti: string)
    ensures NoDup(Chain(links, jti))
    ensures jti != "" ==> jti in Chain(links, jti) && Chain(links, jti)[0] == jti
    ensures forall s :: s in Chain(links, jti) ==>
      ParentOf(links, s) == "" || ParentOf(links, s) in Chain(links, jti)
  {
    WalkNoDup(links, jti, []);
    WalkExtends(links, jti, []);
    WalkClosed(links, jti, []);
    if jti != "" {
      WalkExtends(links, ParentOf(links, jti), [jti]);
      assert [] + [jti] == [jti];
    }
  }

  /** Only the links of the rows on the way matter to a walk. */
  lemma {:induction false} WalkFrame(links: map<string, string>, links': map<string, string>,
                                     current: string, seen: seq<string>)
    requires forall s :: s in Walk(links, current, seen) && s !in seen ==>
      s in links && s in links' && links'[s] == links[s]
    ensures Walk(links', current, seen) == Walk(links, current, seen)
    decreases |links.Keys - Elems(seen)|, if current == "" then 0 else 1
  {
    if current != "" && current !in seen {
      WalkProgress(links, current, seen);
      WalkExtends(links, current, seen);
      WalkFrame(links, links', links[current], seen + [current]);
    }
  }

  // ------------------------------------------------- what each write does

  function AddReserved(rows: Rows, ids: seq<string>, amount: int): Rows {
    map j | j in rows ::
      if j in ids then rows[j].(reserved := rows[j].reserved + amount) else rows[j]
  }

  function Unreserved(rows: Rows, ids: seq<string>, amount: int): Rows {
    map j | j in rows ::
      if j in ids then rows[j].(reserved := Max(0, rows[j].reserved - amount)) else rows[j]
  }

  /** What the floor of `_unreserve` leaves behind on rows that got their own amount back. */
  function Floored(rows: Rows, ids: seq<string>): Rows {
    map j | j in rows :: if j in ids then rows[j].(reserved := Max(0, rows[j].reserved)) else rows[j]
  }

  function SettleRow(m: Mandate, amount: int): Mandate {
    m.(reserved := Max(0, m.reserved - amount),
       spent := m.spent + amount,
       txnCount := m.txnCount + 1,
       status := if m.spent + amount >= m.claims.totalBudget then Exhausted else m.status)
  }

  function Settled(rows: Rows, ids: seq<string>, amount: int): Rows {
    map j | j in rows :: if j in ids then SettleRow(rows[j], amount) else rows[j]
  }

  predicate NonNegative(rows: Rows) {
    forall j :: j in rows ==> 0 <= rows[j].reserved
  }

  /** The columns a SELECT returned, on which the UPDATE is guarded. */
  datatype Glimpse = Glimpse(status: Status, reserved: int, spent: int, txnCount: int)

  function GlimpseOf(m: Mandate): Glimpse {
    Glimpse(m.status, m.reserved, m.spent, m.txnCount)
  }

  /**
   What the SELECT of a row returned, where somebody else committed to the row
   before the UPDATE; the table is the one the UPDATE finds.
   */
  type Stale = map<string, Glimpse>

  function Seen(rows: Rows, stale: Stale, j: string): Glimpse
    requires j in rows
  {
    if j in stale then stale[j] else GlimpseOf(rows[j])
  }

  predicate Current(rows: Rows, stale: Stale, j: string) {
    j in rows && Seen(rows, stale, j) == GlimpseOf(rows[j])
  }

  predicate Covers(rows: Rows, j: string, amount: int) {
    && j in rows
    && rows[j].status == Active
    && rows[j].spent + rows[j].reserved + amount <= rows[j].claims.totalBudget
  }

  predicate CanReserve(rows: Rows, jti: string, amount: int) {
    forall j :: j in Chain(Links(rows), jti) ==> Covers(rows, j, amount)
  }

  predicate Obtainable(rows: Rows, j: string, amount: int, stale: Stale) {
    Covers(rows, j, amount) && Current(rows, stale, j)
  }

  predicate Reservable(rows: Rows, chain: seq<string>, amount: int, stale: Stale) {
    forall k :: 0 <= k < |chain| ==> Obtainable(rows, chain[k], amount, stale)
  }

  /** How many rows are reserved before the first that cannot be. */
  function Obstacle(rows: Rows, chain: seq<string>, amount: int, stale: Stale): (n: nat)
    ensures n <= |chain|
  {
    if chain == [] || !Obtainable(rows, chain[0], amount, stale) then 0
    else 1 + Obstacle(rows, chain[1..], amount, stale)
  }

  lemma {:induction false} ObstacleIsFirst(rows: Rows, chain: seq<string>, amount: int, stale: Stale, n: nat)
    requires n <= |chain| && Reservable(rows, chain[..n], amount, stale)
    requires n < |chain| ==> !Obtainable(rows, chain[n], amount, stale)
    ensures Obstacle(rows, chain, amount, stale) == n
  {
    if n > 0 {
      assert chain[..n][0] == chain[0];
      assert chain[1..][..n - 1] == chain[..n][1..];
      assert forall k :: 0 <= k < n - 1 ==> chain[..n][1..][k] == chain[..n][k + 1];
      ObstacleIsFirst(rows, chain[1..], amount, stale, n - 1);
    }
  }

  /** The rows after a reservation, granted or refused. */
  function Attempted(rows: Rows, chain: seq<string>, amount: int, stale: Stale): Rows {
    if Reservable(rows, chain, amount, stale) then AddReserved(rows, chain, amount)
    else Floored(rows, chain[..Obstacle(rows, chain, amount, stale)])
  }

  lemma AddReservedNext(rows: Rows, ids: seq<string>, i: nat, amount: int)
    requires NoDup(ids) && i < |ids|
    ensures ids[i] in AddReserved(rows, ids[..i], amount) <==> ids[i] in rows
    ensures ids[i] in rows ==>
      var mid := AddReserved(rows, ids[..i], amount);
      var row := rows[ids[i]];
      && mid[ids[i]] == row
      && AddReserved(rows, ids[..i + 1], amount) == mid[ids[i] := row.(reserved := row.reserved + amount)]
  {
    assert ids[i] !in ids[..i];
    assert ids[..i + 1] == ids[..i] + [ids[i]];
  }

  /** Taking an amount and giving it back leaves the rows as they were, but for the floor. */
  lemma GivenBack(rows: Rows, ids: seq<string>, amount: int)
    ensures Unreserved(AddReserved(rows, ids, amount), ids, amount) == Floored(rows, ids)
    ensures (forall j :: j in ids && j in rows ==> 0 <= rows[j].reserved) <==> Floored(rows, ids) == rows
  {
    var back := Floored(rows, ids);
    if back == rows {
      forall j | j in ids && j in rows
        ensures 0 <= rows[j].reserved
      {
        assert back[j] == rows[j];
      }
    }
  }

  /** A refusal at row `i` is answered by giving the rows before it their amount back. */
  lemma RefusedAt(rows: Rows, chain: seq<string>, i: nat, amount: int, stale: Stale)
    requires i < |chain| && Reservable(rows, chain[..i], amount, stale)
    requires !Obtainable(rows, chain[i], amount, stale)
    ensures !Reservable(rows, chain, amount, stale)
    ensures Unreserved(AddReserved(rows, chain[..i], amount), chain[..i], amount)
         == Attempted(rows, chain, amount, stale)
  {
    ObstacleIsFirst(rows, chain, amount, stale, i);
    GivenBack(rows, chain[..i], amount);
  }

  lemma ReservableNext(rows: Rows, chain: seq<string>, i: nat, amount: int, stale: Stale)
    requires i < |chain| && Reservable(rows, chain[..i], amount, stale) && Obtainable(rows, chain[i], amount, stale)
    ensures Reservable(rows, chain[..i + 1], amount, stale)
  {
    assert chain[..i + 1] == chain[..i] + [chain[i]];
  }

  /** Row `i` is untouched by the rows before it. */
  lemma UntouchedSoFar(rows: Rows, chain: seq<string>, i: nat, amount: int, stale: Stale)
    requires NoDup(chain) && i < |chain|
    ensures Obtainable(AddReserved(rows, chain[..i], amount), chain[i], amount, stale)
       <==> Obtainable(rows, chain[i], amount, stale)
  {
    AddReservedNext(rows, chain, i, amount);
  }

  /** The `mandates` table and the statements the kernel runs on it. */
  class Kernel {
    var mandates: Rows

    constructor ()
      ensures mandates == map[]
    {
      mandates := map[];
    }

    method ChainOf(jti: string) returns (seen: seq<string>)
      ensures seen == Chain(Links(mandates), jti)
    {
      seen := [];
      var current := jti;
      ghost var links := Links(mandates);
      while current != "" && current !in seen
        invariant Walk(links, current, seen) == Chain(links, jti)
        decreases |links.Keys - Elems(seen)|, if current == "" then 0 else 1
      {
        WalkProgress(links, current, seen);
        seen := seen + [current];
        current := if current in mandates then mandates[current].parent else "";
      }
    }

    /** One guarded UPDATE: it matches the row only if it still reads as it was read. */
    method CompareAndSwap(jti: string, read: Glimpse, reserved: int) returns (rowcount: nat)
      modifies this
      ensures rowcount ==
        if jti in old(mandates) && old(mandates)[jti].status == Active
           && GlimpseOf(old(mandates)[jti]) == read.(status := Active) then 1 else 0
      ensures mandates ==
        if rowcount == 1 then old(mandates)[jti := old(mandates)[jti].(reserved := reserved)] else old(mandates)
    {
      if jti in mandates && mandates[jti].status == Active && mandates[jti].reserved == read.reserved
         && mandates[jti].spent == read.spent && mandates[jti].txnCount == read.txnCount {
        mandates := mandates[jti := mandates[jti].(reserved := reserved)];
        return 1;
      }
      return 0;
    }

    method Unreserve(jtis: seq<string>, amount: int)
      requires NoDup(jtis)
      modifies this
      ensures mandates == Unreserved(old(mandates), jtis, amount)
    {
      for i := 0 to |jtis|
        invariant mandates == Unreserved(old(mandates), jtis[..i], amount)
      {
        var jti := jtis[i];
        if jti in mandates {
          var freed := Max(0, mandates[jti].reserved - amount);
          mandates := mandates[jti := mandates[jti].(reserved := freed)];
        }
        assert jtis[..i + 1] == jtis[..i] + [jti];
        assert jti !in jtis[..i];
      }
      assert jtis[..|jtis|] == jtis;
    }

    /**
     All or nothing: either every row of the ancestry carries the amount, or
     the rows before the one that could not be had got it back.
     */
    method ReserveChain(jti: string, amount: int, stale: Stale) returns (ok: bool)
      modifies this
      ensures ok <==> Reservable(old(mandates), Chain(Links(old(mandates)), jti), amount, stale)
      ensures mandates == Attempted(old(mandates), Chain(Links(old(mandates)), jti), amount, stale)
      ensures !ok && NonNegative(old(mandates)) ==> mandates == old(mandates)
    {
      var chain := ChainOf(jti);
      ChainIsAncestry(Links(mandates), jti);
      ghost var rows := mandates;
      ok := ReserveRows(chain, amount, stale);
      if !ok && NonNegative(rows) {
        GivenBack(rows, chain[..Obstacle(rows, chain, amount, stale)], amount);
      }
    }

    /** The loop over the ancestry; the first row that cannot be had gives back all before it. */
    method ReserveRows(chain: seq<string>, amount: int, stale: Stale) returns (ok: bool)
      requires NoDup(chain)
      modifies this
      ensures ok <==> Reservable(old(mandates), chain, amount, stale)
      ensures mandates == Attempted(old(mandates), chain, amount, stale)
    {
      ghost var rows := mandates;
      for i := 0 to |chain|
        invariant mandates == AddReserved(rows, chain[..i], amount)
        invariant Reservable(rows, chain[..i], amount, stale)
      {
        AddReservedNext(rows, chain, i, amount);
        UntouchedSoFar(rows, chain, i, amount, stale);
        var reserved := ReserveRow(chain[i], amount, stale);
        if !reserved {
          RefusedAt(rows, chain, i, amount, stale);
          Unreserve(chain[..i], amount);
          return false;
        }
        ReservableNext(rows, chain, i, amount, stale);
      }
      assert chain[..|chain|] == chain;
      return true;
    }

    method ReserveRow(jti: string, amount: int, stale: Stale) returns (ok: bool)
      modifies this
      ensures ok <==> Obtainable(old(mandates), jti, amount, stale)
      ensures ok <==>
        && jti in old(mandates) && old(mandates)[jti].status == Active
        && old(mandates)[jti].spent + old(mandates)[jti].reserved + amount <= old(mandates)[jti].claims.totalBudget
        && (jti in stale ==> stale[jti] == GlimpseOf(old(mandates)[jti]))
      ensures ok ==>
        mandates == old(mandates)[jti := old(mandates)[jti].(reserved := old(mandates)[jti].reserved + amount)]
      ensures !ok ==> mandates == old(mandates)
    {
      if jti !in mandates {
        return false;
      }
      var seen := Seen(mandates, stale, jti);
      if seen.status != Active {
        return false;
      }
      var committed := seen.spent + seen.reserved + amount;
      if committed > mandates[jti].claims.totalBudget {
        return false;
      }
      var rowcount := CompareAndSwap(jti, seen, seen.reserved + amount);
      return rowcount != 0;
    }

    method Release(jti: string, amount: int)
      modifies this
      ensures mandates == Unreserved(old(mandates), Chain(Links(old(mandates)), jti), amount)
    {
      var chain := ChainOf(jti);
      ChainIsAncestry(Links(mandates), jti);
      Unreserve(chain, amount);
    }

    /** Reservation becomes spend; whatever its status was, a row at its budget is exhausted now. */
    method Settle(jti: string, amount: int)
      modifies this
      ensures mandates == Settled(old(mandates), Chain(Links(old(mandates)), jti), amount)
      ensures mandates.Keys == old(mandates).Keys
      ensures forall j :: j in old(mandates) ==>
        var row := old(mandates)[j];
        mandates[j] ==
          if j !in Chain(Links(old(mandates)), jti) then row
          else Mandate(if row.claims.totalBudget <= row.spent + amount then Exhausted else row.status,
                       row.claims,
                       if row.reserved <= amount then 0 else row.reserved - amount,
                       row.spent + amount, row.txnCount + 1, row.parent)
    {
      var chain := ChainOf(jti);
      ChainIsAncestry(Links(mandates), jti);
      for i := 0 to |chain|
        invariant mandates == Settled(old(mandates), chain[..i], amount)
      {
        var j := chain[i];
        assert chain[i] !in chain[..i];
        if j in mandates {
          var row := mandates[j];
          var freed := Max(0, row.reserved - amount);
          var spent := row.spent + amount;
          var exhausted := spent >= row.claims.totalBudget;
          mandates := mandates[j := row.(reserved := freed, spent := spent,
            txnCount := row.txnCount + 1, status := if exhausted then Exhausted else row.status)];
        }
        assert chain[..i + 1] == chain[..i] + [j];
      }
      assert chain[..|chain|] == chain;
    }

    /** The INSERT of `mandate.issue`: a new, active row with empty columns. */
    method Issue(jti: string, claims: Claims, parent: string)
      requires jti !in mandates
      modifies this
      ensures mandates == old(mandates)[jti := Mandate(Active, claims, 0, 0, 0, parent)]
    {
      mandates := mandates[jti := Mandate(Active, claims, 0, 0, 0, parent)];
    }

    /** The UPDATE of `mandate.revoke`, and of an expiry found by `verify`. */
    method SetStatus(jti: string, status: Status)
      modifies this
      ensures mandates == WithStatus(old(mandates), jti, status)
    {
      if jti in mandates {
        mandates := mandates[jti := mandates[jti].(status := status)];
      }
    }
  }

  function WithStatus(rows: Rows, jti: string, status: Status): Rows {
    if jti in rows then rows[jti := rows[jti].(status := status)] else rows
  }
}
