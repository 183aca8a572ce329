/**
 The mandate rows together with the intents reserved on them, over every serial
 run of issue, reserve, settle, release and status changes (src/agent/kernel.py,
 src/agent/mandate.py), at any amounts: nothing here refuses a negative price,
 because the kernel does not.
 */
module BudgetBooks {
  import opened Wrappers
  import opened BudgetTree

  datatype Phase = Open | Done | Freed

  /** One successful reservation, and what became of it. */
  datatype Intent = Intent(jti: string, amount: int, phase: Phase)

  datatype Book = Book(rows: Rows, intents: seq<Intent>)

  datatype Op =
    | Issue(jti: string, claims: Claims, parent: string)
    | Reserve(mandate: string, amount: int, stale: Stale)
    | Settle(intent: nat)
    | Release(intent: nat)
    | SetStatus(target: string, status: Status)

  predicate Enabled(b: Book, op: Op) {
    match op
    case Issue(jti, _, _) => jti != "" && jti !in b.rows
    case Reserve(_, _, _) => true
    case Settle(k) => k < |b.intents| && b.intents[k].phase == Open
    case Release(k) => k < |b.intents| && b.intents[k].phase == Open
    case SetStatus(_, _) => true
  }

  function Ancestry(b: Book, jti: string): seq<string> {
    Chain(Links(b.rows), jti)
  }

  function Apply(b: Book, op: Op): Book
    requires Enabled(b, op)
  {
    match op
    case Issue(jti, claims, parent) =>
      b.(rows := b.rows[jti := Mandate(Active, claims, 0, 0, 0, parent)])
    case Reserve(jti, amount, stale) =>
      var chain := Ancestry(b, jti);
      Book(Attempted(b.rows, chain, amount, stale),
           if Reservable(b.rows, chain, amount, stale) then b.intents + [Intent(jti, amount, Open)] else b.intents)
    case Settle(k) =>
      var i := b.intents[k];
      Book(Settled(b.rows, Ancestry(b, i.jti), i.amount), b.intents[k := i.(phase := Done)])
    case Release(k) =>
      var i := b.intents[k];
      Book(Unreserved(b.rows, Ancestry(b, i.jti), i.amount), b.intents[k := i.(phase := Freed)])
    case SetStatus(jti, status) => b.(rows := WithStatus(b.rows, jti, status))
  }

  ghost predicate Legal(b: Book, ops: seq<Op>)
    decreases |ops|
  {
    ops == [] || (Enabled(b, ops[0]) && Legal(Apply(b, ops[0]), ops[1..]))
  }

  ghost function Run(b: Book, ops: seq<Op>): Book
    requires Legal(b, ops)
    decreases |ops|
  {
    if ops == [] then b else Run(Apply(b, ops[0]), ops[1..])
  }

  // ------------------------------------------------------- sums of intents

  datatype Unit = Cents | Count

  function Share(i: Intent, unit: Unit): int {
    if unit == Cents then i.amount else 1
  }

  /** What one intent adds to the column of mandate `j`. */
  function Weight(links: map<string, string>, i: Intent, j: string, phase: Phase, unit: Unit): int {
    if i.phase == phase && j in Chain(links, i.jti) then Share(i, unit) else 0
  }

  function Charged(links: map<string, string>, intents: seq<Intent>, j: string,
                   phase: Phase, unit: Unit): int
  {
    if intents == [] then 0
    else
      var n := |intents| - 1;
      Charged(links, intents[..n], j, phase, unit) + Weight(links, intents[n], j, phase, unit)
  }

  lemma {:induction false} ChargedUpdate(links: map<string, string>, intents: seq<Intent>, k: nat, x: Intent,
                                         j: string, phase: Phase, unit: Unit)
    requires k < |intents|
    ensures Charged(links, intents[k := x], j, phase, unit)
         == Charged(links, intents, j, phase, unit)
            - Weight(links, intents[k], j, phase, unit) + Weight(links, x, j, phase, unit)
  {
    var n := |intents| - 1;
    if k == n {
      assert intents[k := x][..n] == intents[..n];
    } else {
      assert intents[k := x][..n] == intents[..n][k := x];
      ChargedUpdate(links, intents[..n], k, x, j, phase, unit);
    }
  }

  lemma ChargedMore(links: map<string, string>, intents: seq<Intent>, x: Intent, j: string, phase: Phase, unit: Unit)
    ensures Charged(links, intents + [x], j, phase, unit)
         == Charged(links, intents, j, phase, unit) + Weight(links, x, j, phase, unit)
  {
    assert (intents + [x])[..|intents|] == intents;
  }

  lemma {:induction false} ChargedFrame(links: map<string, string>, links': map<string, string>,
                                        intents: seq<Intent>, j: string, phase: Phase, unit: Unit)
    requires forall k :: 0 <= k < |intents| ==>
      Chain(links', intents[k].jti) == Chain(links, intents[k].jti)
    ensures Charged(links', intents, j, phase, unit) == Charged(links, intents, j, phase, unit)
  {
    if intents != [] {
      var n := |intents| - 1;
      assert forall k :: 0 <= k < n ==> intents[..n][k] == intents[k];
      ChargedFrame(links, links', intents[..n], j, phase, unit);
      assert Chain(links', intents[n].jti) == Chain(links, intents[n].jti);
    }
  }

  /** No intent weighs more than the column it is part of, when amounts are not negative. */
  lemma {:induction false} ChargedAtLeast(links: map<string, string>, intents: seq<Intent>, k: nat,
                                          j: string, phase: Phase)
    requires forall i :: 0 <= i < |intents| ==> 0 <= intents[i].amount
    requires k <= |intents|
    ensures 0 <= Charged(links, intents, j, phase, Cents)
    ensures k < |intents| ==>
      Weight(links, intents[k], j, phase, Cents) <= Charged(links, intents, j, phase, Cents)
  {
    if intents != [] {
      var n := |intents| - 1;
      ChargedAtLeast(links, intents[..n], if k < n then k else n, j, phase);
    }
  }

  lemma {:induction false} ChargedNothing(links: map<string, string>, intents: seq<Intent>, j: string,
                                          phase: Phase, unit: Unit)
    requires forall k :: 0 <= k < |intents| ==> j !in Chain(links, intents[k].jti)
    ensures Charged(links, intents, j, phase, unit) == 0
  {
    if intents != [] {
      var n := |intents| - 1;
      assert forall k :: 0 <= k < n ==> intents[..n][k] == intents[k];
      ChargedNothing(links, intents[..n], j, phase, unit);
      assert j !in Chain(links, intents[n].jti);
    }
  }

  // ---------------------------------------------------------- what is exact

  /** The whole ancestry of an intent is in the table, so its chain is settled for good. */
  ghost predicate IntentKnown(rows: Rows, i: Intent) {
    forall j :: j in Chain(Links(rows), i.jti) ==> j in rows
  }

  ghost predicate Known(b: Book) {
    forall k :: 0 <= k < |b.intents| ==> IntentKnown(b.rows, b.intents[k])
  }

  /** `spent` and `txn_count` are the sums over the settled intents charged to the row. */
  ghost predicate SpendExact(b: Book, j: string)
    requires j in b.rows
  {
    && b.rows[j].spent == Charged(Links(b.rows), b.intents, j, Done, Cents)
    && b.rows[j].txnCount == Charged(Links(b.rows), b.intents, j, Done, Count)
  }

  /** By how much `reserved` exceeds the open intents charged to the row. */
  ghost function Drift(b: Book, j: string): int
    requires j in b.rows
  {
    b.rows[j].reserved - Charged(Links(b.rows), b.intents, j, Open, Cents)
  }

  /** What the floor at zero takes away from row `j` when `op` runs; read off the rows before it. */
  function Bite(b: Book, op: Op, j: string): nat
    requires Enabled(b, op) && j in b.rows
  {
    match op
    case Reserve(jti, amount, stale) =>
      var chain := Ancestry(b, jti);
      if !Reservable(b.rows, chain, amount, stale) && j in chain[..Obstacle(b.rows, chain, amount, stale)]
      then Max(0, -b.rows[j].reserved) else 0
    case Settle(k) =>
      if j in Ancestry(b, b.intents[k].jti) then Max(0, b.intents[k].amount - b.rows[j].reserved) else 0
    case Release(k) =>
      if j in Ancestry(b, b.intents[k].jti) then Max(0, b.intents[k].amount - b.rows[j].reserved) else 0
    case _ => 0
  }

  // ------------------------------------------------------ one step at a time

  /** A new row changes no chain and no sum, and is charged for nothing. */
  lemma IssueKeepsSums(b: Book, jti: string, claims: Claims, parent: string, j: string, phase: Phase, unit: Unit)
    requires Known(b) && jti != "" && jti !in b.rows
    ensures var b' := Apply(b, Op.Issue(jti, claims, parent));
      && Known(b')
      && Charged(Links(b'.rows), b.intents, j, phase, unit) == Charged(Links(b.rows), b.intents, j, phase, unit)
      && Charged(Links(b.rows), b.intents, jti, phase, unit) == 0
  {
    var b' := Apply(b, Op.Issue(jti, claims, parent));
    var links, links' := Links(b.rows), Links(b'.rows);
    forall k | 0 <= k < |b.intents|
      ensures Chain(links', b.intents[k].jti) == Chain(links, b.intents[k].jti)
      ensures jti !in Chain(links, b.intents[k].jti)
      ensures IntentKnown(b'.rows, b.intents[k])
    {
      assert IntentKnown(b.rows, b.intents[k]);
      WalkFrame(links, links', b.intents[k].jti, []);
    }
    ChargedFrame(links, links', b.intents, j, phase, unit);
    ChargedNothing(links, b.intents, jti, phase, unit);
  }

  lemma ReservableIsKnown(rows: Rows, jti: string, amount: int, stale: Stale)
    requires Reservable(rows, Chain(Links(rows), jti), amount, stale)
    ensures forall j :: j in Chain(Links(rows), jti) ==> Obtainable(rows, j, amount, stale)
    ensures CanReserve(rows, jti, amount)
  {
    var chain := Chain(Links(rows), jti);
    forall j | j in chain
      ensures Obtainable(rows, j, amount, stale)
    {
      var k :| 0 <= k < |chain| && chain[k] == j;
      assert Obtainable(rows, chain[k], amount, stale);
    }
  }

  lemma SameLinks(b: Book, op: Op)
    requires Enabled(b, op) && !op.Issue?
    ensures Apply(b, op).rows.Keys == b.rows.Keys && Links(Apply(b, op).rows) == Links(b.rows)
  {
  }

  lemma StepKeepsKnown(b: Book, op: Op)
    requires Known(b) && Enabled(b, op)
    ensures Known(Apply(b, op))
  {
    if op.Issue? {
      IssueKeepsSums(b, op.jti, op.claims, op.parent, "", Open, Cents);
    } else {
      SameLinks(b, op);
      var b' := Apply(b, op);
      forall k | 0 <= k < |b'.intents|
        ensures IntentKnown(b'.rows, b'.intents[k])
      {
        if k < |b.intents| {
          assert IntentKnown(b.rows, b.intents[k]);
          assert b'.intents[k].jti == b.intents[k].jti;
        } else {
          ReservableIsKnown(b.rows, op.mandate, op.amount, op.stale);
        }
      }
    }
  }

  /** The sums of a row before and after any step but an issue. */
  lemma SumsMove(b: Book, op: Op, j: string)
    requires Enabled(b, op) && !op.Issue? && j in b.rows
    ensures var links := Links(b.rows);
      var before, after := b.intents, Apply(b, op).intents;
      var moved := if op.Settle? || op.Release? then b.intents[op.intent] else Intent("", 0, Freed);
      var hit := (op.Settle? || op.Release?) && j in Chain(links, moved.jti);
      && Charged(links, after, j, Open, Cents) == Charged(links, before, j, Open, Cents)
           - (if hit then moved.amount else 0)
           + (if |after| > |before| && j in Chain(links, op.mandate) then op.amount else 0)
      && Charged(links, after, j, Done, Cents) == Charged(links, before, j, Done, Cents)
           + (if hit && op.Settle? then moved.amount else 0)
      && Charged(links, after, j, Done, Count) == Charged(links, before, j, Done, Count)
           + (if hit && op.Settle? then 1 else 0)
  {
    var links := Links(b.rows);
    match op
    case Settle(k) => CloseMoves(links, b.intents, k, Done, j);
    case Release(k) => CloseMoves(links, b.intents, k, Freed, j);
    case Reserve(jti, amount, _) =>
      ChargedMore(links, b.intents, Intent(jti, amount, Open), j, Open, Cents);
      ChargedMore(links, b.intents, Intent(jti, amount, Open), j, Done, Cents);
      ChargedMore(links, b.intents, Intent(jti, amount, Open), j, Done, Count);
    case SetStatus(_, _) =>
  }

  lemma CloseMoves(links: map<string, string>, intents: seq<Intent>, k: nat, phase: Phase, j: string)
    requires k < |intents| && intents[k].phase == Open && phase != Open
    ensures var after := intents[k := intents[k].(phase := phase)];
      var hit := j in Chain(links, intents[k].jti);
      && Charged(links, after, j, Open, Cents)
           == Charged(links, intents, j, Open, Cents) - (if hit then intents[k].amount else 0)
      && Charged(links, after, j, Done, Cents)
           == Charged(links, intents, j, Done, Cents) + (if hit && phase == Done then intents[k].amount else 0)
      && Charged(links, after, j, Done, Count)
           == Charged(links, intents, j, Done, Count) + (if hit && phase == Done then 1 else 0)
  {
    var x := intents[k].(phase := phase);
    ChargedUpdate(links, intents, k, x, j, Open, Cents);
    ChargedUpdate(links, intents, k, x, j, Done, Cents);
    ChargedUpdate(links, intents, k, x, j, Done, Count);
  }

  /** Whatever the amounts, no step makes `spent` or `txn_count` inexact. */
  lemma StepKeepsSpend(b: Book, op: Op, j: string)
    requires Known(b) && Enabled(b, op) && j in Apply(b, op).rows
    requires j in b.rows ==> SpendExact(b, j)
    ensures SpendExact(Apply(b, op), j)
  {
    if op.Issue? {
      IssueKeepsSums(b, op.jti, op.claims, op.parent, j, Done, Cents);
      IssueKeepsSums(b, op.jti, op.claims, op.parent, j, Done, Count);
    } else {
      SameLinks(b, op);
      SumsMove(b, op, j);
    }
  }

  /** A step drifts a row by exactly what the floor takes, and a new row starts with none. */
  lemma StepDrift(b: Book, op: Op, j: string)
    requires Known(b) && Enabled(b, op) && j in Apply(b, op).rows
    ensures Drift(Apply(b, op), j) == if j in b.rows then Drift(b, j) + Bite(b, op, j) else 0
  {
    if op.Issue? {
      IssueKeepsSums(b, op.jti, op.claims, op.parent, j, Open, Cents);
    } else {
      SameLinks(b, op);
      SumsMove(b, op, j);
    }
  }

  // ------------------------------------------------------------ whole runs

  ghost predicate AllSpendExact(b: Book) {
    Known(b) && forall j :: j in b.rows ==> SpendExact(b, j)
  }

  /**
   Over every serial run, at any amounts and at every depth of the tree: spent
   and the purchase count are the sums over the settled intents whose ancestry
   contains the row.
   */
  lemma {:induction false} RunKeepsSpend(b: Book, ops: seq<Op>)
    requires AllSpendExact(b) && Legal(b, ops)
    ensures AllSpendExact(Run(b, ops))
    decreases |ops|
  {
    if ops != [] {
      StepKeepsKnown(b, ops[0]);
      forall j | j in Apply(b, ops[0]).rows
        ensures SpendExact(Apply(b, ops[0]), j)
      {
        StepKeepsSpend(b, ops[0], j);
      }
      RunKeepsSpend(Apply(b, ops[0]), ops[1..]);
    }
  }

  ghost predicate AllHeldExact(b: Book) {
    forall j :: j in b.rows ==> Drift(b, j) == 0
  }

  /** The floor takes nothing at any step of the run. */
  ghost predicate Smooth(b: Book, ops: seq<Op>)
    requires Legal(b, ops)
    decreases |ops|
  {
    ops == [] ||
    (&& (forall j :: j in b.rows ==> Bite(b, ops[0], j) == 0)
     && Smooth(Apply(b, ops[0]), ops[1..]))
  }

  /** What drifted never drifts back. */
  lemma {:induction false} DriftStays(b: Book, ops: seq<Op>, j: string)
    requires Known(b) && Legal(b, ops) && j in b.rows
    ensures j in Run(b, ops).rows && Drift(b, j) <= Drift(Run(b, ops), j)
    decreases |ops|
  {
    if ops != [] {
      StepKeepsKnown(b, ops[0]);
      assert j in Apply(b, ops[0]).rows;
      StepDrift(b, ops[0], j);
      DriftStays(Apply(b, ops[0]), ops[1..], j);
    }
  }

  /**
   Over every serial run, at any amounts: at the end every `reserved` column is
   the sum of the open intents charged to it if and only if at no step a row had
   less reserved than it was to give back.
   */
  lemma {:induction false} RunKeepsHeld(b: Book, ops: seq<Op>)
    requires Known(b) && AllHeldExact(b) && Legal(b, ops)
    ensures AllHeldExact(Run(b, ops)) <==> Smooth(b, ops)
    decreases |ops|
  {
    if ops != [] {
      var b' := Apply(b, ops[0]);
      StepKeepsKnown(b, ops[0]);
      forall j | j in b'.rows
        ensures Drift(b', j) == if j in b.rows then Bite(b, ops[0], j) else 0
      {
        StepDrift(b, ops[0], j);
      }
      assert b.rows.Keys <= b'.rows.Keys;
      if forall j :: j in b.rows ==> Bite(b, ops[0], j) == 0 {
        RunKeepsHeld(b', ops[1..]);
      } else {
        var j :| j in b.rows && Bite(b, ops[0], j) != 0;
        DriftStays(b', ops[1..], j);
      }
    }
  }

  // ------------------------------------------------------------ the budget

  ghost predicate Within(b: Book) {
    forall j :: j in b.rows ==> b.rows[j].spent + b.rows[j].reserved <= Max(0, b.rows[j].claims.totalBudget)
  }

  /** A release, which alone is not guarded by the budget, leaves each of its rows within it. */
  ghost predicate Room(b: Book, op: Op)
    requires Enabled(b, op)
  {
    op.Release? ==>
      forall j :: j in b.rows && j in Ancestry(b, b.intents[op.intent].jti) ==>
        b.rows[j].spent + Max(0, b.rows[j].reserved - b.intents[op.intent].amount)
          <= Max(0, b.rows[j].claims.totalBudget)
  }

  /** A step the floor takes nothing from keeps to the budget exactly when a release has room. */
  lemma StepStaysWithin(b: Book, op: Op)
    requires Enabled(b, op) && Within(b)
    requires forall j :: j in b.rows ==> Bite(b, op, j) == 0
    ensures Within(Apply(b, op)) <==> Room(b, op)
  {
    var b' := Apply(b, op);
    if op.Reserve? && Reservable(b.rows, Ancestry(b, op.mandate), op.amount, op.stale) {
      ReservableIsKnown(b.rows, op.mandate, op.amount, op.stale);
    }
    if Room(b, op) {
      forall j | j in b'.rows
        ensures b'.rows[j].spent + b'.rows[j].reserved <= Max(0, b'.rows[j].claims.totalBudget)
      {
        if j in b.rows {
          assert Bite(b, op, j) == 0;
        }
      }
    } else {
      var j :| j in b.rows && j in Ancestry(b, b.intents[op.intent].jti)
        && b.rows[j].spent + Max(0, b.rows[j].reserved - b.intents[op.intent].amount)
             > Max(0, b.rows[j].claims.totalBudget);
      assert j in b'.rows;
    }
  }

  /** Everything exact, and every row within its budget. */
  ghost predicate Conserved(b: Book) {
    AllSpendExact(b) && AllHeldExact(b) && Within(b)
  }

  /** The condition on one step, read off the rows before it. */
  ghost predicate Gentle(b: Book, op: Op)
    requires Enabled(b, op)
  {
    (forall j :: j in b.rows ==> Bite(b, op, j) == 0) && Room(b, op)
  }

  /** At any amounts, a step conserves the books if and only if it is gentle. */
  lemma StepConserves(b: Book, op: Op)
    requires Conserved(b) && Enabled(b, op)
    ensures Conserved(Apply(b, op)) <==> Gentle(b, op)
  {
    var b' := Apply(b, op);
    StepKeepsKnown(b, op);
    forall j | j in b'.rows
      ensures SpendExact(b', j)
      ensures Drift(b', j) == if j in b.rows then Bite(b, op, j) else 0
    {
      StepKeepsSpend(b, op, j);
      StepDrift(b, op, j);
    }
    assert b.rows.Keys <= b'.rows.Keys;
    if forall j :: j in b.rows ==> Bite(b, op, j) == 0 {
      StepStaysWithin(b, op);
    } else {
      var j :| j in b.rows && Bite(b, op, j) != 0;
      assert Drift(b', j) != 0;
    }
  }

  ghost predicate GentleRun(b: Book, ops: seq<Op>)
    requires Legal(b, ops)
    decreases |ops|
  {
    ops == [] || (Gentle(b, ops[0]) && GentleRun(Apply(b, ops[0]), ops[1..]))
  }

  ghost predicate AlwaysConserved(b: Book, ops: seq<Op>)
    requires Legal(b, ops)
    decreases |ops|
  {
    Conserved(b) && (ops == [] || AlwaysConserved(Apply(b, ops[0]), ops[1..]))
  }

  /**
   Conservation over every serial run, at any amounts: the books are exact and
   every row within its budget at every point of a run if and only if every
   step of it is gentle.
   */
  lemma {:induction false} RunConservesExactlyWhenGentle(b: Book, ops: seq<Op>)
    requires Conserved(b) && Legal(b, ops)
    ensures AlwaysConserved(b, ops) <==> GentleRun(b, ops)
    decreases |ops|
  {
    if ops != [] {
      StepConserves(b, ops[0]);
      if Gentle(b, ops[0]) {
        RunConservesExactlyWhenGentle(Apply(b, ops[0]), ops[1..]);
      }
    }
  }

  // --------------------------------------------------- non-negative amounts

  ghost predicate NoRefunds(intents: seq<Intent>) {
    forall k :: 0 <= k < |intents| ==> 0 <= intents[k].amount
  }

  ghost predicate Balanced(b: Book) {
    Conserved(b) && NoRefunds(b.intents)
  }

  ghost predicate NonNegativeOps(ops: seq<Op>) {
    forall k :: 0 <= k < |ops| && ops[k].Reserve? ==> 0 <= ops[k].amount
  }

  lemma BalancedIsNonNegative(b: Book)
    requires AllHeldExact(b) && NoRefunds(b.intents)
    ensures NonNegative(b.rows)
  {
    forall j | j in b.rows
      ensures 0 <= b.rows[j].reserved
    {
      assert Drift(b, j) == 0;
      ChargedAtLeast(Links(b.rows), b.intents, |b.intents|, j, Open);
    }
  }

  /** The floor at zero in `_unreserve` and `settle` never bites on books without refunds. */
  lemma OpenIntentIsReserved(b: Book, k: nat, j: string)
    requires AllHeldExact(b) && NoRefunds(b.intents) && k < |b.intents| && b.intents[k].phase == Open
    requires j in b.rows && j in Ancestry(b, b.intents[k].jti)
    ensures b.intents[k].amount <= b.rows[j].reserved
  {
    assert Drift(b, j) == 0;
    ChargedAtLeast(Links(b.rows), b.intents, k, j, Open);
  }

  lemma NoRefundsIsGentle(b: Book, op: Op)
    requires Balanced(b) && Enabled(b, op)
    ensures Gentle(b, op)
  {
    BalancedIsNonNegative(b);
    forall j | j in b.rows
      ensures Bite(b, op, j) == 0
    {
      if op.Settle? || op.Release? {
        if j in Ancestry(b, b.intents[op.intent].jti) {
          OpenIntentIsReserved(b, op.intent, j);
        }
      }
    }
    if op.Release? {
      assert 0 <= b.intents[op.intent].amount;
    }
  }

  lemma StepKeepsBalance(b: Book, op: Op)
    requires Balanced(b) && Enabled(b, op) && (op.Reserve? ==> 0 <= op.amount)
    ensures Balanced(Apply(b, op))
  {
    NoRefundsIsGentle(b, op);
    StepConserves(b, op);
  }

  /**
   With non-negative amounts every step is gentle: spent, reserved and the
   purchase count are the sums over the intents charged to a row's subtree, and
   no row is ever overspent.
   */
  lemma {:induction false} RunKeepsBalance(b: Book, ops: seq<Op>)
    requires Balanced(b) && Legal(b, ops) && NonNegativeOps(ops)
    ensures Balanced(Run(b, ops)) && GentleRun(b, ops)
    decreases |ops|
  {
    if ops != [] {
      NoRefundsIsGentle(b, ops[0]);
      StepKeepsBalance(b, ops[0]);
      assert forall k :: 0 <= k < |ops[1..]| ==> ops[1..][k] == ops[k + 1];
      RunKeepsBalance(Apply(b, ops[0]), ops[1..]);
    }
  }

  // ------------------------------------------------------ when a row is done

  /** The row is exhausted exactly when it has bought something and its budget is gone. */
  predicate DoneWhenSpent(m: Mandate) {
    && 0 <= m.txnCount
    && m.status in {Active, Exhausted}
    && (m.status == Exhausted <==> 0 < m.txnCount && m.claims.totalBudget <= m.spent)
  }

  lemma StepExhausts(b: Book, op: Op, j: string)
    requires Enabled(b, op) && NoRefunds(b.intents) && j in Apply(b, op).rows
    requires op.SetStatus? ==> op.target != j
    requires j in b.rows ==> DoneWhenSpent(b.rows[j])
    ensures DoneWhenSpent(Apply(b, op).rows[j])
  {
    if op.Settle? {
      assert 0 <= b.intents[op.intent].amount;
    }
  }

  /**
   Over every serial run without negative amounts, a mandate whose status nobody
   sets is exhausted if and only if it has bought something and its spend has
   reached its budget; until then it is active.
   */
  lemma {:induction false} ExhaustedExactlyWhenSpent(b: Book, ops: seq<Op>, j: string)
    requires Legal(b, ops) && NonNegativeOps(ops) && NoRefunds(b.intents) && j in Run(b, ops).rows
    requires forall k :: 0 <= k < |ops| && ops[k].SetStatus? ==> ops[k].target != j
    requires j in b.rows ==> DoneWhenSpent(b.rows[j])
    ensures DoneWhenSpent(Run(b, ops).rows[j])
    decreases |ops|
  {
    if ops != [] {
      var b' := Apply(b, ops[0]);
      if j in b'.rows {
        StepExhausts(b, ops[0], j);
      }
      assert NoRefunds(b'.intents) by {
        assert ops[0].Reserve? ==> 0 <= ops[0].amount;
      }
      assert forall k :: 0 <= k < |ops[1..]| ==> ops[1..][k] == ops[k + 1];
      ExhaustedExactlyWhenSpent(b', ops[1..], j);
    }
  }

  const NOTHING := Book(map[], [])

  lemma NothingIsBalanced()
    ensures Balanced(NOTHING)
  {
  }

  lemma ConservationFromEmpty(ops: seq<Op>)
    requires Legal(NOTHING, ops)
    ensures AllSpendExact(Run(NOTHING, ops))
    ensures AllHeldExact(Run(NOTHING, ops)) <==> Smooth(NOTHING, ops)
    ensures NonNegativeOps(ops) ==> Balanced(Run(NOTHING, ops))
    ensures NonNegativeOps(ops) && (forall k :: 0 <= k < |ops| ==> !ops[k].SetStatus?) ==>
      forall j :: j in Run(NOTHING, ops).rows ==> DoneWhenSpent(Run(NOTHING, ops).rows[j])
  {
    NothingIsBalanced();
    RunKeepsSpend(NOTHING, ops);
    RunKeepsHeld(NOTHING, ops);
    if NonNegativeOps(ops) {
      RunKeepsBalance(NOTHING, ops);
      if forall k :: 0 <= k < |ops| ==> !ops[k].SetStatus? {
        forall j | j in Run(NOTHING, ops).rows
          ensures DoneWhenSpent(Run(NOTHING, ops).rows[j])
        {
          ExhaustedExactlyWhenSpent(NOTHING, ops, j);
        }
      }
    }
  }
}
