/**
 What conservation means on a tree: a parent's spend is its own purchases plus
 the spend of its children, at any amounts.
 */
module BudgetForest {
  import opened Wrappers
  import opened BudgetTree
  import opened BudgetBooks

  /** Parents exist and nobody is their own ancestor. */
  ghost predicate Forest(links: map<string, string>) {
    forall j :: j in links ==> j != "" && (links[j] != "" ==> links[j] in links && j !in Chain(links, links[j]))
  }

  // ------------------------------------------------------ shape of a chain

  lemma {:induction false} WalkShift(links: map<string, string>, x: string, current: string, seen: seq<string>)
    requires x !in Walk(links, current, seen)
    ensures Walk(links, current, [x] + seen) == [x] + Walk(links, current, seen)
    decreases |links.Keys - Elems(seen)|, if current == "" then 0 else 1
  {
    if current != "" && current !in seen {
      WalkProgress(links, current, seen);
      WalkExtends(links, current, seen);
      assert current !in [x] + seen;
      assert [x] + seen + [current] == [x] + (seen + [current]);
      WalkShift(links, x, ParentOf(links, current), seen + [current]);
    }
  }

  lemma ChainCons(links: map<string, string>, x: string)
    requires Forest(links) && x in links
    ensures Chain(links, x) == [x] + Chain(links, links[x])
    ensures x !in Chain(links, links[x])
  {
    WalkShift(links, x, links[x], []);
    assert [] + [x] == [x] == [x] + [];
  }

  /** A child of `j` is never among `j`'s own ancestors. */
  lemma NoChildAbove(links: map<string, string>, j: string, c: string)
    requires Forest(links) && j in links && c in links && links[c] == j
    ensures c !in Chain(links, j)
  {
    ChainCons(links, j);
    ChainIsAncestry(links, links[j]);
    ChainIsAncestry(links, j);
    if c in Chain(links, links[j]) {
      assert false;
    }
  }

  // --------------------------------------------------- charging through children

  /** What the rows of `children` that appear in `chain` receive of `w`. */
  function Through(children: seq<string>, chain: seq<string>, w: int): int {
    if children == [] then 0
    else
      var n := |children| - 1;
      Through(children[..n], chain, w) + (if children[n] in chain then w else 0)
  }

  lemma {:induction false} ThroughCons(children: seq<string>, x: string, rest: seq<string>, w: int)
    requires NoDup(children) && x !in rest
    ensures Through(children, [x] + rest, w) == Through(children, rest, w) + (if x in children then w else 0)
  {
    if children != [] {
      var n := |children| - 1;
      ThroughCons(children[..n], x, rest, w);
      assert children == children[..n] + [children[n]];
      assert children[n] !in children[..n];
    }
  }

  lemma {:induction false} ThroughNone(children: seq<string>, chain: seq<string>, w: int)
    requires forall c :: c in children ==> c !in chain
    ensures Through(children, chain, w) == 0
  {
    if children != [] {
      ThroughNone(children[..|children| - 1], chain, w);
    }
  }

  ghost predicate ChildrenOf(links: map<string, string>, j: string, children: seq<string>) {
    && NoDup(children)
    && forall c :: c in children <==> c in links && links[c] == j
  }

  /** An ancestry that reaches `j` starts at `j` or goes through exactly one child. */
  lemma {:induction false} ReachesThroughOneChild(links: map<string, string>, j: string, children: seq<string>,
                                                  x: string, w: int)
    requires Forest(links) && j in links && ChildrenOf(links, j, children)
    requires x in links
    ensures (if j in Chain(links, x) then w else 0)
         == (if x == j then w else 0) + Through(children, Chain(links, x), w)
    decreases |Chain(links, x)|
  {
    ChainCons(links, x);
    if x == j {
      forall c | c in children
        ensures c !in Chain(links, j)
      {
        NoChildAbove(links, j, c);
      }
      ThroughNone(children, Chain(links, j), w);
    } else {
      var p := links[x];
      ThroughCons(children, x, Chain(links, p), w);
      if p == "" {
        ThroughNone(children, Chain(links, p), w);
      } else {
        ReachesThroughOneChild(links, j, children, p, w);
        if p == j {
          forall c | c in children
            ensures c !in Chain(links, j)
          {
            NoChildAbove(links, j, c);
          }
          ThroughNone(children, Chain(links, j), w);
          ChainIsAncestry(links, j);
        }
      }
    }
  }

  /** Settled cents of purchases made directly on `j`. */
  function OwnSpend(intents: seq<Intent>, j: string): int {
    if intents == [] then 0
    else
      var n := |intents| - 1;
      OwnSpend(intents[..n], j)
      + (if intents[n].phase == Done && intents[n].jti == j then intents[n].amount else 0)
  }

  function SpendOf(rows: Rows, ids: seq<string>): int
    requires forall c :: c in ids ==> c in rows
  {
    if ids == [] then 0
    else SpendOf(rows, ids[..|ids| - 1]) + rows[ids[|ids| - 1]].spent
  }

  function ChargedTo(links: map<string, string>, intents: seq<Intent>, ids: seq<string>): int {
    if ids == [] then 0
    else
      ChargedTo(links, intents, ids[..|ids| - 1])
      + Charged(links, intents, ids[|ids| - 1], Done, Cents)
  }

  lemma {:induction false} ChargedToLast(links: map<string, string>, intents: seq<Intent>, ids: seq<string>)
    requires intents != []
    ensures var i := intents[|intents| - 1];
      ChargedTo(links, intents, ids) == ChargedTo(links, intents[..|intents| - 1], ids)
        + Through(ids, Chain(links, i.jti), if i.phase == Done then i.amount else 0)
  {
    if ids != [] {
      ChargedToLast(links, intents, ids[..|ids| - 1]);
    }
  }

  lemma {:induction false} ChargedToNothing(links: map<string, string>, ids: seq<string>)
    ensures ChargedTo(links, [], ids) == 0
  {
    if ids != [] {
      ChargedToNothing(links, ids[..|ids| - 1]);
    }
  }

  lemma {:induction false} ChargedThroughChildren(links: map<string, string>, intents: seq<Intent>,
                                                  j: string, children: seq<string>)
    requires Forest(links) && j in links && ChildrenOf(links, j, children)
    requires forall k :: 0 <= k < |intents| ==> intents[k].jti in links || intents[k].jti == ""
    ensures Charged(links, intents, j, Done, Cents)
         == OwnSpend(intents, j) + ChargedTo(links, intents, children)
  {
    if intents == [] {
      ChargedToNothing(links, children);
    } else {
      var n := |intents| - 1;
      var i := intents[n];
      assert forall k :: 0 <= k < n ==> intents[..n][k] == intents[k];
      ChargedThroughChildren(links, intents[..n], j, children);
      ChargedToLast(links, intents, children);
      assert i.jti in links || i.jti == "";
      var w := if i.phase == Done then i.amount else 0;
      if i.jti == "" {
        ThroughNone(children, Chain(links, ""), w);
      } else {
        ReachesThroughOneChild(links, j, children, i.jti, w);
      }
    }
  }

  lemma {:induction false} SpendIsCharged(b: Book, ids: seq<string>)
    requires AllSpendExact(b)
    requires forall c :: c in ids ==> c in b.rows
    ensures SpendOf(b.rows, ids) == ChargedTo(Links(b.rows), b.intents, ids)
  {
    if ids != [] {
      SpendIsCharged(b, ids[..|ids| - 1]);
      assert SpendExact(b, ids[|ids| - 1]);
    }
  }

  /** A parent's spend is its own purchases plus everything its children spent. */
  lemma ParentSpendIsOwnPlusChildren(b: Book, j: string, children: seq<string>)
    requires AllSpendExact(b) && Forest(Links(b.rows)) && j in b.rows
    requires ChildrenOf(Links(b.rows), j, children)
    ensures b.rows[j].spent == OwnSpend(b.intents, j) + SpendOf(b.rows, children)
  {
    var links := Links(b.rows);
    assert SpendExact(b, j);
    forall k | 0 <= k < |b.intents|
      ensures b.intents[k].jti in links || b.intents[k].jti == ""
    {
      assert IntentKnown(b.rows, b.intents[k]);
      ChainIsAncestry(links, b.intents[k].jti);
    }
    ChargedThroughChildren(links, b.intents, j, children);
    SpendIsCharged(b, children);
  }

  /** Without refunds a child never spends what its parent has not been charged for. */
  lemma ParentCoversChild(b: Book, j: string, c: string, children: seq<string>)
    requires AllSpendExact(b) && NoRefunds(b.intents) && Forest(Links(b.rows)) && j in b.rows && c in b.rows
    requires b.rows[c].parent == j && ChildrenOf(Links(b.rows), j, children)
    ensures b.rows[c].spent <= b.rows[j].spent
  {
    ParentSpendIsOwnPlusChildren(b, j, children);
    assert Links(b.rows)[c] == j;
    assert c in children;
    OwnSpendNonNegative(b, |b.intents|, j);
    assert b.intents[..|b.intents|] == b.intents;
    SpendOfIncludes(b, children, c);
  }

  lemma {:induction false} OwnSpendNonNegative(b: Book, n: nat, j: string)
    requires NoRefunds(b.intents) && n <= |b.intents|
    ensures 0 <= OwnSpend(b.intents[..n], j)
  {
    if n > 0 {
      OwnSpendNonNegative(b, n - 1, j);
      assert b.intents[..n][..n - 1] == b.intents[..n - 1];
      assert 0 <= b.intents[n - 1].amount;
    }
  }

  lemma {:induction false} SpendOfIncludes(b: Book, ids: seq<string>, c: string)
    requires AllSpendExact(b) && NoRefunds(b.intents) && forall x :: x in ids ==> x in b.rows
    ensures 0 <= SpendOf(b.rows, ids)
    ensures c in ids ==> b.rows[c].spent <= SpendOf(b.rows, ids)
  {
    if ids != [] {
      var last := ids[|ids| - 1];
      SpendOfIncludes(b, ids[..|ids| - 1], c);
      assert ids == ids[..|ids| - 1] + [last];
      assert SpendExact(b, last);
      ChargedAtLeast(Links(b.rows), b.intents, |b.intents|, last, Done);
    }
  }

  // ------------------------------------------------------------- growing

  /** A new row is on nobody else's chain. */
  lemma KnownChainStays(links: map<string, string>, jti: string, parent: string, j: string)
    requires Forest(links) && jti != "" && jti !in links
    requires j in links || j == ""
    ensures Chain(links[jti := parent], j) == Chain(links, j)
    ensures jti !in Chain(links, j)
  {
    ForestChainInside(links, j);
    WalkFrame(links, links[jti := parent], j, []);
  }

  lemma LinkKeepsForest(links: map<string, string>, jti: string, parent: string)
    requires Forest(links) && jti != "" && jti !in links
    requires parent == "" || parent in links
    ensures Forest(links[jti := parent])
    ensures Chain(links[jti := parent], jti) == [jti] + Chain(links, parent)
  {
    var links' := links[jti := parent];
    KnownChainStays(links, jti, parent, parent);
    WalkShift(links', jti, parent, []);
    assert [] + [jti] == [jti] == [jti] + [];
    forall j | j in links'
      ensures j != ""
      ensures links'[j] != "" ==> links'[j] in links' && j !in Chain(links', links'[j])
    {
      if j != jti {
        KnownChainStays(links, jti, parent, links[j]);
      }
    }
  }

  /** Issuing under an existing parent, or under none, keeps the forest a forest. */
  lemma IssueKeepsForest(rows: Rows, jti: string, claims: Claims, parent: string)
    requires Forest(Links(rows)) && jti != "" && jti !in rows
    requires parent == "" || parent in rows
    ensures Forest(Links(rows[jti := Mandate(Active, claims, 0, 0, 0, parent)]))
    ensures Chain(Links(rows[jti := Mandate(Active, claims, 0, 0, 0, parent)]), jti)
         == [jti] + Chain(Links(rows), parent)
  {
    assert Links(rows[jti := Mandate(Active, claims, 0, 0, 0, parent)]) == Links(rows)[jti := parent];
    LinkKeepsForest(Links(rows), jti, parent);
  }

  lemma {:induction false} ForestChainInside(links: map<string, string>, j: string)
    requires Forest(links) && (j in links || j == "")
    ensures forall s :: s in Chain(links, j) ==> s in links
    decreases |Chain(links, j)|
  {
    if j != "" {
      ChainCons(links, j);
      ForestChainInside(links, links[j]);
    }
  }

  /** Every mandate of the run is issued under none, or under one that exists. */
  ghost predicate Orderly(b: Book, ops: seq<Op>)
    requires Legal(b, ops)
    decreases |ops|
  {
    ops == [] ||
    (&& (ops[0].Issue? ==> ops[0].parent == "" || ops[0].parent in b.rows)
     && Orderly(Apply(b, ops[0]), ops[1..]))
  }

  lemma StepKeepsForest(b: Book, op: Op)
    requires Enabled(b, op) && Forest(Links(b.rows))
    requires op.Issue? ==> op.parent == "" || op.parent in b.rows
    ensures Forest(Links(Apply(b, op).rows))
  {
    if op.Issue? {
      IssueKeepsForest(b.rows, op.jti, op.claims, op.parent);
    } else {
      SameLinks(b, op);
    }
  }

  lemma {:induction false} RunKeepsForest(b: Book, ops: seq<Op>)
    requires Legal(b, ops) && Orderly(b, ops) && Forest(Links(b.rows))
    ensures Forest(Links(Run(b, ops).rows))
    decreases |ops|
  {
    if ops != [] {
      StepKeepsForest(b, ops[0]);
      RunKeepsForest(Apply(b, ops[0]), ops[1..]);
    }
  }

  /**
   Over every serial run from an empty table, at any amounts and at every node
   of the tree: what a mandate has spent is what was bought on it directly plus
   what its children spent.
   */
  lemma TreeConservation(ops: seq<Op>, j: string, children: seq<string>)
    requires Legal(NOTHING, ops) && Orderly(NOTHING, ops)
    requires j in Run(NOTHING, ops).rows
    requires ChildrenOf(Links(Run(NOTHING, ops).rows), j, children)
    ensures var b := Run(NOTHING, ops);
      && (forall c :: c in children ==> c in b.rows)
      && b.rows[j].spent == OwnSpend(b.intents, j) + SpendOf(b.rows, children)
  {
    NothingIsBalanced();
    RunKeepsSpend(NOTHING, ops);
    RunKeepsForest(NOTHING, ops);
    ParentSpendIsOwnPlusChildren(Run(NOTHING, ops), j, children);
  }

  // ------------------------------------------------------ negative amounts

  lemma RootChain(links: map<string, string>, m: string)
    requires m != "" && m in links && links[m] == ""
    ensures Chain(links, m) == [m]
  {
    assert [] + [m] == [m];
    assert Walk(links, "", [m]) == [m];
  }

  lemma RootReserve(row: Mandate, intents: seq<Intent>, amount: int)
    requires row.parent == "" && Covers(map["m" := row], "m", amount)
    ensures Apply(Book(map["m" := row], intents), Op.Reserve("m", amount, map[]))
         == Book(map["m" := row.(reserved := row.reserved + amount)], intents + [Intent("m", amount, Open)])
  {
    RootChain(Links(map["m" := row]), "m");
    assert Obtainable(map["m" := row], "m", amount, map[]);
  }

  /** The kernel does not refuse negative prices: a refund is reserved beside an ordinary purchase. */
  lemma RefundIsAdmitted(row: Mandate, cents: int, refund: int)
    requires row.parent == "" && row.status == Active && row.reserved == 0
    requires refund < 0 && row.spent + cents <= row.claims.totalBudget
    ensures var one, two := Intent("m", cents, Open), Intent("m", refund, Open);
      var first := Book(map["m" := row.(reserved := cents)], [one]);
      && Apply(Book(map["m" := row], []), Op.Reserve("m", cents, map[])) == first
      && Apply(first, Op.Reserve("m", refund, map[])) == Book(map["m" := row.(reserved := cents + refund)], [one, two])
  {
    RootReserve(row, [], cents);
    RootReserve(row.(reserved := cents), [Intent("m", cents, Open)], refund);
  }

  /**
   The books need it to: giving the ordinary purchase back then takes more than
   is there, and the column is off by the refund for good.
   */
  lemma NegativeAmountBreaksConservation(row: Mandate, cents: int, refund: int)
    requires row.parent == "" && row.reserved == cents + refund && 0 < cents && refund < 0
    ensures var b := Book(map["m" := row], [Intent("m", cents, Open), Intent("m", refund, Open)]);
      && AllHeldExact(b)
      && Drift(Apply(b, Op.Release(0)), "m") == Bite(b, Op.Release(0), "m") == -refund
  {
    var one, two := Intent("m", cents, Open), Intent("m", refund, Open);
    var b := Book(map["m" := row], [one, two]);
    RootChain(Links(b.rows), "m");
    ChargedMore(Links(b.rows), [], one, "m", Open, Cents);
    ChargedMore(Links(b.rows), [one], two, "m", Open, Cents);
    assert [] + [one] == [one] && [one] + [two] == [one, two];
    assert Drift(b, "m") == 0;
    StepDrift(b, Op.Release(0), "m");
  }
}
