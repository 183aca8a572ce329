/**
 The gate and the purchase saga of the agent lane (src/agent/kernel.py): build
 an intent from the merchant's price, verify it, reserve along the ancestry,
 ask the rail, then settle or give the reservation back.
 */
module Purchase {
  import opened Wrappers
  import opened BudgetTree
  import opened BudgetBooks

  const INTENT_TTL_S := 120

  datatype Reason =
    | CategoryForbidden | MerchantNotAllowed | ConditionFailed | LimitExhausted
    | BudgetExceeded | AmountExceedsPerTxn | InvalidSignature | InvalidProofOfPossession
    | MandateRevoked | MandateSuspended | MandateExhausted | MandateNotYetValid | MandateExpired
    | AmountMismatch | RailError | RailTokenDeleted | HumanRejected | EscalationTimeoutDenied

  datatype Decision = Approved | Escalated(why: Reason) | Rejected(why: Reason)

  datatype Offer = Offer(merchant: string, category: string, price: int, currency: string)

  datatype Spend = Spend(spent: int, reserved: int, txnCount: int)

  /** `ruleHolds` is what evaluating a `Rule` gives; None when it cannot be evaluated. */
  function Gate(claims: Claims, amount: int, currency: string, offer: Offer, spend: Spend,
                ruleHolds: Option<bool>): Decision
  {
    if claims.categories != {} && offer.category !in claims.categories then
      Rejected(CategoryForbidden)
    else if claims.merchants != {} && offer.merchant !in claims.merchants then
      Rejected(MerchantNotAllowed)
    else if currency != claims.currency then
      Rejected(ConditionFailed)
    else if claims.maxCount.Some? && spend.txnCount >= claims.maxCount.value then
      Rejected(LimitExhausted)
    else if amount > claims.totalBudget - (spend.spent + spend.reserved) then
      Rejected(BudgetExceeded)
    else if amount > claims.maxPerTxn then
      Escalated(AmountExceedsPerTxn)
    else if claims.conditions.Unconditional? || ruleHolds == Some(true) then
      Approved
    else if ruleHolds.None? then
      Rejected(ConditionFailed)
    else
      Escalated(ConditionFailed)
  }

  /** One call of `submit_purchase` with everything it reads from outside the rows. */
  datatype Attempt = Attempt(
    jti: string,
    merchantKnown: bool,
    quoted: Option<Offer>,      // the offer the intent is built from
    refetched: Option<Offer>,   // the merchant's live offer during verify
    tokenOk: bool,
    proofOk: bool,
    issued: int,
    now: int,
    ruleHolds: Option<bool>,
    questionsLeft: bool,        // the approver's hourly escalation quota
    stale: Stale,               // rows that changed between their SELECT and their UPDATE
    railRefusal: Option<Reason>,
    crash: Crash)

  /**
   Where an exception leaves the call, if one does: with the gate passed and
   nothing reserved, with the reservation made, or with everything done but
   the bookkeeping that follows it, none of which is inside a `try`.
   */
  datatype Crash = Never | BeforeReserve | AfterReserve | AfterClose

  /** What a call that died had done to the budget. */
  datatype Left = Nothing | Held(amount: int) | Spent(amount: int)

  datatype Outcome =
    | Captured(amount: int)
    | Refused(why: Reason)
    | AwaitingHuman(why: Reason)
    | Compensated(why: Reason)
    | Raised
    | Died(left: Left)

  predicate AncestorStopped(rows: Rows, jti: string) {
    var chain := Chain(Links(rows), jti);
    exists k :: 1 <= k < |chain| && chain[k] in rows && rows[chain[k]].status != Active
  }

  /** Checks 1 and 2 of `verify`: identity, freshness, and whether the mandate is alive. */
  function Liveness(rows: Rows, a: Attempt): Option<Reason>
    requires a.jti in rows
  {
    var row := rows[a.jti];
    if !a.tokenOk then Some(InvalidSignature)
    else if !a.proofOk then Some(InvalidProofOfPossession)
    else if a.now > a.issued + INTENT_TTL_S then Some(InvalidSignature)
    else if row.status == Revoked then Some(MandateRevoked)
    else if AncestorStopped(rows, a.jti) then Some(MandateRevoked)
    else if row.status == Suspended then Some(MandateSuspended)
    else if row.status == Exhausted then Some(MandateExhausted)
    else if a.now < row.claims.nbf then Some(MandateNotYetValid)
    else if a.now > row.claims.exp then Some(MandateExpired)
    else None
  }

  /** Check 3: the live price, then the gate. */
  function Judgement(row: Mandate, a: Attempt, intent: Offer): Decision {
    if a.refetched.None? then Rejected(RailError)
    else if intent.price != a.refetched.value.price then Rejected(AmountMismatch)
    else
      Gate(row.claims, intent.price, intent.currency, a.refetched.value,
           Spend(row.spent, row.reserved, row.txnCount), a.ruleHolds)
  }

  /** Reserve, ask the rail, and settle or give back. */
  function Pay(rows: Rows, a: Attempt): (Rows, Outcome)
    requires a.quoted.Some?
  {
    var chain, price := Chain(Links(rows), a.jti), a.quoted.value.price;
    if a.crash == BeforeReserve then (rows, Died(Nothing))
    else if !Reservable(rows, chain, price, a.stale) then
      (Attempted(rows, chain, price, a.stale), Refused(BudgetExceeded))
    else if a.crash == AfterReserve then (AddReserved(rows, chain, price), Died(Held(price)))
    else if a.railRefusal.Some? then (Floored(rows, chain), Compensated(a.railRefusal.value))
    else (Settled(AddReserved(rows, chain, price), chain, price), Captured(price))
  }

  function Judge(rows: Rows, a: Attempt): (Rows, Outcome) {
    if a.jti !in rows then (rows, Raised)
    else if !a.merchantKnown then (rows, Refused(MerchantNotAllowed))
    else if a.quoted.None? then (rows, Refused(RailError))
    else
      var dead := Liveness(rows, a);
      if dead == Some(MandateExpired) then
        (WithStatus(rows, a.jti, Expired), Refused(MandateExpired))
      else if dead.Some? then (rows, Refused(dead.value))
      else
        match Judgement(rows[a.jti], a, a.quoted.value)
        case Rejected(why) => (rows, Refused(why))
        case Escalated(why) => (rows, if a.questionsLeft then AwaitingHuman(why) else Raised)
        case Approved => Pay(rows, a)
  }

  /** The answer of a call that may die after everything is done. */
  function Ending(o: Outcome, crash: Crash): Outcome {
    if crash != AfterClose || o.Raised? then o
    else Died(if o.Captured? then Spent(o.amount) else Nothing)
  }

  /** What one whole submission answers, and the rows it leaves behind. */
  function Submit(rows: Rows, a: Attempt): (Rows, Outcome) {
    (Judge(rows, a).0, Ending(Judge(rows, a).1, a.crash))
  }

  /** The saga over the kernel's rows; there is no path to the rail that skips verify. */
  class PurchaseDesk {
    const kernel: Kernel

    constructor (kernel: Kernel)
      ensures this.kernel == kernel
    {
      this.kernel := kernel;
    }

    method CheckAncestors(jti: string) returns (stopped: bool)
      ensures stopped <==> AncestorStopped(kernel.mandates, jti)
    {
      var chain := kernel.ChainOf(jti);
      if |chain| == 0 {
        return false;
      }
      for k := 1 to |chain|
        invariant forall i :: 1 <= i < k ==>
          chain[i] in kernel.mandates ==> kernel.mandates[chain[i]].status == Active
      {
        if chain[k] in kernel.mandates && kernel.mandates[chain[k]].status != Active {
          return true;
        }
      }
      return false;
    }

    method CheckAlive(a: Attempt) returns (dead: Option<Reason>)
      requires a.jti in kernel.mandates
      ensures dead == Liveness(kernel.mandates, a)
    {
      var row := kernel.mandates[a.jti];
      if !a.tokenOk {
        return Some(InvalidSignature);
      }
      if !a.proofOk {
        return Some(InvalidProofOfPossession);
      }
      if a.now > a.issued + INTENT_TTL_S {
        return Some(InvalidSignature);
      }
      if row.status == Revoked {
        return Some(MandateRevoked);
      }
      var stopped := CheckAncestors(a.jti);
      if stopped {
        return Some(MandateRevoked);
      }
      if row.status == Suspended {
        return Some(MandateSuspended);
      }
      if row.status == Exhausted {
        return Some(MandateExhausted);
      }
      if a.now < row.claims.nbf {
        return Some(MandateNotYetValid);
      }
      if a.now > row.claims.exp {
        return Some(MandateExpired);
      }
      return None;
    }

    /** The three checks in order, then the reservation; or the exception before it. */
    method Verify(a: Attempt, intent: Offer) returns (decision: Decision, died: bool)
      requires a.jti in kernel.mandates
      modifies kernel
      ensures var rows := old(kernel.mandates);
        var dead := Liveness(rows, a);
        var judged := Judgement(rows[a.jti], a, intent);
        var chain := Chain(Links(rows), a.jti);
        if dead.Some? then
          && decision == Rejected(dead.value) && !died
          && kernel.mandates == if dead.value == MandateExpired then WithStatus(rows, a.jti, Expired) else rows
        else if judged != Approved then
          decision == judged && !died && kernel.mandates == rows
        else if a.crash == BeforeReserve then
          died && kernel.mandates == rows
        else
          && !died && kernel.mandates == Attempted(rows, chain, intent.price, a.stale)
          && decision ==
               if Reservable(rows, chain, intent.price, a.stale) then Approved else Rejected(BudgetExceeded)
    {
      died := false;
      var dead := CheckAlive(a);
      if dead.Some? {
        if dead.value == MandateExpired {
          kernel.SetStatus(a.jti, Expired);
        }
        return Rejected(dead.value), false;
      }
      var row := kernel.mandates[a.jti];
      if a.refetched.None? {
        return Rejected(RailError), false;
      }
      if intent.price != a.refetched.value.price {
        return Rejected(AmountMismatch), false;
      }
      decision := Gate(row.claims, intent.price, intent.currency, a.refetched.value,
                       Spend(row.spent, row.reserved, row.txnCount), a.ruleHolds);
      if decision != Approved {
        return;
      }
      if a.crash == BeforeReserve {
        return decision, true;
      }
      var reserved := kernel.ReserveChain(a.jti, intent.price, a.stale);
      if !reserved {
        return Rejected(BudgetExceeded), false;
      }
    }

    method SubmitPurchase(a: Attempt) returns (outcome: Outcome)
      modifies kernel
      ensures (kernel.mandates, outcome) == Submit(old(kernel.mandates), a)
    {
      if a.jti !in kernel.mandates {
        return Raised;
      }
      if !a.merchantKnown {
        return Ending(Refused(MerchantNotAllowed), a.crash);
      }
      if a.quoted.None? {
        return Ending(Refused(RailError), a.crash);
      }
      var intent := a.quoted.value;
      ghost var rows := kernel.mandates;
      ghost var chain := Chain(Links(rows), a.jti);
      var decision, died := Verify(a, intent);
      if died {
        return Died(Nothing);
      }
      match decision {
        case Escalated(why) =>
          outcome := if a.questionsLeft then AwaitingHuman(why) else Raised;
        case Rejected(why) =>
          outcome := Refused(why);
        case Approved =>
          assert kernel.mandates == AddReserved(rows, chain, intent.price);
          assert Links(kernel.mandates) == Links(rows);
          GivenBack(rows, chain, intent.price);
          outcome := Charge(a, intent);
      }
      assert (kernel.mandates, outcome) == Judge(rows, a);
      outcome := Ending(outcome, a.crash);
    }

    /** With the reservation made: the rail, then settlement or compensation. */
    method Charge(a: Attempt, intent: Offer) returns (outcome: Outcome)
      modifies kernel
      ensures var rows := old(kernel.mandates);
        var chain := Chain(Links(rows), a.jti);
        if a.crash == AfterReserve then
          outcome == Died(Held(intent.price)) && kernel.mandates == rows
        else if a.railRefusal.Some? then
          outcome == Compensated(a.railRefusal.value) && kernel.mandates == Unreserved(rows, chain, intent.price)
        else
          outcome == Captured(intent.price) && kernel.mandates == Settled(rows, chain, intent.price)
    {
      if a.crash == AfterReserve {
        return Died(Held(intent.price));
      }
      if a.railRefusal.Some? {
        kernel.Release(a.jti, intent.price);
        return Compensated(a.railRefusal.value);
      }
      kernel.Settle(a.jti, intent.price);
      return Captured(intent.price);
    }
  }

  // ------------------------------------------------------- what a saga keeps

  /** The money left the budget for good, reported or not. */
  predicate Paid(o: Outcome) {
    o.Captured? || (o.Died? && o.left.Spent?)
  }

  /** A reservation is left open that nothing will ever close. */
  predicate Stranded(o: Outcome) {
    o.Died? && o.left.Held?
  }

  /** The money columns of every row, but for a floor on a row reserved below zero. */
  ghost predicate SameMoney(rows: Rows, rows': Rows) {
    && rows'.Keys == rows.Keys
    && forall j :: j in rows ==>
      && (rows'[j].reserved == rows[j].reserved || (rows[j].reserved < 0 && rows'[j].reserved == 0))
      && rows'[j].spent == rows[j].spent
      && rows'[j].txnCount == rows[j].txnCount
      && rows'[j].claims == rows[j].claims
      && rows'[j].parent == rows[j].parent
  }

  lemma PaidShape(rows: Rows, a: Attempt)
    requires Paid(Submit(rows, a).1)
    ensures a.jti in rows && a.quoted.Some? && a.refetched.Some?
    ensures Reservable(rows, Chain(Links(rows), a.jti), a.quoted.value.price, a.stale)
    ensures var chain, price := Chain(Links(rows), a.jti), a.quoted.value.price;
      && price == a.refetched.value.price
      && Submit(rows, a).0 == Settled(AddReserved(rows, chain, price), chain, price)
      && Submit(rows, a).1 == if a.crash == AfterClose then Died(Spent(price)) else Captured(price)
  {
  }

  lemma StrandedShape(rows: Rows, a: Attempt)
    requires Stranded(Submit(rows, a).1)
    ensures a.jti in rows && a.quoted.Some? && a.crash == AfterReserve
    ensures Reservable(rows, Chain(Links(rows), a.jti), a.quoted.value.price, a.stale)
    ensures Submit(rows, a).0 == AddReserved(rows, Chain(Links(rows), a.jti), a.quoted.value.price)
    ensures Submit(rows, a).1 == Died(Held(a.quoted.value.price))
  {
  }

  /** Every other ending: a status, or rows that were given their amount back. */
  lemma IdleShape(rows: Rows, a: Attempt)
    requires !Paid(Submit(rows, a).1) && !Stranded(Submit(rows, a).1)
    ensures var expires := Built(rows, a) && Liveness(rows, a) == Some(MandateExpired);
      && (expires ==> Submit(rows, a).0 == WithStatus(rows, a.jti, Expired))
      && (!expires ==> Submit(rows, a).0 == rows || exists ids :: Submit(rows, a).0 == Floored(rows, ids))
  {
  }

  /** A submission that neither paid nor died on a reservation leaves every budget as it found it. */
  lemma OnlyPaymentsMoveMoney(rows: Rows, a: Attempt)
    requires !Paid(Submit(rows, a).1) && !Stranded(Submit(rows, a).1)
    ensures SameMoney(rows, Submit(rows, a).0)
    ensures NonNegative(rows) ==> forall j :: j in rows ==> Submit(rows, a).0[j].reserved == rows[j].reserved
  {
    IdleShape(rows, a);
  }

  predicate InScope(c: Claims, offer: Offer) {
    && (c.categories == {} || offer.category in c.categories)
    && (c.merchants == {} || offer.merchant in c.merchants)
  }

  /** The row is there and active, covers the price, and nobody wrote to it since it was read. */
  predicate Chargeable(rows: Rows, j: string, price: int, stale: Stale) {
    && j in rows && rows[j].status == Active
    && price <= rows[j].claims.totalBudget - rows[j].spent - rows[j].reserved
    && (j in stale ==> stale[j] == Glimpse(Active, rows[j].reserved, rows[j].spent, rows[j].txnCount))
  }

  /** Everything that has to hold for money to move, in no particular order. */
  ghost predicate Authorised(rows: Rows, a: Attempt) {
    && a.jti in rows && a.merchantKnown && a.quoted.Some? && a.refetched.Some?
    && var m, price := rows[a.jti], a.refetched.value.price;
      && a.tokenOk && a.proofOk && a.now <= a.issued + INTENT_TTL_S
      && m.status == Active && m.claims.nbf <= a.now <= m.claims.exp
      && a.quoted.value.price == price && a.quoted.value.currency == m.claims.currency
      && InScope(m.claims, a.refetched.value)
      && (m.claims.maxCount.Some? ==> m.txnCount < m.claims.maxCount.value)
      && price <= m.claims.maxPerTxn
      && (m.claims.conditions.Unconditional? || a.ruleHolds == Some(true))
      && (forall j :: j in Chain(Links(rows), a.jti) ==> Chargeable(rows, j, price, a.stale))
  }

  lemma AuthorisedPasses(rows: Rows, a: Attempt)
    requires "" !in rows && Authorised(rows, a)
    ensures Liveness(rows, a) == None && Judgement(rows[a.jti], a, a.quoted.value) == Approved
    ensures Reservable(rows, Chain(Links(rows), a.jti), a.quoted.value.price, a.stale)
  {
    var chain := Chain(Links(rows), a.jti);
    ChainIsAncestry(Links(rows), a.jti);
    forall k | 0 <= k < |chain|
      ensures Obtainable(rows, chain[k], a.refetched.value.price, a.stale)
    {
      assert Chargeable(rows, chain[k], a.refetched.value.price, a.stale);
    }
    assert Obtainable(rows, chain[0], a.refetched.value.price, a.stale);
  }

  lemma PaidIsAuthorised(rows: Rows, a: Attempt)
    requires "" !in rows
    requires Paid(Submit(rows, a).1) || Stranded(Submit(rows, a).1) || Submit(rows, a).1.Compensated?
    ensures Authorised(rows, a)
  {
    ChainIsAncestry(Links(rows), a.jti);
    ReservableIsKnown(rows, a.jti, a.quoted.value.price, a.stale);
    assert Covers(rows, a.jti, a.quoted.value.price);
  }

  /**
   Money moves exactly when: the token and the proof hold, the intent is
   fresh, the price is the live one, the purchase is in scope, currency,
   count, per-purchase limit and condition, the mandate is alive now, every
   row of its ancestry is active, covers it and still reads as it was read,
   the rail accepts, and no exception comes before the settlement; it is
   reported as captured exactly when no exception follows it either.
   */
  lemma PaidExactlyWhenAuthorised(rows: Rows, a: Attempt)
    requires "" !in rows
    ensures Paid(Submit(rows, a).1)
      <==> Authorised(rows, a) && a.railRefusal.None? && a.crash in {Never, AfterClose}
    ensures Submit(rows, a).1.Captured? <==> Authorised(rows, a) && a.railRefusal.None? && a.crash == Never
    ensures Stranded(Submit(rows, a).1) <==> Authorised(rows, a) && a.crash == AfterReserve
    ensures forall why :: Submit(rows, a).1 == Compensated(why) <==>
      Authorised(rows, a) && a.railRefusal == Some(why) && a.crash == Never
  {
    if Authorised(rows, a) {
      AuthorisedPasses(rows, a);
    }
    if Paid(Submit(rows, a).1) || Stranded(Submit(rows, a).1) || Submit(rows, a).1.Compensated? {
      PaidIsAuthorised(rows, a);
    }
  }

  // ------------------------------------------------ who refuses, and why

  /** There is a mandate, a merchant and an offer to build an intent from. */
  predicate Built(rows: Rows, a: Attempt) {
    a.jti in rows && a.merchantKnown && a.quoted.Some?
  }

  /** The intent is signed by the agent and fresh. */
  predicate Heard(rows: Rows, a: Attempt) {
    Built(rows, a) && a.tokenOk && a.proofOk && a.now <= a.issued + INTENT_TTL_S
  }

  /** Nothing above the mandate is suspended, revoked, exhausted or expired. */
  ghost predicate Unstopped(rows: Rows, jti: string) {
    forall j :: j in Chain(Links(rows), jti) && j in rows && j != jti ==> rows[j].status == Active
  }

  /** The mandate and what it hangs from may be used now; the stored expiry mark alone stops nothing. */
  ghost predicate Usable(rows: Rows, a: Attempt) {
    && Heard(rows, a) && Unstopped(rows, a.jti)
    && rows[a.jti].status in {Active, Expired}
    && rows[a.jti].claims.nbf <= a.now <= rows[a.jti].claims.exp
  }

  ghost predicate Priced(rows: Rows, a: Attempt) {
    Usable(rows, a) && a.refetched.Some? && a.refetched.value.price == a.quoted.value.price
  }

  /** In scope, in currency and in number. */
  ghost predicate Admitted(rows: Rows, a: Attempt) {
    && Priced(rows, a)
    && var m := rows[a.jti];
      && InScope(m.claims, a.refetched.value) && a.quoted.value.currency == m.claims.currency
      && (m.claims.maxCount.Some? ==> m.txnCount < m.claims.maxCount.value)
  }

  /** And within what is left of the mandate's own budget. */
  ghost predicate Fits(rows: Rows, a: Attempt) {
    && Admitted(rows, a)
    && rows[a.jti].spent + rows[a.jti].reserved + a.quoted.value.price <= rows[a.jti].claims.totalBudget
  }

  lemma UnstoppedExactly(rows: Rows, jti: string)
    requires jti != ""
    ensures AncestorStopped(rows, jti) <==> !Unstopped(rows, jti)
  {
    var chain := Chain(Links(rows), jti);
    ChainIsAncestry(Links(rows), jti);
    if j :| j in chain && j in rows && j != jti && rows[j].status != Active {
      var k :| 0 <= k < |chain| && chain[k] == j;
      assert k >= 1;
    }
    if AncestorStopped(rows, jti) {
      var k :| 1 <= k < |chain| && chain[k] in rows && rows[chain[k]].status != Active;
      assert chain[k] != chain[0] && chain[k] in chain;
    }
  }

  lemma LivenessExactly(rows: Rows, a: Attempt)
    requires "" !in rows && Heard(rows, a)
    ensures var m, dead := rows[a.jti], Liveness(rows, a);
      && (dead == Some(MandateRevoked) <==> m.status == Revoked || !Unstopped(rows, a.jti))
      && (dead == Some(MandateSuspended) <==> m.status == Suspended && Unstopped(rows, a.jti))
      && (dead == Some(MandateExhausted) <==> m.status == Exhausted && Unstopped(rows, a.jti))
      && (Unstopped(rows, a.jti) && m.status in {Active, Expired} ==>
            dead == if a.now < m.claims.nbf then Some(MandateNotYetValid)
              else if m.claims.exp < a.now then Some(MandateExpired) else None)
  {
    UnstoppedExactly(rows, a.jti);
  }

  /** Which refusals come from identity, time and status, and from nothing else. */
  lemma RefusedOnIdentity(rows: Rows, a: Attempt)
    requires "" !in rows && a.crash != AfterClose
    ensures var o, alive := Submit(rows, a).1, Heard(rows, a) && Unstopped(rows, a.jti);
      && (o == Refused(InvalidSignature) <==>
            Built(rows, a) && (!a.tokenOk || (a.proofOk && a.issued + INTENT_TTL_S < a.now)))
      && (o == Refused(InvalidProofOfPossession) <==> Built(rows, a) && a.tokenOk && !a.proofOk)
      && (o == Refused(MandateRevoked) <==>
            Heard(rows, a) && (rows[a.jti].status == Revoked || !Unstopped(rows, a.jti)))
      && (o == Refused(MandateSuspended) <==> alive && rows[a.jti].status == Suspended)
      && (o == Refused(MandateExhausted) <==> alive && rows[a.jti].status == Exhausted)
      && (o == Refused(MandateNotYetValid) <==>
            alive && rows[a.jti].status in {Active, Expired} && a.now < rows[a.jti].claims.nbf)
      && (o == Refused(MandateExpired) <==> RanOut(rows, a))
  {
    if Heard(rows, a) {
      LivenessExactly(rows, a);
    }
  }

  /** The mandate has run out, and nothing that is checked before its dates is against it. */
  ghost predicate RanOut(rows: Rows, a: Attempt) {
    && Heard(rows, a) && Unstopped(rows, a.jti) && rows[a.jti].status in {Active, Expired}
    && rows[a.jti].claims.nbf <= a.now && rows[a.jti].claims.exp < a.now
  }

  /** Without a payment the only status a submission changes is that of a mandate found to have run out. */
  lemma OnlyExpiryIsRecorded(rows: Rows, a: Attempt)
    requires "" !in rows && !Paid(Submit(rows, a).1)
    ensures forall j :: j in rows ==>
      j in Submit(rows, a).0
      && Submit(rows, a).0[j].status == if j == a.jti && RanOut(rows, a) then Expired else rows[j].status
  {
    if Heard(rows, a) {
      LivenessExactly(rows, a);
    }
    if Stranded(Submit(rows, a).1) {
      StrandedShape(rows, a);
    } else {
      IdleShape(rows, a);
    }
  }

  /** What the gate says of a purchase that got to it. */
  lemma GateExactly(m: Mandate, a: Attempt, intent: Offer)
    requires a.refetched.Some? && a.refetched.value.price == intent.price
    ensures var c, offer, d := m.claims, a.refetched.value, Judgement(m, a, intent);
      var admitted := InScope(c, offer) && intent.currency == c.currency
        && (c.maxCount.Some? ==> m.txnCount < c.maxCount.value);
      var fits := admitted && m.spent + m.reserved + intent.price <= c.totalBudget;
      && (d == Rejected(CategoryForbidden) <==> WrongCategory(c, offer))
      && (d == Rejected(MerchantNotAllowed) <==> !WrongCategory(c, offer) && !InScope(c, offer))
      && (d == Rejected(LimitExhausted) <==>
            InScope(c, offer) && intent.currency == c.currency
            && c.maxCount.Some? && c.maxCount.value <= m.txnCount)
      && (d == Rejected(BudgetExceeded) <==> admitted && !fits)
      && (d == Rejected(ConditionFailed) <==>
            || (InScope(c, offer) && intent.currency != c.currency)
            || (fits && intent.price <= c.maxPerTxn && c.conditions.Rule? && a.ruleHolds.None?))
      && (d == Escalated(AmountExceedsPerTxn) <==> fits && c.maxPerTxn < intent.price)
      && (d == Escalated(ConditionFailed) <==>
            fits && intent.price <= c.maxPerTxn && c.conditions.Rule? && a.ruleHolds.Some? && !a.ruleHolds.value)
      && (d == Approved <==>
            fits && intent.price <= c.maxPerTxn && (c.conditions.Rule? ==> a.ruleHolds == Some(true)))
      && (d.Rejected? ==>
            d.why in {CategoryForbidden, MerchantNotAllowed, LimitExhausted, BudgetExceeded, ConditionFailed})
      && (d.Escalated? ==> d.why in {AmountExceedsPerTxn, ConditionFailed})
  {
  }

  lemma UsableExactly(rows: Rows, a: Attempt)
    requires "" !in rows && Built(rows, a)
    ensures Liveness(rows, a) == None <==> Usable(rows, a)
    ensures Liveness(rows, a) !in {Some(RailError), Some(AmountMismatch), Some(CategoryForbidden),
      Some(MerchantNotAllowed), Some(LimitExhausted), Some(ConditionFailed), Some(BudgetExceeded)}
  {
    if Heard(rows, a) {
      LivenessExactly(rows, a);
    }
  }

  /** What a submission answers once it has been built, in terms of the two halves of `verify`. */
  lemma AnswerShape(rows: Rows, a: Attempt)
    requires Built(rows, a)
    ensures var o, dead, d := Judge(rows, a).1, Liveness(rows, a), Judgement(rows[a.jti], a, a.quoted.value);
      && (dead.Some? ==> o == Refused(dead.value))
      && (dead.None? && d.Rejected? ==> o == Refused(d.why))
      && (dead.None? && d.Escalated? ==> o == if a.questionsLeft then AwaitingHuman(d.why) else Raised)
      && (dead.None? && d.Approved? ==>
            && !o.AwaitingHuman? && !o.Raised?
            && (o.Refused? ==> o == Refused(BudgetExceeded))
            && (o.Refused? <==>
                  a.crash != BeforeReserve
                  && !Reservable(rows, Chain(Links(rows), a.jti), a.quoted.value.price, a.stale)))
  {
  }

  /**
   Which refusals come from the merchant, the price, the scope, the currency
   and the limits, and from nothing else.
   */
  lemma RefusedOnTerms(rows: Rows, a: Attempt)
    requires "" !in rows && a.crash != AfterClose
    ensures var o := Submit(rows, a).1;
      && (o == Refused(RailError) <==>
            (a.jti in rows && a.merchantKnown && a.quoted.None?) || (Usable(rows, a) && a.refetched.None?))
      && (o == Refused(AmountMismatch) <==>
            Usable(rows, a) && a.refetched.Some? && a.refetched.value.price != a.quoted.value.price)
      && (o == Refused(CategoryForbidden) <==> Priced(rows, a) && WrongCategory(rows[a.jti].claims, a.refetched.value))
      && (o == Refused(MerchantNotAllowed) <==>
            || (a.jti in rows && !a.merchantKnown)
            || (Priced(rows, a) && !WrongCategory(rows[a.jti].claims, a.refetched.value)
                && !InScope(rows[a.jti].claims, a.refetched.value)))
  {
    if Built(rows, a) {
      UsableExactly(rows, a);
      AnswerShape(rows, a);
      if Priced(rows, a) {
        GateExactly(rows[a.jti], a, a.quoted.value);
      }
    }
  }

  predicate WrongCategory(c: Claims, offer: Offer) {
    c.categories != {} && offer.category !in c.categories
  }

  /** Which refusals come from the currency, the count, the condition and the budget, and from nothing else. */
  lemma RefusedOnLimits(rows: Rows, a: Attempt)
    requires "" !in rows && a.crash != AfterClose
    ensures var o := Submit(rows, a).1;
      && (o == Refused(LimitExhausted) <==>
            Priced(rows, a) && InScope(rows[a.jti].claims, a.refetched.value)
            && a.quoted.value.currency == rows[a.jti].claims.currency && !Admitted(rows, a))
      && (o == Refused(ConditionFailed) <==>
            || (Priced(rows, a) && InScope(rows[a.jti].claims, a.refetched.value)
                && a.quoted.value.currency != rows[a.jti].claims.currency)
            || (Fits(rows, a) && a.quoted.value.price <= rows[a.jti].claims.maxPerTxn
                && rows[a.jti].claims.conditions.Rule? && a.ruleHolds.None?))
      && (o == Refused(BudgetExceeded) <==>
            || (Admitted(rows, a) && !Fits(rows, a))
            || (Passes(rows, a) && a.crash != BeforeReserve
                && exists j :: j in Chain(Links(rows), a.jti) && !Chargeable(rows, j, a.quoted.value.price, a.stale)))
  {
    if Built(rows, a) {
      UsableExactly(rows, a);
      AnswerShape(rows, a);
      if Priced(rows, a) {
        GateExactly(rows[a.jti], a, a.quoted.value);
        ReservableExactly(rows, Chain(Links(rows), a.jti), a.quoted.value.price, a.stale);
      }
    }
  }

  lemma ReservableExactly(rows: Rows, chain: seq<string>, amount: int, stale: Stale)
    ensures Reservable(rows, chain, amount, stale) <==> forall j :: j in chain ==> Chargeable(rows, j, amount, stale)
  {
    if j :| j in chain && !Chargeable(rows, j, amount, stale) {
      var k :| 0 <= k < |chain| && chain[k] == j;
      assert !Obtainable(rows, chain[k], amount, stale);
    }
    if k :| 0 <= k < |chain| && !Obtainable(rows, chain[k], amount, stale) {
      assert !Chargeable(rows, chain[k], amount, stale);
    }
  }

  /** Nothing in the mandate's own terms is against it, and no human is needed. */
  ghost predicate Passes(rows: Rows, a: Attempt) {
    && Fits(rows, a) && a.quoted.value.price <= rows[a.jti].claims.maxPerTxn
    && (rows[a.jti].claims.conditions.Rule? ==> a.ruleHolds == Some(true))
  }

  /**
   A human is asked exactly when everything but the per-purchase limit or the
   signed condition is met, and the question names which; over the quota the
   call raises instead, and otherwise only an unknown mandate does.
   */
  lemma AsksTheHumanExactlyWhen(rows: Rows, a: Attempt)
    requires "" !in rows
    ensures var o := Submit(rows, a).1;
      var tooMuch := Fits(rows, a) && rows[a.jti].claims.maxPerTxn < a.quoted.value.price;
      var unmet := Fits(rows, a) && a.quoted.value.price <= rows[a.jti].claims.maxPerTxn
        && rows[a.jti].claims.conditions.Rule? && a.ruleHolds.Some? && !a.ruleHolds.value;
      var asks := a.questionsLeft && a.crash != AfterClose;
      && (o == AwaitingHuman(AmountExceedsPerTxn) <==> tooMuch && asks)
      && (o == AwaitingHuman(ConditionFailed) <==> unmet && asks)
      && (o.AwaitingHuman? ==> o.why in {AmountExceedsPerTxn, ConditionFailed})
      && (o.Raised? <==> a.jti !in rows || ((tooMuch || unmet) && !a.questionsLeft))
  {
    if Built(rows, a) {
      UsableExactly(rows, a);
      AnswerShape(rows, a);
      if Priced(rows, a) {
        GateExactly(rows[a.jti], a, a.quoted.value);
      }
    }
  }

  /**
   A call that dies has done nothing, holds the price, or has spent it: nothing
   when it passed the gate and died before reserving, or did all it had to and
   died without having paid; the other two are payment and stranding.
   */
  lemma DiesExactlyWhen(rows: Rows, a: Attempt)
    requires "" !in rows
    ensures var o := Submit(rows, a).1;
      && (o == Died(Nothing) <==>
            || (a.crash == BeforeReserve && Passes(rows, a))
            || (a.crash == AfterClose && !o.Raised? && !(Authorised(rows, a) && a.railRefusal.None?)))
      && (o.Died? && o.left.Held? ==> o.left.amount == a.quoted.value.price)
      && (o.Died? && o.left.Spent? ==> o.left.amount == a.quoted.value.price)
      && (o.Captured? ==> o.amount == a.quoted.value.price)
  {
    PaidExactlyWhenAuthorised(rows, a);
    if Built(rows, a) {
      UsableExactly(rows, a);
      AnswerShape(rows, a);
      if Priced(rows, a) {
        GateExactly(rows[a.jti], a, a.quoted.value);
      }
    }
  }

  /**
   A payment charges exactly the live price to every row of the ancestry,
   exhausts exactly those that reach their budget with it, and touches no other row.
   */
  lemma PaymentChargesAncestry(rows: Rows, a: Attempt)
    requires Paid(Submit(rows, a).1)
    ensures a.refetched.Some?
    ensures var price := a.refetched.value.price;
      var chain := Chain(Links(rows), a.jti);
      var rows' := Submit(rows, a).0;
      && rows'.Keys == rows.Keys
      && (forall j :: j in chain ==>
          && Covers(rows, j, price)
          && rows'[j].spent == rows[j].spent + price
          && rows'[j].reserved == Max(0, rows[j].reserved)
          && rows'[j].txnCount == rows[j].txnCount + 1
          && rows'[j].claims == rows[j].claims && rows'[j].parent == rows[j].parent
          && rows'[j].status == if rows[j].claims.totalBudget <= rows[j].spent + price then Exhausted else Active)
      && (forall j :: j in rows && j !in chain ==> rows'[j] == rows[j])
  {
    PaidShape(rows, a);
    ReservableIsKnown(rows, a.jti, a.quoted.value.price, a.stale);
  }

  // ------------------------------------------------ a saga as budget steps

  lemma RunTwo(b: Book, first: Op, second: Op)
    requires Enabled(b, first) && Enabled(Apply(b, first), second)
    ensures Legal(b, [first, second])
    ensures Run(b, [first, second]) == Apply(Apply(b, first), second)
  {
    var ops := [first, second];
    assert ops[1..] == [second] && [second][1..] == [];
    var b1 := Apply(b, first);
    assert Legal(Apply(b1, second), []);
    assert Legal(b1, [second]);
    assert Run(b1, [second]) == Run(Apply(b1, second), []) == Apply(b1, second);
  }

  lemma RunOne(b: Book, op: Op)
    requires Enabled(b, op)
    ensures Legal(b, [op]) && Run(b, [op]) == Apply(b, op)
  {
    assert [op][1..] == [];
    assert Legal(Apply(b, op), []);
  }

  /** The gate is passed and the call lives to the reservation. */
  predicate Asks(rows: Rows, a: Attempt) {
    && a.jti in rows && a.merchantKnown && a.quoted.Some? && a.crash != BeforeReserve
    && Liveness(rows, a) == None && Judgement(rows[a.jti], a, a.quoted.value) == Approved
  }

  /** The budget operations of a submission, as a run on the books. */
  function StepsOf(b: Book, a: Attempt): seq<Op> {
    if a.jti in b.rows && a.merchantKnown && a.quoted.Some? && Liveness(b.rows, a) == Some(MandateExpired) then
      [Op.SetStatus(a.jti, Expired)]
    else if !Asks(b.rows, a) then []
    else
      var reserve := Op.Reserve(a.jti, a.quoted.value.price, a.stale);
      var granted := Reservable(b.rows, Ancestry(b, a.jti), a.quoted.value.price, a.stale);
      if !granted || a.crash == AfterReserve then [reserve]
      else if a.railRefusal.Some? then [reserve, Op.Release(|b.intents|)]
      else [reserve, Op.Settle(|b.intents|)]
  }

  /** The intents a submission adds: none, or the one it reserved, as it left it. */
  function Entries(rows: Rows, a: Attempt): seq<Intent> {
    if !Asks(rows, a) || !Reservable(rows, Chain(Links(rows), a.jti), a.quoted.value.price, a.stale) then []
    else
      [Intent(a.jti, a.quoted.value.price,
              if a.crash == AfterReserve then Open else if a.railRefusal.Some? then Freed else Done)]
  }

  /** The books after a submission. */
  function Booked(b: Book, a: Attempt): Book {
    Book(Submit(b.rows, a).0, b.intents + Entries(b.rows, a))
  }

  lemma ReserveIsBooked(b: Book, jti: string, amount: int, stale: Stale)
    requires Reservable(b.rows, Ancestry(b, jti), amount, stale)
    ensures var b1 := Apply(b, Op.Reserve(jti, amount, stale));
      && b1 == Book(AddReserved(b.rows, Ancestry(b, jti), amount), b.intents + [Intent(jti, amount, Open)])
      && Ancestry(b1, jti) == Ancestry(b, jti)
  {
    SameLinks(b, Op.Reserve(jti, amount, stale));
  }

  lemma CloseIsBooked(b: Book, jti: string, amount: int, stale: Stale, settle: bool)
    requires Reservable(b.rows, Ancestry(b, jti), amount, stale)
    ensures var close := if settle then Op.Settle(|b.intents|) else Op.Release(|b.intents|);
      var ops := [Op.Reserve(jti, amount, stale), close];
      var chain := Ancestry(b, jti);
      && Legal(b, ops)
      && Run(b, ops) == Book(
           if settle then Settled(AddReserved(b.rows, chain, amount), chain, amount) else Floored(b.rows, chain),
           b.intents + [Intent(jti, amount, if settle then Done else Freed)])
  {
    var k := |b.intents|;
    var close := if settle then Op.Settle(k) else Op.Release(k);
    ReserveIsBooked(b, jti, amount, stale);
    var b1 := Apply(b, Op.Reserve(jti, amount, stale));
    RunTwo(b, Op.Reserve(jti, amount, stale), close);
    GivenBack(b.rows, Ancestry(b, jti), amount);
    assert b1.intents[k := Intent(jti, amount, if settle then Done else Freed)]
      == b.intents + [Intent(jti, amount, if settle then Done else Freed)];
  }

  /** Every submission, at any price and however it ends, is a run of the budget operations. */
  lemma SubmitIsARun(b: Book, a: Attempt)
    ensures Legal(b, StepsOf(b, a)) && Run(b, StepsOf(b, a)) == Booked(b, a)
  {
    var ops := StepsOf(b, a);
    if |ops| == 2 {
      CloseIsBooked(b, a.jti, a.quoted.value.price, a.stale, a.railRefusal.None?);
    } else if |ops| == 1 {
      RunOne(b, ops[0]);
      assert ops == [ops[0]];
    } else {
      assert Booked(b, a) == b;
    }
  }

  lemma SubmitKeepsSpend(b: Book, a: Attempt)
    requires AllSpendExact(b)
    ensures AllSpendExact(Booked(b, a))
  {
    SubmitIsARun(b, a);
    RunKeepsSpend(b, StepsOf(b, a));
  }

  lemma CloseIsGentle(b: Book, jti: string, amount: int, stale: Stale, settle: bool)
    requires Within(b) && NonNegative(b.rows) && Reservable(b.rows, Ancestry(b, jti), amount, stale)
    ensures var b1 := Apply(b, Op.Reserve(jti, amount, stale));
      var close := if settle then Op.Settle(|b.intents|) else Op.Release(|b.intents|);
      Gentle(b, Op.Reserve(jti, amount, stale)) && Enabled(b1, close) && Gentle(b1, close)
  {
    ReserveIsBooked(b, jti, amount, stale);
  }

  /**
   At any price: with no row reserved below zero, a submission keeps the books
   exact and every row within its budget, however it ends.
   */
  lemma SubmitConserves(b: Book, a: Attempt)
    requires Conserved(b) && NonNegative(b.rows)
    ensures Conserved(Booked(b, a))
  {
    SubmitIsARun(b, a);
    var ops := StepsOf(b, a);
    if |ops| == 2 {
      CloseIsGentle(b, a.jti, a.quoted.value.price, a.stale, a.railRefusal.None?);
      StepConserves(b, ops[0]);
      StepConserves(Apply(b, ops[0]), ops[1]);
      RunTwo(b, ops[0], ops[1]);
      assert ops == [ops[0], ops[1]];
    } else if |ops| == 1 {
      StepConserves(b, ops[0]);
      RunOne(b, ops[0]);
      assert ops == [ops[0]];
    }
  }

  lemma SubmitKeepsBalance(b: Book, a: Attempt)
    requires Balanced(b)
    requires a.quoted.Some? ==> 0 <= a.quoted.value.price
    ensures Balanced(Booked(b, a))
  {
    BalancedIsNonNegative(b);
    SubmitConserves(b, a);
  }

  ghost predicate SameTree(rows: Rows, rows': Rows) {
    && rows'.Keys == rows.Keys
    && forall j :: j in rows ==> rows'[j].claims == rows[j].claims && rows'[j].parent == rows[j].parent
  }

  lemma SameTreeSameLinks(rows: Rows, rows': Rows)
    requires SameTree(rows, rows')
    ensures Links(rows') == Links(rows)
  {
  }

  lemma ShapesKeepTree(rows: Rows, ids: seq<string>, amount: int, jti: string)
    ensures SameTree(rows, AddReserved(rows, ids, amount))
    ensures SameTree(rows, Settled(AddReserved(rows, ids, amount), ids, amount))
    ensures SameTree(rows, Floored(rows, ids))
    ensures SameTree(rows, WithStatus(rows, jti, Expired))
  {
  }

  /** No submission adds, drops or re-parents a mandate, or changes what was signed. */
  lemma SubmitKeepsTree(rows: Rows, a: Attempt)
    ensures SameTree(rows, Submit(rows, a).0)
  {
    var rows' := Submit(rows, a).0;
    if Paid(Submit(rows, a).1) {
      PaidShape(rows, a);
      ShapesKeepTree(rows, Chain(Links(rows), a.jti), a.quoted.value.price, a.jti);
    } else if Stranded(Submit(rows, a).1) {
      StrandedShape(rows, a);
      ShapesKeepTree(rows, Chain(Links(rows), a.jti), a.quoted.value.price, a.jti);
    } else {
      IdleShape(rows, a);
      if ids :| rows' == Floored(rows, ids) {
        ShapesKeepTree(rows, ids, 0, a.jti);
      } else {
        ShapesKeepTree(rows, [], 0, a.jti);
      }
    }
  }

  /** What a submission adds to the intents, by its answer. */
  lemma EntriesTell(rows: Rows, a: Attempt)
    ensures Paid(Submit(rows, a).1) ==>
      a.quoted.Some? && Entries(rows, a) == [Intent(a.jti, a.quoted.value.price, Done)]
    ensures !Paid(Submit(rows, a).1) ==> forall i :: i in Entries(rows, a) ==> i.phase != Done
    ensures |Entries(rows, a)| <= 1
  {
  }
}
