/**
 The human in the loop (src/agent/escalation.py): an approval buys one retry
 through the gate, never a bypass, and a sticky approval is a one-off signed
 exception under the mandate it was derived from.
 */
module Escalation {
  import opened Wrappers
  import opened BudgetTree
  import opened BudgetBooks
  import opened BudgetForest
  import opened Purchase

  const THIRTY_DAYS := 30 * 24 * 3600

  datatype Answer = APPROVE | REJECT | TIMEOUT

  datatype Stage = Pending | Resolved | TimedOut

  datatype Question = Question(stage: Stage, answer: Option<Answer>, purchase: string,
                               mandate: string, timeoutAt: int)

  datatype PurchaseStage = AwaitingEscalation | PurchaseRejected(why: Reason)

  datatype PurchaseRow = PurchaseRow(amount: int, stage: PurchaseStage)

  /** The derived mini-mandate: wide enough for this one amount, and for nothing else. */
  function StickyClaims(parent: Claims, amount: int, issued: int): Claims {
    Claims(amount, amount, Some(1), parent.categories, parent.merchants, parent.currency,
           Unconditional, parent.validUntil, issued,
           if parent.validUntil.Some? then parent.validUntil.value else issued + THIRTY_DAYS)
  }

  datatype Resolution = Resolution(
    answer: Answer,
    sticky: bool,
    now: int,
    rebuilt: bool,        // the offer of the original request can still be found
    derived: string,      // the fresh id a derived mandate gets
    attempt: Attempt)     // what the retried submission will see

  datatype Reply = Replay(answer: Option<Answer>) | Denied | Expiry | Retried(outcome: Outcome) | Lost

  class EscalationDesk {
    const kernel: Kernel
    const desk: PurchaseDesk
    var questions: map<string, Question>
    var purchases: map<string, PurchaseRow>

    constructor (kernel: Kernel)
      ensures this.kernel == kernel && fresh(desk) && desk.kernel == kernel
      ensures questions == map[] && purchases == map[]
    {
      this.kernel := kernel;
      desk := new PurchaseDesk(kernel);
      questions, purchases := map[], map[];
    }

    method Reject(purchase: string, why: Reason)
      modifies this
      ensures questions == old(questions)
      ensures purchases == WithRejection(old(purchases), purchase, why)
    {
      if purchase in purchases {
        purchases := purchases[purchase := purchases[purchase].(stage := PurchaseRejected(why))];
      }
    }

    /** Timeout: fail closed. */
    method Expire(id: string) returns (expired: bool)
      requires id in questions
      modifies this
      ensures expired <==> old(questions)[id].stage == Pending
      ensures questions == if expired then old(questions)[id := TimeOut(old(questions)[id])] else old(questions)
      ensures purchases ==
        if expired then
          WithRejection(old(purchases), old(questions)[id].purchase, EscalationTimeoutDenied)
        else old(purchases)
    {
      var row := questions[id];
      if row.stage != Pending {
        return false;
      }
      questions := questions[id := row.(stage := TimedOut, answer := Some(TIMEOUT))];
      Reject(row.purchase, EscalationTimeoutDenied);
      return true;
    }

    method Resolve(id: string, r: Resolution) returns (reply: Reply)
      requires id in questions && questions[id].purchase in purchases
      requires r.answer in {APPROVE, REJECT}
      requires desk.kernel == kernel && r.derived !in kernel.mandates
      modifies this, kernel
      ensures questions == Answered(old(questions), id, r)
      ensures old(questions)[id].stage != Pending ==>
        && reply == Replay(old(questions)[id].answer)
        && purchases == old(purchases) && kernel.mandates == old(kernel.mandates)
      ensures reply.Retried? ==> RetryAllowed(old(questions)[id], r)
      ensures RetryAllowed(old(questions)[id], r) ==>
        && purchases == old(purchases)
        && (kernel.mandates, reply) ==
             Retry(old(kernel.mandates), old(questions)[id], old(purchases)[old(questions)[id].purchase].amount, r)
      ensures !RetryAllowed(old(questions)[id], r) ==> kernel.mandates == old(kernel.mandates)
      ensures old(questions)[id].stage == Pending && !RetryAllowed(old(questions)[id], r) ==>
        (purchases, reply) == Closed(old(purchases), old(questions)[id], r)
    {
      var row := questions[id];
      if row.stage != Pending {
        return Replay(row.answer);
      }
      if r.now > row.timeoutAt {
        var _ := Expire(id);
        return Expiry;
      }
      questions := questions[id := row.(stage := Resolved, answer := Some(r.answer))];
      if r.answer == REJECT {
        Reject(row.purchase, HumanRejected);
        return Denied;
      }
      if !r.rebuilt {
        return Lost;
      }
      var target := row.mandate;
      if r.sticky {
        if row.mandate !in kernel.mandates {
          return Retried(Raised);
        }
        var parent := kernel.mandates[row.mandate];
        kernel.Issue(r.derived, StickyClaims(parent.claims, purchases[row.purchase].amount, r.now), row.mandate);
        target := r.derived;
      }
      var outcome := desk.SubmitPurchase(r.attempt.(jti := target));
      return Retried(outcome);
    }

    /** Expire everything past its deadline. */
    method Sweep(now: int) returns (expired: set<string>)
      modifies this
      ensures expired == Overdue(old(questions), now)
      ensures questions == Swept(old(questions), expired)
      ensures purchases == Denials(old(purchases), PurchasesOf(old(questions), expired))
    {
      ghost var asked, bought := questions, purchases;
      var due := Overdue(questions, now);
      expired := {};
      assert questions == Swept(questions, {}) && purchases == Denials(purchases, {});
      while due - expired != {}
        invariant expired <= due
        invariant questions == Swept(asked, expired)
        invariant purchases == Denials(bought, PurchasesOf(asked, expired))
        decreases due - expired
      {
        var id :| id in due - expired;
        SweptOneMore(asked, bought, expired, id);
        var _ := Expire(id);
        expired := expired + {id};
      }
      assert expired == due;
    }
  }

  function Swept(questions: map<string, Question>, ids: set<string>): map<string, Question> {
    map id | id in questions :: if id in ids then TimeOut(questions[id]) else questions[id]
  }

  function PurchasesOf(questions: map<string, Question>, ids: set<string>): set<string> {
    set id | id in ids && id in questions :: questions[id].purchase
  }

  function Denials(purchases: map<string, PurchaseRow>, gone: set<string>): map<string, PurchaseRow> {
    map p | p in purchases ::
      if p in gone then purchases[p].(stage := PurchaseRejected(EscalationTimeoutDenied)) else purchases[p]
  }

  lemma SweptOneMore(questions: map<string, Question>, purchases: map<string, PurchaseRow>,
                     done: set<string>, id: string)
    requires id in questions && id !in done
    ensures Swept(questions, done)[id] == questions[id]
    ensures Swept(questions, done + {id}) == Swept(questions, done)[id := TimeOut(questions[id])]
    ensures Denials(purchases, PurchasesOf(questions, done + {id}))
         == WithRejection(Denials(purchases, PurchasesOf(questions, done)), questions[id].purchase,
                          EscalationTimeoutDenied)
  {
    assert PurchasesOf(questions, done + {id}) == PurchasesOf(questions, done) + {questions[id].purchase};
  }

  /** Every way a pending question closes without a retry, and what becomes of its purchase. */
  function Closed(purchases: map<string, PurchaseRow>, q: Question, r: Resolution): (map<string, PurchaseRow>, Reply) {
    if r.now > q.timeoutAt then (WithRejection(purchases, q.purchase, EscalationTimeoutDenied), Expiry)
    else if r.answer == REJECT then (WithRejection(purchases, q.purchase, HumanRejected), Denied)
    else (purchases, Lost)
  }

  function WithRejection(purchases: map<string, PurchaseRow>, id: string, why: Reason): map<string, PurchaseRow> {
    if id in purchases then purchases[id := purchases[id].(stage := PurchaseRejected(why))] else purchases
  }

  function TimeOut(q: Question): Question {
    q.(stage := TimedOut, answer := Some(TIMEOUT))
  }

  function Overdue(questions: map<string, Question>, now: int): set<string> {
    set id | id in questions && questions[id].stage == Pending && questions[id].timeoutAt < now
  }

  /** An approval given in time, to a question nobody has answered yet. */
  predicate RetryAllowed(q: Question, r: Resolution) {
    q.stage == Pending && r.now <= q.timeoutAt && r.answer == APPROVE && r.rebuilt
  }

  function Answered(questions: map<string, Question>, id: string, r: Resolution): map<string, Question>
    requires id in questions
  {
    var q := questions[id];
    if q.stage != Pending then questions
    else if r.now > q.timeoutAt then questions[id := TimeOut(q)]
    else questions[id := q.(stage := Resolved, answer := Some(r.answer))]
  }

  function Retry(rows: Rows, q: Question, amount: int, r: Resolution): (Rows, Reply) {
    if r.sticky && q.mandate !in rows then (rows, Retried(Raised))
    else
      var rows1 := if r.sticky then Derive(rows, q.mandate, amount, r.now, r.derived) else rows;
      var target := if r.sticky then r.derived else q.mandate;
      var (rows2, outcome) := Submit(rows1, r.attempt.(jti := target));
      (rows2, Retried(outcome))
  }

  function Derive(rows: Rows, parent: string, amount: int, now: int, derived: string): Rows
    requires parent in rows
  {
    rows[derived := Mandate(Active, StickyClaims(rows[parent].claims, amount, now), 0, 0, 0, parent)]
  }

  // ------------------------------------------------- one answer, one retry

  /** Resolving or sweeping in any order: what may happen to one question. */
  datatype Event = Resolving(r: Resolution) | Sweeping(now: int)

  function Next(q: Question, e: Event): Question {
    match e
    case Resolving(r) => Answered(map["q" := q], "q", r)["q"]
    case Sweeping(now) => if q.stage == Pending && q.timeoutAt < now then TimeOut(q) else q
  }

  function Retries(q: Question, events: seq<Event>): nat
    decreases |events|
  {
    if events == [] then 0
    else
      (if events[0].Resolving? && RetryAllowed(q, events[0].r) then 1 else 0)
      + Retries(Next(q, events[0]), events[1..])
  }

  function After(q: Question, events: seq<Event>): Question
    decreases |events|
  {
    if events == [] then q else After(Next(q, events[0]), events[1..])
  }

  lemma {:induction false} SettledQuestionIsFinal(q: Question, events: seq<Event>)
    requires q.stage != Pending
    ensures Retries(q, events) == 0 && After(q, events) == q
    decreases |events|
  {
    if events != [] {
      assert Next(q, events[0]) == q;
      SettledQuestionIsFinal(q, events[1..]);
    }
  }

  /**
   However often a question is answered or swept, it is retried at most once,
   only if a human approved it, and an unanswered one is never retried.
   */
  lemma {:induction false} AtMostOneRetry(q: Question, events: seq<Event>)
    ensures Retries(q, events) <= 1
    ensures Retries(q, events) == 1 ==> After(q, events).answer == Some(APPROVE)
    ensures After(q, events).stage == TimedOut && q.stage == Pending ==> Retries(q, events) == 0
    decreases |events|
  {
    if events != [] {
      if Next(q, events[0]).stage != Pending {
        SettledQuestionIsFinal(Next(q, events[0]), events[1..]);
      } else {
        AtMostOneRetry(Next(q, events[0]), events[1..]);
      }
    }
  }

  /** A sweep does to each question what time alone would, and denies exactly the purchases of those it expires. */
  lemma SweepExactly(questions: map<string, Question>, purchases: map<string, PurchaseRow>, now: int,
                     id: string, p: string)
    requires id in questions && p in purchases
    ensures var gone := Overdue(questions, now);
      && (id in gone <==> questions[id].stage == Pending && questions[id].timeoutAt < now)
      && Swept(questions, gone)[id] == Next(questions[id], Sweeping(now))
      && Denials(purchases, PurchasesOf(questions, gone))[p] ==
           if exists x :: x in questions && questions[x].purchase == p
                && questions[x].stage == Pending && questions[x].timeoutAt < now
           then purchases[p].(stage := PurchaseRejected(EscalationTimeoutDenied)) else purchases[p]
  {
  }

  /** The first event that decides a question with this deadline: any answer, or a sweep after it. */
  function FirstDecision(events: seq<Event>, timeoutAt: int): Option<Event>
    decreases |events|
  {
    if events == [] then None
    else if events[0].Resolving? || timeoutAt < events[0].now then Some(events[0])
    else FirstDecision(events[1..], timeoutAt)
  }

  /**
   The first decision is the one that stands: a pending question waits until
   it comes, times out when it comes late, and is retried exactly when it is
   an approval in time that can be carried out.
   */
  lemma {:induction false} FirstDecisionStands(q: Question, events: seq<Event>)
    requires q.stage == Pending
    ensures var first := FirstDecision(events, q.timeoutAt);
      var late := first.Some? && (first.value.Sweeping? || q.timeoutAt < first.value.r.now);
      && After(q, events) ==
           (if first.None? then q
            else if late then q.(stage := TimedOut, answer := Some(TIMEOUT))
            else q.(stage := Resolved, answer := Some(first.value.r.answer)))
      && (Retries(q, events) == 1 <==>
            first.Some? && !late && first.value.r.answer == APPROVE && first.value.r.rebuilt)
    decreases |events|
  {
    if events != [] {
      if Next(q, events[0]).stage == Pending {
        FirstDecisionStands(q, events[1..]);
      } else {
        SettledQuestionIsFinal(Next(q, events[0]), events[1..]);
      }
    }
  }

  /**
   What an answer that buys no retry does to the purchases: late, it denies the
   purchase for the timeout; a rejection denies it for the human; an approval
   that cannot be carried out leaves it waiting.  No other purchase changes.
   */
  lemma ClosingExactly(purchases: map<string, PurchaseRow>, q: Question, r: Resolution, p: string)
    requires q.purchase in purchases && p in purchases
    ensures var (purchases', reply) := Closed(purchases, q, r);
      && purchases'.Keys == purchases.Keys && purchases'[p].amount == purchases[p].amount
      && (reply == Expiry <==> q.timeoutAt < r.now)
      && (reply == Denied <==> r.now <= q.timeoutAt && r.answer == REJECT)
      && (reply == Lost <==> r.now <= q.timeoutAt && r.answer != REJECT)
      && purchases'[p].stage ==
           if p == q.purchase && reply == Expiry then PurchaseRejected(EscalationTimeoutDenied)
           else if p == q.purchase && reply == Denied then PurchaseRejected(HumanRejected)
           else purchases[p].stage
  {
  }

  // ------------------------------------------------ the sticky exception

  /**
   The gate of a derived mandate never asks a human again, and approves exactly
   the first purchase in scope that the approved amount still covers.
   */
  lemma StickyGate(parent: Claims, approved: int, issued: int, price: int, currency: string,
                   offer: Offer, spend: Spend, ruleHolds: Option<bool>)
    requires 0 <= spend.spent + spend.reserved
    ensures var d := Gate(StickyClaims(parent, approved, issued), price, currency, offer, spend, ruleHolds);
      && !d.Escalated?
      && (d == Approved <==>
            && InScope(parent, offer) && currency == parent.currency
            && spend.txnCount < 1
            && spend.spent + spend.reserved + price <= approved)
  {
  }

  /** What an escalation says about the mandate it was raised on. */
  lemma EscalatedShape(rows: Rows, a: Attempt)
    requires Submit(rows, a).1.AwaitingHuman?
    ensures a.jti in rows && a.quoted.Some? && a.refetched.Some? && Submit(rows, a).0 == rows
    ensures Liveness(rows, a) == None && Judgement(rows[a.jti], a, a.quoted.value).Escalated?
    ensures a.refetched.value.price == a.quoted.value.price
    ensures a.quoted.value.currency == rows[a.jti].claims.currency
    ensures InScope(rows[a.jti].claims, a.refetched.value)
    ensures rows[a.jti].status == Active ==> Covers(rows, a.jti, a.quoted.value.price)
  {
  }

  lemma DerivedChain(rows: Rows, parent: string, amount: int, issued: int, derived: string)
    requires Forest(Links(rows)) && parent in rows && derived != "" && derived !in rows
    ensures var chain := Chain(Links(Derive(rows, parent, amount, issued, derived)), derived);
      && chain == [derived] + Chain(Links(rows), parent)
      && derived !in Chain(Links(rows), parent) && parent in Chain(Links(rows), parent)
  {
    IssueKeepsForest(rows, derived, StickyClaims(rows[parent].claims, amount, issued), parent);
    ForestChainInside(Links(rows), parent);
    ChainIsAncestry(Links(rows), parent);
  }

  /** The derived row covers its own amount, and every other row is as before. */
  lemma DerivedReservable(rows: Rows, parent: string, amount: int, issued: int, derived: string)
    requires Forest(Links(rows)) && parent in rows && derived != "" && derived !in rows
    ensures var rows' := Derive(rows, parent, amount, issued, derived);
      Reservable(rows', Chain(Links(rows'), derived), amount, map[]) <==> CanReserve(rows, parent, amount)
  {
    var rows' := Derive(rows, parent, amount, issued, derived);
    var above := Chain(Links(rows), parent);
    var chain := Chain(Links(rows'), derived);
    DerivedChain(rows, parent, amount, issued, derived);
    forall k | 0 <= k < |chain|
      ensures Obtainable(rows', chain[k], amount, map[]) <==> k == 0 || Covers(rows, above[k - 1], amount)
    {
      assert k > 0 ==> chain[k] == above[k - 1];
    }
    if Reservable(rows', chain, amount, map[]) {
      forall j | j in above
        ensures Covers(rows, j, amount)
      {
        var k :| 0 <= k < |above| && above[k] == j;
        assert Obtainable(rows', chain[k + 1], amount, map[]);
      }
    }
  }

  lemma DerivedNotStopped(rows: Rows, parent: string, amount: int, issued: int, derived: string)
    requires Forest(Links(rows)) && parent in rows && derived != "" && derived !in rows
    requires rows[parent].status == Active && !AncestorStopped(rows, parent)
    ensures !AncestorStopped(Derive(rows, parent, amount, issued, derived), derived)
  {
    var rows' := Derive(rows, parent, amount, issued, derived);
    var above, chain := Chain(Links(rows), parent), Chain(Links(rows'), derived);
    DerivedChain(rows, parent, amount, issued, derived);
    ChainIsAncestry(Links(rows), parent);
    forall k | 1 <= k < |chain| && chain[k] in rows'
      ensures rows'[chain[k]].status == Active
    {
      assert chain[k] == above[k - 1] && above[k - 1] in above;
      assert k == 1 ==> chain[k] == parent;
    }
  }

  /** The exception lasts as long as its parent may, or thirty days. */
  predicate StillValid(parent: Claims, issued: int, now: int) {
    match parent.validUntil
    case Some(t) => now <= t
    case None => now <= issued + 2_592_000
  }

  lemma DerivedIsAlive(rows: Rows, a: Attempt, issued: int, derived: string, r: Attempt)
    requires Forest(Links(rows)) && derived != "" && derived !in rows
    requires Submit(rows, a).1.AwaitingHuman? && rows[a.jti].status == Active
    requires r.jti == derived && r.tokenOk && r.proofOk && r.now <= r.issued + INTENT_TTL_S
    requires issued <= r.now
    ensures Liveness(Derive(rows, a.jti, a.quoted.value.price, issued, derived), r)
      == if StillValid(rows[a.jti].claims, issued, r.now) then None else Some(MandateExpired)
  {
    EscalatedShape(rows, a);
    DerivedNotStopped(rows, a.jti, a.quoted.value.price, issued, derived);
  }

  /**
   From the question to its sticky approval: with the offer unmoved, the
   retry on the derived mandate is reserved exactly when the exception has not
   run out and the ancestry of the mandate that asked can still cover it, which
   for a root mandate it always can; and then only the rail can refuse.
   */
  lemma StickyRetrySucceeds(rows: Rows, a: Attempt, issued: int, derived: string, r: Attempt)
    requires Forest(Links(rows)) && derived != "" && derived !in rows
    requires Submit(rows, a).1.AwaitingHuman? && rows[a.jti].status == Active
    requires r.jti == derived && r.merchantKnown && r.tokenOk && r.proofOk && r.stale == map[] && r.crash == Never
    requires r.quoted == a.quoted && r.refetched == a.refetched
    requires issued <= r.now <= r.issued + INTENT_TTL_S
    ensures var price := a.quoted.value.price;
      && (rows[a.jti].parent == "" ==> CanReserve(rows, a.jti, price))
      && Submit(Derive(rows, a.jti, price, issued, derived), r).1 ==
           if !StillValid(rows[a.jti].claims, issued, r.now) then Refused(MandateExpired)
           else if !CanReserve(rows, a.jti, price) then Refused(BudgetExceeded)
           else if r.railRefusal.Some? then Compensated(r.railRefusal.value) else Captured(price)
  {
    var price := a.quoted.value.price;
    var rows' := Derive(rows, a.jti, price, issued, derived);
    EscalatedShape(rows, a);
    DerivedIsAlive(rows, a, issued, derived, r);
    DerivedReservable(rows, a.jti, price, issued, derived);
    StickyGate(rows[a.jti].claims, price, issued, price, a.quoted.value.currency, a.refetched.value,
               Spend(0, 0, 0), r.ruleHolds);
    assert Judgement(rows'[derived], r, r.quoted.value) == Approved;
    if rows[a.jti].parent == "" {
      assert a.jti in Links(rows);
      RootChain(Links(rows), a.jti);
    }
  }

  /**
   A plain approval buys nothing while nothing has moved: the retry meets the
   same gate and asks the human again.
   */
  lemma PlainApprovalAsksAgain(rows: Rows, a: Attempt, now: int, issued: int)
    requires Submit(rows, a).1.AwaitingHuman?
    requires now <= issued + INTENT_TTL_S && rows[a.jti].claims.nbf <= now <= rows[a.jti].claims.exp
    ensures Submit(rows, a.(now := now, issued := issued)) == Submit(rows, a)
  {
  }

  /** The retry sees the request that was asked about, unmoved and from an honest agent. */
  predicate Unmoved(a: Attempt, r: Resolution) {
    && r.attempt.merchantKnown && r.attempt.tokenOk && r.attempt.proofOk
    && r.attempt.stale == map[] && r.attempt.crash == Never
    && r.attempt.quoted == a.quoted && r.attempt.refetched == a.refetched
    && r.now <= r.attempt.now <= r.attempt.issued + INTENT_TTL_S
  }

  /**
   What a sticky approval of a question answers: the purchase is captured on a
   mandate of its own, which is spent with it, unless the exception has run
   out, the ancestry no longer covers it, or the rail refuses.
   */
  lemma StickyApprovalBuys(rows: Rows, a: Attempt, q: Question, r: Resolution)
    requires Forest(Links(rows)) && r.derived != "" && r.derived !in rows
    requires Submit(rows, a).1.AwaitingHuman? && rows[a.jti].status == Active
    requires q.mandate == a.jti && r.sticky && Unmoved(a, r)
    ensures var price := a.quoted.value.price;
      var (rows', reply) := Retry(rows, q, price, r);
      && reply == Retried(
           if !StillValid(rows[a.jti].claims, r.now, r.attempt.now) then Refused(MandateExpired)
           else if !CanReserve(rows, a.jti, price) then Refused(BudgetExceeded)
           else if r.attempt.railRefusal.Some? then Compensated(r.attempt.railRefusal.value) else Captured(price))
      && (reply.outcome.Captured? ==>
            && r.derived in rows' && rows'[r.derived].status == Exhausted
            && rows'[r.derived].spent == price && rows'[r.derived].txnCount == 1
            && rows'[r.derived].parent == a.jti
            && a.jti in rows' && rows'[a.jti].spent == rows[a.jti].spent + price
            && rows'[a.jti].txnCount == rows[a.jti].txnCount + 1)
  {
    var price := a.quoted.value.price;
    var rows1 := Derive(rows, a.jti, price, r.now, r.derived);
    var attempt := r.attempt.(jti := r.derived);
    StickyRetrySucceeds(rows, a, r.now, r.derived, attempt);
    if Submit(rows1, attempt).1.Captured? {
      DerivedChain(rows, a.jti, price, r.now, r.derived);
      PaymentChargesAncestry(rows1, attempt);
    }
  }

  /** A plain approval of an unmoved purchase asks the human again and leaves every row as it was. */
  lemma PlainApprovalBuysNothing(rows: Rows, a: Attempt, q: Question, amount: int, r: Resolution)
    requires Submit(rows, a).1.AwaitingHuman?
    requires q.mandate == a.jti && !r.sticky
    requires r.attempt.(jti := a.jti) == a.(now := r.attempt.now, issued := r.attempt.issued)
    requires r.attempt.now <= r.attempt.issued + INTENT_TTL_S
    requires rows[a.jti].claims.nbf <= r.attempt.now <= rows[a.jti].claims.exp
    ensures Retry(rows, q, amount, r) == (rows, Retried(Submit(rows, a).1))
  {
    PlainApprovalAsksAgain(rows, a, r.attempt.now, r.attempt.issued);
    EscalatedShape(rows, a);
  }

  /**
   An approval buys a retry, never a bypass: whatever is approved and however,
   the retry pays exactly when everything that authorises a purchase holds,
   anew, on the mandate that asked or on the one derived from it.
   */
  lemma ApprovalIsNoBypass(rows: Rows, q: Question, amount: int, r: Resolution)
    requires "" !in rows && r.derived != "" && (r.sticky ==> q.mandate in rows)
    ensures var target := if r.sticky then r.derived else q.mandate;
      var signed := if !r.sticky then rows
        else
          var c := rows[q.mandate].claims;
          var exp := if c.validUntil.Some? then c.validUntil.value else r.now + 2_592_000;
          rows[r.derived := Mandate(Active,
                 c.(totalBudget := amount, maxPerTxn := amount, maxCount := Some(1), conditions := Unconditional,
                    nbf := r.now, exp := exp), 0, 0, 0, q.mandate)];
      var attempt := r.attempt.(jti := target);
      var paid := Paid(Retry(rows, q, amount, r).1.outcome);
      && Retry(rows, q, amount, r) == (Submit(signed, attempt).0, Retried(Submit(signed, attempt).1))
      && (paid <==> Authorised(signed, attempt) && attempt.railRefusal.None? && attempt.crash in {Never, AfterClose})
  {
    if r.sticky {
      PaidExactlyWhenAuthorised(Derive(rows, q.mandate, amount, r.now, r.derived), r.attempt.(jti := r.derived));
    } else {
      PaidExactlyWhenAuthorised(rows, r.attempt.(jti := q.mandate));
    }
  }

  // ------------------------------------- serial runs of whole submissions

  datatype Turn =
    | Buy(a: Attempt)
    | NewMandate(jti: string, claims: Claims, parent: string)
    | Mark(jti: string, status: Status)

  predicate TurnOk(b: Book, t: Turn) {
    match t
    case Buy(a) => a.quoted.Some? ==> 0 <= a.quoted.value.price
    case NewMandate(jti, _, _) => jti != "" && jti !in b.rows
    case Mark(_, _) => true
  }

  ghost function Take(b: Book, t: Turn): Book
    requires TurnOk(b, t)
  {
    match t
    case Buy(a) => Booked(b, a)
    case NewMandate(jti, claims, parent) => Apply(b, Op.Issue(jti, claims, parent))
    case Mark(jti, status) => Apply(b, Op.SetStatus(jti, status))
  }

  ghost predicate TurnsOk(b: Book, turns: seq<Turn>)
    decreases |turns|
  {
    turns == [] || (TurnOk(b, turns[0]) && TurnsOk(Take(b, turns[0]), turns[1..]))
  }

  ghost function Play(b: Book, turns: seq<Turn>): Book
    requires TurnsOk(b, turns)
    decreases |turns|
  {
    if turns == [] then b else Play(Take(b, turns[0]), turns[1..])
  }

  /** Captures made directly on mandate `d`. */
  function Direct(intents: seq<Intent>, d: string, unit: Unit): int {
    if intents == [] then 0
    else
      var n := |intents| - 1;
      Direct(intents[..n], d, unit)
      + (if intents[n].phase == Done && intents[n].jti == d then Share(intents[n], unit) else 0)
  }

  /** Whatever is captured on a mandate is charged to each of its ancestors. */
  lemma {:induction false} DirectIsCharged(links: map<string, string>, intents: seq<Intent>, d: string,
                                           above: string, unit: Unit)
    requires above in Chain(links, d)
    requires forall k :: 0 <= k < |intents| ==> 0 <= intents[k].amount
    ensures 0 <= Direct(intents, d, unit) <= Charged(links, intents, above, Done, unit)
  {
    if intents != [] {
      DirectIsCharged(links, intents[..|intents| - 1], d, above, unit);
    }
  }

  /** The derived mandate `d`, captured at most once so far. */
  ghost predicate StickyOk(b: Book, d: string, parent: Claims, amount: int, issued: int) {
    && Balanced(b)
    && d != "" && d in b.rows && b.rows[d].claims == StickyClaims(parent, amount, issued)
    && Direct(b.intents, d, Count) <= 1
  }

  /** A payment on `d` is its first: the gate has seen no purchase counted yet. */
  lemma FirstCaptureOnly(b: Book, a: Attempt, d: string, parent: Claims, amount: int, issued: int)
    requires StickyOk(b, d, parent, amount, issued)
    requires a.jti == d && Paid(Submit(b.rows, a).1)
    ensures Direct(b.intents, d, Count) == 0
  {
    ChainIsAncestry(Links(b.rows), d);
    assert SpendExact(b, d);
    DirectIsCharged(Links(b.rows), b.intents, d, d, Count);
    PaymentRespectsCount(b.rows, a);
  }

  lemma PaymentRespectsCount(rows: Rows, a: Attempt)
    requires Paid(Submit(rows, a).1)
    ensures a.jti in rows
    ensures rows[a.jti].claims.maxCount.Some? ==> rows[a.jti].txnCount < rows[a.jti].claims.maxCount.value
  {
  }

  lemma DirectMore(intents: seq<Intent>, more: seq<Intent>, d: string, unit: Unit)
    requires |more| <= 1
    ensures Direct(intents + more, d, unit) == Direct(intents, d, unit)
      + if more != [] && more[0].phase == Done && more[0].jti == d then Share(more[0], unit) else 0
  {
    if more == [] {
      assert intents + more == intents;
    } else {
      assert (intents + more)[..|intents|] == intents;
    }
  }

  lemma BuyKeepsSticky(b: Book, a: Attempt, d: string, parent: Claims, amount: int, issued: int)
    requires StickyOk(b, d, parent, amount, issued) && TurnOk(b, Buy(a))
    ensures StickyOk(Booked(b, a), d, parent, amount, issued)
  {
    SubmitKeepsBalance(b, a);
    SubmitKeepsTree(b.rows, a);
    EntriesTell(b.rows, a);
    DirectMore(b.intents, Entries(b.rows, a), d, Count);
    if Paid(Submit(b.rows, a).1) && a.jti == d {
      FirstCaptureOnly(b, a, d, parent, amount, issued);
    }
  }

  lemma TurnKeepsSticky(b: Book, t: Turn, d: string, parent: Claims, amount: int, issued: int)
    requires StickyOk(b, d, parent, amount, issued) && TurnOk(b, t)
    ensures StickyOk(Take(b, t), d, parent, amount, issued)
  {
    match t
    case NewMandate(jti, claims, p) => StepKeepsBalance(b, Op.Issue(jti, claims, p));
    case Mark(jti, status) => StepKeepsBalance(b, Op.SetStatus(jti, status));
    case Buy(a) => BuyKeepsSticky(b, a, d, parent, amount, issued);
  }

  /** What balanced books say about the captures made on one mandate. */
  lemma DirectIsBounded(b: Book, d: string, above: string)
    requires Balanced(b) && d != "" && d in b.rows
    requires above in Chain(Links(b.rows), d) && above in b.rows
    ensures 0 <= Direct(b.intents, d, Cents) <= Max(0, b.rows[d].claims.totalBudget)
    ensures Direct(b.intents, d, Cents) <= b.rows[above].spent <= Max(0, b.rows[above].claims.totalBudget)
  {
    assert SpendExact(b, d) && SpendExact(b, above);
    ChainIsAncestry(Links(b.rows), d);
    DirectIsCharged(Links(b.rows), b.intents, d, d, Cents);
    DirectIsCharged(Links(b.rows), b.intents, d, above, Cents);
    BalancedIsNonNegative(b);
  }

  /** At most one capture, at most the amount, all of it charged to `above`, which stays within its budget. */
  ghost predicate Bounded(b: Book, d: string, above: string, amount: int) {
    && Direct(b.intents, d, Count) <= 1
    && 0 <= Direct(b.intents, d, Cents) <= Max(0, amount)
    && above in b.rows
    && Direct(b.intents, d, Cents) <= b.rows[above].spent <= Max(0, b.rows[above].claims.totalBudget)
  }

  lemma {:induction false} StickyStaysBounded(b: Book, turns: seq<Turn>, d: string, above: string,
                                              parent: Claims, amount: int, issued: int)
    requires StickyOk(b, d, parent, amount, issued) && TurnsOk(b, turns)
    requires above in Chain(Links(b.rows), d) && above in b.rows
    ensures Bounded(Play(b, turns), d, above, amount)
    decreases |turns|
  {
    if turns == [] {
      DirectIsBounded(b, d, above);
    } else {
      TurnKeepsSticky(b, turns[0], d, parent, amount, issued);
      ChainSurvivesTurn(b, turns[0], d, above);
      StickyStaysBounded(Take(b, turns[0]), turns[1..], d, above, parent, amount, issued);
    }
  }

  lemma {:induction false} DirectNothing(intents: seq<Intent>, d: string, unit: Unit)
    requires forall k :: 0 <= k < |intents| ==> intents[k].jti != d
    ensures Direct(intents, d, unit) == 0
  {
    if intents != [] {
      DirectNothing(intents[..|intents| - 1], d, unit);
    }
  }

  /** The books right after a sticky approval issued its mandate. */
  function Granted(b: Book, parent: string, amount: int, issued: int, d: string): Book
    requires parent in b.rows
  {
    b.(rows := Derive(b.rows, parent, amount, issued, d))
  }

  /** Issuing the derived mandate is where its once-only count starts. */
  lemma StickyStarts(b: Book, parent: string, amount: int, issued: int, d: string)
    requires Balanced(b) && parent in b.rows && d != "" && d !in b.rows
    ensures StickyOk(Granted(b, parent, amount, issued, d), d, b.rows[parent].claims, amount, issued)
  {
    StepKeepsBalance(b, Op.Issue(d, StickyClaims(b.rows[parent].claims, amount, issued), parent));
    forall k | 0 <= k < |b.intents|
      ensures b.intents[k].jti != d
    {
      assert IntentKnown(b.rows, b.intents[k]);
      ChainIsAncestry(Links(b.rows), b.intents[k].jti);
    }
    DirectNothing(b.intents, d, Count);
  }

  /**
   A sticky approval is a bounded exception: from the moment its mandate is
   issued, over every later serial run, the derived mandate captures at most
   once, at most the approved amount, and all of it is charged to every
   ancestor, whose own budgets still hold.
   */
  lemma StickyIsBounded(b: Book, parent: string, amount: int, issued: int, d: string,
                        turns: seq<Turn>, above: string)
    requires Balanced(b) && parent in b.rows && d != "" && d !in b.rows
    requires TurnsOk(Granted(b, parent, amount, issued, d), turns)
    requires var rows := Derive(b.rows, parent, amount, issued, d);
      above in Chain(Links(rows), d) && above in rows
    ensures Bounded(Play(Granted(b, parent, amount, issued, d), turns), d, above, amount)
  {
    StickyStarts(b, parent, amount, issued, d);
    StickyStaysBounded(Granted(b, parent, amount, issued, d), turns, d, above,
                       b.rows[parent].claims, amount, issued);
  }

  lemma OpKeepsAncestry(b: Book, op: Op, d: string, above: string)
    requires Enabled(b, op) && d in b.rows && above in Chain(Links(b.rows), d) && above in b.rows
    ensures d in Apply(b, op).rows && Apply(b, op).rows[d].claims == b.rows[d].claims
    ensures above in Apply(b, op).rows && above in Chain(Links(Apply(b, op).rows), d)
  {
    var links, links' := Links(b.rows), Links(Apply(b, op).rows);
    if op.Issue? {
      WalkKeepsKnown(links, links', op.jti, d, [], above);
    } else {
      SameLinks(b, op);
    }
  }

  /**
   The amount needs no serial submissions: however the reservations,
   settlements and releases of overlapping purchases follow each other, what
   is captured on the derived mandate stays within the approved amount and is
   charged to every ancestor.
   */
  lemma {:induction false} StickyAmountHolds(b: Book, ops: seq<Op>, d: string, above: string,
                                             parent: Claims, amount: int, issued: int)
    requires Balanced(b) && Legal(b, ops) && NonNegativeOps(ops)
    requires d != "" && d in b.rows && b.rows[d].claims == StickyClaims(parent, amount, issued)
    requires above in Chain(Links(b.rows), d) && above in b.rows
    ensures var b' := Run(b, ops);
      && 0 <= Direct(b'.intents, d, Cents) <= Max(0, amount)
      && above in b'.rows
      && Direct(b'.intents, d, Cents) <= b'.rows[above].spent <= Max(0, b'.rows[above].claims.totalBudget)
    decreases |ops|
  {
    if ops == [] {
      DirectIsBounded(b, d, above);
    } else {
      StepKeepsBalance(b, ops[0]);
      assert forall k :: 0 <= k < |ops[1..]| ==> ops[1..][k] == ops[k + 1];
      OpKeepsAncestry(b, ops[0], d, above);
      StickyAmountHolds(Apply(b, ops[0]), ops[1..], d, above, parent, amount, issued);
    }
  }

  lemma ChainSurvivesTurn(b: Book, t: Turn, d: string, above: string)
    requires TurnOk(b, t) && above in Chain(Links(b.rows), d) && above in b.rows
    ensures above in Take(b, t).rows && above in Chain(Links(Take(b, t).rows), d)
  {
    var links, links' := Links(b.rows), Links(Take(b, t).rows);
    match t
    case Mark(_, _) => assert links' == links;
    case Buy(a) =>
      SubmitKeepsTree(b.rows, a);
      SameTreeSameLinks(b.rows, Submit(b.rows, a).0);
    case NewMandate(jti, _, _) =>
      WalkKeepsKnown(links, links', jti, d, [], above);
  }

  /** A new row can only lengthen a walk: every known row on it stays on it. */
  lemma {:induction false} WalkKeepsKnown(links: map<string, string>, links': map<string, string>, jti: string,
                                          current: string, seen: seq<string>, above: string)
    requires jti !in links && links'.Keys == links.Keys + {jti}
    requires forall j :: j in links ==> links'[j] == links[j]
    requires above in Walk(links, current, seen)
    ensures above in Walk(links', current, seen)
    decreases |links.Keys - Elems(seen)|, if current == "" then 0 else 1
  {
    if current != "" && current !in seen {
      WalkProgress(links, current, seen);
      if current in links {
        WalkKeepsKnown(links, links', jti, links[current], seen + [current], above);
      } else {
        assert Walk(links, current, seen) == seen + [current];
        WalkExtends(links', current, seen);
      }
    }
  }

  /**
   The once-only count needs whole submissions to be serial: it is read at the
   gate and written at settlement.  While one reservation of `held` is open, a
   second purchase passes the gate exactly when both fit the approved amount.
   */
  lemma SecondPurchaseWhileOneIsOpen(parent: Claims, approved: int, issued: int, held: nat, price: int,
                                     offer: Offer, ruleHolds: Option<bool>)
    requires InScope(parent, offer)
    ensures
      var d := Gate(StickyClaims(parent, approved, issued), price, parent.currency, offer,
                    Spend(0, held, 0), ruleHolds);
      d == Approved <==> held + price <= approved
  {
    StickyGate(parent, approved, issued, price, parent.currency, offer, Spend(0, held, 0), ruleHolds);
  }

  /** Both purchases pass the gate and reserve, the second while the first is still open. */
  ghost predicate BothReserve(rows: Rows, derived: string, first: int, second: int, currency: string,
                              offer: Offer, ruleHolds: Option<bool>)
    requires derived in rows
  {
    var chain := Chain(Links(rows), derived);
    var held := AddReserved(rows, chain, first);
    var m := rows[derived];
    && Gate(m.claims, first, currency, offer, Spend(m.spent, m.reserved, m.txnCount), ruleHolds) == Approved
    && CanReserve(rows, derived, first)
    && Gate(m.claims, second, currency, offer, Spend(m.spent, m.reserved + first, m.txnCount), ruleHolds) == Approved
    && CanReserve(held, derived, second)
  }

  /** Two reservations in a row fit exactly when one of their sum does. */
  lemma TwoFit(rows: Rows, derived: string, first: nat, second: nat)
    requires derived != ""
    ensures var held := AddReserved(rows, Chain(Links(rows), derived), first);
      var both := CanReserve(rows, derived, first) && CanReserve(held, derived, second);
      both <==> CanReserve(rows, derived, first + second)
  {
    var chain := Chain(Links(rows), derived);
    var held := AddReserved(rows, chain, first);
    assert Links(held) == Links(rows);
    forall j | j in chain
      ensures Covers(rows, j, first) && Covers(held, j, second) <==> Covers(rows, j, first + second)
    {
    }
  }

  lemma DerivedCovers(rows: Rows, parent: string, approved: int, issued: int, derived: string, amount: int)
    requires Forest(Links(rows)) && parent in rows && derived != "" && derived !in rows
    ensures var rows' := Derive(rows, parent, approved, issued, derived);
      CanReserve(rows', derived, amount) <==> amount <= approved && CanReserve(rows, parent, amount)
  {
    var rows' := Derive(rows, parent, approved, issued, derived);
    DerivedChain(rows, parent, approved, issued, derived);
    assert Covers(rows', derived, amount) <==> amount <= approved;
    assert forall j :: j in Chain(Links(rows'), derived) <==> j == derived || j in Chain(Links(rows), parent);
    assert forall j :: j in Chain(Links(rows), parent) ==> (Covers(rows', j, amount) <==> Covers(rows, j, amount));
  }

  /**
   Two overlapping purchases on one derived mandate are both captured exactly
   when both are in scope and currency and their sum fits the approved amount
   and the parent's ancestry: the once-only count does not stop the second.
   */
  lemma OverlapCapturesTwice(rows: Rows, parent: string, approved: int, issued: int, derived: string,
                             first: nat, second: nat, currency: string, offer: Offer, ruleHolds: Option<bool>)
    requires Forest(Links(rows)) && parent in rows && derived != "" && derived !in rows
    ensures var rows' := Derive(rows, parent, approved, issued, derived);
      BothReserve(rows', derived, first, second, currency, offer, ruleHolds)
      <==> && InScope(rows[parent].claims, offer) && currency == rows[parent].claims.currency
           && first + second <= approved && CanReserve(rows, parent, first + second)
  {
    var rows' := Derive(rows, parent, approved, issued, derived);
    var claims := rows[parent].claims;
    StickyGate(claims, approved, issued, first, currency, offer, Spend(0, 0, 0), ruleHolds);
    StickyGate(claims, approved, issued, second, currency, offer, Spend(0, first, 0), ruleHolds);
    TwoFit(rows', derived, first, second);
    DerivedCovers(rows, parent, approved, issued, derived, first + second);
  }

  /** And then both are counted and charged, on the derived mandate and on its parent. */
  lemma OverlapChargesBoth(rows: Rows, parent: string, approved: int, issued: int, derived: string,
                           first: nat, second: nat)
    requires Forest(Links(rows)) && parent in rows && derived != "" && derived !in rows
    ensures var rows' := Derive(rows, parent, approved, issued, derived);
      var chain := Chain(Links(rows'), derived);
      var both := AddReserved(AddReserved(rows', chain, first), chain, second);
      var done := Settled(Settled(both, chain, first), chain, second);
      && done[derived].txnCount == 2 && done[derived].spent == first + second
      && done[parent].txnCount == rows[parent].txnCount + 2
      && done[parent].spent == rows[parent].spent + first + second
  {
    DerivedChain(rows, parent, approved, issued, derived);
  }
}
