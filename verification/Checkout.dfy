/**
 The merchant's charge path (src/merchant/charge.py, src/merchant/checkout_jwt.py)
 together with the rail it calls: seven ordered steps over one locked order,
 with lost replies, crashes after the money moved, and retries.
 */
module Checkout {
  import opened Wrappers
  import opened Rail

  datatype OrderStatus =
    | Quoted
    | Captured(purchaseId: string, receipt: Option<Receipt>)
    | Unavailable

  /** What happens between the merchant and the rail. */
  datatype Wire =
    | NeverSent                     // the request never reached the rail
    | ReplyLost(checks: Checks)     // the rail answered, the merchant saw an error
    | Answered(checks: Checks)

  /** One call of `charge`, with everything outside the order row decided in advance. */
  datatype Attempt = Attempt(
    purchaseId: string,
    idempotencyKey: string,         // empty when the caller gave none
    mandateOk: bool,                // step 1
    intentOk: bool,                 // step 2
    priceOk: bool,                  // step 3
    cartOk: bool,                   // step 4: signature, stored bytes, binding, offer and total
    kernelApproves: bool,           // step 5
    amount: int,
    currency: string,
    wire: Wire,                     // step 6
    paymentId: nat,
    at: int,
    diesBeforeRecording: bool)      // between steps 6 and 7

  datatype Outcome =
    | Paid(receipt: Receipt)
    | Declined                        // a 402
    | Uncertain                     // ChargeSettlementError
    | Died

  function KeyOf(a: Attempt): string {
    if a.idempotencyKey != "" then a.idempotencyKey else a.purchaseId
  }

  function RequestOf(a: Attempt): Request {
    Request(KeyOf(a), a.amount, a.currency)
  }

  predicate ReachesRail(order: OrderStatus, a: Attempt) {
    && a.mandateOk && a.intentOk && a.priceOk && a.cartOk
    && order.Quoted? && a.kernelApproves
    && !a.wire.NeverSent?
  }

  class MerchantOrder {
    var status: OrderStatus

    constructor ()
      ensures status == Quoted
    {
      status := Quoted;
    }

    /** Only another purchase's capture is in the way. */
    method MarkCaptured(purchaseId: string, receipt: Receipt) returns (ok: bool)
      modifies this
      ensures ok <==> !(old(status).Captured? && old(status).purchaseId != purchaseId)
      ensures status == if ok then Captured(purchaseId, Some(receipt)) else old(status)
    {
      if status.Captured? && status.purchaseId != purchaseId {
        return false;
      }
      status := Captured(purchaseId, Some(receipt));
      return true;
    }
  }

  class ChargeService {
    const order: MerchantOrder
    const rail: Orchestrator

    constructor (order: MerchantOrder, rail: Orchestrator)
      ensures this.order == order && this.rail == rail
    {
      this.order, this.rail := order, rail;
    }

    method Charge(a: Attempt) returns (outcome: Outcome)
      requires a.paymentId !in rail.payments
      modifies order, rail
      ensures (World(order.status, rail.B()), outcome) == ChargeOnce(World(old(order.status), old(rail.B())), a)
    {
      if !a.mandateOk || !a.intentOk || !a.priceOk || !a.cartOk {
        return Declined;
      }
      match order.status {
        case Captured(purchaseId, receipt) =>
          if purchaseId != a.purchaseId {
            return Declined;
          }
          return if receipt.Some? then Paid(receipt.value) else Uncertain;
        case Unavailable =>
          return Declined;
        case Quoted =>
      }
      if !a.kernelApproves || a.wire.NeverSent? {
        return Declined;
      }
      var answer := rail.Capture(RequestOf(a), a.wire.checks, a.paymentId, a.at);
      if answer.Refused? || a.wire.ReplyLost? {
        return Declined;
      }
      if a.diesBeforeRecording {
        return Died;
      }
      var ok := order.MarkCaptured(a.purchaseId, answer.receipt);
      return if ok then Paid(answer.receipt) else Uncertain;
    }
  }

  datatype World = World(order: OrderStatus, books: Books)

  function ChargeOnce(w: World, a: Attempt): (World, Outcome) {
    if !a.mandateOk || !a.intentOk || !a.priceOk || !a.cartOk then (w, Declined)
    else
      match w.order
      case Captured(purchaseId, receipt) =>
        (w, if purchaseId != a.purchaseId then Declined
            else if receipt.Some? then Paid(receipt.value) else Uncertain)
      case Unavailable => (w, Declined)
      case Quoted =>
        if !ReachesRail(w.order, a) then (w, Declined)
        else
          var (books, answer) := CaptureAlone(w.books, RequestOf(a), a.wire.checks, a.paymentId, a.at);
          if answer.Refused? || a.wire.ReplyLost? then (w.(books := books), Declined)
          else if a.diesBeforeRecording then (w.(books := books), Died)
          else (World(Captured(a.purchaseId, Some(answer.receipt)), books), Paid(answer.receipt))
  }

  // ------------------------------------------------------------ whole runs

  /** A retry loop may also leave a request in flight that the rail serves later. */
  datatype Event = Try(a: Attempt) | LateArrival(a: Attempt)

  predicate EventOk(w: World, e: Event) {
    e.a.paymentId !in w.books.payments && (e.LateArrival? ==> !e.a.wire.NeverSent?)
  }

  function After(w: World, e: Event): World {
    match e
    case Try(a) => ChargeOnce(w, a).0
    case LateArrival(a) =>
      if a.wire.NeverSent? then w
      else w.(books := CaptureAlone(w.books, RequestOf(a), a.wire.checks, a.paymentId, a.at).0)
  }

  ghost predicate Legal(w: World, events: seq<Event>)
    decreases |events|
  {
    events == [] || (EventOk(w, events[0]) && Legal(After(w, events[0]), events[1..]))
  }

  ghost function Run(w: World, events: seq<Event>): World
    requires Legal(w, events)
    decreases |events|
  {
    if events == [] then w else Run(After(w, events[0]), events[1..])
  }

  /** A captured order holds the receipt of a captured payment. */
  ghost predicate Consistent(w: World) {
    && Matched(w.books)
    && (w.order.Captured? ==>
          && w.order.receipt.Some?
          && exists k :: k in w.books.keys && w.books.keys[k] == w.order.receipt.value)
  }

  lemma CaptureAloneKeeps(b: Books, r: Request, checks: Checks, id: nat, at: int)
    requires Matched(b) && id !in b.payments
    ensures var (b', answer) := CaptureAlone(b, r, checks, id, at);
      && Matched(b')
      && (forall k :: k in b.keys ==> k in b'.keys && b'.keys[k] == b.keys[k])
      && (forall p :: p in b.payments ==> p in b'.payments && b'.payments[p] == b.payments[p])
      && (forall p :: p in b'.payments && p !in b.payments ==> b'.payments[p].key == r.key)
      && (answer.Settled? ==> r.key in b'.keys && answer.receipt == b'.keys[r.key])
  {
    if r.key !in b.keys {
      match checks
      case Cleared(mandate) => SettleKeepsMatched(b, r, mandate, id, at);
      case Failed(_) => RefusalKeepsMatched(b, r, id);
    }
  }

  lemma EventKeepsConsistent(w: World, e: Event)
    requires Consistent(w) && EventOk(w, e)
    ensures Consistent(After(w, e))
    ensures forall k :: k in w.books.keys ==>
      k in After(w, e).books.keys && After(w, e).books.keys[k] == w.books.keys[k]
    ensures forall p :: p in w.books.payments ==>
      p in After(w, e).books.payments && After(w, e).books.payments[p] == w.books.payments[p]
    ensures forall p :: p in After(w, e).books.payments && p !in w.books.payments ==>
      After(w, e).books.payments[p].key == KeyOf(e.a)
    ensures w.order.Captured? ==> After(w, e).order == w.order
    ensures !w.order.Captured? && After(w, e).order.Captured? ==>
      KeyOf(e.a) in After(w, e).books.keys
      && After(w, e).order == Captured(e.a.purchaseId, Some(After(w, e).books.keys[KeyOf(e.a)]))
  {
    if !e.a.wire.NeverSent? {
      CaptureAloneKeeps(w.books, RequestOf(e.a), e.a.wire.checks, e.a.paymentId, e.a.at);
    }
  }

  /** All attempts of the run carry the idempotency key `key`. */
  ghost predicate SameKey(events: seq<Event>, key: string) {
    forall i :: 0 <= i < |events| ==> KeyOf(events[i].a) == key
  }

  lemma {:induction false} RunKeepsConsistent(w: World, events: seq<Event>, key: string)
    requires Consistent(w) && Legal(w, events) && SameKey(events, key)
    ensures Consistent(Run(w, events))
    ensures forall p :: p in w.books.payments ==>
      p in Run(w, events).books.payments && Run(w, events).books.payments[p] == w.books.payments[p]
    ensures forall p :: p in Run(w, events).books.payments && p !in w.books.payments ==>
      Run(w, events).books.payments[p].key == key
    ensures w.order.Captured? ==> Run(w, events).order == w.order
    ensures !w.order.Captured? && Run(w, events).order.Captured? ==>
      key in Run(w, events).books.keys
      && Run(w, events).order.receipt == Some(Run(w, events).books.keys[key])
    ensures forall k :: k in w.books.keys ==>
      k in Run(w, events).books.keys && Run(w, events).books.keys[k] == w.books.keys[k]
    decreases |events|
  {
    if events != [] {
      EventKeepsConsistent(w, events[0]);
      assert KeyOf(events[0].a) == key;
      assert forall i :: 0 <= i < |events[1..]| ==> events[1..][i] == events[i + 1];
      RunKeepsConsistent(After(w, events[0]), events[1..], key);
    }
  }

  predicate NewCapture(before: Books, after: Books, p: nat) {
    p in after.payments && p !in before.payments && after.payments[p].captured
  }

  /**
   For every mix of attempts, lost replies, late arrivals and crashes on one
   order with one key, at most one payment is captured, and a captured order
   holds exactly that payment's receipt.
   */
  lemma OneKeyChargesOnce(b: Books, events: seq<Event>, key: string)
    requires Matched(b) && Legal(World(Quoted, b), events) && SameKey(events, key)
    ensures var w := Run(World(Quoted, b), events);
      && (forall p, q :: NewCapture(b, w.books, p) && NewCapture(b, w.books, q) ==> p == q)
      && (w.order.Captured? ==>
            && w.order.receipt.Some?
            && CapturedFor(w.books, w.order.receipt.value.paymentId, key)
            && forall p :: CapturedFor(w.books, p, key) ==> p == w.order.receipt.value.paymentId)
  {
    RunKeepsConsistent(World(Quoted, b), events, key);
    var w := Run(World(Quoted, b), events);
    forall p, q | NewCapture(b, w.books, p) && NewCapture(b, w.books, q)
      ensures p == q
    {
      OneCapturePerKey(w.books, p, q);
    }
    if w.order.Captured? {
      forall p | CapturedFor(w.books, p, key)
        ensures p == w.order.receipt.value.paymentId
      {
        OneCapturePerKey(w.books, p, w.order.receipt.value.paymentId);
      }
    }
  }

  /** Once captured, an order is final: its purchase replays the receipt, any other is refused. */
  lemma CapturedIsFinal(w: World, a: Attempt)
    requires Consistent(w) && w.order.Captured?
    ensures ChargeOnce(w, a).0 == w
    ensures a.purchaseId != w.order.purchaseId ==> ChargeOnce(w, a).1 == Declined
    ensures a.purchaseId == w.order.purchaseId && a.mandateOk && a.intentOk && a.priceOk && a.cartOk
      ==> ChargeOnce(w, a).1 == Paid(w.order.receipt.value)
  {
  }

  /** The five checks pass and the request gets to the rail. */
  predicate PassesChecks(a: Attempt) {
    a.mandateOk && a.intentOk && a.priceOk && a.cartOk && a.kernelApproves && !a.wire.NeverSent?
  }

  /** The receipt the rail gives a request it does not refuse: the first one of its key. */
  function ReceiptOf(b: Books, a: Attempt): Option<Receipt> {
    var key := if a.idempotencyKey == "" then a.purchaseId else a.idempotencyKey;
    if a.wire.NeverSent? then None
    else if key in b.keys then Some(b.keys[key])
    else if a.wire.checks.Failed? then None
    else Some(Receipt(a.paymentId, a.amount, a.currency, a.wire.checks.mandate, a.at))
  }

  /**
   A quoted order is captured, by this purchase and with the rail's receipt,
   exactly when every check passes, the rail settles or replays, its reply
   arrives and the process lives to record it; and exactly then the buyer is
   told so.  If only the last is missing the call dies, and in every other
   case it is a refusal; the order stays open.
   */
  lemma CapturesExactlyWhenAnswered(w: World, a: Attempt)
    requires w.order.Quoted?
    ensures var (w', outcome) := ChargeOnce(w, a);
      var receipt := ReceiptOf(w.books, a);
      var answered := PassesChecks(a) && receipt.Some? && a.wire.Answered?;
      && (w'.order.Captured? <==> answered && !a.diesBeforeRecording)
      && (outcome.Paid? <==> answered && !a.diesBeforeRecording)
      && (outcome.Died? <==> answered && a.diesBeforeRecording)
      && (outcome.Declined? <==> !answered)
      && (w'.order.Captured? ==> w'.order == Captured(a.purchaseId, receipt) && outcome == Paid(receipt.value))
      && (!w'.order.Captured? ==> w'.order == Quoted)
  {
  }

  /** Step 7 is never undone: what is captured stays captured, for the same purchase. */
  lemma {:induction false} CapturedStays(w: World, events: seq<Event>)
    requires w.order.Captured? && Legal(w, events)
    ensures Run(w, events).order == w.order
    decreases |events|
  {
    if events != [] {
      CapturedStays(After(w, events[0]), events[1..]);
    }
  }

  /**
   Once any attempt is answered with a receipt, whatever is tried, retried or
   arrives late afterwards and on whatever keys: every other purchase is
   refused and charges nothing, and this one gets the same receipt again.
   */
  lemma PaidOnceForAll(w: World, a: Attempt, events: seq<Event>, b: Attempt)
    requires ChargeOnce(w, a).1.Paid? && Legal(ChargeOnce(w, a).0, events)
    ensures var w' := Run(ChargeOnce(w, a).0, events);
      && (b.purchaseId != a.purchaseId ==> ChargeOnce(w', b) == (w', Declined))
      && (b.purchaseId == a.purchaseId && b.mandateOk && b.intentOk && b.priceOk && b.cartOk ==>
            ChargeOnce(w', b) == (w', ChargeOnce(w, a).1))
  {
    CapturedStays(ChargeOnce(w, a).0, events);
  }

  /** The money statement is reached only through all five checks, on a quoted order. */
  lemma OnlyCheckedAttemptsTouchTheRail(w: World, a: Attempt)
    ensures ChargeOnce(w, a).0.books != w.books ==> ReachesRail(w.order, a)
    ensures ChargeOnce(w, a).1.Died? || ChargeOnce(w, a).0.order != w.order ==> ReachesRail(w.order, a)
  {
  }

  /**
   An attempt captures exactly when it passes every check, the rail clears it
   and its key is new; and then it captures the amount asked.
   */
  lemma ChargesExactlyWhenChecked(w: World, a: Attempt)
    requires a.paymentId !in w.books.payments
    ensures CapturedFor(ChargeOnce(w, a).0.books, a.paymentId, KeyOf(a))
      <==> ReachesRail(w.order, a) && KeyOf(a) !in w.books.keys && a.wire.checks.Cleared?
    ensures CapturedFor(ChargeOnce(w, a).0.books, a.paymentId, KeyOf(a)) ==>
      ChargeOnce(w, a).0.books.payments[a.paymentId].amount == a.amount
  {
    if ReachesRail(w.order, a) && KeyOf(a) !in w.books.keys && a.wire.checks.Cleared? {
      assert a.paymentId in ChargeOnce(w, a).0.books.payments;
    }
  }

  /**
   The same key is what makes it once: after a crash that follows the rail's
   capture, a retry is a second payment exactly when it carries a fresh key.
   */
  lemma RetryChargesAgainExactlyOnAFreshKey(b: Books, first: Attempt, second: Attempt)
    requires Matched(b) && KeyOf(first) !in b.keys && KeyOf(second) !in b.keys
    requires ReachesRail(Quoted, first) && ReachesRail(Quoted, second)
    requires first.wire.checks.Cleared? && second.wire.checks.Cleared?
    requires first.wire.ReplyLost? || first.diesBeforeRecording
    requires first.paymentId !in b.payments && second.paymentId !in b.payments && first.paymentId != second.paymentId
    ensures var w1 := ChargeOnce(World(Quoted, b), first).0;
      var w2 := ChargeOnce(w1, second).0;
      && w1.order == Quoted
      && CapturedFor(w2.books, first.paymentId, KeyOf(first))
      && (CapturedFor(w2.books, second.paymentId, KeyOf(second)) <==> KeyOf(first) != KeyOf(second))
  {
    SettleKeepsMatched(b, RequestOf(first), first.wire.checks.mandate, first.paymentId, first.at);
  }

  /**
   A refusal does not mean the money stayed: an attempt is answered with a
   refusal and captures all the same exactly when it passed every check, its
   key was new, and the rail cleared it and the reply was lost.
   */
  lemma DeclinedYetCharged(w: World, a: Attempt)
    requires a.paymentId !in w.books.payments
    ensures var (w', outcome) := ChargeOnce(w, a);
      var charged := CapturedFor(w'.books, a.paymentId, KeyOf(a));
      outcome == Declined && charged <==>
        ReachesRail(w.order, a) && KeyOf(a) !in w.books.keys && a.wire.ReplyLost? && a.wire.checks.Cleared?
  {
    ChargesExactlyWhenChecked(w, a);
  }

  /**
   And on a key that is captured already, an open order is answered with a
   refusal exactly when a check fails, the request is never sent, or the
   replayed receipt is lost on its way; the books stay as they are.
   */
  lemma DeclinedOverCapturedKey(w: World, a: Attempt)
    requires w.order.Quoted? && KeyOf(a) in w.books.keys
    ensures ChargeOnce(w, a).0.books == w.books
    ensures ChargeOnce(w, a).1 == Declined <==> !ReachesRail(w.order, a) || a.wire.ReplyLost?
  {
  }
}
