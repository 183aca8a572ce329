/**
 The simulated rail's `capture` (src/yuno_sim/payments.py): replay by
 idempotency key, check the instrument and the mandate, then settle.  Calls
 race at three points: the replay read, the checks, and the flush.
 */
module Rail {
  datatype Receipt = Receipt(paymentId: nat, amount: int, currency: string, mandate: string, capturedAt: int)

  /** `key` is the Idempotency-Key of the request that wrote the row. */
  datatype Payment = Payment(captured: bool, amount: int, currency: string, mandate: string, key: string)

  datatype Request = Request(key: string, amount: int, currency: string)

  datatype Refusal = TokenDeleted | UnknownToken | MandateRefused

  /** What the token lookup and the AP2 verifier answer. */
  datatype Checks = Cleared(mandate: string) | Failed(why: Refusal)

  datatype Books = Books(payments: map<nat, Payment>, keys: map<string, Receipt>)

  datatype Answer = Settled(receipt: Receipt, replayed: bool) | Refused(why: Refusal)

  function Settle(b: Books, r: Request, mandate: string, id: nat, at: int): Books {
    Books(b.payments[id := Payment(true, r.amount, r.currency, mandate, r.key)],
          b.keys[r.key := Receipt(id, r.amount, r.currency, mandate, at)])
  }

  function RecordRefusal(b: Books, r: Request, id: nat): Books {
    b.(payments := b.payments[id := Payment(false, r.amount, r.currency, "unknown", r.key)])
  }

  /** One whole call with nobody else at work. */
  function CaptureAlone(b: Books, r: Request, checks: Checks, id: nat, at: int): (Books, Answer) {
    if r.key in b.keys then (b, Settled(b.keys[r.key], true))
    else
      match checks
      case Failed(why) => (RecordRefusal(b, r, id), Refused(why))
      case Cleared(mandate) =>
        (Settle(b, r, mandate, id, at),
         Settled(Receipt(id, r.amount, r.currency, mandate, at), false))
  }

  class Orchestrator {
    var payments: map<nat, Payment>
    var keys: map<string, Receipt>

    constructor ()
      ensures payments == map[] && keys == map[]
    {
      payments, keys := map[], map[];
    }

    function B(): Books
      reads this
    {
      Books(payments, keys)
    }

    /** The flush: both rows, or neither when the key is already taken. */
    method Flush(r: Request, mandate: string, id: nat, at: int) returns (conflict: bool)
      modifies this
      ensures conflict <==> r.key in old(keys)
      ensures B() == if conflict then old(B()) else Settle(old(B()), r, mandate, id, at)
    {
      if r.key in keys {
        return true;
      }
      payments := payments[id := Payment(true, r.amount, r.currency, mandate, r.key)];
      keys := keys[r.key := Receipt(id, r.amount, r.currency, mandate, at)];
      return false;
    }

    method Capture(r: Request, checks: Checks, id: nat, at: int) returns (answer: Answer)
      requires id !in payments
      modifies this
      ensures (B(), answer) == CaptureAlone(old(B()), r, checks, id, at)
    {
      if r.key in keys {
        return Settled(keys[r.key], true);
      }
      match checks {
        case Failed(why) =>
          payments := payments[id := Payment(false, r.amount, r.currency, "unknown", r.key)];
          return Refused(why);
        case Cleared(mandate) =>
          var _ := Flush(r, mandate, id, at);
          return Settled(Receipt(id, r.amount, r.currency, mandate, at), false);
      }
    }
  }

  // -------------------------------------------------------- racing callers

  datatype Caller =
    | Arrived(request: Request)
    | Missed(request: Request)
    | Verified(request: Request, mandate: string, at: int)
    | Returned(request: Request, receipt: Receipt)
    | Denied(request: Request)
    | Dead(request: Request)

  datatype System = System(books: Books, callers: map<nat, Caller>)

  datatype Step =
    | Arrive(caller: nat, request: Request)
    | ReadKey(caller: nat)
    | Check(caller: nat, checks: Checks, at: int)
    | Keep(request: Request, id: nat)      // a refusal row, if its transaction is committed
    | Commit(caller: nat, id: nat)
    | Die(caller: nat)

  predicate Possible(s: System, step: Step) {
    match step
    case Arrive(c, _) => c !in s.callers
    case ReadKey(c) => c in s.callers && s.callers[c].Arrived?
    case Check(c, _, _) => c in s.callers && s.callers[c].Missed?
    case Keep(_, id) => id !in s.books.payments
    case Commit(c, id) => c in s.callers && s.callers[c].Verified? && id !in s.books.payments
    case Die(c) => c in s.callers && !s.callers[c].Returned?
  }

  function Next(s: System, step: Step): System
    requires Possible(s, step)
  {
    match step
    case Arrive(c, r) => s.(callers := s.callers[c := Arrived(r)])
    case ReadKey(c) =>
      var r := s.callers[c].request;
      s.(callers := s.callers[c :=
        if r.key in s.books.keys then Returned(r, s.books.keys[r.key]) else Missed(r)])
    case Check(c, checks, at) =>
      var r := s.callers[c].request;
      s.(callers := s.callers[c :=
        match checks case Cleared(mandate) => Verified(r, mandate, at) case Failed(_) => Denied(r)])
    case Keep(r, id) => s.(books := RecordRefusal(s.books, r, id))
    case Commit(c, id) =>
      var v := s.callers[c];
      if v.request.key in s.books.keys then
        // the primary key: roll back and answer with the winner's row
        s.(callers := s.callers[c := Returned(v.request, s.books.keys[v.request.key])])
      else
        System(Settle(s.books, v.request, v.mandate, id, v.at),
               s.callers[c := Returned(v.request,
                 Receipt(id, v.request.amount, v.request.currency, v.mandate, v.at))])
    case Die(c) => s.(callers := s.callers[c := Dead(s.callers[c].request)])
  }

  ghost predicate Legal(s: System, steps: seq<Step>)
    decreases |steps|
  {
    steps == [] || (Possible(s, steps[0]) && Legal(Next(s, steps[0]), steps[1..]))
  }

  ghost function Run(s: System, steps: seq<Step>): System
    requires Legal(s, steps)
    decreases |steps|
  {
    if steps == [] then s else Run(Next(s, steps[0]), steps[1..])
  }

  /** Captured rows and idempotency rows are two views of the same settlements. */
  ghost predicate Matched(b: Books) {
    && (forall k :: k in b.keys ==>
          var r := b.keys[k];
          r.paymentId in b.payments
          && b.payments[r.paymentId] == Payment(true, r.amount, r.currency, r.mandate, k))
    && (forall p :: p in b.payments && b.payments[p].captured ==>
          b.payments[p].key in b.keys && b.keys[b.payments[p].key].paymentId == p)
  }

  ghost predicate Agreed(s: System) {
    && Matched(s.books)
    && forall c :: c in s.callers && s.callers[c].Returned? ==>
        s.callers[c].request.key in s.books.keys
        && s.callers[c].receipt == s.books.keys[s.callers[c].request.key]
  }

  lemma SettleKeepsMatched(b: Books, r: Request, mandate: string, id: nat, at: int)
    requires Matched(b) && r.key !in b.keys && id !in b.payments
    ensures Matched(Settle(b, r, mandate, id, at))
  {
    var b' := Settle(b, r, mandate, id, at);
    forall k | k in b'.keys
      ensures var rec := b'.keys[k];
        rec.paymentId in b'.payments
        && b'.payments[rec.paymentId] == Payment(true, rec.amount, rec.currency, rec.mandate, k)
    {
      if k != r.key {
        assert k in b.keys;
      }
    }
    forall p | p in b'.payments && b'.payments[p].captured
      ensures b'.payments[p].key in b'.keys && b'.keys[b'.payments[p].key].paymentId == p
    {
      if p != id {
        assert p in b.payments;
      }
    }
  }

  lemma RefusalKeepsMatched(b: Books, r: Request, id: nat)
    requires Matched(b) && id !in b.payments
    ensures Matched(RecordRefusal(b, r, id))
  {
    var b' := RecordRefusal(b, r, id);
    forall p | p in b'.payments && b'.payments[p].captured
      ensures b'.payments[p].key in b'.keys && b'.keys[b'.payments[p].key].paymentId == p
    {
      assert p != id && p in b.payments;
    }
  }

  lemma StepKeepsAgreement(s: System, step: Step)
    requires Agreed(s) && Possible(s, step)
    ensures Agreed(Next(s, step))
    ensures forall k :: k in s.books.keys ==>
      k in Next(s, step).books.keys && Next(s, step).books.keys[k] == s.books.keys[k]
  {
    match step
    case Keep(r, id) => RefusalKeepsMatched(s.books, r, id);
    case Commit(c, id) =>
      var v := s.callers[c];
      if v.request.key !in s.books.keys {
        SettleKeepsMatched(s.books, v.request, v.mandate, id, v.at);
      }
    case _ =>
  }

  lemma {:induction false} RunKeepsAgreement(s: System, steps: seq<Step>)
    requires Agreed(s) && Legal(s, steps)
    ensures Agreed(Run(s, steps))
    ensures forall k :: k in s.books.keys ==>
      k in Run(s, steps).books.keys && Run(s, steps).books.keys[k] == s.books.keys[k]
    decreases |steps|
  {
    if steps != [] {
      StepKeepsAgreement(s, steps[0]);
      RunKeepsAgreement(Next(s, steps[0]), steps[1..]);
    }
  }

  predicate CapturedFor(b: Books, p: nat, key: string) {
    p in b.payments && b.payments[p].captured && b.payments[p].key == key
  }

  /** One key, at most one captured row: two captured rows are the same exactly when their keys are. */
  lemma OneCapturePerKey(b: Books, p: nat, q: nat)
    requires Matched(b)
    requires p in b.payments && q in b.payments && b.payments[p].captured && b.payments[q].captured
    ensures p == q <==> b.payments[p].key == b.payments[q].key
  {
    assert b.keys[b.payments[p].key].paymentId == p;
    assert b.keys[b.payments[q].key].paymentId == q;
  }

  /**
   However calls with one key race, at most one payment is captured for it,
   and every call that returns, early or late, reports that payment.
   */
  lemma RaceSettlesOnce(steps: seq<Step>, key: string)
    requires Legal(System(Books(map[], map[]), map[]), steps)
    ensures var s := Run(System(Books(map[], map[]), map[]), steps);
      && (forall p, q :: CapturedFor(s.books, p, key) && CapturedFor(s.books, q, key) ==> p == q)
      && (forall c :: c in s.callers && s.callers[c].Returned? && s.callers[c].request.key == key ==>
            var r := s.callers[c].receipt;
            && r.paymentId in s.books.payments
            && s.books.payments[r.paymentId] == Payment(true, r.amount, r.currency, r.mandate, key)
            && key in s.books.keys && r == s.books.keys[key])
  {
    var start := System(Books(map[], map[]), map[]);
    RunKeepsAgreement(start, steps);
    var s := Run(start, steps);
    forall p, q | CapturedFor(s.books, p, key) && CapturedFor(s.books, q, key)
      ensures p == q
    {
      OneCapturePerKey(s.books, p, q);
    }
  }

  /**
   What a call answers and writes: a known key is replayed and nothing is
   written; a new one that the checks clear is captured once, for the amount
   asked, and its receipt kept under the key; one they refuse leaves a row that
   captured nothing and keeps the key free.
   */
  lemma CaptureAnswers(b: Books, r: Request, checks: Checks, id: nat, at: int)
    requires Matched(b) && id !in b.payments
    ensures var (b', answer) := CaptureAlone(b, r, checks, id, at);
      && (answer.Settled? <==> r.key in b.keys || checks.Cleared?)
      && (answer.Settled? ==>
            && (answer.replayed <==> r.key in b.keys)
            && r.key in b'.keys && answer.receipt == b'.keys[r.key]
            && (!answer.replayed ==>
                  answer.receipt == Receipt(id, r.amount, r.currency, checks.mandate, at)))
      && (r.key in b.keys ==> b' == b)
      && (r.key !in b.keys ==>
            && id in b'.payments && b'.payments - {id} == b.payments && b'.keys - {r.key} == b.keys
            && b'.payments[id].amount == r.amount && b'.payments[id].currency == r.currency
            && b'.payments[id].key == r.key
            && (b'.payments[id].captured <==> checks.Cleared?)
            && (r.key in b'.keys <==> checks.Cleared?))
      && (answer.Refused? ==> checks == Failed(answer.why) && b'.payments[id].mandate == "unknown")
  {
  }

  /**
   A caller that got past the checks is answered by its flush whoever won: with
   its own settlement when its key was free, and otherwise with the winner's,
   leaving the books alone.  Nothing else captures.
   */
  lemma FlushAlwaysAnswers(s: System, step: Step)
    requires Possible(s, step)
    ensures step.Commit? ==>
      var v, s' := s.callers[step.caller], Next(s, step);
      && v.request.key in s'.books.keys
      && s'.callers == s.callers[step.caller := Returned(v.request, s'.books.keys[v.request.key])]
      && (v.request.key in s.books.keys ==> s'.books == s.books)
      && (v.request.key !in s.books.keys ==>
            CapturedFor(s'.books, step.id, v.request.key)
            && s'.books.payments[step.id].amount == v.request.amount)
    ensures !step.Commit? ==>
      var s' := Next(s, step);
      s'.books.keys == s.books.keys
      && forall p :: p in s'.books.payments && (p !in s.books.payments || !s.books.payments[p].captured) ==>
           !s'.books.payments[p].captured
    ensures step.Check? ==>
      var r := s.callers[step.caller].request;
      match step.checks
      case Failed(_) => Next(s, step).callers == s.callers[step.caller := Denied(r)]
      case Cleared(mandate) => Next(s, step).callers == s.callers[step.caller := Verified(r, mandate, step.at)]
    ensures step.Keep? ==> step.id in Next(s, step).books.payments && Next(s, step).callers == s.callers
    ensures step.Die? ==> Next(s, step).callers == s.callers[step.caller := Dead(s.callers[step.caller].request)]
  {
  }

  /** A call that runs without interference is a run of the same steps. */
  lemma AloneIsARun(b: Books, r: Request, mandate: string, id: nat, at: int, c: nat)
    requires Matched(b) && id !in b.payments
    ensures var s0 := System(b, map[]);
      var s1 := Next(s0, Arrive(c, r));
      var s2 := Next(s1, ReadKey(c));
      var (books, answer) := CaptureAlone(b, r, Cleared(mandate), id, at);
      if r.key in b.keys then
        s2.books == books && answer.Settled? && s2.callers[c] == Returned(r, answer.receipt)
      else
        var s4 := Next(Next(s2, Check(c, Cleared(mandate), at)), Commit(c, id));
        s4.books == books && answer.Settled? && s4.callers[c] == Returned(r, answer.receipt)
  {
  }
}
