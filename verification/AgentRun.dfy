/**
 The agent's graph loop (src/agent/graph.py): nodes with fixed transitions, a
 bounded number of replans, a step budget and a wall clock.  What search, the
 model and the merchant answer is arbitrary; the gate node is the real saga.
 */
module AgentRun {
  import opened Wrappers
  import opened BudgetTree
  import opened Purchase

  const MAX_REPLANS := 2
  const DEFAULT_STEPS := 24

  datatype Node = Perceive | Search | Propose | GateNode | AwaitHuman | ReceiptNode | DoneNode | DeniedNode

  datatype RunStatus = Running | AwaitingHuman | Done | Denied | Failed

  /** The persisted part of a run that the loop depends on. */
  datatype RunState = RunState(node: Node, status: RunStatus, replans: nat)

  /** What happens at one turn of the loop. */
  datatype Turn = Turn(
    late: bool,           // the wall clock has run out
    throttled: bool,      // a rate limit trips inside the handler
    crashed: bool,        // the handler raises anything else, outside a submission
    offersFound: bool,
    searchOnly: bool,
    proposed: bool,
    attempt: Attempt)

  datatype Next = GoTo(node: Node) | Pause | Stop | Throttled | Crashed

  predicate Retryable(why: Reason) {
    why in {AmountMismatch, RailError}
  }

  function ReasonOf(o: Outcome): Option<Reason> {
    match o
    case Refused(why) => Some(why)
    case Compensated(why) => Some(why)
    case _ => None
  }

  /** Where the gate goes with the kernel's answer, and the replans used by then. */
  function AfterGate(rows: Rows, jti: string, replans: nat, outcome: Outcome): (Next, nat) {
    match outcome
    case Captured(_) => (GoTo(ReceiptNode), replans)
    case AwaitingHuman(_) => (GoTo(AwaitHuman), replans)
    case Died(_) => (Next.Crashed, replans)
    case Raised => (if jti in rows then Next.Throttled else Next.Crashed, replans)
    case _ =>
      if Retryable(ReasonOf(outcome).value) && replans < MAX_REPLANS then (GoTo(Search), replans + 1)
      else (GoTo(DeniedNode), replans)
  }

  /** One handler call: the next node, the rows, the replans, and what it submitted. */
  datatype Call = Call(next: Next, rows: Rows, replans: nat, outcome: Option<Outcome>)

  function Handle(node: Node, rows: Rows, replans: nat, t: Turn): Call {
    if t.throttled then Call(Next.Throttled, rows, replans, None)
    else if t.crashed then Call(Next.Crashed, rows, replans, None)
    else
      match node
      case Perceive => Call(GoTo(Search), rows, replans, None)
      case Search => Call(GoTo(if t.offersFound then Propose else DeniedNode), rows, replans, None)
      case Propose =>
        Call(GoTo(if t.searchOnly && t.proposed then DoneNode
                  else if t.proposed then GateNode else DeniedNode), rows, replans, None)
      case GateNode =>
        var (rows', outcome) := Submit(rows, t.attempt);
        var (next, used) := AfterGate(rows, t.attempt.jti, replans, outcome);
        Call(next, rows', used, Some(outcome))
      case AwaitHuman => Call(Pause, rows, replans, None)
      case ReceiptNode => Call(GoTo(DoneNode), rows, replans, None)
      case DoneNode => Call(Stop, rows, replans, None)
      case DeniedNode => Call(Stop, rows, replans, None)
  }

  /** The status the run is saved with when the loop leaves at `node`. */
  function Closing(node: Node, next: Next): RunStatus {
    match next
    case Pause => RunStatus.AwaitingHuman
    case Throttled => RunStatus.Denied
    case Crashed => RunStatus.Failed
    case _ => if node == DoneNode then RunStatus.Done else RunStatus.Denied
  }

  /** A run of the loop, with what it did: a payment counts whether or not the run lived to report it. */
  datatype Trace = Trace(run: RunState, rows: Rows, handlers: nat, submissions: nat, payments: nat,
                         stranded: bool, outOfSteps: bool)

  /** What one handler call adds to the counts. */
  datatype Tally = Tally(handlers: nat, submissions: nat, payments: nat, stranded: bool)

  const NONE_YET := Tally(0, 0, 0, false)

  function TallyOf(outcome: Option<Outcome>): Tally {
    Tally(1, if outcome.Some? then 1 else 0, if outcome.Some? && Paid(outcome.value) then 1 else 0,
          outcome.Some? && Stranded(outcome.value))
  }

  function Sum(a: Tally, b: Tally): Tally {
    Tally(a.handlers + b.handlers, a.submissions + b.submissions, a.payments + b.payments, a.stranded || b.stranded)
  }

  /** A trace that had this much behind it already. */
  function Plus(t: Trace, before: Tally): Trace {
    t.(handlers := t.handlers + before.handlers,
       submissions := t.submissions + before.submissions,
       payments := t.payments + before.payments,
       stranded := t.stranded || before.stranded)
  }

  function Ended(run: RunState, rows: Rows, outOfSteps: bool): Trace {
    Trace(run, rows, 0, 0, 0, false, outOfSteps)
  }

  function Loop(run: RunState, rows: Rows, turns: nat -> Turn, i: nat, budget: nat): Trace
    decreases budget, 1
  {
    if budget == 0 then Ended(run.(status := RunStatus.Failed), rows, true)
    else OneTurn(run, rows, turns, i, budget)
  }

  function OneTurn(run: RunState, rows: Rows, turns: nat -> Turn, i: nat, budget: nat): Trace
    requires budget > 0
    decreases budget, 0
  {
    if turns(i).late then Ended(run.(status := RunStatus.Failed), rows, false)
    else
      var call := Handle(run.node, rows, run.replans, turns(i));
      var rest :=
        if call.next.GoTo? then
          Loop(RunState(call.next.node, run.status, call.replans), call.rows, turns, i + 1, budget - 1)
        else Ended(RunState(run.node, Closing(run.node, call.next), call.replans), call.rows, false);
      Plus(rest, TallyOf(call.outcome))
  }

  class Runner {
    const desk: PurchaseDesk
    var run: RunState

    constructor (desk: PurchaseDesk)
      ensures this.desk == desk && run == RunState(Perceive, Running, 0)
    {
      this.desk := desk;
      run := RunState(Perceive, Running, 0);
    }

    /** The node functions: what each one does and where it sends the run. */
    method CallHandler(node: Node, t: Turn) returns (next: Next, outcome: Option<Outcome>)
      modifies this, desk.kernel
      ensures var call := Handle(node, old(desk.kernel.mandates), old(run.replans), t);
        && next == call.next && outcome == call.outcome
        && desk.kernel.mandates == call.rows
        && run == old(run).(replans := call.replans)
    {
      outcome := None;
      if t.throttled { return Next.Throttled, None; }
      if t.crashed { return Next.Crashed, None; }
      match node {
        case Perceive => next := GoTo(Search);
        case Search => next := GoTo(if t.offersFound then Propose else DeniedNode);
        case Propose =>
          if t.searchOnly && t.proposed {
            next := GoTo(DoneNode);
          } else {
            next := GoTo(if t.proposed then GateNode else DeniedNode);
          }
        case GateNode =>
          var known := t.attempt.jti in desk.kernel.mandates;
          var result := desk.SubmitPurchase(t.attempt);
          outcome := Some(result);
          match result {
            case Captured(_) => next := GoTo(ReceiptNode);
            case AwaitingHuman(_) => next := GoTo(AwaitHuman);
            case Died(_) => next := Next.Crashed;
            case Raised => next := if known then Next.Throttled else Next.Crashed;
            case _ =>
              if Retryable(ReasonOf(result).value) && run.replans < MAX_REPLANS {
                run := run.(replans := run.replans + 1);
                next := GoTo(Search);
              } else {
                next := GoTo(DeniedNode);
              }
          }
        case AwaitHuman => next := Pause;
        case ReceiptNode => next := GoTo(DoneNode);
        case DoneNode => next := Stop;
        case DeniedNode => next := Stop;
      }
    }

    /** One turn of the loop: the clock, the handler, and whether the loop goes on. */
    method TakeTurn(turns: nat -> Turn, i: nat, ghost budget: nat)
      returns (more: bool, did: Tally, ghost rest: Trace)
      requires budget > 0
      modifies this, desk.kernel
      ensures Loop(old(run), old(desk.kernel.mandates), turns, i, budget) == Plus(rest, did)
      ensures rest == if more then Loop(run, desk.kernel.mandates, turns, i + 1, budget - 1)
                      else Ended(run, desk.kernel.mandates, false)
    {
      var t := turns(i);
      if t.late {
        run := run.(status := RunStatus.Failed);
        return false, NONE_YET, Ended(run, desk.kernel.mandates, false);
      }
      var node := run.node;
      var next, outcome := CallHandler(node, t);
      did := TallyOf(outcome);
      more := next.GoTo?;
      run := if more then run.(node := next.node) else run.(status := Closing(node, next));
      rest := if more then Loop(run, desk.kernel.mandates, turns, i + 1, budget - 1)
              else Ended(run, desk.kernel.mandates, false);
    }

    method RunUntilPause(maxSteps: Option<nat>, turns: nat -> Turn) returns (did: Tally)
      modifies this, desk.kernel
      ensures old(run).status in {RunStatus.Done, RunStatus.Denied, RunStatus.Failed} ==>
        run == old(run) && desk.kernel.mandates == old(desk.kernel.mandates) && did == NONE_YET
      ensures old(run).status in {Running, RunStatus.AwaitingHuman} ==>
        var start := if old(run).status == Running then old(run) else old(run).(node := Perceive);
        var budget := if maxSteps.Some? then maxSteps.value else 24;
        var trace := Loop(start, old(desk.kernel.mandates), turns, 0, budget);
        && run == trace.run && desk.kernel.mandates == trace.rows
        && did == Tally(trace.handlers, trace.submissions, trace.payments, trace.stranded)
    {
      if Closed(run) {
        return NONE_YET;
      }
      run := Starting(run);
      did := Drive(StepBudget(maxSteps), turns);
    }

    method Drive(maxSteps: nat, turns: nat -> Turn) returns (did: Tally)
      modifies this, desk.kernel
      ensures var trace := Loop(old(run), old(desk.kernel.mandates), turns, 0, maxSteps);
        && run == trace.run && desk.kernel.mandates == trace.rows
        && did == Tally(trace.handlers, trace.submissions, trace.payments, trace.stranded)
    {
      ghost var whole := Loop(run, desk.kernel.mandates, turns, 0, maxSteps);
      ghost var rest := whole;
      did := NONE_YET;
      var i := 0;
      while i < maxSteps
        invariant 0 <= i <= maxSteps
        invariant rest == Loop(run, desk.kernel.mandates, turns, i, maxSteps - i)
        invariant whole == Plus(rest, did)
      {
        var more, now;
        more, now, rest := TakeTurn(turns, i, maxSteps - i);
        did := Sum(did, now);
        if !more {
          return;
        }
        i := i + 1;
      }
      run := run.(status := RunStatus.Failed);
    }
  }

  /** An explicit budget counts even when it is zero. */
  function StepBudget(maxSteps: Option<nat>): nat {
    if maxSteps.Some? then maxSteps.value else DEFAULT_STEPS
  }

  predicate Closed(run: RunState) {
    run.status in {RunStatus.Done, RunStatus.Denied, RunStatus.Failed}
  }

  /** A run that waited for a human starts over from its context. */
  function Starting(run: RunState): RunState {
    if run.status == Running then run else run.(node := Perceive)
  }

  // --------------------------------------------------------------- bounds

  function Rounds(replans: nat): nat {
    if replans >= MAX_REPLANS then 0 else MAX_REPLANS - replans
  }

  /** Handler calls a run can still make from a node. */
  function Measure(node: Node, replans: nat): nat {
    match node
    case Perceive => 6 + 3 * Rounds(replans)
    case Search => 5 + 3 * Rounds(replans)
    case Propose => 4 + 3 * Rounds(replans)
    case GateNode => 3 + 3 * Rounds(replans)
    case ReceiptNode => 2
    case _ => 1
  }

  /** Purchases a run can still submit from a node. */
  function SubmissionsLeft(node: Node, replans: nat): nat {
    if node in {Perceive, Search, Propose, GateNode} then 1 + Rounds(replans) else 0
  }

  lemma HandlerDescends(node: Node, rows: Rows, replans: nat, t: Turn)
    ensures var call := Handle(node, rows, replans, t);
      && (call.next.GoTo? ==> Measure(call.next.node, call.replans) < Measure(node, replans))
      && (call.outcome.Some? ==> node == GateNode)
      && (call.next.GoTo? ==>
            SubmissionsLeft(call.next.node, call.replans) + (if call.outcome.Some? then 1 else 0)
              <= SubmissionsLeft(node, replans))
      && (call.outcome.Some? && Paid(call.outcome.value) ==> call.next in {GoTo(ReceiptNode), Next.Crashed})
      && (call.outcome.Some? && Stranded(call.outcome.value) ==> call.next == Next.Crashed)
      && (!(call.outcome.Some? && (Paid(call.outcome.value) || Stranded(call.outcome.value))) ==>
            SameMoney(rows, call.rows))
  {
    if node == GateNode && !t.throttled && !t.crashed {
      if !Paid(Submit(rows, t.attempt).1) && !Stranded(Submit(rows, t.attempt).1) {
        OnlyPaymentsMoveMoney(rows, t.attempt);
      }
    }
  }

  lemma SameMoneyTransitive(a: Rows, b: Rows, c: Rows)
    requires SameMoney(a, b) && SameMoney(b, c)
    ensures SameMoney(a, c)
  {
    forall j | j in a
      ensures c[j].reserved == a[j].reserved || (a[j].reserved < 0 && c[j].reserved == 0)
      ensures c[j].spent == a[j].spent && c[j].txnCount == a[j].txnCount
      ensures c[j].claims == a[j].claims && c[j].parent == a[j].parent
    {
      assert j in b;
    }
  }

  /** What holds of every run of the loop, from wherever it starts. */
  ghost predicate Restrained(t: Trace, node: Node, replans: nat, rows: Rows) {
    && t.handlers <= Measure(node, replans)
    && t.submissions <= SubmissionsLeft(node, replans)
    && t.payments + (if t.stranded then 1 else 0) <= 1
    && (SubmissionsLeft(node, replans) == 0 ==> t.payments == 0 && !t.stranded)
    && (t.payments == 0 && !t.stranded ==> SameMoney(rows, t.rows))
    && (t.stranded ==> t.run.status == RunStatus.Failed)
  }

  lemma {:induction false} LoopIsBounded(run: RunState, rows: Rows, turns: nat -> Turn, i: nat, budget: nat)
    ensures Restrained(Loop(run, rows, turns, i, budget), run.node, run.replans, rows)
    ensures budget >= Measure(run.node, run.replans) ==> !Loop(run, rows, turns, i, budget).outOfSteps
    decreases budget
  {
    if budget > 0 && !turns(i).late {
      var call := Handle(run.node, rows, run.replans, turns(i));
      HandlerDescends(run.node, rows, run.replans, turns(i));
      if call.next.GoTo? {
        var run' := RunState(call.next.node, run.status, call.replans);
        LoopIsBounded(run', call.rows, turns, i + 1, budget - 1);
        var rest := Loop(run', call.rows, turns, i + 1, budget - 1);
        if rest.payments == 0 && !rest.stranded && !(call.outcome.Some? && Paid(call.outcome.value)) {
          SameMoneyTransitive(rows, call.rows, rest.rows);
        }
      }
    }
  }

  /**
   A bounded run: whatever search, the model, the gate, the rail, the clock and
   exceptions do, a fresh run ends within 12 handler calls, so neither the
   default step budget nor any other of at least 12 is what ends it; it submits
   at most three purchases and pays at most once; without a payment, and
   without an exception between reservation and settlement, it leaves every
   budget as it found it.
   */
  lemma FreshRunIsBounded(rows: Rows, turns: nat -> Turn, maxSteps: Option<nat>)
    ensures var t := Loop(RunState(Perceive, Running, 0), rows, turns, 0, StepBudget(maxSteps));
      && t.handlers <= 12 && t.submissions <= 3 && t.payments <= 1
      && (maxSteps.None? || maxSteps.value >= 12 ==> !t.outOfSteps)
      && (t.payments == 0 && !t.stranded ==> SameMoney(rows, t.rows))
      && t.run.status in {RunStatus.AwaitingHuman, RunStatus.Done, RunStatus.Denied, RunStatus.Failed}
  {
    LoopIsBounded(RunState(Perceive, Running, 0), rows, turns, 0, StepBudget(maxSteps));
    LoopEnds(RunState(Perceive, Running, 0), rows, turns, 0, StepBudget(maxSteps));
  }

  lemma {:induction false} LoopEnds(run: RunState, rows: Rows, turns: nat -> Turn, i: nat, budget: nat)
    ensures Loop(run, rows, turns, i, budget).run.status != RunStatus.Running
    ensures Loop(run, rows, turns, i, budget).run.status == RunStatus.Done ==>
      Loop(run, rows, turns, i, budget).run.node == DoneNode
    decreases budget
  {
    if budget > 0 && !turns(i).late {
      var call := Handle(run.node, rows, run.replans, turns(i));
      if call.next.GoTo? {
        LoopEnds(RunState(call.next.node, run.status, call.replans), call.rows, turns, i + 1, budget - 1);
      }
    }
  }

  // ------------------------------------------------- the bounds are reached

  /** A turn in which nothing goes wrong before the gate. */
  predicate Calm(t: Turn) {
    Fine(t) && t.offersFound && t.proposed && !t.searchOnly
  }

  /** A turn whose handler runs to its end. */
  predicate Fine(t: Turn) {
    !t.late && !t.throttled && !t.crashed
  }

  lemma CalmTurn(run: RunState, rows: Rows, turns: nat -> Turn, i: nat, budget: nat)
    requires budget > 0 && Calm(turns(i)) && run.node !in {GateNode, AwaitHuman, DoneNode, DeniedNode}
    ensures var call := Handle(run.node, rows, run.replans, turns(i));
      var rest := Loop(RunState(call.next.node, run.status, run.replans), rows, turns, i + 1, budget - 1);
      Loop(run, rows, turns, i, budget) == Plus(rest, TallyOf(None))
  {
  }

  /** The merchant cannot be reached, which may pass. */
  predicate Refuses(rows: Rows, a: Attempt) {
    Submit(rows, a) == (rows, Refused(RailError))
  }

  /** Search, propose, and a refusal worth another look: three handler calls, one submission, one replan. */
  lemma RefusedRound(run: RunState, rows: Rows, turns: nat -> Turn, i: nat, budget: nat)
    requires run.node == Search && run.replans < MAX_REPLANS && budget >= 3
    requires Calm(turns(i)) && Calm(turns(i + 1)) && Calm(turns(i + 2))
    requires Refuses(rows, turns(i + 2).attempt)
    ensures var rest := Loop(run.(replans := run.replans + 1), rows, turns, i + 3, budget - 3);
      Loop(run, rows, turns, i, budget) == Plus(rest, Tally(3, 1, 0, false))
  {
    CalmTurn(run, rows, turns, i, budget);
    CalmTurn(run.(node := Propose), rows, turns, i + 1, budget - 1);
    var call := Handle(GateNode, rows, run.replans, turns(i + 2));
    assert call.next == GoTo(Search) && call.rows == rows && call.replans == run.replans + 1;
  }

  /** After a capture the run still has two turns to get through before it is done. */
  lemma ReceiptEndsRun(run: RunState, rows: Rows, turns: nat -> Turn, i: nat, budget: nat)
    requires run.node == ReceiptNode && run.status == Running
    ensures var t := Loop(run, rows, turns, i, budget);
      && t.rows == rows && t.submissions == 0 && t.payments == 0 && !t.stranded
      && (t.run.status == RunStatus.Done <==> budget >= 2 && Fine(turns(i)) && Fine(turns(i + 1)))
      && (t.run.status == RunStatus.Done ==> t.handlers == 2)
  {
    if budget > 0 && Fine(turns(i)) {
      DoneEndsRun(run.(node := DoneNode), rows, turns, i + 1, budget - 1);
    }
  }

  lemma DoneEndsRun(run: RunState, rows: Rows, turns: nat -> Turn, i: nat, budget: nat)
    requires run.node == DoneNode && run.status == Running
    ensures var t := Loop(run, rows, turns, i, budget);
      && t.rows == rows && t.submissions == 0 && t.payments == 0 && !t.stranded
      && (t.run.status == RunStatus.Done <==> budget >= 1 && Fine(turns(i)))
      && (t.run.status == RunStatus.Done ==> t.handlers == 1)
  {
  }

  /**
   A payment does not close its run: a run that pays at the gate ends done
   exactly when nothing is raised after the settlement, the budget has two
   more steps, and neither of them comes late or raises.  Otherwise the money
   is spent and the run is reported failed or denied.
   */
  lemma PaidRunIsDoneExactlyWhen(run: RunState, rows: Rows, turns: nat -> Turn, i: nat, budget: nat)
    requires run.node == GateNode && run.status == Running && budget > 0 && Fine(turns(i))
    requires Paid(Submit(rows, turns(i).attempt).1)
    ensures var t := Loop(run, rows, turns, i, budget);
      && t.payments == 1 && t.submissions == 1 && t.rows == Submit(rows, turns(i).attempt).0
      && (t.run.status == RunStatus.Done <==>
            turns(i).attempt.crash == Never && budget >= 3 && Fine(turns(i + 1)) && Fine(turns(i + 2)))
      && (t.run.status == RunStatus.Done ==> t.handlers == 3)
  {
    PaidShape(rows, turns(i).attempt);
    var rows' := Submit(rows, turns(i).attempt).0;
    if Submit(rows, turns(i).attempt).1.Captured? {
      ReceiptEndsRun(run.(node := ReceiptNode), rows', turns, i + 1, budget - 1);
    }
  }

  /**
   The bounds are met: refused twice for a reason that may pass, then captured,
   a run with steps to spare makes exactly twelve handler calls, three
   submissions and one payment.
   */
  lemma TwelveIsReached(rows: Rows, turns: nat -> Turn, budget: nat)
    requires budget >= 12
    requires forall i :: 0 <= i < 12 ==> Calm(turns(i))
    requires Refuses(rows, turns(3).attempt) && Refuses(rows, turns(6).attempt)
    requires Submit(rows, turns(9).attempt).1.Captured?
    ensures var t := Loop(RunState(Perceive, Running, 0), rows, turns, 0, budget);
      t.handlers == 12 && t.submissions == 3 && t.payments == 1 && t.run.status == RunStatus.Done
  {
    FirstRound(rows, turns, budget);
    LastTwoRounds(rows, turns, budget - 4);
  }

  lemma FirstRound(rows: Rows, turns: nat -> Turn, budget: nat)
    requires budget >= 4
    requires forall i :: 0 <= i < 4 ==> Calm(turns(i))
    requires Refuses(rows, turns(3).attempt)
    ensures var rest := Loop(RunState(Search, Running, 1), rows, turns, 4, budget - 4);
      Loop(RunState(Perceive, Running, 0), rows, turns, 0, budget) == Plus(rest, Tally(4, 1, 0, false))
  {
    CalmTurn(RunState(Perceive, Running, 0), rows, turns, 0, budget);
    RefusedRound(RunState(Search, Running, 0), rows, turns, 1, budget - 1);
  }

  lemma LastTwoRounds(rows: Rows, turns: nat -> Turn, budget: nat)
    requires budget >= 8
    requires forall i :: 4 <= i < 12 ==> Calm(turns(i))
    requires Refuses(rows, turns(6).attempt) && Submit(rows, turns(9).attempt).1.Captured?
    ensures var t := Loop(RunState(Search, Running, 1), rows, turns, 4, budget);
      t.handlers == 8 && t.submissions == 2 && t.payments == 1 && t.run.status == RunStatus.Done
  {
    RefusedRound(RunState(Search, Running, 1), rows, turns, 4, budget);
    CapturedRound(rows, turns, 7, budget - 3);
  }

  lemma CapturedRound(rows: Rows, turns: nat -> Turn, i: nat, budget: nat)
    requires budget >= 5
    requires forall k :: i <= k < i + 5 ==> Calm(turns(k))
    requires Submit(rows, turns(i + 2).attempt).1.Captured?
    ensures var t := Loop(RunState(Search, Running, MAX_REPLANS), rows, turns, i, budget);
      t.handlers == 5 && t.submissions == 1 && t.payments == 1 && t.run.status == RunStatus.Done
  {
    CalmTurn(RunState(Search, Running, MAX_REPLANS), rows, turns, i, budget);
    CalmTurn(RunState(Propose, Running, MAX_REPLANS), rows, turns, i + 1, budget - 1);
    PaidShape(rows, turns(i + 2).attempt);
    PaidRunIsDoneExactlyWhen(RunState(GateNode, Running, MAX_REPLANS), rows, turns, i + 2, budget - 2);
  }

  // ------------------------------------------------- what a run may report

  /** A run that is only asked to search submits nothing and leaves every row alone. */
  lemma {:induction false} SearchOnlyNeverSubmits(run: RunState, rows: Rows, turns: nat -> Turn, i: nat, budget: nat)
    requires run.node != GateNode && forall k :: turns(k).searchOnly
    ensures var t := Loop(run, rows, turns, i, budget);
      t.submissions == 0 && t.payments == 0 && !t.stranded && t.rows == rows
    decreases budget
  {
    if budget > 0 && !turns(i).late {
      var call := Handle(run.node, rows, run.replans, turns(i));
      SearchOnlyStays(run.node, rows, run.replans, turns(i));
      if call.next.GoTo? {
        SearchOnlyNeverSubmits(RunState(call.next.node, run.status, call.replans), rows, turns, i + 1, budget - 1);
      }
    }
  }

  lemma SearchOnlyStays(node: Node, rows: Rows, replans: nat, t: Turn)
    requires node != GateNode && t.searchOnly
    ensures var call := Handle(node, rows, replans, t);
      call.outcome.None? && call.rows == rows && call.next != GoTo(GateNode)
  {
  }

  /**
   A search-only run that finds and proposes something ends done after four
   handler calls, exactly when all of its four turns are there and none is late
   or raises.
   */
  lemma SearchOnlyEndsDone(rows: Rows, turns: nat -> Turn, budget: nat)
    requires turns(2).searchOnly && turns(2).proposed && turns(1).offersFound
    ensures var t := Loop(RunState(Perceive, Running, 0), rows, turns, 0, budget);
      && (t.run.status == RunStatus.Done <==>
            budget >= 4 && Fine(turns(0)) && Fine(turns(1)) && Fine(turns(2)) && Fine(turns(3)))
      && (t.run.status == RunStatus.Done ==> t.handlers == 4 && t.submissions == 0 && t.rows == rows)
  {
    if budget > 1 && Fine(turns(0)) && Fine(turns(1)) {
      QuietTurn(RunState(Perceive, Running, 0), rows, turns, 0, budget);
      QuietTurn(RunState(Search, Running, 0), rows, turns, 1, budget - 1);
      ProposedEndsDone(rows, turns, budget - 2);
    } else if budget > 0 && Fine(turns(0)) {
      QuietTurn(RunState(Perceive, Running, 0), rows, turns, 0, budget);
      FailingTurnEndsRun(RunState(Search, Running, 0), rows, turns, 1, budget - 1);
    } else {
      FailingTurnEndsRun(RunState(Perceive, Running, 0), rows, turns, 0, budget);
    }
  }

  lemma ProposedEndsDone(rows: Rows, turns: nat -> Turn, budget: nat)
    requires turns(2).searchOnly && turns(2).proposed
    ensures var t := Loop(RunState(Propose, Running, 0), rows, turns, 2, budget);
      && (t.run.status == RunStatus.Done <==> budget >= 2 && Fine(turns(2)) && Fine(turns(3)))
      && (t.run.status == RunStatus.Done ==> t.handlers == 2 && t.submissions == 0 && t.rows == rows)
  {
    if budget > 0 && Fine(turns(2)) {
      QuietTurn(RunState(Propose, Running, 0), rows, turns, 2, budget);
      DoneEndsRun(RunState(DoneNode, Running, 0), rows, turns, 3, budget - 1);
    } else {
      FailingTurnEndsRun(RunState(Propose, Running, 0), rows, turns, 2, budget);
    }
  }

  lemma FailingTurnEndsRun(run: RunState, rows: Rows, turns: nat -> Turn, i: nat, budget: nat)
    requires budget == 0 || !Fine(turns(i))
    ensures var t := Loop(run, rows, turns, i, budget);
      && t.submissions == 0 && t.rows == rows
      && t.run.status ==
           if budget > 0 && !turns(i).late && turns(i).throttled then RunStatus.Denied else RunStatus.Failed
  {
  }

  /** A turn that runs to its end at a node before the gate. */
  lemma QuietTurn(run: RunState, rows: Rows, turns: nat -> Turn, i: nat, budget: nat)
    requires budget > 0 && Fine(turns(i)) && run.node in {Perceive, Search, Propose}
    ensures var t := turns(i);
      var next := match run.node
        case Perceive => Search
        case Search => if t.offersFound then Propose else DeniedNode
        case _ => if !t.proposed then DeniedNode else if t.searchOnly then DoneNode else GateNode;
      Loop(run, rows, turns, i, budget)
        == Plus(Loop(run.(node := next), rows, turns, i + 1, budget - 1), TallyOf(None))
  {
  }

  /**
   An escalated submission ends its run waiting for the human, with every row
   as it was, exactly when one more turn comes in time and raises nothing.
   */
  lemma EscalatedRunWaitsExactlyWhen(run: RunState, rows: Rows, turns: nat -> Turn, i: nat, budget: nat)
    requires run.node == GateNode && run.status == Running && budget > 0 && Fine(turns(i))
    requires Submit(rows, turns(i).attempt).1.AwaitingHuman?
    ensures var t := Loop(run, rows, turns, i, budget);
      && t.submissions == 1 && t.payments == 0 && t.rows == rows
      && (t.run.status == RunStatus.AwaitingHuman <==> budget >= 2 && Fine(turns(i + 1)))
      && (t.run.status != RunStatus.AwaitingHuman ==> t.run.status in {RunStatus.Denied, RunStatus.Failed})
  {
    AskingLeavesRows(rows, turns(i).attempt);
    WaitEndsRun(run.(node := AwaitHuman), rows, turns, i + 1, budget - 1);
    var call := Handle(GateNode, rows, run.replans, turns(i));
    assert call.next == GoTo(AwaitHuman) && call.replans == run.replans;
  }

  lemma WaitEndsRun(run: RunState, rows: Rows, turns: nat -> Turn, i: nat, budget: nat)
    requires run.node == AwaitHuman && run.status == Running
    ensures var t := Loop(run, rows, turns, i, budget);
      && t.rows == rows && t.submissions == 0 && t.payments == 0 && !t.stranded
      && (t.run.status == RunStatus.AwaitingHuman <==> budget >= 1 && Fine(turns(i)))
      && (t.run.status != RunStatus.AwaitingHuman ==> t.run.status in {RunStatus.Denied, RunStatus.Failed})
  {
  }

  lemma AskingLeavesRows(rows: Rows, a: Attempt)
    requires Submit(rows, a).1.AwaitingHuman?
    ensures Submit(rows, a).0 == rows
  {
  }

  /** Nodes from which a run can still end done. */
  predicate OnTheWay(node: Node) {
    node in {Perceive, Search, Propose, GateNode}
  }

  /**
   Done means paid: a run that starts before the gate, with no search-only
   turn, ends done only if it paid exactly once, and it stranded nothing.
   */
  lemma {:induction false} DoneMeansPaid(run: RunState, rows: Rows, turns: nat -> Turn, i: nat, budget: nat)
    requires OnTheWay(run.node) && run.status == Running
    requires forall k :: !turns(k).searchOnly
    ensures var t := Loop(run, rows, turns, i, budget);
      t.run.status == RunStatus.Done ==> t.payments == 1 && !t.stranded
    decreases budget
  {
    if budget > 0 && !turns(i).late {
      var call := Handle(run.node, rows, run.replans, turns(i));
      BeforeDone(run.node, rows, run.replans, turns(i));
      if call.next.GoTo? {
        var run' := RunState(call.next.node, Running, call.replans);
        if OnTheWay(call.next.node) {
          DoneMeansPaid(run', call.rows, turns, i + 1, budget - 1);
        } else {
          PastTheGate(run', call.rows, turns, i + 1, budget - 1);
        }
      }
    }
  }

  lemma PastTheGate(run: RunState, rows: Rows, turns: nat -> Turn, i: nat, budget: nat)
    requires run.status == Running && run.node in {ReceiptNode, DeniedNode, AwaitHuman}
    ensures var t := Loop(run, rows, turns, i, budget);
      && t.payments == 0 && !t.stranded
      && (t.run.status == RunStatus.Done ==> run.node == ReceiptNode)
  {
    match run.node
    case ReceiptNode => ReceiptEndsRun(run, rows, turns, i, budget);
    case DeniedNode => DeniedEndsRun(run, rows, turns, i, budget);
    case AwaitHuman => WaitEndsRun(run, rows, turns, i, budget);
  }

  lemma BeforeDone(node: Node, rows: Rows, replans: nat, t: Turn)
    requires OnTheWay(node) && !t.searchOnly
    ensures var call := Handle(node, rows, replans, t);
      && (call.next.GoTo? ==>
            && (call.next.node == ReceiptNode <==> call.outcome.Some? && Paid(call.outcome.value))
            && !(call.outcome.Some? && Stranded(call.outcome.value))
            && call.next.node != DoneNode)
      && call.next != Stop
  {
  }

  lemma DeniedEndsRun(run: RunState, rows: Rows, turns: nat -> Turn, i: nat, budget: nat)
    requires run.node == DeniedNode && run.status == Running
    ensures var t := Loop(run, rows, turns, i, budget);
      && t.rows == rows && t.submissions == 0 && t.payments == 0 && !t.stranded
      && t.run.status in {RunStatus.Denied, RunStatus.Failed}
      && (budget >= 1 && Fine(turns(i)) ==> t.run.status == RunStatus.Denied)
  {
  }

  /** A submission that raises denies its run where the quota did it, and fails it otherwise; so does one that dies. */
  lemma RaisedGateEndsRun(run: RunState, rows: Rows, turns: nat -> Turn, i: nat, budget: nat)
    requires run.node == GateNode && run.status == Running && budget > 0 && Fine(turns(i))
    requires Submit(rows, turns(i).attempt).1.Raised? || Submit(rows, turns(i).attempt).1.Died?
    ensures var t := Loop(run, rows, turns, i, budget);
      var o := Submit(rows, turns(i).attempt).1;
      && t.submissions == 1 && t.handlers == 1 && t.rows == Submit(rows, turns(i).attempt).0
      && t.run.status == if o.Raised? && turns(i).attempt.jti in rows then RunStatus.Denied else RunStatus.Failed
  {
    var call := Handle(GateNode, rows, run.replans, turns(i));
    assert call.rows == Submit(rows, turns(i).attempt).0;
  }

  /** A refusal is looked at again at most twice, and only where the reason may pass; any other denies the run. */
  lemma RefusalGoesOn(run: RunState, rows: Rows, turns: nat -> Turn, i: nat, budget: nat, why: Reason)
    requires run.node == GateNode && run.status == Running && budget > 0 && Fine(turns(i))
    requires Submit(rows, turns(i).attempt).1 in {Refused(why), Compensated(why)}
    ensures var t := Loop(run, rows, turns, i, budget);
      var rows' := Submit(rows, turns(i).attempt).0;
      t == Plus(Loop(if why in {AmountMismatch, RailError} && run.replans < 2
                     then RunState(Search, Running, run.replans + 1) else run.(node := DeniedNode),
                     rows', turns, i + 1, budget - 1),
                Tally(1, 1, 0, false))
  {
    var call := Handle(GateNode, rows, run.replans, turns(i));
    assert call.rows == Submit(rows, turns(i).attempt).0;
  }

  // ------------------------------------------------------ turns that fail

  /**
   What a throttled or crashed turn leaves behind: every budget as it was,
   exactly when the purchase was not paid and holds no amount.  An escalation
   over the quota is submitted and throttled; an exception after the
   reservation holds the price on the whole ancestry, and one after the
   settlement has paid it.
   */
  lemma FailingTurnMovesMoneyExactlyWhen(node: Node, rows: Rows, replans: nat, t: Turn)
    requires Handle(node, rows, replans, t).next in {Next.Throttled, Next.Crashed}
    requires "" !in rows && NonNegative(rows)
    ensures var call := Handle(node, rows, replans, t);
      && (call.next == Next.Throttled ==> call.outcome in {None, Some(Raised)} && call.rows == rows)
      && (SameMoney(rows, call.rows) <==>
            !(call.outcome.Some? && call.outcome.value.Died?
              && match call.outcome.value.left
                 case Nothing => false
                 case Held(amount) => amount != 0
                 case Spent(_) => true))
  {
    if node == GateNode && !t.throttled && !t.crashed && Submit(rows, t.attempt).1.Died? {
      GateFailure(rows, t.attempt);
    }
  }

  lemma GateFailure(rows: Rows, a: Attempt)
    requires "" !in rows && NonNegative(rows) && Submit(rows, a).1.Died?
    ensures SameMoney(rows, Submit(rows, a).0) <==>
      match Submit(rows, a).1.left
      case Nothing => true
      case Held(amount) => amount == 0
      case Spent(_) => false
  {
    ChainIsAncestry(Links(rows), a.jti);
    if Paid(Submit(rows, a).1) {
      PaymentChargesAncestry(rows, a);
      PaidShape(rows, a);
      assert a.jti in Chain(Links(rows), a.jti);
      assert Submit(rows, a).0[a.jti].txnCount == rows[a.jti].txnCount + 1;
    } else if Stranded(Submit(rows, a).1) {
      StrandedShape(rows, a);
      assert a.jti in Chain(Links(rows), a.jti);
      assert Submit(rows, a).0[a.jti].reserved == rows[a.jti].reserved + a.quoted.value.price;
    } else {
      OnlyPaymentsMoveMoney(rows, a);
    }
  }
}
