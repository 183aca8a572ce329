/**
 Workers of the Rappi bridge that overlap on one idempotency key
 (src/rappi_bridge/service.py, src/rappi_bridge/state.py).  Four checkpoints
 and two endings are written without an expected state; only the step from
 armed to clicked, and the endings of a failed click, are guarded.  A worker
 that dies is one that takes no further step.
 */
module BridgeRace {
  import opened Wrappers
  import opened Bridge

  datatype Worker =
    | Waiting(r: Request, w: Weather)
    | Walking(r: Request, w: Weather, n: nat)   // has reached checkpoint n in this call
    | Holding(r: Request, w: Weather)           // has won the button and not pressed it
    | Sent(r: Request, w: Weather)              // has pressed it and not recorded the reply
    | Over(result: Result)

  datatype System = System(key: string, row: Option<Row>, workers: map<nat, Worker>, clicks: seq<Click>)

  datatype Step =
    | Begin(worker: nat, r: Request, w: Weather)
    | Claim(worker: nat)
    | Write(worker: nat)      // the next checkpoint, whatever the row says
    | Refuse(worker: nat)
    | DryRun(worker: nat)
    | Grab(worker: nat)       // armed to clicked, expecting armed
    | Press(worker: nat)
    | Record(worker: nat)

  predicate Possible(s: System, step: Step) {
    var k := step.worker;
    if step.Begin? then k !in s.workers && step.r.key == s.key && step.w.enabled
    else
      k in s.workers &&
      var v := s.workers[k];
      match step
      case Claim(_) => v.Waiting?
      case Write(_) => v.Walking? && s.row.Some? && v.n < 4 && v.n < Reach(v.r, v.w)
      case Refuse(_) => v.Walking? && v.n == Reach(v.r, v.w)
      case DryRun(_) => v.Walking? && s.row.Some? && v.n == 4 && Reach(v.r, v.w) == 5 && v.w.dryRun
      case Grab(_) => v.Walking? && s.row.Some? && v.n == 4 && Reach(v.r, v.w) == 5 && !v.w.dryRun
      case Press(_) => v.Holding? && Reach(v.r, v.w) == 5
      case Record(_) => v.Sent? && s.row.Some? && Reach(v.r, v.w) == 5
  }

  function Next(s: System, step: Step): System
    requires Possible(s, step)
  {
    var k := step.worker;
    match step
    case Begin(_, r, w) => s.(workers := s.workers[k := Waiting(r, w)])
    case Claim(_) =>
      var v := s.workers[k];
      if s.row.None? then
        s.(row := Some(Row(v.r.purchaseId, v.r.cartHash, v.r.amount, Received, None, None)),
           workers := s.workers[k := Walking(v.r, v.w, 0)])
      else if Replayable(s.row.value) then s.(workers := s.workers[k := Over(Done(s.row.value.receipt.value))])
      else if Parked(s.row.value) then s.(workers := s.workers[k := Over(NeedsHuman)])
      else s.(workers := s.workers[k := Walking(v.r, v.w, 0)])
    case Write(_) =>
      var v := s.workers[k];
      s.(row := Some(Moved(s.row.value, Checkpoint(v.n + 1), None, None)),
         workers := s.workers[k := v.(n := v.n + 1)])
    case Refuse(_) => s.(workers := s.workers[k := Over(Raised)])
    case DryRun(_) =>
      var v := s.workers[k];
      var receipt := ReceiptFor(v.r, v.w, DryRunConfirmed, None);
      s.(row := Some(Moved(s.row.value, DryRunConfirmed, None, Some(receipt))),
         workers := s.workers[k := Over(Done(receipt))])
    case Grab(_) =>
      var v := s.workers[k];
      if s.row.value.state == Armed then
        s.(row := Some(Moved(s.row.value, Clicked, None, None)), workers := s.workers[k := Holding(v.r, v.w)])
      else s.(workers := s.workers[k := Over(Raised)])
    case Press(_) =>
      var v := s.workers[k];
      s.(clicks := s.clicks + [Click(v.r.key, FinalTotal(v.w), v.r.cartHash, v.w.click)],
         workers := s.workers[k := Sent(v.r, v.w)])
    case Record(_) =>
      var v := s.workers[k];
      match v.w.click
      case BelowMinimum => s.(row := Some(FromClicked(s.row.value, Failed)), workers := s.workers[k := Over(Raised)])
      case Broken =>
        s.(row := Some(FromClicked(s.row.value, Uncertain)),
           workers := s.workers[k := Over(if s.row.value.state == Clicked then NeedsHuman else Raised)])
      case Accepted(orderId) =>
        var receipt := ReceiptFor(v.r, v.w, Confirmed, orderId);
        s.(row := Some(Moved(s.row.value, Confirmed, orderId, Some(receipt))),
           workers := s.workers[k := Over(Done(receipt))])
  }

  /** An ending that expects clicked, and raises when it finds anything else. */
  function FromClicked(row: Row, state: Phase): Row {
    if row.state == Clicked then Moved(row, state, None, None) else row
  }

  /**
   A worker that finds the row not armed stops with an error and writes nothing,
   and so does one that comes to record a failed click on a row that is no
   longer clicked.
   */
  lemma LosersWriteNothing(s: System, step: Step)
    requires Possible(s, step) && (step.Grab? || step.Record?)
    requires step.Grab? ==> s.row.value.state != Armed
    requires step.Record? ==> s.row.value.state != Clicked && !s.workers[step.worker].w.click.Accepted?
    ensures Next(s, step) == s.(workers := s.workers[step.worker := Over(Raised)])
  {
  }

  ghost predicate Legal(s: System, steps: seq<Step>)
    decreases |steps|
  {
    steps == [] || (Possible(s, steps[0]) && Legal(Next(s, steps[0]), steps[1..]))
  }

  ghost function Run(s: System, steps: seq<Step>): System
    requires Legal(s, steps)
    decreases |steps|
  {
    if steps == [] then s else Run(Next(s, steps[0]), steps[1..])
  }

  function Start(key: string): System {
    System(key, None, map[], [])
  }

  // ------------------------------------------------------------- the guard

  /** A click that may have bought something. */
  predicate MayHaveBought(c: Click) {
    c.outcome != BelowMinimum
  }

  ghost predicate Bought(s: System) {
    exists i :: 0 <= i < |s.clicks| && MayHaveBought(s.clicks[i])
  }

  predicate Has(s: System, k: nat) {
    k in s.workers && (s.workers[k].Holding? || s.workers[k].Sent?)
  }

  /** Somebody has the button, or has used it on something that may have been bought. */
  ghost predicate Engaged(s: System) {
    Bought(s) || exists k :: Has(s, k)
  }

  /** A checkpoint that is written over a click. */
  ghost predicate Lands(s: System, step: Step) {
    step.Write? && Engaged(s)
  }

  /** Nobody gets in any more: a new caller is sent away, a walking one finds no armed row. */
  predicate Shut(row: Row) {
    Parked(row) || Replayable(row)
  }

  /** One button at a time, and the last click alone may have bought anything. */
  ghost predicate Orderly(s: System) {
    && (forall j, k :: Has(s, j) && Has(s, k) ==> j == k)
    && (forall k :: Has(s, k) ==> Reach(s.workers[k].r, s.workers[k].w) == 5)
    && (forall i :: 0 <= i < |s.clicks| - 1 ==> !MayHaveBought(s.clicks[i]))
    && (forall k :: Has(s, k) && s.workers[k].Holding? ==> !Bought(s))
    && (forall k :: Has(s, k) && s.workers[k].Sent? ==>
          s.clicks != [] && s.clicks[|s.clicks| - 1].outcome == s.workers[k].w.click)
  }

  ghost predicate Guarded(s: System) {
    && Orderly(s)
    && (Engaged(s) ==> s.row.Some? && Shut(s.row.value))
    && (s.row.Some? && s.row.value.state == Clicked ==> Engaged(s))
    && (s.row.Some? && s.row.value.state in {Uncertain, Confirmed} ==> Bought(s))
  }

  /**
   In a guarded system a checkpoint lands on a click exactly when it lands on
   a row that is clicked, uncertain or confirmed, or that a dry run of another
   worker has overwritten meanwhile.
   */
  lemma EngagedRows(s: System)
    requires Guarded(s) && s.row.Some? && s.row.value.state != DryRunConfirmed
    ensures Engaged(s) <==> s.row.value.state in {Clicked, Uncertain, Confirmed}
  {
  }

  /** Who has the button after a step. */
  lemma HasAfter(s: System, step: Step, k: nat)
    requires Possible(s, step)
    ensures Has(Next(s, step), k) <==>
      if step.Grab? && k == step.worker then s.row.value.state == Armed
      else if step.Record? && k == step.worker then false
      else Has(s, k)
  {
  }

  lemma ClicksAfter(s: System, step: Step)
    requires Possible(s, step)
    ensures !step.Press? ==> Next(s, step).clicks == s.clicks
    ensures step.Press? ==>
      (Bought(Next(s, step)) <==> Bought(s) || s.workers[step.worker].w.click != BelowMinimum)
  {
    if step.Press? {
      var s' := Next(s, step);
      assert s'.clicks[|s.clicks|].outcome == s.workers[step.worker].w.click;
      if Bought(s) {
        var i :| 0 <= i < |s.clicks| && MayHaveBought(s.clicks[i]);
        assert MayHaveBought(s'.clicks[i]);
      }
      if s.workers[step.worker].w.click != BelowMinimum {
        assert MayHaveBought(s'.clicks[|s.clicks|]);
      }
    }
  }

  lemma EngagedAfter(s: System, step: Step)
    requires Possible(s, step)
    ensures step.Grab? && s.row.value.state == Armed ==> Engaged(Next(s, step))
    ensures !(step.Grab? && s.row.value.state == Armed) && !Engaged(s) ==> !Engaged(Next(s, step))
    ensures Engaged(s) && !step.Record? ==> Engaged(Next(s, step))
    ensures Bought(s) ==> Bought(Next(s, step))
  {
    var s' := Next(s, step);
    ClicksAfter(s, step);
    forall k
      ensures Has(s', k) <==>
        if step.Grab? && k == step.worker then s.row.value.state == Armed
        else if step.Record? && k == step.worker then false
        else Has(s, k)
    {
      HasAfter(s, step, k);
    }
    if step.Press? || (step.Grab? && s.row.value.state == Armed) {
      assert Has(s', step.worker);
    }
    if Engaged(s) && !Bought(s) {
      var k :| Has(s, k);
      assert !step.Record? ==> Has(s', k);
    }
    if Bought(s) && !step.Press? {
      assert s'.clicks == s.clicks;
    }
  }

  /** A press by the only holder. */
  lemma PressStaysOrderly(s: System, k: nat)
    requires Guarded(s) && Possible(s, Press(k))
    ensures Orderly(Next(s, Press(k)))
  {
    var s' := Next(s, Press(k));
    ClicksAfter(s, Press(k));
    assert Has(s, k);
    forall j
      ensures Has(s', j) <==> Has(s, j)
    {
      HasAfter(s, Press(k), j);
    }
    forall i | 0 <= i < |s'.clicks| - 1
      ensures !MayHaveBought(s'.clicks[i])
    {
      assert s'.clicks[i] == s.clicks[i];
    }
  }

  lemma StepStaysOrderly(s: System, step: Step)
    requires Guarded(s) && Possible(s, step)
    ensures Orderly(Next(s, step))
  {
    if step.Press? {
      PressStaysOrderly(s, step.worker);
    } else {
      var s' := Next(s, step);
      ClicksAfter(s, step);
      forall k
        ensures Has(s', k) <==>
          if step.Grab? && k == step.worker then s.row.value.state == Armed
          else if step.Record? && k == step.worker then false
          else Has(s, k)
        ensures Has(s', k) && k != step.worker ==> s'.workers[k] == s.workers[k]
      {
        HasAfter(s, step, k);
      }
      if step.Grab? && s.row.value.state == Armed {
        assert !Engaged(s);
      }
    }
  }

  /** After the holder has recorded its reply. */
  lemma RecordStaysGuarded(s: System, k: nat)
    requires Guarded(s) && Possible(s, Record(k))
    ensures Guarded(Next(s, Record(k)))
  {
    var s' := Next(s, Record(k));
    var v := s.workers[k];
    assert Has(s, k);
    StepStaysOrderly(s, Record(k));
    EngagedAfter(s, Record(k));
    ClicksAfter(s, Record(k));
    forall j
      ensures !Has(s', j)
    {
      HasAfter(s, Record(k), j);
      if Has(s, j) {
        assert j == k;
      }
    }
    if v.w.click == BelowMinimum {
      assert !MayHaveBought(s.clicks[|s.clicks| - 1]);
      assert !Bought(s);
    } else {
      assert MayHaveBought(s.clicks[|s.clicks| - 1]);
      assert Bought(s');
    }
  }

  /** Step by step: the guard holds on exactly as long as no checkpoint is written over a click. */
  lemma StepStaysGuarded(s: System, step: Step)
    requires Guarded(s) && Possible(s, step)
    ensures Guarded(Next(s, step)) <==> !Lands(s, step)
  {
    if step.Record? {
      RecordStaysGuarded(s, step.worker);
    } else {
      StepStaysOrderly(s, step);
      EngagedAfter(s, step);
      if step.Press? {
        assert Has(s, step.worker);
      }
    }
  }

  // ------------------------------------------------------------ whole runs

  ghost predicate NeverLands(s: System, steps: seq<Step>)
    requires Legal(s, steps)
    decreases |steps|
  {
    steps == [] || (!Lands(s, steps[0]) && NeverLands(Next(s, steps[0]), steps[1..]))
  }

  lemma {:induction false} RunStaysGuarded(s: System, steps: seq<Step>)
    requires Guarded(s) && Legal(s, steps) && NeverLands(s, steps)
    ensures Guarded(Run(s, steps))
    decreases |steps|
  {
    if steps != [] {
      StepStaysGuarded(s, steps[0]);
      RunStaysGuarded(Next(s, steps[0]), steps[1..]);
    }
  }

  /** Two clicks that may both have bought something. */
  ghost predicate Twice(s: System) {
    exists i, j :: 0 <= i < j < |s.clicks| && MayHaveBought(s.clicks[i]) && MayHaveBought(s.clicks[j])
  }

  /**
   For any number of workers on one key and any interleaving of their steps,
   with any replies and deaths: if no checkpoint is written over a click, at
   most one click may have bought anything, and it is the last one.
   */
  lemma RacingClickOnce(key: string, steps: seq<Step>)
    requires Legal(Start(key), steps) && NeverLands(Start(key), steps)
    ensures var s := Run(Start(key), steps);
      && !Twice(s)
      && (forall i :: 0 <= i < |s.clicks| && MayHaveBought(s.clicks[i]) ==> i == |s.clicks| - 1)
  {
    RunStaysGuarded(Start(key), steps);
  }

  // ---------------------------------------------------- and when one lands

  ghost predicate Reaches(s: System, t: System) {
    exists steps :: Legal(s, steps) && Run(s, steps) == t
  }

  lemma ReachesSelf(s: System)
    ensures Reaches(s, s)
  {
    assert Legal(s, []) && Run(s, []) == s;
  }

  lemma {:induction false} RunMore(s: System, steps: seq<Step>, step: Step)
    requires Legal(s, steps) && Possible(Run(s, steps), step)
    ensures Legal(s, steps + [step]) && Run(s, steps + [step]) == Next(Run(s, steps), step)
    decreases |steps|
  {
    if steps == [] {
      assert [] + [step] == [step] && [step][1..] == [];
      assert Legal(Next(s, step), []);
    } else {
      assert (steps + [step])[1..] == steps[1..] + [step];
      RunMore(Next(s, steps[0]), steps[1..], step);
    }
  }

  lemma ReachesNext(s: System, t: System, step: Step)
    requires Reaches(s, t) && Possible(t, step)
    ensures Reaches(s, Next(t, step))
  {
    var steps :| Legal(s, steps) && Run(s, steps) == t;
    RunMore(s, steps, step);
  }

  /** A worker that is alone on its way: so many checkpoints, one after the other. */
  lemma {:induction false} WalksTo(s: System, t: System, k: nat, n: nat)
    requires Reaches(s, t) && k in t.workers && t.workers[k].Walking? && t.workers[k].n == 0 && t.row.Some?
    requires n <= 4 && n <= Reach(t.workers[k].r, t.workers[k].w)
    ensures Reaches(s, t.(row := Some(At(t.row.value, n)), workers := t.workers[k := t.workers[k].(n := n)]))
  {
    if n == 0 {
      assert t.workers[k := t.workers[k]] == t.workers;
    } else {
      WalksTo(s, t, k, n - 1);
      var before := t.(row := Some(At(t.row.value, n - 1)), workers := t.workers[k := t.workers[k].(n := n - 1)]);
      ReachesNext(s, before, Write(k));
      assert Next(before, Write(k)).workers == t.workers[k := t.workers[k].(n := n)];
    }
  }

  /** A live caller that passes every guard and whose click may buy something. */
  predicate Willing(key: string, r: Request, w: Weather) {
    r.key == key && w.enabled && !w.dryRun && Reach(r, w) == 5 && w.click != BelowMinimum
  }

  /** A row that is not shut lets a new worker walk all the way. */
  lemma FreshWalk(origin: System, s: System, k: nat, r: Request, w: Weather) returns (t: System)
    requires Reaches(origin, s) && k !in s.workers && (s.row.Some? ==> !Shut(s.row.value)) && Willing(s.key, r, w)
    ensures Reaches(origin, t) && t.key == s.key && t.clicks == s.clicks
    ensures t.row.Some? && t.row.value.state == Armed
    ensures t.workers == s.workers[k := Walking(r, w, 4)]
  {
    ReachesNext(origin, s, Begin(k, r, w));
    var waiting := Next(s, Begin(k, r, w));
    ReachesNext(origin, waiting, Claim(k));
    var claimed := Next(waiting, Claim(k));
    assert claimed.workers[k] == Walking(r, w, 0);
    WalksTo(origin, claimed, k, 4);
    t := claimed.(row := Some(At(claimed.row.value, 4)), workers := claimed.workers[k := Walking(r, w, 4)]);
  }

  /** And then to click. */
  lemma FreshClick(origin: System, s: System, k: nat, r: Request, w: Weather) returns (t: System)
    requires Reaches(origin, s) && k !in s.workers && (s.row.Some? ==> !Shut(s.row.value)) && Willing(s.key, r, w)
    ensures Reaches(origin, t) && t.key == s.key && t.row.Some? && t.row.value.state == Clicked
    ensures |t.clicks| == |s.clicks| + 1 && t.clicks[..|s.clicks|] == s.clicks && MayHaveBought(t.clicks[|s.clicks|])
    ensures t.workers == s.workers[k := Worker.Sent(r, w)]
  {
    var armed := FreshWalk(origin, s, k, r, w);
    ReachesNext(origin, armed, Grab(k));
    var holding := Next(armed, Grab(k));
    ReachesNext(origin, holding, Press(k));
    t := Next(holding, Press(k));
  }

  lemma {:induction false} BoundOf(keys: set<nat>) returns (n: nat)
    ensures forall k :: k in keys ==> k < n
  {
    if keys == {} {
      n := 0;
    } else {
      var k :| k in keys;
      n := BoundOf(keys - {k});
      assert forall j :: j in keys ==> j == k || j in keys - {k};
      n := if n <= k then k + 1 else n;
    }
  }

  lemma TwoBought(before: System, after: System)
    requires Bought(before) && |after.clicks| > |before.clicks| && after.clicks[..|before.clicks|] == before.clicks
    requires MayHaveBought(after.clicks[|after.clicks| - 1])
    ensures Twice(after)
  {
    var i :| 0 <= i < |before.clicks| && MayHaveBought(before.clicks[i]);
    assert after.clicks[i] == before.clicks[i];
  }

  lemma ReopenedClicksAgain(s: System, k: nat, r: Request, w: Weather) returns (t: System)
    requires Bought(s) && Possible(s, Write(k)) && Willing(s.key, r, w)
    ensures Reaches(Next(s, Write(k)), t) && Twice(t)
  {
    var open := Next(s, Write(k));
    var f := BoundOf(open.workers.Keys);
    ReachesSelf(open);
    t := FreshClick(open, open, f, r, w);
    TwoBought(s, t);
  }

  /**
   The converse, step by step: once a checkpoint is written over a click,
   whatever the state of the row was, and some caller passes the guards, steps
   exist after which two clicks may both have bought something.
   */
  lemma LandingClicksTwice(s: System, k: nat, r: Request, w: Weather) returns (t: System)
    requires Guarded(s) && Possible(s, Write(k)) && Lands(s, Write(k)) && Willing(s.key, r, w)
    ensures Reaches(Next(s, Write(k)), t) && Twice(t)
  {
    if Bought(s) {
      t := ReopenedClicksAgain(s, k, r, w);
    } else {
      var open := Next(s, Write(k));
      var h :| Has(s, h);
      var f := BoundOf(open.workers.Keys);
      ReachesSelf(open);
      var one := FreshClick(open, open, f, r, w);
      assert MayHaveBought(one.clicks[|one.clicks| - 1]);
      t := HolderReopens(s, open, one, h, r, w);
    }
  }

  /** The first holder presses too, or gives the second one's row away as failed. */
  lemma HolderReopens(s: System, open: System, one: System, h: nat, r: Request, w: Weather) returns (t: System)
    requires Guarded(s) && Has(s, h) && !Bought(s) && Willing(one.key, r, w)
    requires Reaches(open, one) && h in one.workers && one.workers[h] == s.workers[h]
    requires one.row.Some? && one.row.value.state == Clicked
    requires |one.clicks| > 0 && MayHaveBought(one.clicks[|one.clicks| - 1])
    ensures Reaches(open, t) && Twice(t)
  {
    var v := s.workers[h];
    if v.Sent? {
      assert s.clicks[|s.clicks| - 1].outcome == v.w.click && !MayHaveBought(s.clicks[|s.clicks| - 1]);
      t := MinimumReopens(open, one, h, |one.clicks| - 1, r, w);
    } else {
      ReachesNext(open, one, Press(h));
      var sent := Next(one, Press(h));
      assert sent.clicks[..|one.clicks|] == one.clicks;
      if v.w.click != BelowMinimum {
        TwoBought(one, sent);
        t := sent;
      } else {
        assert MayHaveBought(sent.clicks[|one.clicks| - 1]);
        t := MinimumReopens(open, sent, h, |one.clicks| - 1, r, w);
      }
    }
  }

  /** A store-minimum refusal recorded over somebody else's click frees the row. */
  lemma MinimumReopens(open: System, sent: System, h: nat, i: nat, r: Request, w: Weather) returns (t: System)
    requires Reaches(open, sent) && Willing(sent.key, r, w)
    requires h in sent.workers && sent.workers[h].Sent? && sent.workers[h].w.click == BelowMinimum
    requires Reach(sent.workers[h].r, sent.workers[h].w) == 5
    requires sent.row.Some? && sent.row.value.state == Clicked
    requires i < |sent.clicks| && MayHaveBought(sent.clicks[i])
    ensures Reaches(open, t) && Twice(t)
  {
    ReachesNext(open, sent, Record(h));
    var failed := Next(sent, Record(h));
    var f := BoundOf(failed.workers.Keys);
    t := FreshClick(open, failed, f, r, w);
    TwoBought(failed, t);
  }

  /** Two workers from nothing: one is on its way while the other clicks, and then clicks as well. */
  lemma OverlapClicksTwice(key: string, r: Request, w: Weather) returns (t: System)
    requires Willing(key, r, w)
    ensures Reaches(Start(key), t) && Twice(t)
  {
    var start := Start(key);
    ReachesSelf(start);
    var walking := FirstWalker(start, r, w);
    var clicked := FreshClick(start, walking, 1, r, w);
    assert MayHaveBought(clicked.clicks[0]);
    ReachesNext(start, clicked, Write(0));
    var reopened := Next(clicked, Write(0));
    t := FreshClick(start, reopened, 2, r, w);
    TwoBought(reopened, t);
  }

  lemma FirstWalker(start: System, r: Request, w: Weather) returns (t: System)
    requires start == Start(r.key) && w.enabled && Reaches(start, start)
    ensures Reaches(start, t) && t.key == r.key && t.clicks == [] && t.row.Some? && t.row.value.state == Received
    ensures t.workers == map[0 := Walking(r, w, 0)]
  {
    ReachesNext(start, start, Begin(0, r, w));
    var waiting := Next(start, Begin(0, r, w));
    ReachesNext(start, waiting, Claim(0));
    t := Next(waiting, Claim(0));
  }

  /** Such a caller exists. */
  lemma SomebodyIsWilling(key: string)
    ensures Willing(key, Request(key, "", 1, "", None),
                    Weather(true, false, 1, false, None, true, true, Some(("", 1)), Some(false),
                            [Method("card", true, true, false)], true, None, true, None, Accepted(None), 8))
  {
    var m := Method("card", true, true, false);
    assert Usable([m][1..]) == [];
    assert Usable([m]) == [m];
    assert FirstPreselected([m]) == Some(m);
  }

  // -------------------------------------------------- a worker on its own

  function Claimants(row: Row, r: Request, w: Weather): System {
    System(r.key, Some(row), map[0 := Waiting(r, w)], [])
  }

  /** Left alone, a worker does to the row, clicks and answers what the serial call does. */
  lemma SoloIsTravel(row: Row, r: Request, w: Weather) returns (t: System)
    requires w.enabled && w.diesBefore > 7
    ensures Reaches(Claimants(row, r, w), t)
    ensures t == System(r.key, Some(Travel(row, r, w).row), map[0 := Over(Travel(row, r, w).result)],
                        Bridge.Sent([], Travel(row, r, w).click))
  {
    var start := Claimants(row, r, w);
    ReachesSelf(start);
    ReachesNext(start, start, Claim(0));
    var claimed := Next(start, Claim(0));
    if Shut(row) {
      t := claimed;
    } else {
      var n := if Reach(r, w) < 4 then Reach(r, w) else 4;
      WalksTo(start, claimed, 0, n);
      var far := claimed.(row := Some(At(row, n)), workers := claimed.workers[0 := Walking(r, w, n)]);
      if Reach(r, w) < 5 {
        ReachesNext(start, far, Refuse(0));
        t := Next(far, Refuse(0));
      } else {
        t := SoloFinish(start, far, row, r, w);
      }
    }
  }

  lemma SoloFinish(start: System, far: System, row: Row, r: Request, w: Weather) returns (t: System)
    requires Reach(r, w) == 5 && w.diesBefore > 7
    requires Reaches(start, far) && far == System(r.key, Some(At(row, 4)), map[0 := Walking(r, w, 4)], [])
    ensures Reaches(start, t)
    ensures var trip := Finish(At(row, 4), r, w);
      t == System(r.key, Some(trip.row), map[0 := Over(trip.result)], Bridge.Sent([], trip.click))
  {
    if w.dryRun {
      ReachesNext(start, far, DryRun(0));
      t := Next(far, DryRun(0));
    } else {
      var sent := SoloClick(start, far, row, r, w);
      ReachesNext(start, sent, Record(0));
      SoloRecord(sent, Moved(At(row, 4), Clicked, None, None), r, w);
      t := Next(sent, Record(0));
    }
  }

  lemma SoloClick(start: System, far: System, row: Row, r: Request, w: Weather) returns (t: System)
    requires Reach(r, w) == 5 && !w.dryRun
    requires Reaches(start, far) && far == System(r.key, Some(At(row, 4)), map[0 := Walking(r, w, 4)], [])
    ensures Reaches(start, t)
    ensures t == System(r.key, Some(Moved(At(row, 4), Clicked, None, None)), map[0 := Worker.Sent(r, w)],
                        [Click(r.key, FinalTotal(w), r.cartHash, w.click)])
  {
    ReachesNext(start, far, Grab(0));
    var holding := System(r.key, Some(Moved(At(row, 4), Clicked, None, None)), map[0 := Holding(r, w)], []);
    assert Next(far, Grab(0)) == holding;
    ReachesNext(start, holding, Press(0));
    t := Next(holding, Press(0));
  }

  lemma SoloRecord(sent: System, clicked: Row, r: Request, w: Weather)
    requires Reach(r, w) == 5 && clicked.state == Clicked
    requires sent.row == Some(clicked) && sent.workers == map[0 := Worker.Sent(r, w)]
    ensures var (row, result) :=
      match w.click
      case BelowMinimum => (Moved(clicked, Failed, None, None), Raised)
      case Broken => (Moved(clicked, Uncertain, None, None), NeedsHuman)
      case Accepted(orderId) =>
        (Moved(clicked, Confirmed, orderId, Some(ReceiptFor(r, w, Confirmed, orderId))),
         Done(ReceiptFor(r, w, Confirmed, orderId)));
      Next(sent, Record(0)) == sent.(row := Some(row), workers := map[0 := Over(result)])
  {
  }
}
