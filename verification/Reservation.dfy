/**
 The API lane's reservation store (src/api/decision/repository_postgres.py):
 read a mandate row, compute, then UPDATE it only if it still reads the same.
 The two statements of different callers interleave freely.
 */
module Reservation {
  import opened Wrappers

  datatype Row = Row(reserved: nat, spent: nat, txnCount: nat, active: bool)

  datatype Call =
    | Reserve(amount: nat, budget: nat, maxCount: Option<int>)
    | Release(amount: nat)

  /** The checks made on the row that was read; when they fail nothing is written. */
  predicate Admits(row: Row, call: Call) {
    match call
    case Reserve(amount, budget, maxCount) =>
      && row.active
      && row.reserved + row.spent + amount <= budget
      && (maxCount.Some? ==> row.txnCount + 1 <= maxCount.value)
    case Release(amount) => amount <= row.reserved
  }

  /** The WHERE clause of the UPDATE; a release does not look at `spent_total` or the status. */
  predicate Guard(row: Row, read: Row, call: Call) {
    && row.reserved == read.reserved
    && row.txnCount == read.txnCount
    && (call.Reserve? ==> row.active && row.spent == read.spent)
  }

  /** The SET clause: values computed from what was read, not from the row. */
  function Write(row: Row, read: Row, call: Call): Row
    requires Admits(read, call)
  {
    match call
    case Reserve(amount, _, _) =>
      row.(reserved := read.reserved + amount, txnCount := read.txnCount + 1)
    case Release(amount) =>
      row.(reserved := read.reserved - amount, txnCount := Max(0, read.txnCount - 1))
  }

  /** The whole call as one atomic operation. */
  function Serial(row: Row, call: Call): (Row, bool) {
    match call
    case Reserve(amount, budget, maxCount) =>
      if Admits(row, call) then
        (row.(reserved := row.reserved + amount, txnCount := row.txnCount + 1), true)
      else (row, false)
    case Release(amount) =>
      if Admits(row, call) then
        (row.(reserved := row.reserved - amount,
              txnCount := if row.txnCount == 0 then 0 else row.txnCount - 1), true)
      else (row, false)
  }

  /** A stored id that is NULL or empty is answered as none. */
  function Recorded(id: Option<string>): Option<string> {
    if id == Some("") then None else id
  }

  class ReservationStore {
    var rows: map<string, Row>
    /** Reservation id, possibly NULL, and mandate of each purchase pending capture, by purchase id. */
    var pending: map<string, (Option<string>, string)>

    constructor ()
      ensures rows == map[] && pending == map[]
    {
      rows, pending := map[], map[];
    }

    method Reserve(mandate: string, amount: nat, budget: nat, maxCount: Option<int>, id: string, key: Option<string>)
      returns (r: Option<string>)
      modifies this
      ensures pending == old(pending)
      ensures key.Some? && key.value in pending ==>
        && rows == old(rows)
        && (pending[key.value].0 in {None, Some("")} ==> r == None)
        && (pending[key.value].0 !in {None, Some("")} ==> r == pending[key.value].0)
      ensures !(key.Some? && key.value in pending) && mandate !in old(rows) ==>
        rows == old(rows) && r == None
      ensures !(key.Some? && key.value in pending) && mandate in old(rows) ==>
        var (row, won) := Serial(old(rows)[mandate], Call.Reserve(amount, budget, maxCount));
        rows == old(rows)[mandate := row] && r == if won then Some(id) else None
    {
      if key.Some? && key.value in pending {
        return Recorded(pending[key.value].0);
      }
      if mandate !in rows {
        return None;
      }
      var read := rows[mandate];
      if !read.active {
        return None;
      }
      if read.reserved + read.spent + amount > budget {
        return None;
      }
      if maxCount.Some? && read.txnCount + 1 > maxCount.value {
        return None;
      }
      var call := Call.Reserve(amount, budget, maxCount);
      var won := Update(mandate, read, call);
      return if won then Some(id) else None;
    }

    method Release(mandate: string, amount: nat, reservation: Option<string>) returns (released: bool)
      modifies this
      ensures pending == old(pending)
      ensures var known := reservation.None? || exists p :: p in pending && pending[p] == (reservation, mandate);
        if mandate in old(rows) && known then
          var (row, won) := Serial(old(rows)[mandate], Call.Release(amount));
          rows == old(rows)[mandate := row] && released == won
        else rows == old(rows) && !released
    {
      if reservation.Some? && !Known(reservation, mandate) {
        return false;
      }
      if mandate !in rows {
        return false;
      }
      var read := rows[mandate];
      if read.reserved < amount {
        return false;
      }
      released := Update(mandate, read, Call.Release(amount));
    }

    predicate Known(reservation: Option<string>, mandate: string)
      reads this
    {
      reservation.Some? ==> exists p :: p in pending && pending[p] == (reservation, mandate)
    }

    method Update(mandate: string, read: Row, call: Call) returns (won: bool)
      requires mandate in rows && Admits(read, call)
      modifies this`rows
      ensures won == Guard(old(rows)[mandate], read, call)
      ensures rows == if won then old(rows)[mandate := Write(old(rows)[mandate], read, call)] else old(rows)
    {
      won := Guard(rows[mandate], read, call);
      if won {
        rows := rows[mandate := Write(rows[mandate], read, call)];
      }
    }
  }

  // ------------------------------------------------ many callers, one row

  datatype Worker =
    | Ready(call: Call)
    | HasRead(pending: Call, read: Row, at: nat)
    | Finished(done: Call, won: bool)

  /** A write that took effect: a winning UPDATE, or anyone else's atomic write. */
  datatype Commit = Won(worker: nat, call: Call) | External(row: Row)

  datatype System = System(row: Row, workers: map<nat, Worker>, log: seq<Commit>)

  datatype Step =
    | Start(worker: nat, call: Call)
    | Skip(worker: nat)       // a replayed key or an unknown reservation id: answers without writing
    | Read(worker: nat)
    | Cas(worker: nat)
    | Other(row: Row)

  predicate Possible(s: System, step: Step) {
    match step
    case Start(w, _) => w !in s.workers
    case Skip(w) => w in s.workers && s.workers[w].Ready?
    case Read(w) => w in s.workers && s.workers[w].Ready?
    case Cas(w) => w in s.workers && s.workers[w].HasRead? && Admits(s.workers[w].read, s.workers[w].pending)
    case Other(_) => true
  }

  function Next(s: System, step: Step): System
    requires Possible(s, step)
  {
    match step
    case Start(w, call) => s.(workers := s.workers[w := Ready(call)])
    case Skip(w) => s.(workers := s.workers[w := Finished(s.workers[w].call, false)])
    case Read(w) =>
      var call := s.workers[w].call;
      s.(workers := s.workers[w :=
        if Admits(s.row, call) then HasRead(call, s.row, |s.log|) else Finished(call, false)])
    case Cas(w) =>
      var call, read := s.workers[w].pending, s.workers[w].read;
      if Guard(s.row, read, call) then
        System(Write(s.row, read, call), s.workers[w := Finished(call, true)], s.log + [Won(w, call)])
      else s.(workers := s.workers[w := Finished(call, false)])
    case Other(row) => s.(row := row, log := s.log + [External(row)])
  }

  ghost predicate Legal(s: System, steps: seq<Step>)
    decreases |steps|
  {
    steps == [] || (Possible(s, steps[0]) && Legal(Next(s, steps[0]), steps[1..]))
  }

  ghost function Run(s: System, steps: seq<Step>): System
    requires Legal(s, steps)
    decreases |steps|
  {
    if steps == [] then s else Run(Next(s, steps[0]), steps[1..])
  }

  function Replay(row: Row, log: seq<Commit>): Row {
    if log == [] then row
    else
      var before := Replay(row, log[..|log| - 1]);
      match log[|log| - 1]
      case Won(_, call) => Serial(before, call).0
      case External(r) => r
  }

  /** Every winner of the log also wins when the log is executed serially. */
  ghost predicate AllWin(row: Row, log: seq<Commit>) {
    forall k :: 0 <= k < |log| && log[k].Won? ==> Serial(Replay(row, log[..k]), log[k].call).1
  }

  ghost predicate WorkerOk(start: Row, s: System, w: nat)
    requires w in s.workers
  {
    match s.workers[w]
    case Ready(_) => forall k :: 0 <= k < |s.log| && s.log[k].Won? ==> s.log[k].worker != w
    case HasRead(call, read, at) =>
      && Admits(read, call) && at <= |s.log| && read == Replay(start, s.log[..at])
      && forall k :: 0 <= k < |s.log| && s.log[k].Won? ==> s.log[k].worker != w
    case Finished(call, won) =>
      && (won ==> Won(w, call) in s.log)
      && (!won ==> forall k :: 0 <= k < |s.log| && s.log[k].Won? ==> s.log[k].worker != w)
  }

  ghost predicate OnePerWorker(log: seq<Commit>) {
    forall i, j :: 0 <= i < j < |log| && log[i].Won? && log[j].Won? ==> log[i].worker != log[j].worker
  }

  /**
   The row is what the winning operations alone would have produced, one after
   the other in UPDATE order; a caller is told it won exactly when it is one of them.
   */
  ghost predicate Linear(start: Row, s: System) {
    && s.row == Replay(start, s.log)
    && AllWin(start, s.log)
    && OnePerWorker(s.log)
    && (forall k :: 0 <= k < |s.log| && s.log[k].Won? ==> s.log[k].worker in s.workers)
    && (forall w :: w in s.workers ==> WorkerOk(start, s, w))
  }

  /** A guard that matches means the computed values are still the right ones. */
  lemma GuardedWriteIsSerial(row: Row, read: Row, call: Call)
    requires Admits(read, call) && Guard(row, read, call)
    ensures Serial(row, call) == (Write(row, read, call), true)
  {
  }

  /**
   Nothing is refused that fits: a reservation is granted exactly when the
   mandate is active, the amount fits what neither is spent nor reserved, and
   one more purchase fits the cap; a release exactly when so much is reserved.
   */
  lemma GrantedExactlyWhen(row: Row, call: Call)
    ensures var (row', won) := Serial(row, call);
      && (call.Reserve? ==>
            (won <==>
              && row.active && call.amount <= call.budget - row.spent - row.reserved
              && (call.maxCount.None? || row.txnCount < call.maxCount.value)))
      && (call.Release? ==> (won <==> call.amount <= row.reserved))
      && (!won ==> row' == row)
      && (won ==>
            && row'.spent == row.spent && row'.active == row.active
            && (call.Reserve? ==> row'.reserved == row.reserved + call.amount && row'.txnCount == row.txnCount + 1)
            && (call.Release? ==> row'.reserved + call.amount == row.reserved)
            && (call.Release? && row.txnCount > 0 ==> row'.txnCount + 1 == row.txnCount)
            && (call.Release? && row.txnCount == 0 ==> row'.txnCount == 0))
  {
  }

  lemma LogGrows(start: Row, log: seq<Commit>, c: Commit)
    requires AllWin(start, log)
    requires c.Won? ==> Serial(Replay(start, log), c.call).1
    ensures AllWin(start, log + [c])
    ensures Replay(start, log + [c]) == if c.Won? then Serial(Replay(start, log), c.call).0 else c.row
    ensures forall k :: 0 <= k <= |log| ==> (log + [c])[..k] == log[..k]
  {
    assert (log + [c])[..|log|] == log;
    assert forall k :: 0 <= k <= |log| ==> (log + [c])[..k] == log[..k];
  }

  /** What other workers know survives somebody else's commit. */
  lemma CommitKeepsWorker(start: Row, s: System, s': System, c: Commit, v: nat)
    requires v in s.workers && v in s'.workers && s'.workers[v] == s.workers[v]
    requires WorkerOk(start, s, v) && s'.log == s.log + [c]
    requires c.Won? ==> c.worker != v
    ensures WorkerOk(start, s', v)
  {
    match s.workers[v]
    case HasRead(call, read, at) => assert s'.log[..at] == s.log[..at];
    case Finished(call, won) =>
      if won {
        var k :| 0 <= k < |s.log| && s.log[k] == Won(v, call);
        assert s'.log[k] == Won(v, call);
      }
    case Ready(_) =>
  }

  lemma OtherKeepsLinear(start: Row, s: System, row: Row)
    requires Linear(start, s)
    ensures Linear(start, Next(s, Other(row)))
  {
    var s' := Next(s, Other(row));
    LogGrows(start, s.log, External(row));
    forall v | v in s'.workers
      ensures WorkerOk(start, s', v)
    {
      CommitKeepsWorker(start, s, s', External(row), v);
    }
  }

  /** The winner's own commit, and what everybody else knows about it. */
  lemma WinKeepsWorkers(start: Row, s: System, s': System, w: nat, call: Call)
    requires forall v :: v in s.workers ==> WorkerOk(start, s, v)
    requires s'.workers == s.workers[w := Finished(call, true)] && s'.log == s.log + [Won(w, call)]
    ensures forall v :: v in s'.workers ==> WorkerOk(start, s', v)
  {
    forall v | v in s'.workers
      ensures WorkerOk(start, s', v)
    {
      if v == w {
        assert s'.log[|s.log|] == Won(w, call);
      } else {
        CommitKeepsWorker(start, s, s', Won(w, call), v);
      }
    }
  }

  lemma WinIsFirst(s: System, s': System, w: nat, call: Call)
    requires OnePerWorker(s.log) && s'.log == s.log + [Won(w, call)]
    requires forall k :: 0 <= k < |s.log| && s.log[k].Won? ==> s.log[k].worker != w
    ensures OnePerWorker(s'.log)
  {
  }

  /** The commit of a winner, as a change of the whole system. */
  lemma CommitKeepsLinear(start: Row, s: System, s': System, w: nat, call: Call)
    requires Linear(start, s) && w in s.workers
    requires forall k :: 0 <= k < |s.log| && s.log[k].Won? ==> s.log[k].worker != w
    requires Serial(s.row, call) == (s'.row, true)
    requires s'.workers == s.workers[w := Finished(call, true)] && s'.log == s.log + [Won(w, call)]
    ensures Linear(start, s')
  {
    LogGrows(start, s.log, Won(w, call));
    WinKeepsWorkers(start, s, s', w, call);
    WinIsFirst(s, s', w, call);
  }

  lemma CasKeepsLinear(start: Row, s: System, w: nat)
    requires Linear(start, s) && Possible(s, Cas(w))
    ensures Linear(start, Next(s, Cas(w)))
  {
    var call, read := s.workers[w].pending, s.workers[w].read;
    assert WorkerOk(start, s, w);
    if Guard(s.row, read, call) {
      GuardedWriteIsSerial(s.row, read, call);
      CommitKeepsLinear(start, s, Next(s, Cas(w)), w, call);
    } else {
      LocalKeepsLinear(start, s, Next(s, Cas(w)), w);
    }
  }

  /** A step that only changes one caller's own state. */
  lemma LocalKeepsLinear(start: Row, s: System, s': System, w: nat)
    requires Linear(start, s)
    requires w in s'.workers && s' == s.(workers := s.workers[w := s'.workers[w]])
    requires WorkerOk(start, s', w)
    ensures Linear(start, s')
  {
    forall v | v in s'.workers
      ensures WorkerOk(start, s', v)
    {
      if v != w {
        assert WorkerOk(start, s, v);
      }
    }
  }

  lemma StepKeepsLinear(start: Row, s: System, step: Step)
    requires Linear(start, s) && Possible(s, step)
    ensures Linear(start, Next(s, step))
  {
    match step
    case Start(w, _) => LocalKeepsLinear(start, s, Next(s, step), w);
    case Skip(w) =>
      assert WorkerOk(start, s, w);
      LocalKeepsLinear(start, s, Next(s, step), w);
    case Read(w) =>
      assert WorkerOk(start, s, w);
      assert s.log[..|s.log|] == s.log;
      LocalKeepsLinear(start, s, Next(s, step), w);
    case Cas(w) => CasKeepsLinear(start, s, w);
    case Other(row) => OtherKeepsLinear(start, s, row);
  }

  /** The guarded columns still read as they were read; only a reservation looks at the spend and the status. */
  predicate StillReads(row: Row, read: Row, call: Call) {
    match call
    case Reserve(_, _, _) =>
      row.active && (row.reserved, row.txnCount, row.spent) == (read.reserved, read.txnCount, read.spent)
    case Release(_) => (row.reserved, row.txnCount) == (read.reserved, read.txnCount)
  }

  /** Whoever tries the UPDATE is told how it went, and told so truly; whoever skips it is told it did not win. */
  lemma EveryTryIsAnswered(s: System, step: Step)
    requires Possible(s, step)
    ensures step.Cas? ==>
      var call, read, s' := s.workers[step.worker].pending, s.workers[step.worker].read, Next(s, step);
      var same := StillReads(s.row, read, call);
      && s'.workers == s.workers[step.worker := Finished(call, same)]
      && s'.log == (if same then s.log + [Won(step.worker, call)] else s.log)
    ensures step.Skip? ==>
      var answered := s.workers[step.worker := Finished(s.workers[step.worker].call, false)];
      Next(s, step) == s.(workers := answered)
  {
  }

  /** Losers change nothing: a row changes only together with the log. */
  lemma OnlyCommitsWrite(s: System, step: Step)
    requires Possible(s, step)
    ensures Next(s, step).row != s.row ==> |Next(s, step).log| == |s.log| + 1
    ensures step.Cas? && Next(s, step).workers[step.worker] == Finished(s.workers[step.worker].pending, false)
      ==> Next(s, step).row == s.row && Next(s, step).log == s.log
  {
  }

  /** Linearisability: it holds however the statements of any callers interleave. */
  lemma {:induction false} RunsAreLinear(start: Row, s: System, steps: seq<Step>)
    requires Linear(start, s) && Legal(s, steps)
    ensures Linear(start, Run(s, steps))
    decreases |steps|
  {
    if steps != [] {
      StepKeepsLinear(start, s, steps[0]);
      RunsAreLinear(start, Next(s, steps[0]), steps[1..]);
    }
  }

  lemma EveryRunIsLinear(start: Row, steps: seq<Step>)
    requires Legal(System(start, map[], []), steps)
    ensures Linear(start, Run(System(start, map[], []), steps))
  {
    RunsAreLinear(start, System(start, map[], []), steps);
  }

  /** A race is lost only to somebody: with no commit since the read, the UPDATE wins. */
  lemma LostRaceHasAWinner(start: Row, s: System, w: nat)
    requires Linear(start, s) && Possible(s, Cas(w))
    ensures Next(s, Cas(w)).workers[w] == Finished(s.workers[w].pending, false)
      ==> s.workers[w].at < |s.log|
  {
    assert WorkerOk(start, s, w);
    if s.workers[w].at == |s.log| {
      assert s.log[..|s.log|] == s.log;
    }
  }

  // --------------------------------------------------------- no overspend

  /** Callers reserve against a budget inside this one, and other writers respect it. */
  predicate InBudget(step: Step, budget: nat) {
    match step
    case Start(_, call) => call.Reserve? ==> call.budget <= budget
    case Other(row) => row.reserved + row.spent <= budget
    case _ => true
  }

  /** Callers bring a count cap inside this one, and other writers respect it. */
  predicate InCount(step: Step, cap: nat) {
    match step
    case Start(_, call) => call.Reserve? ==> call.maxCount.Some? && call.maxCount.value <= cap
    case Other(row) => row.txnCount <= cap
    case _ => true
  }

  function CallOf(w: Worker): Call {
    match w
    case Ready(c) => c
    case HasRead(c, _, _) => c
    case Finished(c, _) => c
  }

  ghost predicate CallsInBudget(s: System, budget: nat) {
    forall w :: w in s.workers ==> InBudget(Start(w, CallOf(s.workers[w])), budget)
  }

  ghost predicate CallsInCount(s: System, cap: nat) {
    forall w :: w in s.workers ==> InCount(Start(w, CallOf(s.workers[w])), cap)
  }

  lemma StepStaysInBudget(s: System, step: Step, budget: nat)
    requires Possible(s, step) && InBudget(step, budget)
    requires s.row.reserved + s.row.spent <= budget && CallsInBudget(s, budget)
    ensures Next(s, step).row.reserved + Next(s, step).row.spent <= budget
    ensures CallsInBudget(Next(s, step), budget)
  {
    if step.Cas? {
      var call, read := s.workers[step.worker].pending, s.workers[step.worker].read;
      assert InBudget(Start(step.worker, CallOf(s.workers[step.worker])), budget);
      if Guard(s.row, read, call) {
        GuardedWriteIsSerial(s.row, read, call);
      }
    }
  }

  lemma StepStaysInCount(s: System, step: Step, cap: nat)
    requires Possible(s, step) && InCount(step, cap)
    requires s.row.txnCount <= cap && CallsInCount(s, cap)
    ensures Next(s, step).row.txnCount <= cap && CallsInCount(Next(s, step), cap)
  {
    if step.Cas? {
      var call, read := s.workers[step.worker].pending, s.workers[step.worker].read;
      assert InCount(Start(step.worker, CallOf(s.workers[step.worker])), cap);
      if Guard(s.row, read, call) {
        GuardedWriteIsSerial(s.row, read, call);
      }
    }
  }

  /**
   However the statements interleave, with or without count caps, reserved and
   spent money stay inside the budget.
   */
  lemma {:induction false} NoOverspend(s: System, steps: seq<Step>, budget: nat)
    requires Legal(s, steps) && s.row.reserved + s.row.spent <= budget && CallsInBudget(s, budget)
    requires forall k :: 0 <= k < |steps| ==> InBudget(steps[k], budget)
    ensures Run(s, steps).row.reserved + Run(s, steps).row.spent <= budget
    decreases |steps|
  {
    if steps != [] {
      assert InBudget(steps[0], budget);
      StepStaysInBudget(s, steps[0], budget);
      NoOverspend(Next(s, steps[0]), steps[1..], budget);
    }
  }

  /** And the purchase count inside the cap, whatever the budgets. */
  lemma {:induction false} NoOvercount(s: System, steps: seq<Step>, cap: nat)
    requires Legal(s, steps) && s.row.txnCount <= cap && CallsInCount(s, cap)
    requires forall k :: 0 <= k < |steps| ==> InCount(steps[k], cap)
    ensures Run(s, steps).row.txnCount <= cap
    decreases |steps|
  {
    if steps != [] {
      assert InCount(steps[0], cap);
      StepStaysInCount(s, steps[0], cap);
      NoOvercount(Next(s, steps[0]), steps[1..], cap);
    }
  }

  /** A successful release undoes a successful reserve, money and count alike. */
  lemma ReleaseUndoesReserve(row: Row, amount: nat, budget: nat, maxCount: Option<int>)
    requires Serial(row, Call.Reserve(amount, budget, maxCount)).1
    ensures Serial(Serial(row, Call.Reserve(amount, budget, maxCount)).0, Call.Release(amount)) == (row, true)
  {
  }
}
