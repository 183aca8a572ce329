/**
 The guarded Rappi order (src/rappi_bridge/service.py, src/rappi_bridge/state.py):
 a persisted checkpoint machine around a single paying click, with every guard
 re-checked on the machine that holds the button.
 */
module Bridge {
  import opened Wrappers

  datatype Phase =
    | Received | SessionOk | CartOk | ApprovalVerified | Armed
    | DryRunConfirmed | Clicked | Confirmed | Failed | Uncertain

  datatype Receipt = Receipt(state: Phase, dryRun: bool, orderId: Option<string>, total: int,
                             cartHash: string, purchaseId: string, paymentLabel: string)

  datatype Row = Row(purchaseId: string, cartHash: string, amount: int, state: Phase,
                     orderId: Option<string>, receipt: Option<Receipt>)

  datatype Request = Request(key: string, purchaseId: string, amount: int, cartHash: string,
                             expectedAddress: Option<string>)

  datatype Method = Method(id: string, available: bool, preselected: bool, cash: bool)

  datatype ClickOutcome = Accepted(orderId: Option<string>) | BelowMinimum | Broken

  /** One paying click, and what Rappi did with it. */
  datatype Click = Click(key: string, total: int, cartHash: string, outcome: ClickOutcome)

  /** Configuration, replies and accidents of one call. */
  datatype Weather = Weather(
    enabled: bool,
    dryRun: bool,
    cap: int,
    allowCash: bool,
    preferred: Option<string>,
    whoami: bool,
    cartReplies: bool,
    quoted: Option<(string, int)>,   // hash and total of the first store, None for an empty cart
    token: Option<bool>,             // the capture token's dry_run claim, None when it does not verify
    methods: seq<Method>,
    paymentSet: bool,
    recalculated: Option<int>,       // total after the payment method is applied, None if no store came back
    detailReplies: bool,
    address: Option<string>,
    click: ClickOutcome,
    diesBefore: nat)                 // the durable effect the process does not live to make

  datatype Result = Done(receipt: Receipt) | Raised | NeedsHuman | Died

  // ------------------------------------------------------------- guards

  function Usable(methods: seq<Method>): seq<Method> {
    if methods == [] then []
    else (if methods[0].available then [methods[0]] else []) + Usable(methods[1..])
  }

  function FirstPreselected(methods: seq<Method>): Option<Method> {
    if methods == [] then None
    else if methods[0].preselected then Some(methods[0])
    else FirstPreselected(methods[1..])
  }

  function FirstWithId(methods: seq<Method>, id: string): Option<Method> {
    if methods == [] then None
    else if methods[0].id == id then Some(methods[0])
    else FirstWithId(methods[1..], id)
  }

  /** The preferred card if one is configured, else the account's default, else the first usable one. */
  function Select(w: Weather): Option<Method> {
    var usable := Usable(w.methods);
    if w.preferred.Some? && w.preferred.value != "" then FirstWithId(usable, w.preferred.value)
    else if usable == [] then None
    else
      var d := FirstPreselected(usable);
      if d.Some? then d else Some(usable[0])
  }

  function FinalTotal(w: Weather): int
    requires w.quoted.Some?
  {
    if w.recalculated.Some? then w.recalculated.value else w.quoted.value.1
  }

  predicate CartBound(r: Request, w: Weather) {
    w.cartReplies && w.quoted.Some? && w.quoted.value.0 == r.cartHash
  }

  predicate Payable(w: Weather) {
    var m := Select(w);
    m.Some? && (m.value.cash ==> w.allowCash) && w.paymentSet
  }

  predicate GuardsPass(r: Request, w: Weather)
    requires w.quoted.Some?
  {
    && Payable(w)
    && FinalTotal(w) <= w.cap
    && w.detailReplies
    && r.amount == FinalTotal(w)
    && (r.expectedAddress.Some? ==> w.address == r.expectedAddress)
  }

  /** How many of the five steps before the finish the guards let through. */
  function Reach(r: Request, w: Weather): nat {
    if !w.whoami then 0
    else if !CartBound(r, w) then 1
    else if w.token.None? then 2
    else if !GuardsPass(r, w) then 3
    else if w.dryRun && !w.token.value then 4
    else 5
  }

  function Checkpoint(n: nat): Phase {
    match n
    case 0 => Received
    case 1 => SessionOk
    case 2 => CartOk
    case 3 => ApprovalVerified
    case _ => Armed
  }

  // ------------------------------------------------------ the stored machine

  class BridgeState {
    var rows: map<string, Row>

    constructor ()
      ensures rows == map[]
    {
      rows := map[];
    }

    /** Single flight: the first caller inserts, everyone else gets the row. */
    method Claim(r: Request) returns (existing: Option<Row>)
      modifies this
      ensures existing == if r.key in old(rows) then Some(old(rows)[r.key]) else None
      ensures rows == old(rows)[r.key := Claimed(old(rows), r)]
    {
      if r.key in rows {
        return Some(rows[r.key]);
      }
      rows := rows[r.key := Row(r.purchaseId, r.cartHash, r.amount, Received, None, None)];
      return None;
    }

    method Transition(key: string, state: Phase, orderId: Option<string>, receipt: Option<Receipt>,
                      guard: Option<Phase>) returns (ok: bool)
      modifies this
      ensures ok <==> key in old(rows) && (guard.Some? ==> old(rows)[key].state == guard.value)
      ensures rows ==
        if ok then old(rows)[key := Moved(old(rows)[key], state, orderId, receipt)] else old(rows)
    {
      if key !in rows || (guard.Some? && rows[key].state != guard.value) {
        return false;
      }
      rows := rows[key := Moved(rows[key], state, orderId, receipt)];
      return true;
    }
  }

  function Claimed(rows: map<string, Row>, r: Request): Row {
    if r.key in rows then rows[r.key]
    else Row(r.purchaseId, r.cartHash, r.amount, Received, None, None)
  }

  /** COALESCE keeps an order id or receipt that is not being replaced. */
  function Moved(row: Row, state: Phase, orderId: Option<string>, receipt: Option<Receipt>): Row {
    row.(state := state,
         orderId := if orderId.Some? then orderId else row.orderId,
         receipt := if receipt.Some? then receipt else row.receipt)
  }

  predicate Replayable(row: Row) {
    row.state in {DryRunConfirmed, Confirmed} && row.receipt.Some?
  }

  predicate Parked(row: Row) {
    row.state in {Clicked, Uncertain}
  }

  function ReceiptFor(r: Request, w: Weather, state: Phase, orderId: Option<string>): Receipt
    requires w.quoted.Some? && Select(w).Some?
  {
    Receipt(state, w.dryRun, orderId, FinalTotal(w), r.cartHash, r.purchaseId, Select(w).value.id)
  }

  /** The row, the click if there was one, and the answer, of one call on its own key. */
  datatype Trip = Trip(row: Row, click: Option<Click>, result: Result)

  function Finish(row: Row, r: Request, w: Weather): Trip
    requires Reach(r, w) == 5
  {
    if w.dryRun then
      var receipt := ReceiptFor(r, w, DryRunConfirmed, None);
      Trip(Moved(row, DryRunConfirmed, None, Some(receipt)), None, Done(receipt))
    else
      var clicked := Moved(row, Clicked, None, None);
      var click := Click(r.key, FinalTotal(w), r.cartHash, w.click);
      if w.diesBefore == 6 then Trip(clicked, None, Died)
      else if w.diesBefore == 7 then Trip(clicked, Some(click), Died)
      else
        match w.click
        case BelowMinimum => Trip(Moved(clicked, Failed, None, None), Some(click), Raised)
        case Broken => Trip(Moved(clicked, Uncertain, None, None), Some(click), NeedsHuman)
        case Accepted(orderId) =>
          var receipt := ReceiptFor(r, w, Confirmed, orderId);
          Trip(Moved(clicked, Confirmed, orderId, Some(receipt)), Some(click), Done(receipt))
  }

  /** The last checkpoint a call gets to: the first refusing guard, or where the process dies. */
  function Stopped(r: Request, w: Weather): nat
    requires 0 < w.diesBefore
  {
    if Reach(r, w) < w.diesBefore then Reach(r, w) else w.diesBefore - 1
  }

  function At(row: Row, n: nat): Row {
    if n == 0 then row else Moved(row, Checkpoint(n), None, None)
  }

  /** From a claimed row to wherever the call ends. */
  function Travel(row: Row, r: Request, w: Weather): Trip
    requires 0 < w.diesBefore
  {
    if Replayable(row) then Trip(row, None, Done(row.receipt.value))
    else if Parked(row) then Trip(row, None, NeedsHuman)
    else
      var n := Stopped(r, w);
      if n < 5 then Trip(At(row, n), None, if n == Reach(r, w) then Raised else Died)
      else Finish(At(row, n), r, w)
  }

  class BridgeService {
    const state: BridgeState
    /** Everything the bridge ever sent to the paying endpoint. */
    var clicks: seq<Click>

    constructor (state: BridgeState)
      ensures this.state == state && clicks == []
    {
      this.state := state;
      clicks := [];
    }

    function W(): World
      reads this, state
    {
      World(state.rows, clicks)
    }

    method PlaceOrder(r: Request, w: Weather) returns (result: Result)
      modifies this`clicks, state
      ensures (W(), result) == Call(old(W()), r, w)
    {
      if !w.enabled {
        return Raised;
      }
      if w.diesBefore == 0 {
        return Died;
      }
      var existing := state.Claim(r);
      if existing.Some? {
        assert state.rows == old(state.rows);
        if existing.value.state in {DryRunConfirmed, Confirmed} && existing.value.receipt.Some? {
          return Done(existing.value.receipt.value);
        }
        if existing.value.state in {Clicked, Uncertain} {
          return NeedsHuman;
        }
      }
      var n := WalkToArmed(r, w);
      ghost var row := Claimed(old(state.rows), r);
      assert state.rows == old(state.rows)[r.key := At(row, n)];
      if n < 5 {
        return if n == Reach(r, w) then Raised else Died;
      }
      result := ArmedToDone(r, w);
      assert state.rows == old(state.rows)[r.key := Finish(At(row, n), r, w).row];
    }

    /** Checkpoint after checkpoint, until a guard refuses or the process dies; 5 when the click is next. */
    method WalkToArmed(r: Request, w: Weather) returns (n: nat)
      requires r.key in state.rows && 0 < w.diesBefore
      modifies state
      ensures n == Stopped(r, w)
      ensures state.rows == old(state.rows)[r.key := At(old(state.rows)[r.key], n)]
    {
      // 1. session
      if !w.whoami || w.diesBefore == 1 { return 0; }
      var _ := state.Transition(r.key, SessionOk, None, None, None);
      // 2. cart binding
      if !w.cartReplies || w.quoted.None? || w.quoted.value.0 != r.cartHash || w.diesBefore == 2 { return 1; }
      var _ := state.Transition(r.key, CartOk, None, None, None);
      // 3. capture token
      if w.token.None? || w.diesBefore == 3 { return 2; }
      var _ := state.Transition(r.key, ApprovalVerified, None, None, None);
      // 4. payment method and guards
      var chosen := Select(w);
      if chosen.None? || (chosen.value.cash && !w.allowCash) || !w.paymentSet { return 3; }
      var total := FinalTotal(w);
      if total > w.cap || !w.detailReplies || r.amount != total { return 3; }
      if r.expectedAddress.Some? && w.address != r.expectedAddress { return 3; }
      if w.diesBefore == 4 { return 3; }
      var _ := state.Transition(r.key, Armed, None, None, None);
      // 5. dry runs need a dry-run approval
      if (w.dryRun && !w.token.value) || w.diesBefore == 5 { return 4; }
      return 5;
    }

    method ArmedToDone(r: Request, w: Weather) returns (result: Result)
      requires Reach(r, w) == 5 && r.key in state.rows && state.rows[r.key].state == Armed
      modifies this`clicks, state
      ensures var trip := Finish(old(state.rows)[r.key], r, w);
        && state.rows == old(state.rows)[r.key := trip.row]
        && clicks == Sent(old(clicks), trip.click)
        && result == trip.result
    {
      if w.dryRun {
        var receipt := ReceiptFor(r, w, DryRunConfirmed, None);
        var _ := state.Transition(r.key, DryRunConfirmed, None, Some(receipt), None);
        return Done(receipt);
      }
      var won := state.Transition(r.key, Clicked, None, None, Some(Armed));
      if w.diesBefore == 6 { return Died; }
      clicks := clicks + [Click(r.key, FinalTotal(w), r.cartHash, w.click)];
      if w.diesBefore == 7 { return Died; }
      match w.click {
        case BelowMinimum =>
          var _ := state.Transition(r.key, Failed, None, None, Some(Clicked));
          return Raised;
        case Broken =>
          var _ := state.Transition(r.key, Uncertain, None, None, Some(Clicked));
          return NeedsHuman;
        case Accepted(orderId) =>
          var receipt := ReceiptFor(r, w, Confirmed, orderId);
          var _ := state.Transition(r.key, Confirmed, orderId, Some(receipt), None);
          return Done(receipt);
      }
    }
  }

  // ------------------------------------------------------------ whole runs

  datatype World = World(rows: map<string, Row>, clicks: seq<Click>)

  function Call(s: World, r: Request, w: Weather): (World, Result) {
    if !w.enabled then (s, Raised)
    else if w.diesBefore == 0 then (s, Died)
    else
      var trip := Travel(Claimed(s.rows, r), r, w);
      (World(s.rows[r.key := trip.row], Sent(s.clicks, trip.click)), trip.result)
  }

  function Sent(clicks: seq<Click>, click: Option<Click>): seq<Click> {
    if click.Some? then clicks + [click.value] else clicks
  }

  function Calls(s: World, calls: seq<(Request, Weather)>): World {
    if calls == [] then s
    else
      var last := calls[|calls| - 1];
      Call(Calls(s, calls[..|calls| - 1]), last.0, last.1).0
  }

  /** Once a click may have bought something, its row never lets another one through. */
  ghost predicate Guarded(s: World) {
    && (forall i, j :: 0 <= i < j < |s.clicks| && s.clicks[i].key == s.clicks[j].key ==>
          s.clicks[i].outcome == BelowMinimum)
    && (forall i :: 0 <= i < |s.clicks| && s.clicks[i].outcome != BelowMinimum ==>
          s.clicks[i].key in s.rows && (Parked(s.rows[s.clicks[i].key]) || Bought(s.rows[s.clicks[i].key])))
  }

  /** Click `i` is on this key and may have bought something. */
  predicate Decisive(s: World, key: string, i: int) {
    0 <= i < |s.clicks| && s.clicks[i].key == key && s.clicks[i].outcome != BelowMinimum
  }

  predicate Bought(row: Row) {
    row.state == Confirmed && row.receipt.Some?
  }

  /** What one trip does to its row, from a row that nothing was bought on. */
  lemma TripClicksOnce(row: Row, r: Request, w: Weather)
    requires 0 < w.diesBefore
    ensures var t := Travel(row, r, w);
      && (Parked(row) || Replayable(row) ==> t.row == row && t.click.None?)
      && (t.click.Some? ==> t.click.value.key == r.key)
      && (t.click.Some? && t.click.value.outcome != BelowMinimum ==> Parked(t.row) || Bought(t.row))
  {
  }

  lemma CallKeepsGuard(s: World, r: Request, w: Weather)
    requires Guarded(s)
    ensures Guarded(Call(s, r, w).0)
  {
    if w.enabled && w.diesBefore > 0 {
      var row := Claimed(s.rows, r);
      TripClicksOnce(row, r, w);
      var t := Travel(row, r, w);
      var s' := Call(s, r, w).0;
      forall i | 0 <= i < |s.clicks| && s.clicks[i].key == r.key && t.click.Some?
        ensures s.clicks[i].outcome == BelowMinimum
      {
      }
      forall i | 0 <= i < |s'.clicks| && s'.clicks[i].outcome != BelowMinimum
        ensures s'.clicks[i].key in s'.rows
        ensures Parked(s'.rows[s'.clicks[i].key]) || Bought(s'.rows[s'.clicks[i].key])
      {
        if i < |s.clicks| {
          assert s'.clicks[i] == s.clicks[i];
        }
      }
    }
  }

  /**
   One key, one click: over every serial series of calls on any keys, with a
   crash allowed before any durable step and any reply from Rappi, a click
   that ended in anything but a store-minimum refusal is the last of its key.
   */
  lemma {:induction false} OneClickPerKey(calls: seq<(Request, Weather)>)
    ensures Guarded(Calls(World(map[], []), calls))
    ensures var s := Calls(World(map[], []), calls);
      forall key, i, j :: Decisive(s, key, i) && Decisive(s, key, j) ==> i == j
  {
    if calls != [] {
      var n := |calls| - 1;
      OneClickPerKey(calls[..n]);
      CallKeepsGuard(Calls(World(map[], []), calls[..n]), calls[n].0, calls[n].1);
    }
  }

  /** A finished order answers every later call with its first receipt, and never changes again. */
  lemma {:induction false} ReplaysAreFinal(s: World, key: string, calls: seq<(Request, Weather)>)
    requires key in s.rows && Replayable(s.rows[key])
    ensures var s' := Calls(s, calls);
      && key in s'.rows && s'.rows[key] == s.rows[key]
      && forall r: Request, w: Weather :: r.key == key && w.enabled && w.diesBefore > 0 ==>
          Call(s', r, w) == (s', Done(s.rows[key].receipt.value))
  {
    if calls != [] {
      ReplaysAreFinal(s, key, calls[..|calls| - 1]);
    }
    var s' := Calls(s, calls);
    forall r: Request, w: Weather | r.key == key && w.enabled && w.diesBefore > 0
      ensures Call(s', r, w) == (s', Done(s.rows[key].receipt.value))
    {
      assert s'.rows[key := s'.rows[key]] == s'.rows;
    }
  }

  /** The order a row was first claimed for. */
  predicate For(row: Row, purchaseId: string, cartHash: string, amount: int) {
    row.purchaseId == purchaseId && row.cartHash == cartHash && row.amount == amount
  }

  /** The first call of a key names its order, and no later call on any key ever changes that. */
  lemma {:induction false} FirstCallNamesTheOrder(s: World, r: Request, w: Weather, calls: seq<(Request, Weather)>)
    requires r.key !in s.rows && w.enabled && w.diesBefore > 0
    ensures var s' := Calls(Call(s, r, w).0, calls);
      && r.key in s'.rows && For(s'.rows[r.key], r.purchaseId, r.cartHash, r.amount)
      && forall k :: k in s.rows ==>
           k in s'.rows && For(s'.rows[k], s.rows[k].purchaseId, s.rows[k].cartHash, s.rows[k].amount)
  {
    if calls == [] {
      TravelKeepsOrder(Claimed(s.rows, r), r, w);
    } else {
      var last := calls[|calls| - 1];
      FirstCallNamesTheOrder(s, r, w, calls[..|calls| - 1]);
      if last.1.diesBefore > 0 {
        TravelKeepsOrder(Claimed(Calls(Call(s, r, w).0, calls[..|calls| - 1]).rows, last.0), last.0, last.1);
      }
    }
  }

  lemma TravelKeepsOrder(row: Row, r: Request, w: Weather)
    requires 0 < w.diesBefore
    ensures For(Travel(row, r, w).row, row.purchaseId, row.cartHash, row.amount)
  {
  }

  // ------------------------------------------------ what is paid, and on what

  /** What the account's methods are searched for. */
  datatype Wish = Named(id: string) | Default | Any

  predicate Meets(m: Method, wish: Wish) {
    m.available &&
    match wish
    case Named(id) => m.id == id
    case Default => m.preselected
    case Any => true
  }

  /** The configured card, or nothing else; without one the default if it can be used, else anything that can. */
  ghost function WishOf(w: Weather): Wish {
    if w.preferred.Some? && w.preferred.value != "" then Named(w.preferred.value)
    else if exists m :: m in w.methods && Meets(m, Default) then Default
    else Any
  }

  ghost predicate FirstAt(methods: seq<Method>, wish: Wish, k: int) {
    && 0 <= k < |methods| && Meets(methods[k], wish)
    && forall i :: 0 <= i < k ==> !Meets(methods[i], wish)
  }

  ghost predicate IsFirst(methods: seq<Method>, wish: Wish, m: Method) {
    exists k :: FirstAt(methods, wish, k) && methods[k] == m
  }

  /** The instrument this call may pay on. */
  ghost predicate Pays(w: Weather, m: Method) {
    IsFirst(w.methods, WishOf(w), m)
  }

  lemma IsFirstNext(methods: seq<Method>, wish: Wish, m: Method)
    requires methods != []
    ensures IsFirst(methods, wish, m) <==>
      if Meets(methods[0], wish) then m == methods[0] else IsFirst(methods[1..], wish, m)
  {
    if Meets(methods[0], wish) {
      assert FirstAt(methods, wish, 0);
    } else if k :| FirstAt(methods[1..], wish, k) && methods[1..][k] == m {
      assert forall i :: 1 <= i < k + 1 ==> methods[i] == methods[1..][i - 1];
      assert FirstAt(methods, wish, k + 1);
    } else if k :| FirstAt(methods, wish, k) && methods[k] == m {
      assert FirstAt(methods[1..], wish, k - 1);
    }
  }

  lemma {:induction false} SearchesFindFirst(methods: seq<Method>, id: string, m: Method)
    ensures FirstWithId(Usable(methods), id) == Some(m) <==> IsFirst(methods, Named(id), m)
    ensures FirstPreselected(Usable(methods)) == Some(m) <==> IsFirst(methods, Default, m)
    ensures (Usable(methods) != [] && Usable(methods)[0] == m) <==> IsFirst(methods, Any, m)
    ensures FirstPreselected(Usable(methods)).Some? <==> exists d :: d in methods && Meets(d, Default)
  {
    if methods != [] {
      var rest := Usable(methods[1..]);
      SearchesFindFirst(methods[1..], id, m);
      IsFirstNext(methods, Named(id), m);
      IsFirstNext(methods, Default, m);
      IsFirstNext(methods, Any, m);
      assert methods == [methods[0]] + methods[1..];
      assert ([methods[0]] + rest)[1..] == rest;
      assert [] + rest == rest;
    }
  }

  /**
   A configured card is the one that pays, and without it nothing is paid; with
   none configured it is the account's first available default, or where no
   default is available the first available method.
   */
  lemma SelectedMethodPays(w: Weather, m: Method)
    ensures Select(w) == Some(m) <==> Pays(w, m)
    ensures Select(w).None? <==> forall x :: x in w.methods ==> !Meets(x, WishOf(w))
  {
    SearchesFindFirst(w.methods, if w.preferred.Some? then w.preferred.value else "", m);
    if x :| x in w.methods && Meets(x, WishOf(w)) {
      var k :| 0 <= k < |w.methods| && w.methods[k] == x;
      FirstExists(w.methods, WishOf(w), k);
      var first :| IsFirst(w.methods, WishOf(w), first);
      SearchesFindFirst(w.methods, if w.preferred.Some? then w.preferred.value else "", first);
    }
    if Select(w).Some? {
      SearchesFindFirst(w.methods, if w.preferred.Some? then w.preferred.value else "", Select(w).value);
      assert Select(w).value in w.methods;
    }
  }

  lemma {:induction false} FirstExists(methods: seq<Method>, wish: Wish, k: nat)
    requires k < |methods| && Meets(methods[k], wish)
    ensures exists m :: IsFirst(methods, wish, m)
  {
    if i: nat :| i < k && Meets(methods[i], wish) {
      FirstExists(methods, wish, i);
    } else {
      assert FirstAt(methods, wish, k) && IsFirst(methods, wish, methods[k]);
    }
  }

  /** The conditions of the first `n` steps: session, cart, capture token, instrument and total, mode. */
  ghost predicate Guards(r: Request, w: Weather, n: nat) {
    && (n >= 1 ==> w.whoami)
    && (n >= 2 ==> w.cartReplies && w.quoted.Some? && w.quoted.value.0 == r.cartHash)
    && (n >= 3 ==> w.token.Some?)
    && (n >= 4 ==>
          && (exists m :: Pays(w, m) && (m.cash ==> w.allowCash)) && w.paymentSet
          && (w.recalculated.Some? ==> r.amount == w.recalculated.value)
          && (w.recalculated.None? ==> w.quoted.Some? && r.amount == w.quoted.value.1)
          && w.detailReplies && r.amount <= w.cap
          && (r.expectedAddress.Some? ==> w.address == r.expectedAddress))
    && (n >= 5 ==> w.token.Some? && (w.dryRun ==> w.token.value))
  }

  lemma GuardsReach(r: Request, w: Weather, n: nat)
    requires n <= 5
    ensures Guards(r, w, n) <==> n <= Reach(r, w)
  {
    if m :| Pays(w, m) && (m.cash ==> w.allowCash) {
      SelectedMethodPays(w, m);
    }
    if Select(w).Some? {
      SelectedMethodPays(w, Select(w).value);
    }
  }

  /** The order is finished or in doubt; nothing is done about it any more. */
  predicate Closed(row: Row) {
    || (row.state in {DryRunConfirmed, Confirmed} && row.receipt.Some?)
    || row.state in {Clicked, Uncertain}
  }

  /** Every guard holds and the process lives to the paying endpoint or to the end of its dry run. */
  ghost predicate Arrives(row: Row, r: Request, w: Weather) {
    !Closed(row) && Guards(r, w, 5) && w.diesBefore > 5
  }

  /**
   A call clicks exactly when the order is neither finished nor in doubt, the
   process lives that long, and every guard holds: live mode, a verified
   token, the approved cart, exactly the approved total, under the cap, to the
   approved address, on an allowed instrument.  The click is for that total.
   */
  lemma ClicksExactlyWhenCleared(row: Row, r: Request, w: Weather)
    requires 0 < w.diesBefore
    ensures Travel(row, r, w).click.Some? <==> Arrives(row, r, w) && !w.dryRun && w.diesBefore > 6
    ensures Travel(row, r, w).click.Some? ==>
      Travel(row, r, w).click.value == Click(r.key, r.amount, r.cartHash, w.click)
  {
    GuardsReach(r, w, 5);
  }

  /** How far the guards and the process let the call come, and no further. */
  ghost predicate EndsAfter(r: Request, w: Weather, n: nat) {
    Guards(r, w, n) && n < w.diesBefore && !(Guards(r, w, n + 1) && n + 1 < w.diesBefore)
  }

  /**
   A call that does not arrive leaves the checkpoint of the last step it took
   and no click, and says whether a guard refused it or the process died.
   */
  lemma EveryStopIsRecorded(row: Row, r: Request, w: Weather)
    requires 0 < w.diesBefore && !Closed(row) && !Arrives(row, r, w)
    ensures var t := Travel(row, r, w);
      && t.click.None?
      && (EndsAfter(r, w, 0) ==> t.row == row)
      && (EndsAfter(r, w, 1) ==> t.row == row.(state := SessionOk))
      && (EndsAfter(r, w, 2) ==> t.row == row.(state := CartOk))
      && (EndsAfter(r, w, 3) ==> t.row == row.(state := ApprovalVerified))
      && (EndsAfter(r, w, 4) ==> t.row == row.(state := Armed))
      && t.result == if w.diesBefore <= 5 && Guards(r, w, w.diesBefore) then Died else Raised
  {
    forall n: nat | n <= 5
      ensures Guards(r, w, n) <==> n <= Reach(r, w)
    {
      GuardsReach(r, w, n);
    }
  }

  /** What an order says once its call arrived: a dry run, or a click and what came of it. */
  lemma EveryEndIsRecorded(row: Row, r: Request, w: Weather)
    requires 0 < w.diesBefore && Arrives(row, r, w)
    ensures var t := Travel(row, r, w);
      && t.row.(state := row.state, orderId := row.orderId, receipt := row.receipt) == row
      && (w.dryRun ==>
            && t.row.state == DryRunConfirmed && t.row.receipt.Some? && t.row.receipt.value.dryRun
            && t.result == Done(t.row.receipt.value) && t.row.orderId == row.orderId)
      && (!w.dryRun && w.diesBefore in {6, 7} ==> t.row == row.(state := Clicked) && t.result == Died)
      && (!w.dryRun && w.diesBefore > 7 ==>
            match w.click
            case BelowMinimum => t.row == row.(state := Failed) && t.result == Raised
            case Broken => t.row == row.(state := Uncertain) && t.result == NeedsHuman
            case Accepted(orderId) =>
              && t.row.state == Confirmed && t.row.receipt.Some? && t.result == Done(t.row.receipt.value)
              && !t.row.receipt.value.dryRun
              && t.row.orderId == if orderId.Some? then orderId else row.orderId)
  {
    GuardsReach(r, w, 5);
  }

  /**
   A receipt, of a click or of a dry run, says what was approved and clicked:
   that total, that cart, that purchase, that order id, on the instrument the
   call may pay on.
   */
  lemma ReceiptTellsTheClick(row: Row, r: Request, w: Weather)
    requires 0 < w.diesBefore && !Closed(row) && Travel(row, r, w).result.Done?
    ensures var t := Travel(row, r, w);
      var receipt := t.result.receipt;
      && t.row.receipt == Some(receipt)
      && receipt.total == r.amount && receipt.cartHash == r.cartHash && receipt.purchaseId == r.purchaseId
      && (receipt.dryRun <==> t.click.None?)
      && (t.click.None? ==> receipt.orderId == None)
      && (t.click.Some? ==>
            t.click.value.total == receipt.total && t.click.value.cartHash == receipt.cartHash
            && t.click.value.outcome == Accepted(receipt.orderId))
      && (exists m :: Pays(w, m) && m.id == receipt.paymentLabel && (m.cash ==> w.allowCash))
      && (w.preferred.Some? && w.preferred.value != "" ==> receipt.paymentLabel == w.preferred.value)
  {
    GuardsReach(r, w, 5);
    SelectedMethodPays(w, Select(w).value);
  }
}
