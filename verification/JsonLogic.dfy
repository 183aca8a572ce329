/**
 The two JsonLogic evaluators: the kernel's (src/agent/jsonlogic.py), which
 short-circuits and compares as decimals and texts, and the contract mock's
 (aval/contracts/mocks/mock_verify.py), which evaluates every operand first
 and uses Python's own operators.
 */
module JsonLogic {
  import opened Wrappers
  import opened Delimited

  datatype Json =
    | Null
    | Bool(b: bool)
    | Num(exact: real, shown: real)   // its value, and the value of the decimal text it prints as
    | Str(s: string)
    | List(xs: seq<Json>)
    | Dict(fields: seq<(string, Json)>)

  /**
   What the host language supplies and nothing here depends on: the text of a
   value that is not a string, reading a decimal from a text, and ordering
   values that are not both numbers.
   */
  datatype Host = Host(show: Json -> string, decimal: string -> Option<real>, less: (Json, Json) -> Option<bool>)

  datatype Result = Val(v: Json) | RuleError | Crash

  datatype Results = Vals(vs: seq<Json>) | Fault(r: Result)

  function Get(fields: seq<(string, Json)>, key: string): Option<Json> {
    if fields == [] then None
    else if fields[0].0 == key then Some(fields[0].1)
    else Get(fields[1..], key)
  }

  function Show(h: Host, v: Json): string {
    if v.Str? then v.s else h.show(v)
  }

  function ToNum(h: Host, v: Json): Option<real> {
    if v.Num? then Some(v.shown) else h.decimal(Show(h, v))
  }

  /** Python's truth value. */
  predicate Truthy(v: Json) {
    match v
    case Null => false
    case Bool(b) => b
    case Num(exact, _) => exact != 0.0
    case Str(s) => s != ""
    case List(xs) => xs != []
    case Dict(fields) => fields != []
  }

  function AsNumber(v: Json): Option<real> {
    match v
    case Num(exact, _) => Some(exact)
    case Bool(b) => Some(if b then 1.0 else 0.0)
    case _ => None
  }

  predicate Equal(a: Json, b: Json) {
    if AsNumber(a).Some? && AsNumber(b).Some? then AsNumber(a) == AsNumber(b) else a == b
  }

  predicate OccursAt(needle: string, text: string, i: nat) {
    i + |needle| <= |text| && text[i..i + |needle|] == needle
  }

  predicate Substring(needle: string, text: string) {
    exists i: nat :: i <= |text| && OccursAt(needle, text, i)
  }

  /** Python's `in`. */
  function Contains(needle: Json, haystack: Json): Result {
    match haystack
    case Str(text) => if needle.Str? then Val(Bool(Substring(needle.s, text))) else Crash
    case List(xs) => Val(Bool(exists i :: 0 <= i < |xs| && Equal(needle, xs[i])))
    case Dict(fields) => if needle.List? || needle.Dict? then Crash
                         else Val(Bool(needle.Str? && Get(fields, needle.s).Some?))
    case _ => Crash
  }

  /** Follows a dotted path through nested dictionaries. */
  function Follow(current: Json, parts: seq<string>, default: Json): Json
    decreases |parts|
  {
    if parts == [] then current
    else if current.Dict? && Get(current.fields, parts[0]).Some? then
      Follow(Get(current.fields, parts[0]).value, parts[1..], default)
    else default
  }

  function VarOf(h: Host, path: Json, context: Json, default: Json): Json {
    if path == Str("") then context
    else Follow(context, Split(Show(h, path), '.'), default)
  }

  method Var(h: Host, path: Json, context: Json, default: Json) returns (v: Json)
    ensures v == VarOf(h, path, context, default)
  {
    if path == Str("") {
      return context;
    }
    var parts := Split(Show(h, path), '.');
    v := context;
    for i := 0 to |parts|
      invariant Follow(context, parts, default) == Follow(v, parts[i..], default)
    {
      assert parts[i..][0] == parts[i] && parts[i..][1..] == parts[i + 1..];
      if v.Dict? && Get(v.fields, parts[i]).Some? {
        v := Get(v.fields, parts[i]).value;
      } else {
        return default;
      }
    }
  }

  function Compare(op: string, a: real, b: real): bool {
    if op == "<" then a < b
    else if op == "<=" then a <= b
    else if op == ">" then a > b
    else a >= b
  }

  function Cmp(h: Host, op: string, a: Json, b: Json): Result {
    if ToNum(h, a).None? || ToNum(h, b).None? then RuleError
    else Val(Bool(Compare(op, ToNum(h, a).value, ToNum(h, b).value)))
  }

  // ------------------------------------------------- the kernel's evaluator

  function Args(raw: Json): seq<Json> {
    if raw.List? then raw.xs else [raw]
  }

  ghost predicate Inside(args: seq<Json>, rule: Json) {
    forall i :: 0 <= i < |args| ==> args[i] < rule
  }

  function Evaluate(h: Host, rule: Json, context: Json): Result
    decreases rule, 1, 0
  {
    if !rule.Dict? then Val(rule)
    else if |rule.fields| != 1 then RuleError
    else
      var op, raw := rule.fields[0].0, rule.fields[0].1;
      var args := Args(raw);
      if op == "var" then
        match EvaluateAll(h, rule, args, context)
        case Fault(r) => r
        case Vals(vs) =>
          if vs == [] then Crash else Val(VarOf(h, vs[0], context, if |vs| > 1 then vs[1] else Null))
      else if op == "missing" then
        Val(List(Missing(h, args, context)))
      else if op in ["<", "<=", ">", ">="] then
        match EvaluateAll(h, rule, args, context)
        case Fault(r) => r
        case Vals(vs) =>
          if |vs| == 3 then
            match Cmp(h, op, vs[0], vs[1])
            case Val(v) => if Truthy(v) then Cmp(h, op, vs[1], vs[2]) else Val(v)
            case r => r
          else if |vs| != 2 then RuleError
          else Cmp(h, op, vs[0], vs[1])
      else if op in ["==", "===", "!=", "!=="] then
        match EvaluateAll(h, rule, if |args| > 2 then args[..2] else args, context)
        case Fault(r) => r
        case Vals(vs) =>
          if |vs| != 2 then Crash
          else if op == "==" then Val(Bool(Show(h, vs[0]) == Show(h, vs[1])))
          else if op == "===" then Val(Bool(Equal(vs[0], vs[1])))
          else if op == "!=" then Val(Bool(Show(h, vs[0]) != Show(h, vs[1])))
          else Val(Bool(!Equal(vs[0], vs[1])))
      else if op == "and" then
        And(h, rule, args, context, Bool(true))
      else if op == "or" then
        Or(h, rule, args, context, Bool(false))
      else if op == "!" then
        if args == [] then Crash
        else
          match Evaluate(h, args[0], context)
          case Val(v) => Val(Bool(!Truthy(v)))
          case r => r
      else if op == "in" then
        match EvaluateAll(h, rule, if |args| > 2 then args[..2] else args, context)
        case Fault(r) => r
        case Vals(vs) =>
          if |vs| != 2 then Crash
          else Contains(vs[0], if Truthy(vs[1]) then vs[1] else List([]))
      else if op == "if" then
        If(h, rule, args, context)
      else RuleError
  }

  function EvaluateAll(h: Host, rule: Json, args: seq<Json>, context: Json): Results
    requires Inside(args, rule)
    decreases rule, 0, |args|
  {
    if args == [] then Vals([])
    else
      match Evaluate(h, args[0], context)
      case Val(v) =>
        (match EvaluateAll(h, rule, args[1..], context)
         case Vals(vs) => Vals([v] + vs)
         case Fault(r) => Fault(r))
      case r => Fault(r)
  }

  function Missing(h: Host, args: seq<Json>, context: Json): seq<Json> {
    if args == [] then []
    else
      (if VarOf(h, args[0], context, Null) == Null then [args[0]] else []) + Missing(h, args[1..], context)
  }

  /** The last value that was evaluated decides, as soon as it can. */
  function And(h: Host, rule: Json, args: seq<Json>, context: Json, last: Json): Result
    requires Inside(args, rule)
    decreases rule, 0, |args|
  {
    if args == [] then Val(last)
    else
      match Evaluate(h, args[0], context)
      case Val(v) => if Truthy(v) then And(h, rule, args[1..], context, v) else Val(v)
      case r => r
  }

  function Or(h: Host, rule: Json, args: seq<Json>, context: Json, last: Json): Result
    requires Inside(args, rule)
    decreases rule, 0, |args|
  {
    if args == [] then Val(last)
    else
      match Evaluate(h, args[0], context)
      case Val(v) => if Truthy(v) then Val(v) else Or(h, rule, args[1..], context, v)
      case r => r
  }

  function If(h: Host, rule: Json, args: seq<Json>, context: Json): Result
    requires Inside(args, rule)
    decreases rule, 0, |args|
  {
    if args == [] then Val(Null)
    else if |args| == 1 then Evaluate(h, args[0], context)
    else
      match Evaluate(h, args[0], context)
      case Val(v) => if Truthy(v) then Evaluate(h, args[1], context) else If(h, rule, args[2..], context)
      case r => r
  }

  // --------------------------------------------------- the mock's evaluator

  /** What a `for` over the operands yields; None where they cannot be iterated. */
  function Operands(raw: Json): Option<seq<Json>> {
    match raw
    case List(xs) => Some(xs)
    case Str(s) => Some(seq(|s|, i requires 0 <= i < |s| => Str([s[i]])))
    case Dict(fields) => Some(seq(|fields|, i requires 0 <= i < |fields| => Str(fields[i].0)))
    case _ => None
  }

  function Less(h: Host, a: Json, b: Json): Option<bool> {
    if AsNumber(a).Some? && AsNumber(b).Some? then Some(AsNumber(a).value < AsNumber(b).value)
    else h.less(a, b)
  }

  function LessEq(h: Host, a: Json, b: Json): Option<bool> {
    if AsNumber(a).Some? && AsNumber(b).Some? then Some(AsNumber(a).value <= AsNumber(b).value)
    else if a == b then Some(true) else h.less(a, b)
  }

  function Truth(b: Option<bool>): Result {
    if b.Some? then Val(Bool(b.value)) else Crash
  }

  function Combine(h: Host, op: string, vs: seq<Json>): Result {
    if op == "and" then Val(Bool(forall i :: 0 <= i < |vs| ==> Truthy(vs[i])))
    else if op == "or" then Val(Bool(exists i :: 0 <= i < |vs| && Truthy(vs[i])))
    else if op == "!" then (if vs == [] then Crash else Val(Bool(!Truthy(vs[0]))))
    else if op !in ["<", "<=", ">", ">=", "==", "!=", "in"] || |vs| < 2 then Crash
    else if op == "<" then Truth(Less(h, vs[0], vs[1]))
    else if op == "<=" then Truth(LessEq(h, vs[0], vs[1]))
    else if op == ">" then Truth(Less(h, vs[1], vs[0]))
    else if op == ">=" then Truth(LessEq(h, vs[1], vs[0]))
    else if op == "==" then Val(Bool(Equal(vs[0], vs[1])))
    else if op == "!=" then Val(Bool(!Equal(vs[0], vs[1])))
    else Contains(vs[0], vs[1])
  }

  function Eager(h: Host, rule: Json, context: Json): Result
    decreases rule, 1, 0
  {
    if !rule.Dict? then Val(rule)
    else if |rule.fields| != 1 then Crash
    else
      var op, raw := rule.fields[0].0, rule.fields[0].1;
      if op == "var" then
        var path := if raw.Str? then Some(raw)
                    else if raw.List? && raw.xs != [] && raw.xs[0].Str? then Some(raw.xs[0]) else None;
        if path.None? then Crash else Val(Follow(context, Split(path.value.s, '.'), Null))
      else
        match raw
        case List(xs) =>
          (match EagerAll(h, rule, xs, context)
           case Fault(r) => r
           case Vals(vs) => Combine(h, op, vs))
        case _ =>
          if Operands(raw).Some? then Combine(h, op, Operands(raw).value) else Crash
  }

  function EagerAll(h: Host, rule: Json, args: seq<Json>, context: Json): Results
    requires Inside(args, rule)
    decreases rule, 0, |args|
  {
    if args == [] then Vals([])
    else
      match Eager(h, args[0], context)
      case Val(v) =>
        (match EagerAll(h, rule, args[1..], context)
         case Vals(vs) => Vals([v] + vs)
         case Fault(r) => Fault(r))
      case r => Fault(r)
  }

  // ------------------------------------------------------- well-typed rules

  /** The non-empty path of a `var` node, written either way. */
  function PathOf(e: Json): Option<string> {
    if e.Dict? && |e.fields| == 1 && e.fields[0].0 == "var" then
      var raw := e.fields[0].1;
      if raw.Str? && raw.s != "" then Some(raw.s)
      else if raw.List? && |raw.xs| == 1 && raw.xs[0].Str? && raw.xs[0].s != "" then Some(raw.xs[0].s)
      else None
    else None
  }

  /** The value of a literal or of a variable. */
  function Operand(e: Json, context: Json): Json {
    if PathOf(e).Some? then Follow(context, Split(PathOf(e).value, '.'), Null) else e
  }

  predicate Simple(e: Json) {
    !e.Dict? || PathOf(e).Some?
  }

  predicate AllStrings(xs: seq<Json>) {
    forall i :: 0 <= i < |xs| ==> xs[i].Str?
  }

  predicate WellTyped(rule: Json, context: Json)
    decreases rule, 1, 0
  {
    if Simple(rule) then true
    else if |rule.fields| != 1 || !rule.fields[0].1.List? then false
    else
      var op, xs := rule.fields[0].0, rule.fields[0].1.xs;
      if op in ["<", "<=", ">", ">="] then
        && |xs| == 2 && Simple(xs[0]) && Simple(xs[1])
        && Operand(xs[0], context).Num? && Operand(xs[1], context).Num?
      else if op in ["==", "!="] then
        && |xs| == 2 && Simple(xs[0]) && Simple(xs[1])
        && Operand(xs[0], context).Str? && Operand(xs[1], context).Str?
      else if op == "in" then
        && |xs| == 2 && Simple(xs[0]) && Simple(xs[1])
        && Operand(xs[0], context).Str?
        && (Operand(xs[1], context).Str?
            || (Operand(xs[1], context).List? && AllStrings(Operand(xs[1], context).xs)))
      else
        op in ["and", "or", "!"] && (op == "!" ==> xs != []) && AllWellTyped(rule, xs, context)
  }

  predicate AllWellTyped(rule: Json, args: seq<Json>, context: Json)
    requires Inside(args, rule)
    decreases rule, 0, |args|
  {
    args == [] || (WellTyped(args[0], context) && AllWellTyped(rule, args[1..], context))
  }

  /** Two numbers whose printed decimals compare unlike the numbers themselves. */
  predicate Clash(op: string, a: Json, b: Json) {
    a.Num? && b.Num? && Compare(op, a.shown, b.shown) != Compare(op, a.exact, b.exact)
  }

  /**
   Some node on its own divides the evaluators: an `in` that looks for the
   empty text in the empty text, or a comparison of clashing numbers.
   */
  predicate Divided(rule: Json, context: Json)
    decreases rule, 1, 0
  {
    && rule.Dict? && |rule.fields| == 1 && rule.fields[0].1.List?
    && var op, xs := rule.fields[0].0, rule.fields[0].1.xs;
       if op == "in" then
         |xs| == 2 && Operand(xs[0], context) == Str("") && Operand(xs[1], context) == Str("")
       else if op in ["<", "<=", ">", ">="] then
         |xs| == 2 && Clash(op, Operand(xs[0], context), Operand(xs[1], context))
       else
         op in ["and", "or", "!"] && AnyDivided(rule, xs, context)
  }

  predicate AnyDivided(rule: Json, args: seq<Json>, context: Json)
    requires Inside(args, rule)
    decreases rule, 0, |args|
  {
    args != [] && (Divided(args[0], context) || AnyDivided(rule, args[1..], context))
  }

  // -------------------------------------------------------------- agreement

  lemma SimpleAgrees(h: Host, e: Json, context: Json)
    requires Simple(e)
    ensures Evaluate(h, e, context) == Eager(h, e, context) == Val(Operand(e, context))
  {
    if PathOf(e).Some? {
      var raw := e.fields[0].1;
      var args := Args(raw);
      assert |args| == 1 && args[0] == Str(PathOf(e).value);
      assert Evaluate(h, args[0], context) == Val(args[0]);
      assert EvaluateAll(h, e, args[1..], context) == Vals([]);
      assert EvaluateAll(h, e, args, context) == Vals([args[0]]);
    }
  }

  lemma EvaluatesPair(h: Host, rule: Json, xs: seq<Json>, context: Json, a: Json, b: Json)
    requires Inside(xs, rule) && |xs| == 2
    requires Evaluate(h, xs[0], context) == Val(a) && Evaluate(h, xs[1], context) == Val(b)
    ensures EvaluateAll(h, rule, xs, context) == Vals([a, b])
  {
    var rest := xs[1..];
    assert rest[0] == xs[1] && rest[1..] == [];
    assert EvaluateAll(h, rule, rest[1..], context) == Vals([]);
    assert EvaluateAll(h, rule, rest, context) == Vals([b] + []);
    assert [a] + ([b] + []) == [a, b];
  }

  lemma EagerPair(h: Host, rule: Json, xs: seq<Json>, context: Json, a: Json, b: Json)
    requires Inside(xs, rule) && |xs| == 2
    requires Eager(h, xs[0], context) == Val(a) && Eager(h, xs[1], context) == Val(b)
    ensures EagerAll(h, rule, xs, context) == Vals([a, b])
  {
    var rest := xs[1..];
    assert rest[0] == xs[1] && rest[1..] == [];
    assert EagerAll(h, rule, rest[1..], context) == Vals([]);
    assert EagerAll(h, rule, rest, context) == Vals([b] + []);
    assert [a] + ([b] + []) == [a, b];
  }

  lemma PairAgrees(h: Host, rule: Json, xs: seq<Json>, context: Json)
    requires Inside(xs, rule) && |xs| == 2 && Simple(xs[0]) && Simple(xs[1])
    ensures EvaluateAll(h, rule, xs, context)
         == EagerAll(h, rule, xs, context)
         == Vals([Operand(xs[0], context), Operand(xs[1], context)])
  {
    SimpleAgrees(h, xs[0], context);
    SimpleAgrees(h, xs[1], context);
    EvaluatesPair(h, rule, xs, context, Operand(xs[0], context), Operand(xs[1], context));
    EagerPair(h, rule, xs, context, Operand(xs[0], context), Operand(xs[1], context));
  }

  /** Both evaluators succeed, with the same truth value. */
  ghost predicate SameTruth(a: Result, b: Result) {
    a.Val? && b.Val? && (Truthy(a.v) <==> Truthy(b.v))
  }

  ghost predicate AllValues(h: Host, args: seq<Json>, context: Json) {
    forall i :: 0 <= i < |args| ==> Evaluate(h, args[i], context).Val?
  }

  ghost predicate AllEager(h: Host, args: seq<Json>, context: Json) {
    forall i :: 0 <= i < |args| ==> Eager(h, args[i], context).Val?
  }

  lemma {:induction false} EagerAllValues(h: Host, rule: Json, args: seq<Json>, context: Json)
    requires Inside(args, rule) && AllEager(h, args, context)
    ensures var r := EagerAll(h, rule, args, context);
      && r.Vals? && |r.vs| == |args|
      && forall i :: 0 <= i < |args| ==> r.vs[i] == Eager(h, args[i], context).v
    decreases |args|
  {
    if args != [] {
      assert Eager(h, args[0], context).Val?;
      assert forall i :: 0 <= i < |args[1..]| ==> args[1..][i] == args[i + 1];
      EagerAllValues(h, rule, args[1..], context);
    }
  }

  /** Stopping early does not change the truth of a conjunction. */
  lemma {:induction false} AndIsAll(h: Host, rule: Json, args: seq<Json>, context: Json, last: Json)
    requires Inside(args, rule) && AllValues(h, args, context) && Truthy(last)
    ensures And(h, rule, args, context, last).Val?
    ensures Truthy(And(h, rule, args, context, last).v)
      <==> forall i :: 0 <= i < |args| ==> Truthy(Evaluate(h, args[i], context).v)
    decreases |args|
  {
    if args != [] {
      assert Evaluate(h, args[0], context).Val?;
      var v := Evaluate(h, args[0], context).v;
      if Truthy(v) {
        assert forall i :: 0 <= i < |args[1..]| ==> args[1..][i] == args[i + 1];
        AndIsAll(h, rule, args[1..], context, v);
        assert forall i :: 1 <= i < |args| ==> args[i] == args[1..][i - 1];
      }
    }
  }

  lemma {:induction false} OrIsAny(h: Host, rule: Json, args: seq<Json>, context: Json, last: Json)
    requires Inside(args, rule) && AllValues(h, args, context) && !Truthy(last)
    ensures Or(h, rule, args, context, last).Val?
    ensures Truthy(Or(h, rule, args, context, last).v)
      <==> exists i :: 0 <= i < |args| && Truthy(Evaluate(h, args[i], context).v)
    decreases |args|
  {
    if args != [] {
      assert Evaluate(h, args[0], context).Val?;
      var v := Evaluate(h, args[0], context).v;
      if !Truthy(v) {
        assert forall i :: 0 <= i < |args[1..]| ==> args[1..][i] == args[i + 1];
        OrIsAny(h, rule, args[1..], context, v);
        assert forall i :: 1 <= i < |args| ==> args[i] == args[1..][i - 1];
      }
    }
  }

  lemma NumbersCompare(h: Host, op: string, a: Json, b: Json)
    requires op in ["<", "<=", ">", ">="] && a.Num? && b.Num?
    ensures Cmp(h, op, a, b) == Val(Bool(Compare(op, a.shown, b.shown)))
    ensures Combine(h, op, [a, b]) == Val(Bool(Compare(op, a.exact, b.exact)))
  {
  }

  /**
   A comparison agrees exactly when the decimals the two numbers print as
   compare as the numbers do: the kernel reads the text, the mock the value.
   */
  lemma OrderAgrees(h: Host, rule: Json, context: Json)
    requires rule.Dict? && |rule.fields| == 1 && rule.fields[0].1.List?
    requires rule.fields[0].0 in ["<", "<=", ">", ">="] && WellTyped(rule, context)
    ensures Evaluate(h, rule, context).Val? && Eager(h, rule, context).Val?
    ensures Evaluate(h, rule, context) == Eager(h, rule, context) <==> !Divided(rule, context)
    ensures SameTruth(Evaluate(h, rule, context), Eager(h, rule, context)) <==> !Divided(rule, context)
  {
    var op, xs := rule.fields[0].0, rule.fields[0].1.xs;
    PairAgrees(h, rule, xs, context);
    NumbersCompare(h, op, Operand(xs[0], context), Operand(xs[1], context));
  }

  /** All comparisons of two numbers agree exactly when their decimals are in the same order as they are. */
  lemma NeverClashExactlyWhen(a: Json, b: Json)
    requires a.Num? && b.Num?
    ensures (forall op :: op in ["<", "<=", ">", ">="] ==> !Clash(op, a, b))
      <==> (a.exact < b.exact <==> a.shown < b.shown) && (b.exact < a.exact <==> b.shown < a.shown)
  {
    assert Compare("<", a.exact, b.exact) == (a.exact < b.exact);
    assert Compare(">", a.exact, b.exact) == (a.exact > b.exact);
    if forall op :: op in ["<", "<=", ">", ">="] ==> !Clash(op, a, b) {
      assert !Clash("<", a, b) && !Clash(">", a, b);
    }
  }

  /**
   Integers print as themselves and floats in their own order, so only a float
   beside an integer can clash; and one does: the float 1e23 lies below the
   integer whose digits it prints as.
   */
  lemma FloatBesideInteger()
    ensures var float := Num(99_999_999_999_999_991_611_392.0, 100_000_000_000_000_000_000_000.0);
      var integer := Num(100_000_000_000_000_000_000_000.0, 100_000_000_000_000_000_000_000.0);
      Clash("<", float, integer) && Clash(">=", float, integer)
  {
  }

  lemma EqualityAgrees(h: Host, rule: Json, context: Json)
    requires rule.Dict? && |rule.fields| == 1 && rule.fields[0].1.List?
    requires rule.fields[0].0 in ["==", "!="] && WellTyped(rule, context)
    ensures Evaluate(h, rule, context) == Eager(h, rule, context)
    ensures Evaluate(h, rule, context).Val?
  {
    var op, xs := rule.fields[0].0, rule.fields[0].1.xs;
    PairAgrees(h, rule, xs, context);
    var a, b := Operand(xs[0], context), Operand(xs[1], context);
    assert Eager(h, rule, context) == Combine(h, op, [a, b]);
  }

  /** Reading a falsy haystack as an empty list matters for the empty text only. */
  lemma EmptyHaystack(needle: Json, haystack: Json)
    requires needle.Str? && (haystack.Str? || haystack.List?)
    ensures Contains(needle, haystack).Val?
    ensures var kernel := Contains(needle, if Truthy(haystack) then haystack else List([]));
      && kernel.Val?
      && (kernel == Contains(needle, haystack) <==> !(needle == Str("") && haystack == Str("")))
  {
    if haystack == Str("") && needle == Str("") {
      assert OccursAt("", "", 0);
      assert Substring("", "");
    }
  }

  /**
   An `in` node agrees exactly when it does not look for the empty text in the
   empty text: the kernel reads a falsy haystack as an empty list.
   */
  lemma MembershipAgrees(h: Host, rule: Json, context: Json)
    requires rule.Dict? && |rule.fields| == 1 && rule.fields[0].1.List? && rule.fields[0].0 == "in"
    requires WellTyped(rule, context)
    ensures Evaluate(h, rule, context).Val? && Eager(h, rule, context).Val?
    ensures Evaluate(h, rule, context) == Eager(h, rule, context) <==> !Divided(rule, context)
  {
    var xs := rule.fields[0].1.xs;
    PairAgrees(h, rule, xs, context);
    EmptyHaystack(Operand(xs[0], context), Operand(xs[1], context));
  }

  // ------------------------------------------------------ what a rule means

  /** What Python takes for true. */
  predicate IsTrue(v: Json) {
    v !in {Null, Bool(false), Str(""), List([]), Dict([])} && !(v.Num? && v.exact == 0.0)
  }

  predicate Ordered(op: string, a: real, b: real) {
    || (a < b && op in ["<", "<="])
    || (a == b && op in ["<=", ">="])
    || (a > b && op in [">", ">="])
  }

  /** One of these texts, or a part of this one. */
  ghost predicate Found(needle: string, haystack: Json) {
    match haystack
    case Str(text) => exists before, after :: text == before + needle + after
    case List(xs) => Str(needle) in xs
    case _ => false
  }

  /**
   The meaning of a well-typed rule, to the kernel or to the mock: the kernel
   compares numbers by the decimals they print as, and finds nothing in an
   empty text, not even the empty one.
   */
  ghost predicate Meaning(rule: Json, context: Json, kernel: bool)
    requires WellTyped(rule, context)
    decreases rule, 1, 0
  {
    if Simple(rule) then IsTrue(Operand(rule, context))
    else
      var op, xs := rule.fields[0].0, rule.fields[0].1.xs;
      if op in ["<", "<=", ">", ">="] then
        var a, b := Operand(xs[0], context), Operand(xs[1], context);
        if kernel then Ordered(op, a.shown, b.shown) else Ordered(op, a.exact, b.exact)
      else if op in ["==", "!="] then
        (Operand(xs[0], context).s == Operand(xs[1], context).s) == (op == "==")
      else if op == "in" then
        Found(Operand(xs[0], context).s, Operand(xs[1], context)) && !(kernel && Operand(xs[1], context) == Str(""))
      else if op == "and" then !SomeMean(rule, xs, context, kernel, false)
      else if op == "or" then SomeMean(rule, xs, context, kernel, true)
      else
        OneWellTyped(rule, xs, context, 0);
        !Meaning(xs[0], context, kernel)
  }

  /** Some operand means `want`. */
  ghost predicate SomeMean(rule: Json, args: seq<Json>, context: Json, kernel: bool, want: bool)
    requires Inside(args, rule) && AllWellTyped(rule, args, context)
    decreases rule, 0, |args|
  {
    args != [] && (Meaning(args[0], context, kernel) == want || SomeMean(rule, args[1..], context, kernel, want))
  }

  lemma {:induction false} OneWellTyped(rule: Json, args: seq<Json>, context: Json, i: nat)
    requires Inside(args, rule) && AllWellTyped(rule, args, context) && i < |args|
    ensures WellTyped(args[i], context)
    decreases |args|
  {
    if i > 0 {
      OneWellTyped(rule, args[1..], context, i - 1);
    }
  }

  lemma {:induction false} SomeMeanExactly(rule: Json, args: seq<Json>, context: Json, kernel: bool, want: bool)
    requires Inside(args, rule) && AllWellTyped(rule, args, context)
    ensures forall i :: 0 <= i < |args| ==> WellTyped(args[i], context)
    ensures SomeMean(rule, args, context, kernel, want)
      <==> exists i :: 0 <= i < |args| && Meaning(args[i], context, kernel) == want
    decreases |args|
  {
    forall i | 0 <= i < |args|
      ensures WellTyped(args[i], context)
    {
      OneWellTyped(rule, args, context, i);
    }
    if args != [] {
      SomeMeanExactly(rule, args[1..], context, kernel, want);
      assert forall i :: 0 <= i < |args[1..]| ==> args[1..][i] == args[i + 1];
      assert forall i :: 1 <= i < |args| ==> args[i] == args[1..][i - 1];
    }
  }

  lemma TruthyIsTrue(v: Json)
    ensures Truthy(v) <==> IsTrue(v)
  {
  }

  lemma SubstringIsPart(needle: string, text: string)
    ensures Substring(needle, text) <==> exists before, after :: text == before + needle + after
  {
    if before, after :| text == before + needle + after {
      assert OccursAt(needle, text, |before|);
    }
    if i: nat :| i <= |text| && OccursAt(needle, text, i) {
      assert text == text[..i] + needle + text[i + |needle|..];
    }
  }

  lemma ContainsMeans(needle: Json, haystack: Json)
    requires needle.Str? && (haystack.Str? || (haystack.List? && AllStrings(haystack.xs)))
    ensures Contains(needle, haystack) == Val(Bool(Found(needle.s, haystack)))
  {
    match haystack
    case Str(text) => SubstringIsPart(needle.s, text);
    case List(xs) =>
      assert forall i :: 0 <= i < |xs| ==> (Equal(needle, xs[i]) <==> xs[i] == Str(needle.s));
  }

  lemma KernelFinds(needle: Json, haystack: Json)
    requires needle.Str? && (haystack.Str? || (haystack.List? && AllStrings(haystack.xs)))
    ensures Contains(needle, if Truthy(haystack) then haystack else List([]))
      == Val(Bool(Found(needle.s, haystack) && haystack != Str("")))
  {
    ContainsMeans(needle, if Truthy(haystack) then haystack else List([]));
  }

  /** A node that compares or looks up, whose operands are literals or variables. */
  predicate Leaf(rule: Json) {
    && rule.Dict? && |rule.fields| == 1 && rule.fields[0].1.List?
    && rule.fields[0].0 in ["<", "<=", ">", ">=", "==", "!=", "in"]
  }

  lemma OrderMeans(h: Host, rule: Json, context: Json)
    requires Leaf(rule) && WellTyped(rule, context) && rule.fields[0].0 in ["<", "<=", ">", ">="]
    ensures Evaluate(h, rule, context) == Val(Bool(Meaning(rule, context, true)))
    ensures Eager(h, rule, context) == Val(Bool(Meaning(rule, context, false)))
  {
    var xs := rule.fields[0].1.xs;
    PairAgrees(h, rule, xs, context);
    NumbersCompare(h, rule.fields[0].0, Operand(xs[0], context), Operand(xs[1], context));
  }

  lemma EqualityMeans(h: Host, rule: Json, context: Json)
    requires Leaf(rule) && WellTyped(rule, context) && rule.fields[0].0 in ["==", "!="]
    ensures Evaluate(h, rule, context) == Val(Bool(Meaning(rule, context, true)))
    ensures Eager(h, rule, context) == Val(Bool(Meaning(rule, context, false)))
  {
    EqualityAgrees(h, rule, context);
    var xs := rule.fields[0].1.xs;
    PairAgrees(h, rule, xs, context);
  }

  lemma MembershipMeans(h: Host, rule: Json, context: Json)
    requires Leaf(rule) && WellTyped(rule, context) && rule.fields[0].0 == "in"
    ensures Evaluate(h, rule, context) == Val(Bool(Meaning(rule, context, true)))
    ensures Eager(h, rule, context) == Val(Bool(Meaning(rule, context, false)))
  {
    var xs := rule.fields[0].1.xs;
    var a, b := Operand(xs[0], context), Operand(xs[1], context);
    PairAgrees(h, rule, xs, context);
    ContainsMeans(a, b);
    KernelFinds(a, b);
  }

  /**
   Both evaluators give every well-typed rule, at any depth and in every
   context, its meaning: neither fails, and stopping early never shows.
   */
  lemma {:induction false} EvaluatorsMean(h: Host, rule: Json, context: Json)
    requires WellTyped(rule, context)
    ensures Evaluate(h, rule, context).Val? && Eager(h, rule, context).Val?
    ensures Truthy(Evaluate(h, rule, context).v) <==> Meaning(rule, context, true)
    ensures Truthy(Eager(h, rule, context).v) <==> Meaning(rule, context, false)
    decreases rule, 1, 0
  {
    if Simple(rule) {
      SimpleAgrees(h, rule, context);
      TruthyIsTrue(Operand(rule, context));
    } else if Leaf(rule) {
      if rule.fields[0].0 == "in" {
        MembershipMeans(h, rule, context);
      } else if rule.fields[0].0 in ["==", "!="] {
        EqualityMeans(h, rule, context);
      } else {
        OrderMeans(h, rule, context);
      }
    } else {
      AllMean(h, rule, rule.fields[0].1.xs, context);
      KernelConnective(h, rule, context);
      MockConnective(h, rule, context);
    }
  }

  lemma {:induction false} AllMean(h: Host, rule: Json, args: seq<Json>, context: Json)
    requires Inside(args, rule) && AllWellTyped(rule, args, context)
    ensures forall i :: 0 <= i < |args| ==> WellTyped(args[i], context)
    ensures AllValues(h, args, context) && AllEager(h, args, context)
    ensures forall i :: 0 <= i < |args| ==>
      && (Truthy(Evaluate(h, args[i], context).v) <==> Meaning(args[i], context, true))
      && (Truthy(Eager(h, args[i], context).v) <==> Meaning(args[i], context, false))
    decreases rule, 0, |args|
  {
    if args != [] {
      EvaluatorsMean(h, args[0], context);
      AllMean(h, rule, args[1..], context);
      assert forall i :: 1 <= i < |args| ==> args[i] == args[1..][i - 1];
    }
  }

  lemma KernelConnective(h: Host, rule: Json, context: Json)
    requires WellTyped(rule, context) && !Simple(rule) && !Leaf(rule)
    requires var xs := rule.fields[0].1.xs;
      && AllValues(h, xs, context)
      && forall i :: 0 <= i < |xs| ==>
          WellTyped(xs[i], context) && (Truthy(Evaluate(h, xs[i], context).v) <==> Meaning(xs[i], context, true))
    ensures Evaluate(h, rule, context).Val?
    ensures Truthy(Evaluate(h, rule, context).v) <==> Meaning(rule, context, true)
  {
    var op, xs := rule.fields[0].0, rule.fields[0].1.xs;
    if op == "and" {
      AndIsAll(h, rule, xs, context, Bool(true));
      SomeMeanExactly(rule, xs, context, true, false);
    } else if op == "or" {
      OrIsAny(h, rule, xs, context, Bool(false));
      SomeMeanExactly(rule, xs, context, true, true);
    }
  }

  lemma MockConnective(h: Host, rule: Json, context: Json)
    requires WellTyped(rule, context) && !Simple(rule) && !Leaf(rule)
    requires var xs := rule.fields[0].1.xs;
      && AllEager(h, xs, context)
      && forall i :: 0 <= i < |xs| ==>
          WellTyped(xs[i], context) && (Truthy(Eager(h, xs[i], context).v) <==> Meaning(xs[i], context, false))
    ensures Eager(h, rule, context).Val?
    ensures Truthy(Eager(h, rule, context).v) <==> Meaning(rule, context, false)
  {
    var op, xs := rule.fields[0].0, rule.fields[0].1.xs;
    EagerAllValues(h, rule, xs, context);
    SomeMeanExactly(rule, xs, context, false, op == "or");
  }

  lemma NothingInNothing(needle: string)
    ensures Found(needle, Str("")) ==> needle == ""
  {
    if before, after :| "" == before + needle + after {
      assert |before + needle + after| == |before| + |needle| + |after|;
    }
  }

  lemma {:induction false} SameMeaning(rule: Json, context: Json)
    requires WellTyped(rule, context) && !Divided(rule, context)
    ensures Meaning(rule, context, true) == Meaning(rule, context, false)
    decreases rule, 1, 0
  {
    if !Simple(rule) {
      var op, xs := rule.fields[0].0, rule.fields[0].1.xs;
      if op == "in" {
        NothingInNothing(Operand(xs[0], context).s);
      } else if op in ["and", "or", "!"] {
        SameMeanings(rule, xs, context, true);
        SameMeanings(rule, xs, context, false);
        if op == "!" {
          SameMeaning(xs[0], context);
        }
      }
    }
  }

  lemma {:induction false} SameMeanings(rule: Json, args: seq<Json>, context: Json, want: bool)
    requires Inside(args, rule) && AllWellTyped(rule, args, context) && !AnyDivided(rule, args, context)
    ensures SomeMean(rule, args, context, true, want) == SomeMean(rule, args, context, false, want)
    decreases rule, 0, |args|
  {
    if args != [] {
      SameMeaning(args[0], context);
      SameMeanings(rule, args[1..], context, want);
    }
  }

  /**
   For every well-typed rule of any depth, in every context, both evaluators
   succeed; they answer with the same truth value exactly when the rule means
   the same to both, which it does where no node of it is divided.
   */
  lemma EvaluatorsAgree(h: Host, rule: Json, context: Json)
    requires WellTyped(rule, context)
    ensures SameTruth(Evaluate(h, rule, context), Eager(h, rule, context))
      <==> Meaning(rule, context, true) == Meaning(rule, context, false)
    ensures !Divided(rule, context) ==> SameTruth(Evaluate(h, rule, context), Eager(h, rule, context))
  {
    EvaluatorsMean(h, rule, context);
    if !Divided(rule, context) {
      SameMeaning(rule, context);
    }
  }

  // ------------------------------------------- what only the kernel accepts

  /** The dictionaries and values met on the way along a path. */
  ghost predicate Along(start: Json, parts: seq<string>, way: seq<Json>) {
    && |way| == |parts| + 1 && way[0] == start
    && forall i :: 0 <= i < |parts| ==> way[i].Dict? && FirstField(way[i].fields, parts[i], way[i + 1])
  }

  ghost predicate FirstField(fields: seq<(string, Json)>, key: string, v: Json) {
    exists k :: 0 <= k < |fields| && fields[k] == (key, v) && forall i :: 0 <= i < k ==> fields[i].0 != key
  }

  lemma {:induction false} GetIsFirst(fields: seq<(string, Json)>, key: string, v: Json)
    ensures Get(fields, key) == Some(v) <==> FirstField(fields, key, v)
  {
    if fields != [] {
      GetIsFirst(fields[1..], key, v);
      if fields[0].0 == key {
        assert fields[0].1 == v ==> fields[0] == (key, v);
      } else if FirstField(fields, key, v) {
        var k :| 0 <= k < |fields| && fields[k] == (key, v) && forall i :: 0 <= i < k ==> fields[i].0 != key;
        assert fields[1..][k - 1] == (key, v);
      }
    }
  }

  /** A path leads to the value at its end when every step of it is a field of a dictionary, and else to the default. */
  lemma {:induction false} FollowReaches(start: Json, parts: seq<string>, default: Json)
    ensures forall way :: Along(start, parts, way) ==> Follow(start, parts, default) == way[|parts|]
    ensures !(exists way :: Along(start, parts, way)) ==> Follow(start, parts, default) == default
    decreases |parts|
  {
    if parts == [] {
      assert Along(start, parts, [start]);
    } else {
      forall v
        ensures start.Dict? ==> (Get(start.fields, parts[0]) == Some(v) <==> FirstField(start.fields, parts[0], v))
      {
        if start.Dict? {
          GetIsFirst(start.fields, parts[0], v);
        }
      }
      forall way | Along(start, parts, way)
        ensures Follow(start, parts, default) == way[|parts|]
      {
        FollowReaches(way[1], parts[1..], default);
        assert Along(way[1], parts[1..], way[1..]);
      }
      if start.Dict? && Get(start.fields, parts[0]).Some? {
        var next := Get(start.fields, parts[0]).value;
        FollowReaches(next, parts[1..], default);
        if way :| Along(next, parts[1..], way) {
          assert Along(start, parts, [start] + way);
        }
      }
    }
  }

  /** A comparison of three numbers holds when both of its halves do. */
  lemma BetweenMeans(h: Host, rule: Json, context: Json)
    requires rule.Dict? && |rule.fields| == 1 && rule.fields[0].0 in ["<", "<=", ">", ">="]
    requires rule.fields[0].1.List? && |rule.fields[0].1.xs| == 3
    requires forall i :: 0 <= i < 3 ==>
      Simple(rule.fields[0].1.xs[i]) && Operand(rule.fields[0].1.xs[i], context).Num?
    ensures var op, xs := rule.fields[0].0, rule.fields[0].1.xs;
      var a, b, c := Operand(xs[0], context).shown, Operand(xs[1], context).shown, Operand(xs[2], context).shown;
      Evaluate(h, rule, context) == Val(Bool(Ordered(op, a, b) && Ordered(op, b, c)))
  {
    var op, xs := rule.fields[0].0, rule.fields[0].1.xs;
    SimpleAgrees(h, xs[0], context);
    SimpleAgrees(h, xs[1], context);
    SimpleAgrees(h, xs[2], context);
    EvaluatesPair(h, rule, xs[1..], context, Operand(xs[1], context), Operand(xs[2], context));
    var vs := [Operand(xs[0], context)] + [Operand(xs[1], context), Operand(xs[2], context)];
    assert EvaluateAll(h, rule, xs, context) == Vals(vs);
    assert vs == [Operand(xs[0], context), Operand(xs[1], context), Operand(xs[2], context)];
    NumbersCompare(h, op, vs[0], vs[1]);
    NumbersCompare(h, op, vs[1], vs[2]);
  }

  predicate IsTrueValue(r: Result) {
    r.Val? && IsTrue(r.v)
  }

  /** An `if` is worth the branch after its first true condition, or the last operand, or null. */
  lemma {:induction false} IfChooses(h: Host, rule: Json, args: seq<Json>, context: Json, k: nat)
    requires Inside(args, rule) && 2 * k <= |args|
    requires forall i :: 0 <= i < k ==>
      Evaluate(h, args[2 * i], context).Val? && !IsTrue(Evaluate(h, args[2 * i], context).v)
    ensures 2 * k == |args| ==> If(h, rule, args, context) == Val(Null)
    ensures 2 * k + 1 == |args| ==> If(h, rule, args, context) == Evaluate(h, args[2 * k], context)
    ensures 2 * k + 1 < |args| && IsTrueValue(Evaluate(h, args[2 * k], context)) ==>
      If(h, rule, args, context) == Evaluate(h, args[2 * k + 1], context)
    decreases |args|
  {
    if k > 0 {
      TruthyIsTrue(Evaluate(h, args[2 * 0], context).v);
      forall i | 0 <= i < k - 1
        ensures args[2..][2 * i] == args[2 * (i + 1)]
      {
      }
      IfChooses(h, rule, args[2..], context, k - 1);
    } else if |args| > 0 && Evaluate(h, args[0], context).Val? {
      TruthyIsTrue(Evaluate(h, args[0], context).v);
    }
  }

  /** `missing` lists exactly the paths that lead to nothing. */
  lemma {:induction false} MissingExactly(h: Host, args: seq<Json>, context: Json, path: Json)
    ensures path in Missing(h, args, context) <==> path in args && VarOf(h, path, context, Null) == Null
  {
    if args != [] {
      MissingExactly(h, args[1..], context, path);
      assert args == [args[0]] + args[1..];
    }
  }

  /** The number a value counts as: booleans are one and zero. */
  predicate CountsAs(v: Json, x: real) {
    (v == Bool(true) && x == 1.0) || (v == Bool(false) && x == 0.0) || (v.Num? && v.exact == x)
  }

  /** Python's equality. */
  ghost predicate SameValue(a: Json, b: Json) {
    a == b || exists x :: CountsAs(a, x) && CountsAs(b, x)
  }

  lemma EqualIsSameValue(a: Json, b: Json)
    ensures Equal(a, b) <==> SameValue(a, b)
  {
    if AsNumber(a).Some? {
      assert CountsAs(a, AsNumber(a).value);
    }
  }

  /** The four equalities: two on the printed text, two on the value. */
  lemma EqualitiesMean(h: Host, op: string, xs: seq<Json>, context: Json, a: Json, b: Json)
    requires |xs| == 2 && Evaluate(h, xs[0], context) == Val(a) && Evaluate(h, xs[1], context) == Val(b)
    ensures var r := Evaluate(h, Dict([(op, List(xs))]), context);
      && (op == "==" ==> r == Val(Bool(Show(h, a) == Show(h, b))))
      && (op == "!=" ==> r == Val(Bool(Show(h, a) != Show(h, b))))
      && (op == "===" ==> r == Val(Bool(SameValue(a, b))))
      && (op == "!==" ==> r == Val(Bool(!SameValue(a, b))))
  {
    EvaluatesPair(h, Dict([(op, List(xs))]), xs, context, a, b);
    EqualIsSameValue(a, b);
  }

  const ALLOWED := ["var", "missing", "<", "<=", ">", ">=", "==", "===", "!=", "!==", "and", "or", "!", "in", "if"]

  /** A node with another operator, or not with exactly one, is refused. */
  lemma OnlyAllowedOperators(h: Host, rule: Json, context: Json)
    requires rule.Dict? && (|rule.fields| != 1 || rule.fields[0].0 !in ALLOWED)
    ensures Evaluate(h, rule, context) == RuleError
  {
  }

  /** A `missing` node is the list of exactly those operands whose path leads to nothing; it evaluates none of them. */
  lemma MissingNode(h: Host, args: seq<Json>, context: Json, path: Json)
    ensures var r := Evaluate(h, Dict([("missing", List(args))]), context);
      && r.Val? && r.v.List?
      && (path in r.v.xs <==> path in args && VarOf(h, path, context, Null) == Null)
  {
    MissingExactly(h, args, context, path);
  }

  /** An `if` node with one condition, one branch and one alternative. */
  lemma IfNode(h: Host, args: seq<Json>, context: Json)
    requires |args| == 3 && Evaluate(h, args[0], context).Val?
    ensures Evaluate(h, Dict([("if", List(args))]), context)
      == Evaluate(h, if IsTrue(Evaluate(h, args[0], context).v) then args[1] else args[2], context)
  {
    var rule := Dict([("if", List(args))]);
    assert Inside(rule.fields[0].1.xs, rule);
    IfChooses(h, rule, args, context, if IsTrue(Evaluate(h, args[0], context).v) then 0 else 1);
  }
}
