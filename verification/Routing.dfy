/** Router conditions and route selection (internal/pipeline/condition.go). */
module Routing {
  import opened Prelude
  import opened Text
  import opened Json
  import opened Model
  import Paths

  datatype RouteError = InputNotJson | BadPattern | NoOperator | NoRoute

  /** Condition.Operator: the one operator that is set, if there is exactly one. */
  function OperatorOf(c: Condition): Option<Operator> {
    var set' :=
      (if c.equals.Some? then [OpEquals] else []) +
      (if c.notEquals.Some? then [OpNotEquals] else []) +
      (if c.oneOf != [] then [OpIn] else []) +
      (if c.matches != "" then [OpMatches] else []) +
      (if c.exist then [OpExists] else []);
    if |set'| == 1 then Some(set'[0]) else None
  }

  function LooseEqual(value: Json, operand: Json, codec: Codec): bool {
    if operand.String? then Stringify(value, codec) == operand.s
    else codec.marshal(value) == codec.marshal(operand)
  }

  function Evaluate(c: Condition, input: string, codec: Codec): (r: Result<bool, RouteError>)
    ensures r != Err(NoRoute)
  {
    match codec.decode(TrimSpace(input))
    case None => Err(InputNotJson)
    case Some(doc) =>
      var node := Paths.Walk(doc, c.field);
      match OperatorOf(c)
      case None => Err(NoOperator)
      case Some(OpExists) => Ok(node.Some? && Stringify(node.value, codec) != "")
      case Some(OpEquals) =>
        Ok(node.Some? && c.equals.Some? && LooseEqual(node.value, c.equals.value, codec))
      case Some(OpNotEquals) =>
        Ok(node.Some? && c.notEquals.Some? && !LooseEqual(node.value, c.notEquals.value, codec))
      case Some(OpIn) =>
        Ok(node.Some? && exists operand <- c.oneOf :: LooseEqual(node.value, operand, codec))
      case Some(OpMatches) =>
        if node.None? then Ok(false)
        else
          match codec.regexMatch(c.matches, Stringify(node.value, codec))
          case None => Err(BadPattern)
          case Some(b) => Ok(b)
  }

  // ------------------------------------------------------------ what a condition says

  ghost predicate Sets(c: Condition, op: Operator) {
    match op
    case OpEquals => c.equals.Some?
    case OpNotEquals => c.notEquals.Some?
    case OpIn => c.oneOf != []
    case OpMatches => c.matches != ""
    case OpExists => c.exist
  }

  ghost predicate Only(c: Condition, op: Operator) {
    Sets(c, op) && forall other :: Sets(c, other) ==> other == op
  }

  /** A string operand is compared with the node's text, any other by its marshalled form. */
  ghost predicate Same(node: Json, operand: Json, codec: Codec) {
    if operand.String? then Shows(node, operand.s, codec) else codec.marshal(node) == codec.marshal(operand)
  }

  /** The input is JSON and its field is this node. */
  ghost predicate FieldIs(input: string, field: string, node: Json, codec: Codec) {
    var doc := codec.decode(TrimSpace(input));
    doc.Some? && Paths.Finds(doc.value, field, node)
  }

  /** The one operator that is set accepts the node. */
  ghost predicate Accepts(c: Condition, node: Json, codec: Codec) {
    || (Only(c, OpEquals) && Same(node, c.equals.value, codec))
    || (Only(c, OpNotEquals) && !Same(node, c.notEquals.value, codec))
    || (Only(c, OpIn) && exists operand <- c.oneOf :: Same(node, operand, codec))
    || (Only(c, OpMatches) && exists text :: Shows(node, text, codec) && codec.regexMatch(c.matches, text) == Some(true))
    || (Only(c, OpExists) && !Shows(node, "", codec))
  }

  /** The condition holds: the field is there, and the operator accepts it. */
  ghost predicate True(c: Condition, input: string, codec: Codec) {
    exists node :: FieldIs(input, c.field, node, codec) && Accepts(c, node, codec)
  }

  ghost predicate BadPatternAt(c: Condition, input: string, node: Json, text: string, codec: Codec) {
    FieldIs(input, c.field, node, codec) && Shows(node, text, codec) && codec.regexMatch(c.matches, text).None?
  }

  /** The condition cannot be decided. */
  ghost predicate Fault(c: Condition, input: string, codec: Codec, e: RouteError) {
    match e
    case InputNotJson => codec.decode(TrimSpace(input)).None?
    case NoOperator => codec.decode(TrimSpace(input)).Some? && forall op :: !Only(c, op)
    case BadPattern => Only(c, OpMatches) && exists node, text :: BadPatternAt(c, input, node, text, codec)
    case NoRoute => false
  }

  lemma OperatorIsOnly(c: Condition)
    ensures forall op :: OperatorOf(c) == Some(op) <==> Only(c, op)
  {
    forall op | OperatorOf(c) == Some(op) ensures Only(c, op) {
      forall other | Sets(c, other) ensures other == op {}
    }
    forall op | Only(c, op) ensures OperatorOf(c) == Some(op) {
      assert forall other :: other != op ==> !Sets(c, other);
      assert op != OpEquals ==> !Sets(c, OpEquals);
      assert op != OpNotEquals ==> !Sets(c, OpNotEquals);
      assert op != OpIn ==> !Sets(c, OpIn);
      assert op != OpMatches ==> !Sets(c, OpMatches);
      assert op != OpExists ==> !Sets(c, OpExists);
    }
  }

  lemma SameIsLooseEqual(node: Json, operand: Json, codec: Codec)
    ensures LooseEqual(node, operand, codec) <==> Same(node, operand, codec)
  {
    if operand.String? { StringifyShows(node, operand.s, codec); }
  }

  /** What the verdict is once the node is known. */
  lemma AcceptsMeans(c: Condition, node: Json, codec: Codec)
    ensures Only(c, OpEquals) ==> (Accepts(c, node, codec) <==> LooseEqual(node, c.equals.value, codec))
    ensures Only(c, OpNotEquals) ==> (Accepts(c, node, codec) <==> !LooseEqual(node, c.notEquals.value, codec))
    ensures Only(c, OpIn) ==> (Accepts(c, node, codec) <==> exists operand <- c.oneOf :: LooseEqual(node, operand, codec))
    ensures Only(c, OpMatches) ==> (Accepts(c, node, codec) <==> codec.regexMatch(c.matches, Stringify(node, codec)) == Some(true))
    ensures Only(c, OpExists) ==> (Accepts(c, node, codec) <==> Stringify(node, codec) != "")
  {
    forall operand ensures LooseEqual(node, operand, codec) <==> Same(node, operand, codec) { SameIsLooseEqual(node, operand, codec); }
    forall text ensures Stringify(node, codec) == text <==> Shows(node, text, codec) { StringifyShows(node, text, codec); }
  }

  lemma NodeIsField(c: Condition, input: string, codec: Codec)
    requires codec.decode(TrimSpace(input)).Some?
    ensures var doc := codec.decode(TrimSpace(input)).value;
            forall node :: Paths.Walk(doc, c.field) == Some(node) <==> FieldIs(input, c.field, node, codec)
  {
    Paths.WalkFinds(codec.decode(TrimSpace(input)).value, c.field);
  }

  lemma TrueMeans(c: Condition, input: string, codec: Codec)
    ensures Evaluate(c, input, codec) == Ok(true) <==> True(c, input, codec)
  {
    OperatorIsOnly(c);
    if codec.decode(TrimSpace(input)).Some? {
      NodeIsField(c, input, codec);
      var node := Paths.Walk(codec.decode(TrimSpace(input)).value, c.field);
      if node.Some? { AcceptsMeans(c, node.value, codec); }
    }
  }

  lemma FaultMeans(c: Condition, input: string, codec: Codec, e: RouteError)
    ensures Evaluate(c, input, codec) == Err(e) <==> Fault(c, input, codec, e)
  {
    OperatorIsOnly(c);
    if codec.decode(TrimSpace(input)).Some? {
      NodeIsField(c, input, codec);
      var node := Paths.Walk(codec.decode(TrimSpace(input)).value, c.field);
      if node.Some? {
        var shown := Stringify(node.value, codec);
        forall text ensures shown == text <==> Shows(node.value, text, codec) { StringifyShows(node.value, text, codec); }
        assert codec.regexMatch(c.matches, shown).None? ==> BadPatternAt(c, input, node.value, shown, codec);
      }
      assert OperatorOf(c).None? ==> forall op :: !Only(c, op);
      assert OperatorOf(c).Some? ==> Only(c, OperatorOf(c).value);
    }
  }

  /** EvaluateCondition */
  method EvaluateCondition(c: Condition, input: string, codec: Codec) returns (r: Result<bool, RouteError>)
    ensures r == Evaluate(c, input, codec)
    ensures r == Ok(true) <==> True(c, input, codec)
    ensures forall e :: r == Err(e) <==> Fault(c, input, codec, e)
  {
    TrueMeans(c, input, codec);
    forall e ensures Evaluate(c, input, codec) == Err(e) <==> Fault(c, input, codec, e) { FaultMeans(c, input, codec, e); }
    var doc := codec.decode(TrimSpace(input));
    if doc.None? {
      return Err(InputNotJson);
    }
    var value, found := Paths.WalkPath(doc.value, c.field);
    match OperatorOf(c)
    case None => return Err(NoOperator);
    case Some(OpExists) => return Ok(found && Stringify(value, codec) != "");
    case Some(OpEquals) => return Ok(found && LooseEqual(value, c.equals.value, codec));
    case Some(OpNotEquals) => return Ok(found && !LooseEqual(value, c.notEquals.value, codec));
    case Some(OpIn) =>
      if !found {
        return Ok(false);
      }
      for i := 0 to |c.oneOf|
        invariant forall j :: 0 <= j < i ==> !LooseEqual(value, c.oneOf[j], codec)
      {
        if LooseEqual(value, c.oneOf[i], codec) {
          return Ok(true);
        }
      }
      return Ok(false);
    case Some(OpMatches) =>
      if !found {
        return Ok(false);
      }
      var matched := codec.regexMatch(c.matches, Stringify(value, codec));
      if matched.None? {
        return Err(BadPattern);
      }
      return Ok(matched.value);
  }

  /** The condition with another operator in place of its own. */
  function WithEquals(c: Condition, operand: Json): Condition {
    Condition(c.field, Some(operand), None, [], "", false)
  }

  lemma WithEqualsTrue(c: Condition, operand: Json, input: string, codec: Codec)
    ensures True(WithEquals(c, operand), input, codec) <==>
            exists node :: FieldIs(input, c.field, node, codec) && Same(node, operand, codec)
  {
    assert Only(WithEquals(c, operand), OpEquals);
  }

  /** notEquals holds when the field is there and equals does not; oneOf when equals does for some
      operand; a field that is absent meets no condition. */
  lemma OperatorLaws(c: Condition, input: string, codec: Codec)
    ensures (forall node :: !FieldIs(input, c.field, node, codec)) ==> !True(c, input, codec)
    ensures Only(c, OpEquals) ==> (True(c, input, codec) <==> True(WithEquals(c, c.equals.value), input, codec))
    ensures Only(c, OpNotEquals) ==>
      (True(c, input, codec) <==>
         (exists node :: FieldIs(input, c.field, node, codec)) && !True(WithEquals(c, c.notEquals.value), input, codec))
    ensures Only(c, OpIn) ==> (True(c, input, codec) <==> exists operand <- c.oneOf :: True(WithEquals(c, operand), input, codec))
  {
    forall operand ensures True(WithEquals(c, operand), input, codec) <==>
                           exists node :: FieldIs(input, c.field, node, codec) && Same(node, operand, codec)
    {
      WithEqualsTrue(c, operand, input, codec);
    }
    if codec.decode(TrimSpace(input)).Some? { NodeIsField(c, input, codec); }
  }

  // ------------------------------------------------------------------- choosing a route

  /** The verdict of one route's condition; a default route or one without a condition has none. */
  function Holds(rt: Route, input: string, codec: Codec): Result<bool, RouteError> {
    if rt.isDefault || rt.when.None? then Ok(false) else Evaluate(rt.when.value, input, codec)
  }

  ghost predicate RouteTrue(rt: Route, input: string, codec: Codec) {
    !rt.isDefault && rt.when.Some? && True(rt.when.value, input, codec)
  }

  ghost predicate RouteFault(rt: Route, input: string, codec: Codec, e: RouteError) {
    !rt.isDefault && rt.when.Some? && Fault(rt.when.value, input, codec, e)
  }

  /** Neither true nor undecidable. */
  ghost predicate PassedOver(rt: Route, input: string, codec: Codec) {
    !RouteTrue(rt, input, codec) && forall e :: !RouteFault(rt, input, codec, e)
  }

  ghost predicate NoneHolds(routes: seq<Route>, n: nat, input: string, codec: Codec)
    requires n <= |routes|
  {
    forall i :: 0 <= i < n ==> PassedOver(routes[i], input, codec)
  }

  ghost predicate LastDefault(routes: seq<Route>, k: nat) {
    k < |routes| && routes[k].isDefault && forall j :: k < j < |routes| ==> !routes[j].isDefault
  }

  /** The first route whose condition holds, if every one before it is decided; with none, the last
      default route. */
  ghost predicate Chosen(routes: seq<Route>, k: nat, input: string, codec: Codec) {
    k < |routes| &&
    (|| (NoneHolds(routes, k, input, codec) && RouteTrue(routes[k], input, codec))
     || (NoneHolds(routes, |routes|, input, codec) && LastDefault(routes, k)))
  }

  /** The first condition that is not passed over cannot be decided; or all are, and there is no default. */
  ghost predicate Refuses(routes: seq<Route>, input: string, codec: Codec, e: RouteError) {
    if e == NoRoute then NoneHolds(routes, |routes|, input, codec) && forall i :: 0 <= i < |routes| ==> !routes[i].isDefault
    else exists k :: 0 <= k < |routes| && NoneHolds(routes, k, input, codec) && RouteFault(routes[k], input, codec, e)
  }

  lemma HoldsMeans(rt: Route, input: string, codec: Codec)
    ensures Holds(rt, input, codec) == Ok(true) <==> RouteTrue(rt, input, codec)
    ensures forall e :: Holds(rt, input, codec) == Err(e) <==> RouteFault(rt, input, codec, e)
    ensures Holds(rt, input, codec) == Ok(false) <==> PassedOver(rt, input, codec)
  {
    if !rt.isDefault && rt.when.Some? {
      var c := rt.when.value;
      TrueMeans(c, input, codec);
      forall e ensures Evaluate(c, input, codec) == Err(e) <==> Fault(c, input, codec, e) { FaultMeans(c, input, codec, e); }
      assert Holds(rt, input, codec).Err? ==> RouteFault(rt, input, codec, Holds(rt, input, codec).error);
    }
  }

  function Picked(routes: seq<Route>, input: string, codec: Codec, fallback: Option<string>): Result<string, RouteError> {
    if routes == [] then (if fallback.Some? then Ok(fallback.value) else Err(NoRoute))
    else if routes[0].isDefault then Picked(routes[1..], input, codec, Some(routes[0].target))
    else
      match Holds(routes[0], input, codec)
      case Err(e) => Err(e)
      case Ok(true) => Ok(routes[0].target)
      case Ok(false) => Picked(routes[1..], input, codec, fallback)
  }

  /** The target of the last default among the first n routes. */
  ghost predicate FallsBack(routes: seq<Route>, n: nat, fallback: Option<string>)
    requires n <= |routes|
  {
    match fallback
    case None => forall j :: 0 <= j < n ==> !routes[j].isDefault
    case Some(t) => exists k :: 0 <= k < n && routes[k].isDefault && t == routes[k].target && forall j :: k < j < n ==> !routes[j].isDefault
  }

  /** Settled: the result is the target of a chosen route, or a refusal. */
  ghost predicate Settles(routes: seq<Route>, input: string, codec: Codec, r: Result<string, RouteError>) {
    match r
    case Ok(t) => exists k: nat :: Chosen(routes, k, input, codec) && t == routes[k].target
    case Err(e) => Refuses(routes, input, codec, e)
  }

  lemma {:induction false} PickedSettles(routes: seq<Route>, i: nat, input: string, codec: Codec, fallback: Option<string>)
    requires i <= |routes| && NoneHolds(routes, i, input, codec) && FallsBack(routes, i, fallback)
    ensures Settles(routes, input, codec, Picked(routes[i..], input, codec, fallback))
    decreases |routes| - i
  {
    if i == |routes| {
      if fallback.Some? { FallbackChosen(routes, input, codec, fallback.value); }
    } else {
      assert routes[i..][0] == routes[i] && routes[i..][1..] == routes[i+1..];
      HoldsMeans(routes[i], input, codec);
      if routes[i].isDefault {
        PickedSettles(routes, i + 1, input, codec, Some(routes[i].target));
      } else if Holds(routes[i], input, codec) == Ok(false) {
        PickedSettles(routes, i + 1, input, codec, fallback);
      } else if Holds(routes[i], input, codec) == Ok(true) {
        assert Chosen(routes, i, input, codec);
      } else {
        assert Refuses(routes, input, codec, Holds(routes[i], input, codec).error);
      }
    }
  }

  lemma FallbackChosen(routes: seq<Route>, input: string, codec: Codec, t: string)
    requires NoneHolds(routes, |routes|, input, codec) && FallsBack(routes, |routes|, Some(t))
    ensures Settles(routes, input, codec, Ok(t))
  {
    var k :| 0 <= k < |routes| && routes[k].isDefault && t == routes[k].target && forall j :: k < j < |routes| ==> !routes[j].isDefault;
    assert Chosen(routes, k, input, codec);
  }

  lemma ChosenOnce(routes: seq<Route>, j: nat, k: nat, input: string, codec: Codec)
    requires Chosen(routes, j, input, codec) && Chosen(routes, k, input, codec)
    ensures j == k
  {
    assert forall i :: 0 <= i < j && NoneHolds(routes, j, input, codec) ==> PassedOver(routes[i], input, codec);
    assert forall i :: 0 <= i < k && NoneHolds(routes, k, input, codec) ==> PassedOver(routes[i], input, codec);
  }

  lemma FaultOnce(rt: Route, input: string, codec: Codec, e: RouteError, e': RouteError)
    requires RouteFault(rt, input, codec, e)
    ensures !RouteTrue(rt, input, codec) && (RouteFault(rt, input, codec, e') ==> e == e')
  {
    HoldsMeans(rt, input, codec);
  }

  lemma SettlesOnce(routes: seq<Route>, input: string, codec: Codec, r: Result<string, RouteError>, r': Result<string, RouteError>)
    requires Settles(routes, input, codec, r) && Settles(routes, input, codec, r')
    ensures r == r'
  {
    if r.Ok? && r'.Ok? {
      var j: nat :| Chosen(routes, j, input, codec) && r.value == routes[j].target;
      var k: nat :| Chosen(routes, k, input, codec) && r'.value == routes[k].target;
      ChosenOnce(routes, j, k, input, codec);
    } else if r.Err? && r'.Err? {
      RefusesOnce(routes, input, codec, r.error, r'.error);
    } else if r.Ok? {
      ChosenNotRefused(routes, input, codec, r.value, r'.error);
    } else {
      ChosenNotRefused(routes, input, codec, r'.value, r.error);
    }
  }

  lemma RefusesOnce(routes: seq<Route>, input: string, codec: Codec, e: RouteError, e': RouteError)
    requires Refuses(routes, input, codec, e) && Refuses(routes, input, codec, e')
    ensures e == e'
  {
    if e != NoRoute && e' != NoRoute {
      var j :| 0 <= j < |routes| && NoneHolds(routes, j, input, codec) && RouteFault(routes[j], input, codec, e);
      var k :| 0 <= k < |routes| && NoneHolds(routes, k, input, codec) && RouteFault(routes[k], input, codec, e');
      assert j < k ==> PassedOver(routes[j], input, codec);
      assert k < j ==> PassedOver(routes[k], input, codec);
      FaultOnce(routes[j], input, codec, e, e');
    }
  }

  lemma ChosenNotRefused(routes: seq<Route>, input: string, codec: Codec, t: string, e: RouteError)
    requires Settles(routes, input, codec, Ok(t))
    ensures !Refuses(routes, input, codec, e)
  {
    var k: nat :| Chosen(routes, k, input, codec) && t == routes[k].target;
    forall j | 0 <= j < |routes| && RouteFault(routes[j], input, codec, e) ensures !NoneHolds(routes, j, input, codec) {
      FaultOnce(routes[j], input, codec, e, e);
      assert j < k && NoneHolds(routes, k, input, codec) ==> PassedOver(routes[j], input, codec);
      assert k < j && NoneHolds(routes, j, input, codec) ==> PassedOver(routes[k], input, codec);
    }
  }

  /** PickRoute's result is the one that settles the routes. */
  lemma PickedIff(routes: seq<Route>, input: string, codec: Codec, r: Result<string, RouteError>)
    ensures Picked(routes, input, codec, None) == r <==> Settles(routes, input, codec, r)
  {
    assert routes[0..] == routes;
    PickedSettles(routes, 0, input, codec, None);
    if Settles(routes, input, codec, r) { SettlesOnce(routes, input, codec, r, Picked(routes, input, codec, None)); }
  }

  lemma PickedMeans(routes: seq<Route>, input: string, codec: Codec)
    ensures var r := Picked(routes, input, codec, None);
            && (forall t :: r == Ok(t) <==> exists k: nat :: Chosen(routes, k, input, codec) && t == routes[k].target)
            && (forall e :: r == Err(e) <==> Refuses(routes, input, codec, e))
  {
    forall t ensures Picked(routes, input, codec, None) == Ok(t) <==> Settles(routes, input, codec, Ok(t)) {
      PickedIff(routes, input, codec, Ok(t));
    }
    forall e ensures Picked(routes, input, codec, None) == Err(e) <==> Settles(routes, input, codec, Err(e)) {
      PickedIff(routes, input, codec, Err(e));
    }
  }

  /** The route PickRoute settles on: the first whose condition holds, unless an earlier
      condition fails to evaluate; with none, the last default route. */
  method PickRoute(routes: seq<Route>, input: string, codec: Codec) returns (r: Result<string, RouteError>)
    ensures r == Picked(routes, input, codec, None)
    ensures forall t :: r == Ok(t) <==> exists k: nat :: Chosen(routes, k, input, codec) && t == routes[k].target
    ensures forall e :: r == Err(e) <==> Refuses(routes, input, codec, e)
  {
    PickedMeans(routes, input, codec);
    var fallback: Option<string> := None;
    for i := 0 to |routes|
      invariant Picked(routes, input, codec, None) == Picked(routes[i..], input, codec, fallback)
    {
      assert routes[i..][1..] == routes[i+1..];
      var rt := routes[i];
      if rt.isDefault {
        fallback := Some(rt.target);
        continue;
      }
      if rt.when.None? {
        continue;
      }
      var ok := EvaluateCondition(rt.when.value, input, codec);
      if ok.Err? {
        return Err(ok.error);
      }
      if ok.value {
        return Ok(rt.target);
      }
    }
    if fallback.Some? {
      return Ok(fallback.value);
    }
    return Err(NoRoute);
  }

  lemma {:induction false} PickedIsTarget(routes: seq<Route>, input: string, codec: Codec, fallback: Option<string>)
    requires Picked(routes, input, codec, fallback).Ok?
    ensures var t := Picked(routes, input, codec, fallback).value;
            t in Targets(routes) || fallback == Some(t)
  {
    if routes != [] {
      assert routes[0] in routes;
      if routes[0].isDefault {
        PickedIsTarget(routes[1..], input, codec, Some(routes[0].target));
      } else if Holds(routes[0], input, codec) == Ok(false) {
        PickedIsTarget(routes[1..], input, codec, fallback);
      }
    }
  }
}
