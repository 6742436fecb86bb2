/** Dependency edges of a pipeline and the cycle check (internal/pipeline/graph.go). */
module Graph {
  import opened Prelude
  import opened Model
  import Template

  datatype GraphError =
    | BadTemplate(step: string)
    | UnknownReference(step: string, ref: string)
    | SelfNeed(step: string)
    | UnknownNeed(step: string, need: string)
    | UnknownTarget(step: string, target: string)
    | Cycle(step: string)

  // --------------------------------------------------------------- the edge sets

  function OutputIds(refs: seq<Template.Ref>): seq<string> {
    if refs == [] then []
    else (if refs[0].OutputRef? then [refs[0].stepId] else []) + OutputIds(refs[1..])
  }

  /** The steps a step's input template mentions. */
  function Mentions(s: Step): seq<string> {
    match Template.Parsed(s.input)
    case Err(_) => []
    case Ok(refs) => OutputIds(refs)
  }

  ghost predicate StepEdge(s: Step, from: string, to: string) {
    || (to == s.id && (from in Mentions(s) || from in s.needs))
    || (s.router && from == s.id && to in Targets(s.routes))
  }

  /** from must finish before to: some step's template, needs list or routes say so. */
  ghost predicate IsEdge(steps: seq<Step>, from: string, to: string) {
    exists s <- steps :: StepEdge(s, from, to)
  }

  /** The checks Deps makes on one step. */
  ghost predicate StepOk(s: Step, ids: set<string>) {
    && Template.Parsed(s.input).Ok?
    && (forall m <- Mentions(s) :: m in ids)
    && s.id !in s.needs
    && (forall n <- s.needs :: n in ids)
    && (s.router ==> Targets(s.routes) <= ids)
  }

  /** What a failure report says is really wrong with the step. */
  ghost predicate Fault(e: GraphError, s: Step, ids: set<string>) {
    match e
    case BadTemplate(id) => s.id == id && Template.Parsed(s.input).Err?
    case UnknownReference(id, m) => s.id == id && m in Mentions(s) && m !in ids
    case SelfNeed(id) => s.id == id && id in s.needs
    case UnknownNeed(id, n) => s.id == id && n in s.needs && n !in ids
    case UnknownTarget(id, t) => s.id == id && s.router && t in Targets(s.routes) && t !in ids
    case Cycle(_) => false
  }

  ghost predicate Justified(e: GraphError, steps: seq<Step>) {
    exists s :: s in steps && Fault(e, s, Ids(steps))
  }

  type DepMap = map<string, seq<string>>

  ghost predicate Closed(deps: DepMap) {
    forall id, d :: id in deps && d in deps[id] ==> d in deps
  }

  ghost predicate Holds(deps: DepMap, from: string, to: string) {
    to in deps && from in deps[to]
  }

  // ---------------------------------------------------------------- edge recording

  /** The seen sets say what the lists hold, and the lists have no duplicates. */
  ghost predicate ValidTable(deps: DepMap, seen: map<string, set<string>>) {
    && (forall to :: to in seen ==> to in deps && seen[to] == Elements(deps[to]))
    && (forall to :: to in deps && to !in seen ==> deps[to] == [])
    && (forall to :: to in deps ==> NoDup(deps[to]))
  }

  lemma AppendKeeps(deps: DepMap, seen: map<string, set<string>>, from: string, to: string)
    requires ValidTable(deps, seen) && to in seen && from !in seen[to]
    ensures ValidTable(deps[to := deps[to] + [from]], seen[to := seen[to] + {from}])
    ensures forall a, b :: Holds(deps[to := deps[to] + [from]], a, b) <==> Holds(deps, a, b) || (a == from && b == to)
  {
    var list := deps[to] + [from];
    assert Elements(list) == Elements(deps[to]) + {from};
    var now := deps[to := list];
    assert from in Elements(deps[to]) <==> from in deps[to];
    forall a, b ensures Holds(now, a, b) <==> Holds(deps, a, b) || (a == from && b == to) {
      assert a in list <==> a in deps[to] || a == from;
    }
    assert NoDup(list) by {
      forall i, j | 0 <= i < j < |list| ensures list[i] != list[j] {
        assert list[i] in deps[to];
      }
    }
  }

  /** The deps and seen maps that Deps fills through its add closure. */
  class DepTable {
    var deps: DepMap
    var seen: map<string, set<string>>

    ghost predicate Valid()
      reads this
    {
      ValidTable(deps, seen)
    }

    ghost predicate Has(from: string, to: string)
      reads this
    {
      Holds(deps, from, to)
    }

    constructor ()
      ensures Valid() && deps == map[]
    {
      deps, seen := map[], map[];
    }

    /** Makes sure a step has an entry. */
    method Touch(id: string)
      requires Valid()
      modifies this
      ensures Valid() && deps.Keys == old(deps.Keys) + {id}
      ensures forall a, b :: Has(a, b) <==> old(Has(a, b))
    {
      if id !in deps {
        deps := deps[id := []];
      }
    }

    method Add(from: string, to: string)
      requires Valid()
      modifies this
      ensures Valid() && deps.Keys == old(deps.Keys) + {to}
      ensures forall a, b :: Has(a, b) <==> old(Has(a, b)) || (a == from && b == to)
    {
      if to !in seen {
        seen := seen[to := {}];
        if to !in deps { deps := deps[to := []]; }
      }
      if from in seen[to] {
        return;
      }
      AppendKeeps(deps, seen, from, to);
      seen := seen[to := seen[to] + {from}];
      deps := deps[to := deps[to] + [from]];
    }
  }

  /** The loop over the references of a step's input. */
  method AddMentions(table: DepTable, s: Step, refs: seq<Template.Ref>, ids: set<string>)
    returns (r: Option<GraphError>)
    requires table.Valid() && Template.Parsed(s.input) == Ok(refs)
    modifies table
    ensures r.None? <==> forall m <- Mentions(s) :: m in ids
    ensures r.None? ==> table.Valid() && table.deps.Keys <= old(table.deps.Keys) + {s.id}
    ensures r.None? ==> old(table.deps.Keys) <= table.deps.Keys
    ensures r.None? ==> forall a, b :: table.Has(a, b) <==> old(table.Has(a, b)) || (b == s.id && a in Mentions(s))
    ensures r.Some? ==> Fault(r.value, s, ids)
  {
    for i := 0 to |refs|
      invariant table.Valid() && table.deps.Keys <= old(table.deps.Keys) + {s.id}
      invariant old(table.deps.Keys) <= table.deps.Keys
      invariant forall m <- OutputIds(refs[..i]) :: m in ids
      invariant forall a, b :: table.Has(a, b) <==> old(table.Has(a, b)) || (b == s.id && a in OutputIds(refs[..i]))
    {
      OutputIdsStep(refs, i);
      if refs[i].OutputRef? {
        if refs[i].stepId !in ids {
          OutputIdsMember(refs, i);
          return Some(UnknownReference(s.id, refs[i].stepId));
        }
        table.Add(refs[i].stepId, s.id);
      }
    }
    assert refs[..|refs|] == refs;
    return None;
  }

  lemma {:induction false} OutputIdsStep(refs: seq<Template.Ref>, i: nat)
    requires i < |refs|
    ensures OutputIds(refs[..i+1]) == OutputIds(refs[..i]) + if refs[i].OutputRef? then [refs[i].stepId] else []
  {
    if i == 0 {
      assert refs[..1][1..] == [] && refs[..0] == [];
    } else {
      assert refs[..i+1][1..] == refs[1..][..i] && refs[..i][1..] == refs[1..][..i-1];
      OutputIdsStep(refs[1..], i - 1);
    }
  }

  lemma {:induction false} OutputIdsMember(refs: seq<Template.Ref>, i: nat)
    requires i < |refs| && refs[i].OutputRef?
    ensures refs[i].stepId in OutputIds(refs)
  {
    if i > 0 { OutputIdsMember(refs[1..], i - 1); }
  }

  /** The loop over a step's needs. */
  method AddNeeds(table: DepTable, s: Step, ids: set<string>) returns (r: Option<GraphError>)
    requires table.Valid()
    modifies table
    ensures r.None? <==> s.id !in s.needs && forall n <- s.needs :: n in ids
    ensures r.None? ==> table.Valid() && table.deps.Keys <= old(table.deps.Keys) + {s.id}
    ensures r.None? ==> old(table.deps.Keys) <= table.deps.Keys
    ensures r.None? ==> forall a, b :: table.Has(a, b) <==> old(table.Has(a, b)) || (b == s.id && a in s.needs)
    ensures r.Some? ==> Fault(r.value, s, ids)
  {
    for i := 0 to |s.needs|
      invariant table.Valid() && table.deps.Keys <= old(table.deps.Keys) + {s.id}
      invariant old(table.deps.Keys) <= table.deps.Keys
      invariant s.id !in s.needs[..i] && forall n <- s.needs[..i] :: n in ids
      invariant forall a, b :: table.Has(a, b) <==> old(table.Has(a, b)) || (b == s.id && a in s.needs[..i])
    {
      var need := s.needs[i];
      if need == s.id {
        return Some(SelfNeed(s.id));
      }
      if need !in ids {
        return Some(UnknownNeed(s.id, need));
      }
      table.Add(need, s.id);
    }
    assert s.needs[..|s.needs|] == s.needs;
    return None;
  }

  /** The loop over a router's routes. */
  method AddTargets(table: DepTable, s: Step, ids: set<string>) returns (r: Option<GraphError>)
    requires table.Valid() && s.router
    modifies table
    ensures r.None? <==> Targets(s.routes) <= ids
    ensures r.None? ==> table.Valid() && old(table.deps.Keys) <= table.deps.Keys <= old(table.deps.Keys) + ids
    ensures r.None? ==> forall a, b :: table.Has(a, b) <==> old(table.Has(a, b)) || (a == s.id && b in Targets(s.routes))
    ensures r.Some? ==> Fault(r.value, s, ids)
  {
    for i := 0 to |s.routes|
      invariant table.Valid() && old(table.deps.Keys) <= table.deps.Keys <= old(table.deps.Keys) + ids
      invariant Targets(s.routes[..i]) <= ids
      invariant forall a, b :: table.Has(a, b) <==> old(table.Has(a, b)) || (a == s.id && b in Targets(s.routes[..i]))
    {
      var rt := s.routes[i];
      assert rt in s.routes && s.routes[..i+1] == s.routes[..i] + [rt];
      assert Targets(s.routes[..i+1]) == Targets(s.routes[..i]) + {rt.target};
      assert rt.target in Targets(s.routes);
      if rt.target !in ids {
        return Some(UnknownTarget(s.id, rt.target));
      }
      table.Add(s.id, rt.target);
    }
    assert s.routes[..|s.routes|] == s.routes;
    return None;
  }

  /** Everything Deps does for one step. */
  method AddStep(table: DepTable, s: Step, ids: set<string>) returns (r: Option<GraphError>)
    requires table.Valid() && table.deps.Keys <= ids && s.id in ids
    modifies table
    ensures r.None? <==> StepOk(s, ids)
    ensures r.None? ==> table.Valid() && old(table.deps.Keys) + {s.id} <= table.deps.Keys <= ids
    ensures r.None? ==> forall a, b :: table.Has(a, b) <==> old(table.Has(a, b)) || StepEdge(s, a, b)
    ensures r.Some? ==> Fault(r.value, s, ids)
  {
    table.Touch(s.id);
    var refs := Template.ParseRefs(s.input);
    if refs.Err? {
      return Some(BadTemplate(s.id));
    }
    r := AddMentions(table, s, refs.value, ids);
    if r.Some? { return; }
    r := AddDeclared(table, s, ids);
  }

  /** The edges a step declares outright: its needs and its route targets. */
  method AddDeclared(table: DepTable, s: Step, ids: set<string>) returns (r: Option<GraphError>)
    requires table.Valid() && table.deps.Keys <= ids && s.id in ids
    modifies table
    ensures r.None? <==> s.id !in s.needs && (forall n <- s.needs :: n in ids) && (s.router ==> Targets(s.routes) <= ids)
    ensures r.None? ==> table.Valid() && old(table.deps.Keys) <= table.deps.Keys <= ids
    ensures r.None? ==> forall a, b :: table.Has(a, b) <==>
      old(table.Has(a, b)) || (b == s.id && a in s.needs) || (s.router && a == s.id && b in Targets(s.routes))
    ensures r.Some? ==> Fault(r.value, s, ids)
  {
    r := AddNeeds(table, s, ids);
    if r.Some? { return; }
    if s.router {
      r := AddTargets(table, s, ids);
    }
  }

  // ------------------------------------------------------------------- cycle check

  /** A closed walk: each element depends on the next, the last on the first. */
  ghost predicate IsCycle(deps: DepMap, c: seq<string>) {
    && c != []
    && (forall i :: 0 <= i < |c| ==> c[i] in deps)
    && (forall i :: 0 <= i < |c| - 1 ==> c[i+1] in deps[c[i]])
    && c[0] in deps[c[|c|-1]]
  }

  ghost predicate OnCycle(deps: DepMap, id: string) {
    exists c :: IsCycle(deps, c) && c[0] == id
  }

  ghost predicate Acyclic(deps: DepMap) {
    forall c :: !IsCycle(deps, c)
  }

  type Ranking = map<string, nat>

  /** Every step ranks above the steps it depends on. */
  ghost predicate Ranks(deps: DepMap, rank: Ranking) {
    forall id :: id in deps ==> id in rank && forall d <- deps[id] :: d in rank && rank[d] < rank[id]
  }

  lemma {:induction false} RankFalls(deps: DepMap, rank: Ranking, c: seq<string>, k: nat)
    requires Ranks(deps, rank) && IsCycle(deps, c) && k < |c|
    ensures c[k] in rank && c[0] in rank && rank[c[k]] <= rank[c[0]] - k
  {
    if k > 0 {
      RankFalls(deps, rank, c, k - 1);
      assert c[k-1+1] in deps[c[k-1]];
    }
  }

  /** A graph with a ranking has no cycle. */
  lemma RankedIsAcyclic(deps: DepMap, rank: Ranking)
    requires Ranks(deps, rank)
    ensures Acyclic(deps)
  {
    forall c ensures !IsCycle(deps, c) {
      if IsCycle(deps, c) {
        RankFalls(deps, rank, c, |c| - 1);
      }
    }
  }

  datatype Color = White | Gray | Black

  type Coloring = map<string, Color>

  function ColorIn(color: Coloring, id: string): Color {
    if id in color then color[id] else White
  }

  ghost function Whites(deps: DepMap, color: Coloring): set<string> {
    set id <- deps.Keys | ColorIn(color, id) == White
  }

  /** The gray steps form a dependency path, outermost first. */
  ghost predicate PathOk(deps: DepMap, color: Coloring, path: seq<string>) {
    && (forall id :: ColorIn(color, id) == Gray <==> id in path)
    && (forall i :: 0 <= i < |path| ==> path[i] in deps)
    && (forall i :: 0 <= i < |path| - 1 ==> path[i+1] in deps[path[i]])
  }

  /** The black steps are ranked in finishing order, above everything they depend on. */
  ghost predicate RankOk(deps: DepMap, color: Coloring, rank: Ranking) {
    && (forall id :: ColorIn(color, id) == Black <==> id in rank)
    && (forall id :: id in rank ==> RankedAbove(deps, rank, id))
  }

  ghost predicate RankedAbove(deps: DepMap, rank: Ranking, id: string)
    requires id in rank
  {
    id in deps && rank[id] < |rank| && forall d :: d in deps[id] ==> d in rank && rank[d] < rank[id]
  }

  lemma PushGray(deps: DepMap, color: Coloring, path: seq<string>, rank: Ranking, id: string)
    requires PathOk(deps, color, path) && RankOk(deps, color, rank)
    requires id in deps && ColorIn(color, id) == White
    requires path != [] ==> id in deps[path[|path|-1]]
    ensures PathOk(deps, color[id := Gray], path + [id]) && RankOk(deps, color[id := Gray], rank)
    ensures Whites(deps, color[id := Gray]) == Whites(deps, color) - {id}
  {
    var color' := color[id := Gray];
    assert forall x :: ColorIn(color', x) == if x == id then Gray else ColorIn(color, x);
  }

  lemma PopBlack(deps: DepMap, color: Coloring, path: seq<string>, rank: Ranking, id: string)
    requires PathOk(deps, color, path + [id]) && RankOk(deps, color, rank) && id !in path
    requires id in deps && forall d <- deps[id] :: d in rank
    ensures PathOk(deps, color[id := Black], path)
    ensures RankOk(deps, color[id := Black], rank[id := |rank|])
    ensures Whites(deps, color[id := Black]) == Whites(deps, color)
  {
    var color', rank' := color[id := Black], rank[id := |rank|];
    assert ColorIn(color, id) == Gray;
    assert forall x :: ColorIn(color', x) == if x == id then Black else ColorIn(color, x);
    assert forall i :: 0 <= i < |path| ==> path[i] == (path + [id])[i];
    forall x | x in rank' ensures RankedAbove(deps, rank', x) {
      if x != id { assert RankedAbove(deps, rank, x); }
    }
  }

  lemma GrayClosesCycle(deps: DepMap, color: Coloring, path: seq<string>, dep: string)
    requires PathOk(deps, color, path) && ColorIn(color, dep) == Gray
    requires path != [] && dep in deps[path[|path|-1]]
    ensures OnCycle(deps, dep)
  {
    var k :| 0 <= k < |path| && path[k] == dep;
    assert IsCycle(deps, path[k..]) && path[k..][0] == dep;
  }

  /** The color map that checkAcyclic's visit closure updates. */
  class Search {
    const deps: DepMap
    var color: Coloring
    ghost var path: seq<string>
    ghost var rank: Ranking

    ghost predicate Valid()
      reads this
    {
      Closed(deps) && PathOk(deps, color, path) && RankOk(deps, color, rank)
    }

    constructor (deps: DepMap)
      requires Closed(deps)
      ensures Valid() && this.deps == deps && path == [] && rank == map[]
    {
      this.deps := deps;
      color, path, rank := map[], [], map[];
    }

    /** Explores one white step. It terminates because every call turns a white step gray. */
    method Visit(id: string) returns (r: Option<string>)
      requires Valid() && id in deps && ColorIn(color, id) == White
      requires path != [] ==> id in deps[path[|path|-1]]
      modifies this
      ensures r.None? ==> Valid() && path == old(path) && old(rank.Keys) + {id} <= rank.Keys
      ensures r.None? ==> Whites(deps, color) <= old(Whites(deps, color))
      ensures r.Some? ==> OnCycle(deps, r.value)
      decreases |Whites(deps, color)|
    {
      ghost var outer := path;
      ghost var whites := Whites(deps, color);
      PushGray(deps, color, path, rank, id);
      color := color[id := Gray];
      path := path + [id];
      var todo := deps[id];
      for i := 0 to |todo|
        invariant Valid() && path == outer + [id] && Whites(deps, color) <= whites - {id}
        invariant old(rank.Keys) <= rank.Keys
        invariant forall j :: 0 <= j < i ==> todo[j] in rank
      {
        var dep := todo[i];
        assert dep in deps[id];
        match ColorIn(color, dep)
        case Gray =>
          GrayClosesCycle(deps, color, path, dep);
          return Some(dep);
        case White =>
          SubsetSmaller(Whites(deps, color), whites, id);
          r := Visit(dep);
          if r.Some? {
            return;
          }
        case Black =>
      }
      PopBlack(deps, color, outer, rank, id);
      color := color[id := Black];
      path := outer;
      rank := rank[id := |rank|];
      return None;
    }
  }

  lemma SubsetSmaller(a: set<string>, b: set<string>, x: string)
    requires a <= b - {x} && x in b
    ensures |a| < |b|
  {
    SubsetSize(a, b - {x});
  }

  lemma {:induction false} SubsetSize(a: set<string>, b: set<string>)
    requires a <= b
    ensures |a| <= |b|
  {
    if a != {} {
      var x :| x in a;
      SubsetSize(a - {x}, b - {x});
    }
  }

  lemma AllRanked(deps: DepMap, color: Coloring, rank: Ranking)
    requires RankOk(deps, color, rank) && deps.Keys <= rank.Keys
    ensures Ranks(deps, rank)
  {
    forall id | id in deps ensures id in rank && forall d <- deps[id] :: d in rank && rank[d] < rank[id] {
      assert RankedAbove(deps, rank, id);
    }
  }

  /** checkAcyclic reports nothing exactly when the graph has no cycle; then it has ranked every
      step above its dependencies, and otherwise it names a step on a cycle. */
  method CheckAcyclic(steps: seq<Step>, deps: DepMap) returns (r: Option<string>, ghost rank: Ranking)
    requires Closed(deps) && deps.Keys == Ids(steps)
    ensures r.None? <==> Acyclic(deps)
    ensures r.None? ==> Ranks(deps, rank)
    ensures r.Some? ==> OnCycle(deps, r.value)
  {
    rank := map[];
    var search := new Search(deps);
    for i := 0 to |steps|
      invariant search.Valid() && search.path == [] && search.deps == deps
      invariant forall j :: 0 <= j < i ==> steps[j].id in search.rank
    {
      assert steps[i] in steps;
      if ColorIn(search.color, steps[i].id) == White {
        r := search.Visit(steps[i].id);
        if r.Some? {
          return;
        }
      }
    }
    r, rank := None, search.rank;
    AllRanked(deps, search.color, rank);
    RankedIsAcyclic(deps, rank);
  }

  /** The dependency map is the duplicate-free union of template, needs and route edges. */
  ghost predicate IsDeps(steps: seq<Step>, deps: DepMap) {
    && deps.Keys == Ids(steps)
    && (forall to <- deps :: NoDup(deps[to]))
    && (forall to, from {:trigger IsEdge(steps, from, to)} :: to in deps ==> (from in deps[to] <==> IsEdge(steps, from, to)))
  }

  /** A cycle stated on the edges themselves: each element needs the next, the last the first. */
  ghost predicate EdgeCycle(steps: seq<Step>, c: seq<string>) {
    && c != []
    && (forall i :: 0 <= i < |c| - 1 ==> IsEdge(steps, c[i+1], c[i]))
    && IsEdge(steps, c[0], c[|c|-1])
  }

  ghost predicate AllStepsOk(steps: seq<Step>) {
    forall s {:trigger StepOk(s, Ids(steps))} :: s in steps ==> StepOk(s, Ids(steps))
  }

  lemma EdgeEndsKnown(steps: seq<Step>, from: string, to: string)
    requires AllStepsOk(steps) && IsEdge(steps, from, to)
    ensures from in Ids(steps) && to in Ids(steps)
  {
    var s :| s in steps && StepEdge(s, from, to);
    assert StepOk(s, Ids(steps)) && s.id in Ids(steps);
  }

  lemma CycleIff(steps: seq<Step>, deps: DepMap, c: seq<string>)
    requires AllStepsOk(steps) && IsDeps(steps, deps)
    ensures IsCycle(deps, c) <==> EdgeCycle(steps, c)
  {
    if EdgeCycle(steps, c) {
      EdgeEndsKnown(steps, c[0], c[|c|-1]);
      forall i | 0 <= i < |c| - 1 ensures c[i] in deps {
        EdgeEndsKnown(steps, c[i+1], c[i]);
      }
    }
  }

  method CollectStep(table: DepTable, steps: seq<Step>, i: nat, ids: set<string>) returns (bad: Option<GraphError>)
    requires i < |steps| && ids == Ids(steps) && table.Valid() && Ids(steps[..i]) <= table.deps.Keys <= ids
    requires forall a, b :: table.Has(a, b) <==> EdgeUpto(steps, i, a, b)
    modifies table
    ensures bad.None? <==> StepOk(steps[i], ids)
    ensures bad.None? ==> table.Valid() && Ids(steps[..i+1]) <= table.deps.Keys <= ids
    ensures bad.None? ==> forall a, b :: table.Has(a, b) <==> EdgeUpto(steps, i + 1, a, b)
    ensures bad.Some? ==> Fault(bad.value, steps[i], ids)
  {
    assert steps[i] in steps;
    IdsStep(steps, i);
    bad := AddStep(table, steps[i], ids);
  }

  /** The loop of Deps over the steps: every edge, or the first problem. */
  method CollectEdges(steps: seq<Step>) returns (r: Result<DepMap, GraphError>)
    ensures r.Ok? <==> AllStepsOk(steps)
    ensures r.Ok? ==> IsDeps(steps, r.value)
    ensures r.Err? ==> !r.error.Cycle? && Justified(r.error, steps)
  {
    var ids := Ids(steps);
    var table := new DepTable();
    for i := 0 to |steps|
      invariant table.Valid() && fresh(table)
      invariant Ids(steps[..i]) <= table.deps.Keys <= ids
      invariant forall j :: 0 <= j < i ==> StepOk(steps[j], ids)
      invariant forall a, b :: table.Has(a, b) <==> EdgeUpto(steps, i, a, b)
    {
      var bad := CollectStep(table, steps, i, ids);
      if bad.Some? {
        FaultFails(bad.value, steps[i], ids);
        assert steps[i] in steps;
        return Err(bad.value);
      }
    }
    assert steps[..|steps|] == steps;
    TableIsDeps(steps, table.deps);
    return Ok(table.deps);
  }

  lemma FaultFails(e: GraphError, s: Step, ids: set<string>)
    requires Fault(e, s, ids)
    ensures !StepOk(s, ids) && !e.Cycle?
  {
  }

  lemma TableIsDeps(steps: seq<Step>, deps: DepMap)
    requires deps.Keys == Ids(steps) && forall to :: to in deps ==> NoDup(deps[to])
    requires forall a, b :: Holds(deps, a, b) <==> EdgeUpto(steps, |steps|, a, b)
    ensures IsDeps(steps, deps)
  {
    forall a, b ensures Holds(deps, a, b) <==> IsEdge(steps, a, b) {
      EdgeUptoAll(steps, |steps|, a, b);
    }
  }

  ghost predicate EdgeUpto(steps: seq<Step>, n: nat, a: string, b: string)
    requires n <= |steps|
  {
    n > 0 && (EdgeUpto(steps, n - 1, a, b) || StepEdge(steps[n-1], a, b))
  }

  lemma {:induction false} EdgeUptoAll(steps: seq<Step>, n: nat, a: string, b: string)
    requires n <= |steps|
    ensures EdgeUpto(steps, n, a, b) <==> IsEdge(steps[..n], a, b)
    ensures n == |steps| ==> (EdgeUpto(steps, n, a, b) <==> IsEdge(steps, a, b))
  {
    if n > 0 {
      EdgeUptoAll(steps, n - 1, a, b);
      assert steps[..n] == steps[..n-1] + [steps[n-1]];
    }
    assert n == |steps| ==> steps[..n] == steps;
  }

  lemma IdsStep(steps: seq<Step>, i: nat)
    requires i < |steps|
    ensures Ids(steps[..i+1]) == Ids(steps[..i]) + {steps[i].id}
  {
    assert steps[..i+1] == steps[..i] + [steps[i]];
  }

  /** Deps succeeds exactly when every step passes its checks and the edges form no cycle; it
      then returns exactly the edges, and an error names what is wrong. */
  method Deps(p: Pipeline) returns (r: Result<DepMap, GraphError>, ghost rank: Ranking)
    ensures r.Ok? <==> AllStepsOk(p.steps) && forall c :: !EdgeCycle(p.steps, c)
    ensures r.Ok? ==> IsDeps(p.steps, r.value) && Closed(r.value) && Ranks(r.value, rank)
    ensures r.Err? && r.error.Cycle? ==> exists c :: EdgeCycle(p.steps, c) && c[0] == r.error.step
    ensures r.Err? && !r.error.Cycle? ==> Justified(r.error, p.steps)
  {
    rank := map[];
    r := CollectEdges(p.steps);
    if r.Err? {
      return;
    }
    var deps := r.value;
    EdgesClosed(p.steps, deps);
    var cycle;
    cycle, rank := CheckAcyclic(p.steps, deps);
    forall c ensures IsCycle(deps, c) <==> EdgeCycle(p.steps, c) {
      CycleIff(p.steps, deps, c);
    }
    if cycle.Some? {
      return Err(Cycle(cycle.value)), rank;
    }
  }

  lemma EdgesClosed(steps: seq<Step>, deps: DepMap)
    requires deps.Keys == Ids(steps) && AllStepsOk(steps)
    requires forall to, from {:trigger IsEdge(steps, from, to)} :: to in deps && from in deps[to] ==> IsEdge(steps, from, to)
    ensures Closed(deps)
  {
    forall to, from | to in deps && from in deps[to] ensures from in deps {
      EdgeEndsKnown(steps, from, to);
    }
  }
}
