/** Registered pipelines on which the owner loop stalls or loses a completion, whatever the agents
    answer and whatever else the JSON decoder does. */
module Examples {
  import opened Prelude
  import opened Json
  import opened Model
  import opened Scheduler
  import opened Reference
  import opened RunTheorems
  import opened Progress
  import opened Clearing
  import opened Drains
  import Runs
  import Stalls
  import Template
  import TemplateLaws
  import Routing
  import Paths
  import Text
  import Graph

  type Agents = (string, string) -> AgentResult

  /** The agent of these pipelines answers the text it is given. */
  ghost predicate Answers(agents: Agents, text: string) {
    agents("agent", text).AgentOk?
  }

  /** A template text without references that the decoder reads as the null document. */
  ghost predicate ReadsAsNull(text: string, codec: Codec) {
    Template.BraceFree(text) && codec.decode(Text.TrimSpace(text)) == Some(Null)
  }

  /** The text null is one, for any decoder that reads null as null. */
  lemma NullReadsAsNull(codec: Codec)
    requires codec.decode("null") == Some(Null)
    ensures ReadsAsNull("null", codec)
  {
    Text.TrimSpaceDropsBlank("", "null", "");
    assert "" + "null" + "" == "null";
  }

  // -------------------------------------------------------------- steps and routes

  function Agent(id: string, text: string, needs: seq<string>): Step {
    Step(id, "agent", text, false, [], needs)
  }

  const NEVER := Condition("x", None, None, [], "", true)

  /** A router whose condition asks for a field that a null input does not have. */
  function Router(id: string, input: string, loser: string, winner: string): Step {
    Step(id, "", input, true, Routes(loser, winner), [])
  }

  function Routes(loser: string, winner: string): seq<Route> {
    [Route(Some(NEVER), false, loser), Route(None, true, winner)]
  }

  lemma PlainInput(s: string, scope: Template.Scope, codec: Codec)
    requires Template.BraceFree(s)
    ensures Template.Parsed(s) == Ok([]) && Template.Resolved(s, scope, codec) == Ok(s)
  {
    var parts := [TemplateLaws.Literal(s)];
    assert parts[1..] == [];
    assert TemplateLaws.Render(parts) == s;
    TemplateLaws.RenderParses(parts);
    TemplateLaws.ResolveIsSubstitution(parts, scope, codec);
    assert TemplateLaws.PartRefs(parts) == [];
    assert TemplateLaws.Substituted(parts, scope, codec) == Ok(s + []);
  }

  lemma RouterChooses(input: string, loser: string, winner: string, codec: Codec)
    requires ReadsAsNull(input, codec)
    ensures Routing.Picked(Routes(loser, winner), input, codec, None) == Ok(winner)
  {
    assert Paths.Walk(Null, "x") == None;
    assert Routing.OperatorOf(NEVER) == Some(OpExists);
    assert Routing.Evaluate(NEVER, input, codec) == Ok(false);
    var rest := Routes(loser, winner)[1..];
    assert rest == [Route(None, true, winner)] && rest[1..] == [];
    assert Routing.Picked(rest[1..], input, codec, Some(winner)) == Ok(winner);
    assert Routing.Picked(rest, input, codec, None) == Ok(winner);
  }

  lemma RouterSkips(state: map<string, Status>, loser: string, winner: string)
    requires loser != winner
    ensures SkipLosers(state, Routes(loser, winner), winner) == state[loser := Skipped]
  {
    var routes := Routes(loser, winner);
    assert routes[..1] == [routes[0]] && routes[..1][..0] == [];
    assert SkipLosers(state, routes[..1][..0], winner) == state;
    assert SkipLosers(state, routes[..1], winner) == state[loser := Skipped];
  }

  lemma AgentStep(id: string, text: string, needs: seq<string>)
    requires Template.BraceFree(text)
    ensures Template.IsId(id) ==> Plain(Agent(id, text, needs))
    ensures forall from, to :: Graph.StepEdge(Agent(id, text, needs), from, to) <==> to == id && from in needs
    ensures forall ids :: Graph.StepOk(Agent(id, text, needs), ids) <==> id !in needs && forall n <- needs :: n in ids
  {
    PlainInput(text, Template.Scope(map[], map[]), Codec(_ => None, _ => "", _ => "", (_, _) => None));
    assert Graph.OutputIds([]) == [];
  }

  lemma RouterStep(id: string, input: string, loser: string, winner: string)
    requires Template.BraceFree(input)
    ensures Template.IsId(id) ==> Plain(Router(id, input, loser, winner))
    ensures forall from, to :: Graph.StepEdge(Router(id, input, loser, winner), from, to) <==> from == id && to in {loser, winner}
    ensures forall ids :: Graph.StepOk(Router(id, input, loser, winner), ids) <==> {loser, winner} <= ids
  {
    PlainInput(input, Template.Scope(map[], map[]), Codec(_ => None, _ => "", _ => "", (_, _) => None));
    assert Graph.OutputIds([]) == [];
    assert Targets(Routes(loser, winner)) == {loser, winner};
    RouterChecked(id, input, loser, winner);
  }

  lemma RouterChecked(id: string, input: string, loser: string, winner: string)
    ensures StepChecked(Router(id, input, loser, winner))
  {
    assert Routing.OperatorOf(NEVER) == Some(OpExists);
  }

  /** A step with a legal id, no references, and what its kind calls for. */
  ghost predicate Plain(s: Step) {
    Template.IsId(s.id) && Template.Parsed(s.input) == Ok([]) && StepChecked(s)
  }

  /** Plain steps with distinct ids and sound edges make a pipeline the registry accepts. */
  lemma PlainValidated(p: Pipeline)
    requires Template.IsId(p.id) && p.steps != [] && p.inputs == [] && p.output == ""
    requires forall i :: 0 <= i < |p.steps| ==> Plain(p.steps[i])
    requires forall i, j :: 0 <= i < j < |p.steps| ==> p.steps[i].id != p.steps[j].id
    requires Graph.AllStepsOk(p.steps) && forall c :: !Graph.EdgeCycle(p.steps, c)
    ensures Validated(p)
  {
    forall s | s in p.steps ensures RefsKnown(s.input, p) && StepChecked(s) && InputsKnown(s, p.inputs) {
      assert Plain(s);
    }
  }

  /** An agent or a router of these pipelines. */
  ghost predicate Simple(s: Step, text: string) {
    s == Agent(s.id, text, s.needs) || exists loser, winner :: s == Router(s.id, text, loser, winner)
  }

  predicate SimpleEdge(s: Step, from: string, to: string) {
    if s.router then from == s.id && to in Targets(s.routes) else to == s.id && from in s.needs
  }

  predicate SimpleOk(s: Step, ids: set<string>) {
    if s.router then Targets(s.routes) <= ids else s.id !in s.needs && forall m <- s.needs :: m in ids
  }

  lemma SimpleStep(s: Step, text: string)
    requires Template.BraceFree(text) && Simple(s, text) && Template.IsId(s.id)
    ensures Plain(s)
    ensures forall from, to :: Graph.StepEdge(s, from, to) <==> SimpleEdge(s, from, to)
    ensures forall ids :: Graph.StepOk(s, ids) <==> SimpleOk(s, ids)
  {
    if loser, winner :| s == Router(s.id, text, loser, winner) {
      RouterStep(s.id, text, loser, winner);
      assert Targets(Routes(loser, winner)) == {loser, winner};
    } else {
      AgentStep(s.id, text, s.needs);
    }
  }

  ghost predicate SimpleFine(s: Step, text: string, ids: set<string>) {
    Template.IsId(s.id) && Simple(s, text) && SimpleOk(s, ids)
  }

  ghost predicate EdgeListed(steps: seq<Step>, deps: Graph.DepMap, from: string, to: string) {
    to in deps ==> (from in deps[to] <==> exists s <- steps :: SimpleEdge(s, from, to))
  }

  /** Such steps, with different ids, whose edges are the ranked dependencies. */
  ghost predicate Sketch(text: string, steps: seq<Step>, deps: Graph.DepMap, rank: Graph.Ranking) {
    && steps != [] && Ids(steps) == deps.Keys && Graph.Ranks(deps, rank)
    && (forall i, j :: 0 <= i < j < |steps| ==> steps[i].id != steps[j].id)
    && (forall s <- steps :: SimpleFine(s, text, deps.Keys))
    && (forall to <- deps :: NoDup(deps[to]))
    && forall to, from :: EdgeListed(steps, deps, from, to)
  }

  lemma SketchSteps(text: string, steps: seq<Step>, deps: Graph.DepMap, rank: Graph.Ranking)
    requires Template.BraceFree(text) && Sketch(text, steps, deps, rank)
    ensures Graph.AllStepsOk(steps) && forall i :: 0 <= i < |steps| ==> Plain(steps[i])
  {
    forall s | s in steps ensures Plain(s) && Graph.StepOk(s, Ids(steps)) {
      assert SimpleFine(s, text, deps.Keys);
      SimpleStep(s, text);
    }
  }

  lemma SketchDeps(text: string, steps: seq<Step>, deps: Graph.DepMap, rank: Graph.Ranking)
    requires Template.BraceFree(text) && Sketch(text, steps, deps, rank)
    ensures Graph.IsDeps(steps, deps)
  {
    forall to, from | to in deps ensures from in deps[to] <==> Graph.IsEdge(steps, from, to) {
      assert EdgeListed(steps, deps, from, to);
      forall s | s in steps ensures Graph.StepEdge(s, from, to) <==> SimpleEdge(s, from, to) {
        assert SimpleFine(s, text, deps.Keys);
        SimpleStep(s, text);
      }
    }
  }

  /** The registry accepts a pipeline of such steps, and its plan is valid. */
  lemma SketchRegistered(text: string, p: Pipeline, w: Plan, rank: Graph.Ranking)
    requires Template.BraceFree(text) && Sketch(text, p.steps, w.deps, rank)
    requires p == Pipeline(p.id, [], p.steps, "") && Template.IsId(p.id)
    requires Mirrors(w.order, w.steps, p.steps) && w.inputs == map[] && w.output == ""
    ensures Validated(p) && IsPlan(w, p, map[]) && Valid(w)
  {
    SketchSteps(text, p.steps, w.deps, rank);
    SketchDeps(text, p.steps, w.deps, rank);
    NoEdgeCycle(p.steps, w.deps, rank);
    PlainValidated(p);
    PlanIsValid(p, map[], w);
  }

  /** Ranked dependencies have no cycle among the declared edges. */
  lemma NoEdgeCycle(steps: seq<Step>, deps: Graph.DepMap, rank: Graph.Ranking)
    requires Graph.AllStepsOk(steps) && Graph.IsDeps(steps, deps) && Graph.Ranks(deps, rank)
    ensures forall c :: !Graph.EdgeCycle(steps, c)
  {
    Graph.RankedIsAcyclic(deps, rank);
    forall c ensures !Graph.EdgeCycle(steps, c) { Graph.CycleIff(steps, deps, c); }
  }

  // ------------------------------------------------------------------ passes, events

  lemma AdmitFromStep(w: Plan, b: Board, i: nat)
    requires Known(w) && i < |w.order|
    ensures AdmitFrom(w, b, i) == AdmitFrom(w, AdmitOne(w, b, w.order[i]), i + 1)
  {
  }

  lemma PassOfTwo(w: Plan, b0: Board, b1: Board, b2: Board)
    requires Known(w) && |w.order| == 2
    requires AdmitOne(w, b0, w.order[0]) == b1 && AdmitOne(w, b1, w.order[1]) == b2
    ensures Admit(w, b0) == b2
  {
    AdmitFromStep(w, b0, 0);
    AdmitFromStep(w, b1, 1);
  }

  lemma PassOfFour(w: Plan, b0: Board, b1: Board, b2: Board, b3: Board, b4: Board)
    requires Known(w) && |w.order| == 4
    requires AdmitOne(w, b0, w.order[0]) == b1 && AdmitOne(w, b1, w.order[1]) == b2
    requires AdmitOne(w, b2, w.order[2]) == b3 && AdmitOne(w, b3, w.order[3]) == b4
    ensures Admit(w, b0) == b4
  {
    AdmitFromStep(w, b0, 0);
    AdmitFromStep(w, b1, 1);
    AdmitFromStep(w, b2, 2);
    AdmitFromStep(w, b3, 3);
  }

  /** The first event of a run. */
  lemma FirstEvent(w: Plan, e: Event)
    requires Known(w) && CanReceive(w, Start(w), e)
    ensures BoardAfter(w, [e]) == Some(Received(w, Admit(w, Start(w)), e.id, e.interrupted))
  {
    assert BoardAfter(w, []) == Some(Start(w));
    TraceStep(w, [], Start(w), e);
    assert [] + [e] == [e];
  }

  /** A visit to a step that is ready and whose input is a plain text starts it on that text. */
  lemma Launches(w: Plan, b: Board, id: string)
    requires id in w.steps && id in w.deps && id in b.pending && b.failure.None? && id !in b.state
    requires Template.BraceFree(w.steps[id].input) && DepStatus(b.state, w.deps[id]) == Ready
    ensures AdmitOne(w, b, id) ==
            b.(pending := b.pending - {id}, inflight := b.inflight[id := w.steps[id].input], launched := b.launched + [id])
  {
    PlainInput(w.steps[id].input, Template.Scope(w.inputs, b.outputs), w.codec);
  }

  /** A router without dependencies completes with the winner. */
  lemma RouterVerdict(w: Plan, table: Table, id: string, input: string, loser: string, winner: string)
    requires IsReference(w, table) && id in w.deps && w.deps[id] == [] && w.steps[id] == Router(id, input, loser, winner)
    requires ReadsAsNull(input, w.codec) && winner in w.steps && loser != winner
    ensures table[id].verdict == Done("", 0, winner) && Loses(w, table, id, loser)
  {
    PlainInput(input, Template.Scope(w.inputs, OutputsOf(table, w.deps[id])), w.codec);
    RouterChooses(input, loser, winner, w.codec);
    Runs.WorkMeans(w, id, input);
    assert table[id] == EntryOf(w, table, id);
    assert Targets(Routes(loser, winner)) == {loser, winner};
  }

  /** Four different legal step ids. */
  datatype Names = Names(a: string, b: string, c: string, d: string) {
    ghost predicate Distinct() {
      && Template.IsId(a) && Template.IsId(b) && Template.IsId(c) && Template.IsId(d)
      && a != b && a != c && a != d && b != c && b != d && c != d
    }
  }

  function FourPlan(n: Names, steps: seq<Step>, deps: Graph.DepMap, agents: Agents, codec: Codec): Plan
    requires |steps| == 4
  {
    Plan(map[n.a := steps[0], n.b := steps[1], n.c := steps[2], n.d := steps[3]], [n.a, n.b, n.c, n.d], deps, map[], "", agents, codec)
  }

  /** Four steps with the given ids, in order. */
  ghost predicate InOrder(steps: seq<Step>, n: Names) {
    |steps| == 4 && steps[0].id == n.a && steps[1].id == n.b && steps[2].id == n.c && steps[3].id == n.d
  }

  lemma OfFour(steps: seq<Step>, n: Names)
    requires n.Distinct() && InOrder(steps, n)
    ensures Ids(steps) == {n.a, n.b, n.c, n.d}
    ensures forall s :: s in steps <==> s == steps[0] || s == steps[1] || s == steps[2] || s == steps[3]
    ensures forall i, j :: 0 <= i < j < 4 ==> steps[i].id != steps[j].id
  {
    assert steps[0] in steps && steps[1] in steps && steps[2] in steps && steps[3] in steps;
  }

  lemma FourMirrors(n: Names, steps: seq<Step>, w: Plan)
    requires n.Distinct() && InOrder(steps, n) && w == FourPlan(n, steps, w.deps, w.agents, w.codec)
    ensures Mirrors(w.order, w.steps, steps)
  {
    OfFour(steps, n);
  }

  // --------------------------------------------------------- two independent steps

  function TwoPipeline(text: string, x: string, y: string): Pipeline {
    Pipeline("two", [], [Agent(x, text, []), Agent(y, text, [])], "")
  }

  function TwoPlan(text: string, x: string, y: string, agents: Agents, codec: Codec): Plan {
    Plan(map[x := Agent(x, text, []), y := Agent(y, text, [])], [x, y], map[x := [], y := []], map[], "", agents, codec)
  }

  ghost predicate TwoNames(x: string, y: string) {
    Template.IsId(x) && Template.IsId(y) && x != y
  }

  lemma TwoSketch(text: string, x: string, y: string, steps: seq<Step>)
    requires TwoNames(x, y) && steps == [Agent(x, text, []), Agent(y, text, [])]
    ensures Sketch(text, steps, map[x := [], y := []], map[x := 0, y := 0])
  {
    assert steps[0] in steps && steps[1] in steps;
  }

  lemma TwoRegistered(text: string, x: string, y: string, w: Plan)
    requires Template.BraceFree(text) && TwoNames(x, y) && w == TwoPlan(text, x, y, w.agents, w.codec)
    ensures Validated(TwoPipeline(text, x, y)) && IsPlan(w, TwoPipeline(text, x, y), map[]) && Valid(w)
  {
    var p := TwoPipeline(text, x, y);
    assert p.steps[0] in p.steps && p.steps[1] in p.steps;
    TwoSketch(text, x, y, p.steps);
    SketchRegistered(text, p, w, map[x := 0, y := 0]);
  }

  ghost function TwoStarted(text: string, x: string, y: string): Board {
    Board({}, map[], map[], map[], map[x := text, y := text], None, 0, [x, y])
  }

  lemma TwoPass(w: Plan, text: string, x: string, y: string, agents: Agents, codec: Codec)
    requires Template.BraceFree(text) && TwoNames(x, y) && w == TwoPlan(text, x, y, agents, codec) && Known(w)
    ensures Admit(w, Start(w)) == TwoStarted(text, x, y)
  {
    var b0 := Start(w);
    Launches(w, b0, x);
    var b1 := AdmitOne(w, b0, x);
    Launches(w, b1, y);
    var b2 := AdmitOne(w, b1, y);
    PassOfTwo(w, b0, b1, b2);
    assert b2.pending == {} && b2.inflight == map[x := text, y := text];
  }

  lemma TwoEnd(w: Plan, text: string, x: string, y: string, agents: Agents, codec: Codec, first: string, other: string)
    requires TwoNames(x, y) && w == TwoPlan(text, x, y, agents, codec) && Known(w) && Answers(agents, text)
    requires {first, other} == {x, y} && first != other
    ensures var b := Received(w, TwoStarted(text, x, y), first, false);
            LeavesInFlight(w, b) && other in b.inflight && other in b.launched && SkippedOutcome(other) in Finished(w, b).steps
  {
    var b := Received(w, TwoStarted(text, x, y), first, false);
    assert other in b.inflight && b.pending == {} && b.results.Keys == {first};
    var i := if other == x then 0 else 1;
    assert Collected(w.order, b.results)[i] == SkippedOutcome(other);
  }

  /** Two independent steps: whichever completes first ends the run, and the other, although
      started, is reported as SKIPPED. */
  lemma LostCompletion(text: string, x: string, y: string, agents: Agents, codec: Codec, first: string, other: string) returns (w: Plan)
    requires Template.BraceFree(text) && TwoNames(x, y) && Answers(agents, text) && {first, other} == {x, y} && first != other
    ensures Validated(TwoPipeline(text, x, y)) && IsPlan(w, TwoPipeline(text, x, y), map[])
    ensures w.agents == agents && w.codec == codec && Known(w)
    ensures var end := BoardAfter(w, [Event(first, false)]);
            && end.Some? && LeavesInFlight(w, end.value) && other in end.value.launched
            && SkippedOutcome(other) in Finished(w, end.value).steps
  {
    w := TwoPlan(text, x, y, agents, codec);
    TwoRegistered(text, x, y, w);
    TwoPass(w, text, x, y, agents, codec);
    assert x in Start(w).pending;
    FirstEvent(w, Event(first, false));
    TwoEnd(w, text, x, y, agents, codec, first, other);
  }

  // ----------------------------------------------------------------- a forward chain

  /** a needs b, b needs c, and the router d skips c in favour of a. */
  function KnotSteps(text: string, n: Names): seq<Step> {
    [Agent(n.a, text, [n.b]), Agent(n.b, text, [n.c]), Agent(n.c, text, []), Router(n.d, text, n.c, n.a)]
  }

  function KnotPipeline(text: string, n: Names): Pipeline { Pipeline("knot", [], KnotSteps(text, n), "") }

  function KnotDeps(n: Names): Graph.DepMap {
    map[n.a := [n.b, n.d], n.b := [n.c], n.c := [n.d], n.d := []]
  }

  ghost function KnotRank(n: Names): Graph.Ranking { map[n.d := 0, n.c := 1, n.b := 2, n.a := 3] }

  function KnotPlan(text: string, n: Names, agents: Agents, codec: Codec): Plan {
    FourPlan(n, KnotSteps(text, n), KnotDeps(n), agents, codec)
  }

  lemma KnotEdge(steps: seq<Step>, deps: Graph.DepMap, text: string, n: Names, from: string, to: string)
    requires n.Distinct() && steps == KnotSteps(text, n) && deps == KnotDeps(n)
    ensures EdgeListed(steps, deps, from, to)
  {
    OfFour(steps, n);
    assert Targets(Routes(n.c, n.a)) == {n.c, n.a};
  }

  lemma KnotFine(steps: seq<Step>, text: string, n: Names, s: Step)
    requires n.Distinct() && steps == KnotSteps(text, n) && s in steps
    ensures SimpleFine(s, text, {n.a, n.b, n.c, n.d})
  {
    assert Targets(Routes(n.c, n.a)) == {n.c, n.a};
  }

  lemma KnotDepsFine(n: Names)
    requires n.Distinct()
    ensures KnotDeps(n).Keys == {n.a, n.b, n.c, n.d} && Graph.Ranks(KnotDeps(n), KnotRank(n)) && forall to <- KnotDeps(n) :: NoDup(KnotDeps(n)[to])
  {
  }

  lemma KnotSketch(text: string, n: Names, steps: seq<Step>, deps: Graph.DepMap)
    requires n.Distinct() && steps == KnotSteps(text, n) && deps == KnotDeps(n)
    ensures Sketch(text, steps, deps, KnotRank(n))
  {
    OfFour(steps, n);
    KnotDepsFine(n);
    forall s | s in steps ensures SimpleFine(s, text, deps.Keys) { KnotFine(steps, text, n, s); }
    forall to, from ensures EdgeListed(steps, deps, from, to) { KnotEdge(steps, deps, text, n, from, to); }
  }

  lemma KnotRegistered(text: string, n: Names, w: Plan)
    requires Template.BraceFree(text) && n.Distinct() && w == KnotPlan(text, n, w.agents, w.codec)
    ensures Validated(KnotPipeline(text, n)) && IsPlan(w, KnotPipeline(text, n), map[]) && Valid(w) && Graph.Ranks(w.deps, KnotRank(n))
  {
    var steps := KnotSteps(text, n);
    KnotSketch(text, n, steps, w.deps);
    FourMirrors(n, steps, w);
    SketchRegistered(text, KnotPipeline(text, n), w, KnotRank(n));
  }

  ghost function KnotStarted(text: string, n: Names): Board {
    Board({n.a, n.b, n.c}, map[], map[], map[], map[n.d := text], None, 0, [n.d])
  }

  lemma KnotFirstPass(w: Plan, text: string, n: Names, agents: Agents, codec: Codec)
    requires Template.BraceFree(text) && n.Distinct() && w == KnotPlan(text, n, agents, codec) && Known(w)
    ensures Admit(w, Start(w)) == KnotStarted(text, n)
  {
    var b0 := Start(w);
    assert AdmitOne(w, b0, n.a) == b0 && AdmitOne(w, b0, n.b) == b0 && AdmitOne(w, b0, n.c) == b0;
    Launches(w, b0, n.d);
    var b1 := AdmitOne(w, b0, n.d);
    PassOfFour(w, b0, b0, b0, b0, b1);
    assert b1.pending == {n.a, n.b, n.c};
  }

  ghost function KnotRouted(n: Names): Board {
    Board({n.a, n.b, n.c}, map[n.d := Completed, n.c := Skipped],
          map[n.d := Outcome(n.d, Completed, "", NoError, 0)], map[n.d := ""], map[], None, 0, [n.d])
  }

  lemma KnotReceived(w: Plan, text: string, n: Names, agents: Agents, codec: Codec)
    requires ReadsAsNull(text, codec) && n.Distinct() && w == KnotPlan(text, n, agents, codec)
    ensures Received(w, KnotStarted(text, n), n.d, false) == KnotRouted(n)
  {
    RouterChooses(text, n.c, n.a, codec);
    RouterSkips(map[n.d := Completed], n.c, n.a);
    assert map[n.d := text] - {n.d} == map[];
  }

  ghost function KnotStuck(n: Names): Board { Dropped(Dropped(KnotRouted(n), n.b), n.c) }

  lemma KnotSecondPass(w: Plan, text: string, n: Names, agents: Agents, codec: Codec)
    requires n.Distinct() && w == KnotPlan(text, n, agents, codec) && Known(w)
    ensures Admit(w, KnotRouted(n)) == KnotStuck(n) && KnotStuck(n).pending == {n.a}
  {
    var b := KnotRouted(n);
    assert AdmitOne(w, b, n.a) == b && AdmitOne(w, b, n.b) == Dropped(b, n.b);
    assert AdmitOne(w, Dropped(b, n.b), n.c) == KnotStuck(n) && AdmitOne(w, KnotStuck(n), n.d) == KnotStuck(n);
    PassOfFour(w, b, b, Dropped(b, n.b), KnotStuck(n), KnotStuck(n));
  }

  lemma KnotRun(w: Plan, text: string, n: Names, agents: Agents, codec: Codec)
    requires ReadsAsNull(text, codec) && n.Distinct() && w == KnotPlan(text, n, agents, codec) && Known(w)
    ensures BoardAfter(w, [Event(n.d, false)]) == Some(KnotRouted(n)) && ExitFrom(w, KnotRouted(n)) == Stalled(KnotStuck(n))
  {
    KnotFirstPass(w, text, n, agents, codec);
    KnotReceived(w, text, n, agents, codec);
    assert n.a in Start(w).pending;
    FirstEvent(w, Event(n.d, false));
    KnotSecondPass(w, text, n, agents, codec);
  }

  lemma KnotReport(n: Names)
    requires n.Distinct()
    ensures Collected([n.a, n.b, n.c, n.d], KnotStuck(n).results) ==
            [SkippedOutcome(n.a), SkippedOutcome(n.b), SkippedOutcome(n.c), Outcome(n.d, Completed, "", NoError, 0)]
  {
  }

  lemma StalledRun(w: Plan, trace: seq<Event>, b: Board, a: Board)
    requires Known(w) && BoardAfter(w, trace) == Some(b) && ExitFrom(w, b) == Stalled(a)
    ensures ResultOf(w, trace) == Some(StalledResult(w, a))
  {
  }

  /** An acyclic pipeline that passes the registry's checks and stalls: a waits for b, which is
      skipped only after a was visited. */
  lemma StallReached(text: string, n: Names, agents: Agents, codec: Codec) returns (w: Plan)
    requires ReadsAsNull(text, codec) && n.Distinct()
    ensures Validated(KnotPipeline(text, n)) && IsPlan(w, KnotPipeline(text, n), map[])
    ensures w.agents == agents && w.codec == codec && Known(w)
    ensures ResultOf(w, [Event(n.d, false)]) == Some(RunResult("", 0,
              [SkippedOutcome(n.a), SkippedOutcome(n.b), SkippedOutcome(n.c), Outcome(n.d, Completed, "", NoError, 0)], Some(Stall)))
  {
    w := KnotPlan(text, n, agents, codec);
    KnotRegistered(text, n, w);
    KnotRun(w, text, n, agents, codec);
    KnotReport(n);
    StalledRun(w, [Event(n.d, false)], KnotRouted(n), KnotStuck(n));
  }

  lemma KnotTable(w: Plan, table: Table, text: string, n: Names)
    requires ReadsAsNull(text, w.codec) && n.Distinct() && w == KnotPlan(text, n, w.agents, w.codec) && IsReference(w, table)
    ensures IsDone(table, n.d) && table[n.d].verdict.target == n.a && IsSkip(table, n.a) && IsSkip(table, n.b) && IsSkip(table, n.c)
  {
    RouterVerdict(w, table, n.d, text, n.c, n.a);
    assert n.d in w.deps[n.c] && n.c in w.deps[n.b] && n.b in w.deps[n.a];
    assert table[n.c] == EntryOf(w, table, n.c);
    assert table[n.b] == EntryOf(w, table, n.b);
    assert table[n.a] == EntryOf(w, table, n.a);
  }

  /** d skips c and nothing else. */
  lemma KnotLosers(w: Plan, table: Table, text: string, n: Names, r: string, t: string)
    requires n.Distinct() && w == KnotPlan(text, n, w.agents, w.codec) && IsDone(table, n.d) && table[n.d].verdict.target == n.a
    ensures Loses(w, table, r, t) <==> r == n.d && t == n.c
  {
    assert Targets(Routes(n.c, n.a)) == {n.c, n.a};
  }

  lemma KnotUndecided(w: Plan, rank: Graph.Ranking, table: Table, n: Names)
    requires n.Distinct() && w.deps == KnotDeps(n) && Graph.Ranks(w.deps, rank) && !IsSkip(table, n.d)
    requires forall r, t :: Loses(w, table, r, t) ==> r == n.d && t == n.c
    ensures !Cleared(w, rank, table, {n.d}, n.b)
  {
    assert w.deps[n.b] == [n.c] && w.deps[n.c] == [n.d];
    assert !Cleared(w, rank, table, {n.d}, n.c);
  }

  /** It is one of the pipelines of which Stalls.StallsIf says so: a comes before b, which is not
      decided before d completes. */
  lemma KnotIsLate(w: Plan, table: Table, text: string, n: Names)
    requires ReadsAsNull(text, w.codec) && n.Distinct() && w == KnotPlan(text, n, w.agents, w.codec) && IsReference(w, table)
    requires Graph.Ranks(w.deps, KnotRank(n))
    ensures Stalls.NothingHalts(table) && Stalls.LateSkip(w, KnotRank(n), table, n.d, 0, 1, 0)
  {
    KnotTable(w, table, text, n);
    forall r, t ensures Loses(w, table, r, t) <==> r == n.d && t == n.c { KnotLosers(w, table, text, n, r, t); }
    KnotUndecided(w, KnotRank(n), table, n);
    assert Stalls.FirstSkip(w, table, n.a, 0);
  }

  // ----------------------------------------------------- one last step behind a router

  /** d needs c and b, and the router a skips d in favour of c; b runs on its own. */
  function ForkSteps(text: string, n: Names): seq<Step> {
    [Router(n.a, text, n.d, n.c), Agent(n.b, text, []), Agent(n.c, text, []), Agent(n.d, text, [n.c, n.b])]
  }

  function ForkPipeline(text: string, n: Names): Pipeline { Pipeline("fork", [], ForkSteps(text, n), "") }

  function ForkDeps(n: Names): Graph.DepMap {
    map[n.a := [], n.b := [], n.c := [n.a], n.d := [n.a, n.c, n.b]]
  }

  ghost function ForkRank(n: Names): Graph.Ranking { map[n.a := 0, n.b := 0, n.c := 1, n.d := 2] }

  function ForkPlan(text: string, n: Names, agents: Agents, codec: Codec): Plan {
    FourPlan(n, ForkSteps(text, n), ForkDeps(n), agents, codec)
  }

  lemma ForkEdge(steps: seq<Step>, deps: Graph.DepMap, text: string, n: Names, from: string, to: string)
    requires n.Distinct() && steps == ForkSteps(text, n) && deps == ForkDeps(n)
    ensures EdgeListed(steps, deps, from, to)
  {
    OfFour(steps, n);
    assert Targets(Routes(n.d, n.c)) == {n.d, n.c};
  }

  lemma ForkFine(steps: seq<Step>, text: string, n: Names, s: Step)
    requires n.Distinct() && steps == ForkSteps(text, n) && s in steps
    ensures SimpleFine(s, text, {n.a, n.b, n.c, n.d})
  {
    assert Targets(Routes(n.d, n.c)) == {n.d, n.c};
  }

  lemma ForkDepsFine(n: Names)
    requires n.Distinct()
    ensures ForkDeps(n).Keys == {n.a, n.b, n.c, n.d} && Graph.Ranks(ForkDeps(n), ForkRank(n)) && forall to <- ForkDeps(n) :: NoDup(ForkDeps(n)[to])
  {
  }

  lemma ForkSketch(text: string, n: Names, steps: seq<Step>, deps: Graph.DepMap)
    requires n.Distinct() && steps == ForkSteps(text, n) && deps == ForkDeps(n)
    ensures Sketch(text, steps, deps, ForkRank(n))
  {
    OfFour(steps, n);
    ForkDepsFine(n);
    forall s | s in steps ensures SimpleFine(s, text, deps.Keys) { ForkFine(steps, text, n, s); }
    forall to, from ensures EdgeListed(steps, deps, from, to) { ForkEdge(steps, deps, text, n, from, to); }
  }

  lemma ForkRegistered(text: string, n: Names, w: Plan)
    requires Template.BraceFree(text) && n.Distinct() && w == ForkPlan(text, n, w.agents, w.codec)
    ensures Validated(ForkPipeline(text, n)) && IsPlan(w, ForkPipeline(text, n), map[]) && Valid(w) && Graph.Ranks(w.deps, ForkRank(n))
  {
    var steps := ForkSteps(text, n);
    ForkSketch(text, n, steps, w.deps);
    FourMirrors(n, steps, w);
    SketchRegistered(text, ForkPipeline(text, n), w, ForkRank(n));
  }

  lemma ForkOneSink(w: Plan, n: Names)
    requires n.Distinct() && w.deps == ForkDeps(n)
    ensures AtMostOneSink(w)
  {
    forall x | Sink(w, x) ensures x == n.d {
      assert n.d in w.deps && (x in w.deps[n.d] || x == n.d);
    }
  }

  /** Steps without references always get their input. */
  lemma PlainResolves(w: Plan, table: Table)
    requires IsReference(w, table) && forall id :: id in w.steps ==> Template.BraceFree(w.steps[id].input)
    ensures Resolves(w, table)
  {
    forall id | id in table && id in w.deps && AllDone(w, table, id) ensures table[id] != Entry(Halted, None) {
      PlainInput(w.steps[id].input, Template.Scope(w.inputs, OutputsOf(table, w.deps[id])), w.codec);
      assert table[id] == EntryOf(w, table, id);
    }
  }

  /** Only d is skipped, and nothing that does not complete has another dependent. */
  lemma ForkTable(w: Plan, table: Table, text: string, n: Names)
    requires ReadsAsNull(text, w.codec) && n.Distinct() && w == ForkPlan(text, n, w.agents, w.codec) && IsReference(w, table)
    ensures Loses(w, table, n.a, n.d) && IsDone(table, n.a) && forall z :: IsSkip(table, z) <==> z == n.d
  {
    RouterVerdict(w, table, n.a, text, n.d, n.c);
    assert table[n.b] == EntryOf(w, table, n.b) && table[n.c] == EntryOf(w, table, n.c) && table[n.d] == EntryOf(w, table, n.d);
    assert n.a in w.deps[n.d];
  }

  lemma ForkOrdered(w: Plan, n: Names)
    requires n.Distinct() && w.deps == ForkDeps(n) && w.order == [n.a, n.b, n.c, n.d] && Graph.Ranks(w.deps, ForkRank(n))
    ensures ForwardSafe(w, ForkRank(n))
  {
    assert DeclaredInOrder(w);
  }

  lemma ForkSinks(w: Plan, table: Table, n: Names)
    requires n.Distinct() && w.deps == ForkDeps(n) && table.Keys == w.deps.Keys
    requires IsDone(table, n.a) && forall z :: IsSkip(table, z) <==> z == n.d
    ensures LiveSink(w, table, n.b) && LiveSink(w, table, n.c) && !InnerHalt(w, table)
  {
  }

  /** b and c are a lossy pair: the router decides d without either. */
  lemma ForkPair(w: Plan, table: Table, text: string, n: Names)
    requires ReadsAsNull(text, w.codec) && n.Distinct() && w == ForkPlan(text, n, w.agents, w.codec) && IsReference(w, table)
    requires Graph.Ranks(w.deps, ForkRank(n))
    ensures LossyPair(w, ForkRank(n), table, n.b, n.c) && !InnerHalt(w, table)
  {
    ForkTable(w, table, text, n);
    ForkSinks(w, table, n);
    assert n.a !in {n.b, n.c};
  }

  lemma ForkLoses(w: Plan, text: string, n: Names) returns (trace: seq<Event>)
    requires ReadsAsNull(text, w.codec) && n.Distinct() && w == ForkPlan(text, n, w.agents, w.codec)
    requires Valid(w) && Graph.Ranks(w.deps, ForkRank(n))
    ensures BoardAfter(w, trace).Some? && LeavesInFlight(w, BoardAfter(w, trace).value)
  {
    var rank := ForkRank(n);
    var table := ReferenceExists(w, rank);
    PlainResolves(w, table);
    ForkPair(w, table, text, n);
    ForkOrdered(w, n);
    trace := FirstLoss(w, rank, table, n.b, n.c);
  }

  /** With a router, a single last step does not save the others: it is skipped, and the loop leaves
      with the chosen branch still running. */
  lemma OneSinkLosesBehindRouter(text: string, n: Names, agents: Agents, codec: Codec) returns (w: Plan, trace: seq<Event>)
    requires ReadsAsNull(text, codec) && n.Distinct()
    ensures Validated(ForkPipeline(text, n)) && IsPlan(w, ForkPipeline(text, n), map[])
    ensures w.agents == agents && w.codec == codec && Known(w) && AtMostOneSink(w)
    ensures BoardAfter(w, trace).Some? && LeavesInFlight(w, BoardAfter(w, trace).value)
  {
    w := ForkPlan(text, n, agents, codec);
    ForkRegistered(text, n, w);
    ForkOneSink(w, n);
    trace := ForkLoses(w, text, n);
  }
}
