/** The meaning of a pipeline independent of any schedule: one verdict per step, fixed by the
    verdicts of the steps it depends on. */
module Reference {
  import opened Prelude
  import opened Model
  import opened Scheduler
  import Template
  import Routing
  import Graph

  /** A plan built from a pipeline that passed registry validation. */
  ghost predicate Valid(w: Plan) {
    && Known(w) && Graph.Closed(w.deps)
    && NoDup(w.order) && Elements(w.order) == w.steps.Keys
    && "" !in w.steps
    && (forall id {:trigger StepFine(w, id)} :: id in w.steps ==> StepFine(w, id))
    && (forall r, t :: RoutesTo(w, r, t) ==> t in w.deps && r in w.deps[t])
  }

  /** The step's template parses, the inputs it mentions are in scope, and the steps it mentions
      are among its dependencies. */
  ghost predicate StepFine(w: Plan, id: string) {
    && id in w.steps && id in w.deps && w.steps[id].id == id
    && Template.Parsed(w.steps[id].input).Ok?
    && InputsDeclared(w, Template.Parsed(w.steps[id].input).value)
    && forall m :: m in Graph.Mentions(w.steps[id]) ==> m in w.deps[id]
  }

  ghost predicate InputsDeclared(w: Plan, refs: seq<Template.Ref>) {
    forall i :: 0 <= i < |refs| ==> refs[i].InputRef? ==> refs[i].name in w.inputs
  }

  ghost predicate RoutesTo(w: Plan, r: string, t: string) {
    r in w.steps && w.steps[r].router && t in Targets(w.steps[r].routes)
  }

  /** A step's verdict: it completes with an output, tokens and (for a router) a chosen target;
      or it is skipped; or it cannot complete because it, or a step before it, fails. */
  datatype Verdict = Done(output: string, tokens: int, target: string) | Skip | Halted

  /** A verdict with the resolved input, for a step that gets as far as being started. */
  datatype Entry = Entry(verdict: Verdict, input: Option<string>)

  type Table = map<string, Entry>

  ghost predicate IsDone(table: Table, id: string) {
    id in table && table[id].verdict.Done?
  }

  ghost predicate IsSkip(table: Table, id: string) {
    id in table && table[id].verdict.Skip?
  }

  /** Router r completes and chooses another target than t. */
  ghost predicate Loses(w: Plan, table: Table, r: string, t: string) {
    RoutesTo(w, r, t) && IsDone(table, r) && table[r].verdict.target != t
  }

  ghost function OutputsOf(table: Table, deps: seq<string>): map<string, string> {
    map d | d in deps && IsDone(table, d) :: table[d].verdict.output
  }

  ghost function InputOf(w: Plan, table: Table, id: string): Result<string, Template.Error>
    requires id in w.steps && id in w.deps
  {
    Template.Resolved(w.steps[id].input, Template.Scope(w.inputs, OutputsOf(table, w.deps[id])), w.codec)
  }

  /** The route chosen for the input leads to t. */
  ghost predicate RoutedTo(w: Plan, id: string, input: string, t: string)
    requires id in w.steps
  {
    exists k: nat :: Routing.Chosen(w.steps[id].routes, k, input, w.codec) && t == w.steps[id].routes[k].target
  }

  /** The verdict of a step started on an input and left to finish: an agent step has its agent's answer,
      a router the step its chosen route leads to, and neither completes otherwise. */
  ghost function WorkVerdict(w: Plan, id: string, input: string): Verdict
    requires id in w.steps
  {
    if w.steps[id].router then
      if exists t :: t in w.steps && RoutedTo(w, id, input, t) then
        var t :| t in w.steps && RoutedTo(w, id, input, t);
        Done("", 0, t)
      else Halted
    else
      match w.agents(w.steps[id].agentId, input)
      case AgentOk(output, tokens) => Done(output, tokens, "")
      case AgentErr(_) => Halted
  }

  ghost predicate MustBeSkipped(w: Plan, table: Table, id: string)
    requires id in w.deps
  {
    exists d :: d in w.deps[id] && (IsSkip(table, d) || Loses(w, table, d, id))
  }

  ghost predicate AllDone(w: Plan, table: Table, id: string)
    requires id in w.deps
  {
    forall d :: d in w.deps[id] ==> IsDone(table, d)
  }

  /** A step is skipped when a dependency is skipped or a router targeting it chose otherwise;
      it runs when all its dependencies completed; and it halts otherwise. */
  ghost function EntryOf(w: Plan, table: Table, id: string): Entry
    requires id in w.steps && id in w.deps
  {
    if MustBeSkipped(w, table, id) then Entry(Skip, None)
    else if !AllDone(w, table, id) then Entry(Halted, None)
    else
      match InputOf(w, table, id)
      case Err(_) => Entry(Halted, None)
      case Ok(input) => Entry(WorkVerdict(w, id, input), Some(input))
  }

  /** The table solves every step's equation. */
  ghost predicate IsReference(w: Plan, table: Table) {
    && table.Keys == w.deps.Keys == w.steps.Keys
    && forall id {:trigger EntryOf(w, table, id)} :: id in w.deps ==> table[id] == EntryOf(w, table, id)
  }

  // ------------------------------------------------------- the table exists, once

  ghost predicate AgreeOn(a: Table, b: Table, ids: seq<string>) {
    forall d :: d in ids ==> d in a && d in b && a[d] == b[d]
  }

  lemma EntryLocal(w: Plan, a: Table, b: Table, id: string)
    requires id in w.steps && id in w.deps && AgreeOn(a, b, w.deps[id])
    ensures EntryOf(w, a, id) == EntryOf(w, b, id)
  {
    assert OutputsOf(a, w.deps[id]) == OutputsOf(b, w.deps[id]);
  }

  ghost predicate Below(w: Plan, rank: Graph.Ranking, k: nat, table: Table)
    requires Graph.Ranks(w.deps, rank)
  {
    && (forall id :: id in table <==> id in w.deps && rank[id] < k)
    && (forall id :: id in table ==> id in w.steps && table[id] == EntryOf(w, table, id))
  }

  lemma NextLevel(w: Plan, rank: Graph.Ranking, k: nat, table: Table) returns (next: Table)
    requires w.steps.Keys == w.deps.Keys && Graph.Ranks(w.deps, rank) && Graph.Closed(w.deps)
    requires Below(w, rank, k, table)
    ensures Below(w, rank, k + 1, next)
  {
    next := map id | id in w.deps && rank[id] < k + 1 ::
      if id in table then table[id] else EntryOf(w, table, id);
    forall id | id in next ensures next[id] == EntryOf(w, next, id) {
      forall d | d in w.deps[id] ensures d in table && d in next && table[d] == next[d] {
        assert d in rank && rank[d] < rank[id];
      }
      EntryLocal(w, table, next, id);
    }
  }

  lemma {:induction false} Levels(w: Plan, rank: Graph.Ranking, k: nat) returns (table: Table)
    requires w.steps.Keys == w.deps.Keys && Graph.Ranks(w.deps, rank) && Graph.Closed(w.deps)
    ensures Below(w, rank, k, table)
  {
    if k == 0 {
      table := map[];
    } else {
      var t := Levels(w, rank, k - 1);
      table := NextLevel(w, rank, k - 1, t);
    }
  }

  lemma {:induction false} RankBound(ids: set<string>, rank: Graph.Ranking) returns (k: nat)
    requires ids <= rank.Keys
    ensures forall id <- ids :: rank[id] < k
  {
    if ids == {} {
      k := 0;
    } else {
      var x :| x in ids;
      var k' := RankBound(ids - {x}, rank);
      k := if rank[x] < k' then k' else rank[x] + 1;
    }
  }

  /** Every acyclic plan has a reference table. */
  lemma ReferenceExists(w: Plan, rank: Graph.Ranking) returns (table: Table)
    requires w.steps.Keys == w.deps.Keys && Graph.Ranks(w.deps, rank) && Graph.Closed(w.deps)
    ensures IsReference(w, table)
  {
    var k := RankBound(w.deps.Keys, rank);
    table := Levels(w, rank, k);
    assert table.Keys == w.deps.Keys;
  }

  lemma {:induction false} SameEntry(w: Plan, rank: Graph.Ranking, a: Table, b: Table, id: string)
    requires Graph.Ranks(w.deps, rank) && Graph.Closed(w.deps)
    requires IsReference(w, a) && IsReference(w, b) && id in w.deps
    ensures a[id] == b[id]
    decreases rank[id]
  {
    forall d | d in w.deps[id] ensures d in a && d in b && a[d] == b[d] {
      SameEntry(w, rank, a, b, d);
    }
    EntryLocal(w, a, b, id);
  }

  /** ... and only one. */
  lemma ReferenceUnique(w: Plan, rank: Graph.Ranking, a: Table, b: Table)
    requires Graph.Ranks(w.deps, rank) && Graph.Closed(w.deps)
    requires IsReference(w, a) && IsReference(w, b)
    ensures a == b
  {
    forall id | id in a ensures a[id] == b[id] {
      SameEntry(w, rank, a, b, id);
    }
  }
}
