/** Pipelines as the registry stores them (internal/model/model.go). */
module Model {
  import opened Prelude
  import opened Json

  datatype Condition = Condition(
    field: string,
    equals: Option<Json>,
    notEquals: Option<Json>,
    oneOf: seq<Json>,
    matches: string,
    exist: bool)

  datatype Operator = OpEquals | OpNotEquals | OpIn | OpMatches | OpExists

  datatype Route = Route(when: Option<Condition>, isDefault: bool, target: string)

  datatype Step = Step(
    id: string,
    agentId: string,
    input: string,
    router: bool,
    routes: seq<Route>,
    needs: seq<string>)

  datatype Pipeline = Pipeline(id: string, inputs: seq<string>, steps: seq<Step>, output: string)

  function Ids(steps: seq<Step>): set<string> {
    set s <- steps :: s.id
  }

  function Targets(routes: seq<Route>): set<string> {
    set rt <- routes :: rt.target
  }
}
