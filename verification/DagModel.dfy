/** The records of a DAG definition (src/models/dag.py), reduced to the fields the
    engine reads. */
module DagModel {
  import opened Conditions
  import opened Prelude

  datatype OnFailure = Abort | Skip | Fallback

  datatype MapErrorPolicy = AbortAll | Continue

  datatype StepKind = Task | Dispatch | Collector | Map

  /** One step. `condition` is the parsed condition: None when the step has none,
      Some(None) when its text does not parse. `mapOver` is "" when unset. */
  datatype DagStep = DagStep(
    name: string,
    dependsOn: seq<string>,
    kind: StepKind,
    condition: Option<Option<Expr>>,
    inputMapping: map<string, string>,
    outputMapping: map<string, string>,
    mapOver: string,
    mapErrorPolicy: MapErrorPolicy,
    maxRetries: int,
    onFailure: OnFailure,
    fallback: Option<map<string, string>>)

  ghost predicate DistinctNames(steps: seq<DagStep>) {
    forall i, j :: 0 <= i < j < |steps| ==> steps[i].name != steps[j].name
  }

  /** The dictionary from step name to step, built in list order. */
  function StepMap(steps: seq<DagStep>): (m: map<string, DagStep>)
    ensures m.Keys == set s | s in steps :: s.name
    ensures forall n :: n in m ==> m[n].name == n && m[n] in steps
  {
    if steps == [] then map[]
    else
      var last := steps[|steps| - 1];
      assert forall s :: s in steps <==> s in steps[..|steps| - 1] || s == last;
      StepMap(steps[..|steps| - 1])[last.name := last]
  }

  lemma StepMapAt(steps: seq<DagStep>, i: nat)
    requires DistinctNames(steps) && i < |steps|
    ensures steps[i].name in StepMap(steps) && StepMap(steps)[steps[i].name] == steps[i]
  {
    assert steps[i] in steps;
  }
}
