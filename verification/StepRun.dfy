/** One step of a DAG run (src/platform/dag_engine.py, _run_step) as three atomic
    actions separated by the points where the coroutine may be suspended: read the
    condition and the inputs, enter the semaphore, write the outcome. */
module StepRun {
  import opened Conditions
  import opened DagModel
  import opened Prelude

  /** The mutable part of a DagContext; `input` never changes during a run. */
  datatype Ctx = Ctx(input: Env, context: Env, results: Env, completed: seq<string>)

  /** What one dispatch call did. */
  datatype Reply = Good(result: Env) | Fail(error: string)

  /** What the outside world did to one step: one reply per attempt (per item for a
      MAP step) and whether saving the context raised afterwards. */
  datatype Outcome = Outcome(replies: nat -> Reply, saveFails: bool)

  datatype Phase = Idle | Waiting(input: Env) | Working(input: Env, items: seq<Value>) | Ended(raised: bool)

  // ---- Reading ----

  /** `ctx.context.get(src) or ctx.step_results.get(src)` */
  function Pick(ctx: Ctx, src: string): Value {
    if Truthy(Lookup(ctx.context, src)) then Lookup(ctx.context, src) else Lookup(ctx.results, src)
  }

  /** The destinations among `keys` that the input mapping finds a value for. */
  function Mapped(step: DagStep, ctx: Ctx, keys: set<string>): Env
    requires keys <= step.inputMapping.Keys
  {
    map dst | dst in keys && Pick(ctx, step.inputMapping[dst]) != Null :: Pick(ctx, step.inputMapping[dst])
  }

  function BuildInput(step: DagStep, ctx: Ctx): Env {
    ctx.input + Mapped(step, ctx, step.inputMapping.Keys)
  }

  predicate Runs(step: DagStep, ctx: Ctx) {
    step.condition.Some? ==> SafeEval(step.condition.value, ctx.context, ctx.input)
  }

  predicate IsMap(step: DagStep) { step.mapOver != "" && step.kind.Map? }

  /** The list a MAP step scatters over, read when the semaphore is entered. */
  function Items(step: DagStep, ctx: Ctx, input: Env): seq<Value> {
    if !IsMap(step) then []
    else
      var v := if Truthy(Lookup(input, step.mapOver)) then input[step.mapOver]
               else if step.mapOver in ctx.context then ctx.context[step.mapOver] else List([]);
      if v.List? then v.xs else [v]
  }

  // ---- Settling: retries, scatter-gather and the failure policy ----

  function FallbackResult(mapping: map<string, string>): Env {
    map k | k in mapping :: Str(mapping[k])
  }

  /** What a step that finally failed yields; None means the exception propagates. */
  function Policy(step: DagStep): Option<Env> {
    if step.onFailure.Fallback? && step.fallback.Some? then Some(FallbackResult(step.fallback.value))
    else if step.onFailure.Skip? then Some(map[])
    else None
  }

  function TryFrom(step: DagStep, replies: nat -> Reply, attempt: nat): Option<Env>
    requires attempt <= step.maxRetries
    decreases step.maxRetries - attempt
  {
    match replies(attempt)
    case Good(result) => Some(result)
    case Fail(_) => if attempt < step.maxRetries then TryFrom(step, replies, attempt + 1) else Policy(step)
  }

  function ItemValue(reply: Reply, i: nat): Value {
    match reply
    case Good(result) => Dict(result)
    case Fail(error) => Dict(map["__map_error__" := Str(error), "_map_index" := Num(i as real)])
  }

  function Settle(step: DagStep, items: seq<Value>, replies: nat -> Reply): Option<Env> {
    if IsMap(step) then
      if step.mapErrorPolicy.AbortAll? && exists i :: 0 <= i < |items| && replies(i).Fail? then Policy(step)
      else Some(map["results" := List(seq(|items|, i requires 0 <= i => ItemValue(replies(i), i)))])
    else if step.maxRetries < 0 then Some(map[])
    else TryFrom(step, replies, 0)
  }

  // ---- Writing ----

  function OutputsFor(step: DagStep, result: Env, keys: set<string>): Env
    requires keys <= step.outputMapping.Keys
  {
    map dst | dst in keys && step.outputMapping[dst] in result :: result[step.outputMapping[dst]]
  }

  function Outputs(step: DagStep, result: Env): Env {
    OutputsFor(step, result, step.outputMapping.Keys)
  }

  function Record(step: DagStep, ctx: Ctx, result: Env): Ctx {
    ctx.(context := ctx.context + Outputs(step, result),
         results := ctx.results[step.name := Dict(result)],
         completed := ctx.completed + [step.name])
  }

  // ---- The three actions ----

  function Begin(step: DagStep, ctx: Ctx): (Ctx, Phase) {
    if Runs(step, ctx) then (ctx, Waiting(BuildInput(step, ctx)))
    else (ctx.(completed := ctx.completed + [step.name]), Ended(false))
  }

  function Finish(step: DagStep, ctx: Ctx, items: seq<Value>, o: Outcome): (Ctx, Phase) {
    match Settle(step, items, o.replies)
    case Some(result) => (Record(step, ctx, result), Ended(o.saveFails))
    case None => (ctx, Ended(true))
  }

  /** The next action of a step in phase p. */
  function Act(step: DagStep, ctx: Ctx, p: Phase, o: Outcome): (Ctx, Phase) {
    match p
    case Idle => Begin(step, ctx)
    case Waiting(input) => (ctx, Working(input, Items(step, ctx, input)))
    case Working(input, items) => Finish(step, ctx, items, o)
    case Ended(_) => (ctx, p)
  }

  // ---- What retrying means ----

  /** With a reply among the allowed attempts the first one is the result; otherwise the
      failure policy decides. At most maxRetries + 1 attempts are looked at. */
  lemma {:induction false} RetriesTakeFirstReply(step: DagStep, replies: nat -> Reply, attempt: nat, good: nat)
    requires attempt <= step.maxRetries
    requires forall a :: attempt <= a < good ==> replies(a).Fail?
    ensures attempt <= good <= step.maxRetries && replies(good).Good? ==>
      TryFrom(step, replies, attempt) == Some(replies(good).result)
    ensures good > step.maxRetries ==> TryFrom(step, replies, attempt) == Policy(step)
    decreases step.maxRetries - attempt
  {
    if attempt < good && attempt < step.maxRetries {
      RetriesTakeFirstReply(step, replies, attempt + 1, good);
    }
  }

  /** The retry loop as written. `used` is the number of dispatch calls made. */
  method RunAttempts(step: DagStep, replies: nat -> Reply) returns (result: Option<Env>, used: nat)
    requires !(step.kind.Map? && step.mapOver != "")
    ensures result == Settle(step, [], replies)
    ensures used <= if step.maxRetries < 0 then 0 else step.maxRetries + 1
    ensures forall a :: 0 <= a < used - 1 ==> replies(a).Fail?
    ensures step.maxRetries >= 0 ==> used >= 1 && (replies(used - 1).Good? || used == step.maxRetries + 1)
  {
    used := 0;
    result := Some(map[]);
    while used <= step.maxRetries
      invariant step.maxRetries >= 0 ==> used <= step.maxRetries
      invariant step.maxRetries < 0 ==> used == 0 && result == Some(map[])
      invariant forall a :: 0 <= a < used ==> replies(a).Fail?
      invariant step.maxRetries >= 0 ==> TryFrom(step, replies, 0) == TryFrom(step, replies, used)
      decreases step.maxRetries - used
    {
      var reply := replies(used);
      used := used + 1;
      if reply.Good? { return Some(reply.result), used; }
      if used > step.maxRetries { return Policy(step), used; }
    }
  }

  /** The work of the step can fail at all: a MAP step that gathers errors never does, and
      neither does a step that is allowed no attempt. */
  predicate CanFail(step: DagStep) {
    if IsMap(step) then step.mapErrorPolicy.AbortAll? else step.maxRetries >= 0
  }

  lemma {:induction false} RaisesOnlyByPolicy(step: DagStep, replies: nat -> Reply, attempt: nat)
    requires attempt <= step.maxRetries
    ensures TryFrom(step, replies, attempt).None? ==> Policy(step).None?
    decreases step.maxRetries - attempt
  {
    if attempt < step.maxRetries { RaisesOnlyByPolicy(step, replies, attempt + 1); }
  }

  /** A raised exception means that the step can fail and the policy let it through: ABORT,
      or FALLBACK without a fallback configuration. */
  lemma SettleRaises(step: DagStep, items: seq<Value>, replies: nat -> Reply)
    ensures Settle(step, items, replies).None? ==>
      CanFail(step) && (step.onFailure.Abort? || (step.onFailure.Fallback? && step.fallback.None?))
  {
    if !IsMap(step) && step.maxRetries >= 0 { RaisesOnlyByPolicy(step, replies, 0); }
  }

  /** If everything fails, a step that can fail ends in its policy; if nothing does, it
      has a result. */
  lemma SettleExtremes(step: DagStep, items: seq<Value>, replies: nat -> Reply)
    ensures (forall a: nat :: replies(a).Fail?) && CanFail(step) && (IsMap(step) ==> items != []) ==>
      Settle(step, items, replies) == Policy(step)
    ensures (forall a: nat :: replies(a).Good?) ==> Settle(step, items, replies).Some?
  {
    if forall a: nat :: replies(a).Fail? {
      if IsMap(step) && items != [] {
        assert replies(0).Fail?;
      } else if !IsMap(step) && step.maxRetries >= 0 {
        RetriesTakeFirstReply(step, replies, 0, step.maxRetries + 1);
      }
    }
  }

  // ---- Data flow from step to step ----

  /** What one step writes under a context key, the next step reads under that key exactly
      if the value is true, or the step result of that name, or without one the initial
      input, happens to be equal: a false value is dropped for those. */
  lemma OutputReachesInput(up: DagStep, down: DagStep, ctx: Ctx, result: Env, x: string)
    requires x in down.inputMapping && down.inputMapping[x] in up.outputMapping
    requires up.outputMapping[down.inputMapping[x]] in result
    ensures var (key, input) := (down.inputMapping[x], BuildInput(down, Record(up, ctx, result)));
      var (v, other) := (result[up.outputMapping[key]], if key == up.name then Dict(result) else Lookup(ctx.results, key));
      (x in input && input[x] == v) <==>
        Truthy(v) || (other != Null && other == v) || (other == Null && x in ctx.input && ctx.input[x] == v)
  {
    assert down.inputMapping[x] in Outputs(up, result);
  }

  /** An output of zero under a key that nothing else defines arrives nowhere. */
  lemma ZeroIsDropped(up: DagStep, down: DagStep, ctx: Ctx)
    requires up.outputMapping == map["n" := "count"] && down.inputMapping == map["m" := "n"] && up.name != "n"
    requires "n" !in ctx.results && "m" !in ctx.input
    ensures var ctx' := Record(up, ctx, map["count" := Num(0.0)]);
      "n" in ctx'.context && ctx'.context["n"] == Num(0.0) && "m" !in BuildInput(down, ctx')
  {
  }

  /** Mapping the name of a step reads that step's whole result, unless the context holds
      a true value of that name. */
  lemma ResultReachesInput(up: DagStep, down: DagStep, ctx: Ctx, result: Env, x: string)
    requires x in down.inputMapping && down.inputMapping[x] == up.name
    requires !Truthy(Lookup(Record(up, ctx, result).context, up.name))
    ensures var input := BuildInput(down, Record(up, ctx, result)); x in input && input[x] == Dict(result)
  {
    var ctx' := Record(up, ctx, result);
    assert Pick(ctx', up.name) == Dict(result);
    assert x in Mapped(down, ctx', down.inputMapping.Keys);
  }

  /** Inputs that no mapping touches, or whose source holds nothing, are the initial ones. */
  lemma UnmappedInputStays(step: DagStep, ctx: Ctx, x: string)
    requires x in step.inputMapping ==>
      !Truthy(Lookup(ctx.context, step.inputMapping[x])) && Lookup(ctx.results, step.inputMapping[x]) == Null
    ensures x in BuildInput(step, ctx) <==> x in ctx.input
    ensures x in ctx.input ==> BuildInput(step, ctx)[x] == ctx.input[x]
  {
  }

  /** A MAP step yields one value per item, in item order; a failed item is recorded with
      its index under CONTINUE and sends the step to its failure policy under ABORT_ALL. */
  lemma MapGathersInOrder(step: DagStep, items: seq<Value>, replies: nat -> Reply)
    requires step.kind.Map? && step.mapOver != ""
    ensures (step.mapErrorPolicy.Continue? || forall i :: 0 <= i < |items| ==> replies(i).Good?) ==>
      exists xs :: Settle(step, items, replies) == Some(map["results" := List(xs)]) && Gathers(xs, items, replies)
    ensures step.mapErrorPolicy.AbortAll? && (exists i :: 0 <= i < |items| && replies(i).Fail?) ==>
      Settle(step, items, replies) == Policy(step)
  {
    var xs := seq(|items|, i requires 0 <= i => ItemValue(replies(i), i));
    assert Gathers(xs, items, replies);
  }

  ghost predicate Gathers(xs: seq<Value>, items: seq<Value>, replies: nat -> Reply) {
    && |xs| == |items|
    && forall i :: 0 <= i < |xs| ==>
         if replies(i).Good? then xs[i] == Dict(replies(i).result)
         else xs[i] == Dict(map["__map_error__" := Str(replies(i).error), "_map_index" := Num(i as real)])
  }

  /** A step that is no MAP step, or has nothing to map over, takes the first good reply
      within its attempts, else its policy, and nothing at all without attempts. */
  lemma PlainSettles(step: DagStep, items: seq<Value>, replies: nat -> Reply, good: nat)
    requires !step.kind.Map? || step.mapOver == ""
    requires forall a :: 0 <= a < good ==> replies(a).Fail?
    ensures good <= step.maxRetries && replies(good).Good? ==> Settle(step, items, replies) == Some(replies(good).result)
    ensures 0 <= step.maxRetries < good ==> Settle(step, items, replies) == Policy(step)
    ensures step.maxRetries < 0 ==> Settle(step, items, replies) == Some(map[])
  {
    if step.maxRetries >= 0 { RetriesTakeFirstReply(step, replies, 0, good); }
  }

  /** What a step that finally failed yields: with a fallback configuration its mapping, value
      for value as text; under SKIP nothing; otherwise the exception leaves the step. */
  lemma PolicyMeans(step: DagStep)
    ensures step.onFailure.Abort? ==> Policy(step) == None
    ensures step.onFailure.Skip? ==> Policy(step) == Some(map[])
    ensures step.onFailure.Fallback? && step.fallback.None? ==> Policy(step) == None
    ensures step.onFailure.Fallback? && step.fallback.Some? ==>
      && Policy(step).Some? && Policy(step).value.Keys == step.fallback.value.Keys
      && forall k :: k in step.fallback.value ==> Policy(step).value[k] == Str(step.fallback.value[k])
  {
  }

  /** A MAP step scatters over every element of the list its input holds, in order, or of
      the one its context holds where the input has nothing true; a value that is no list is
      the one item; without any there is none. */
  lemma MapScatters(step: DagStep, ctx: Ctx, input: Env)
    requires step.kind.Map? && step.mapOver != ""
    ensures var (own, shared) := (Lookup(input, step.mapOver), Lookup(ctx.context, step.mapOver));
      var items := Items(step, ctx, input);
      && (Truthy(own) && own.List? ==> items == own.xs)
      && (Truthy(own) && !own.List? ==> items == [own])
      && (!Truthy(own) && step.mapOver in ctx.context ==> items == if shared.List? then shared.xs else [shared])
      && (!Truthy(own) && step.mapOver !in ctx.context ==> items == [])
  {
  }

  // ---- Which steps run ----

  /** A step runs exactly if it has no condition, or one that does not parse, or one whose
      evaluation over the context overlaid by the input fails, or is true. Where and/or only
      occur in boolean position, true means true under the short-circuit rules. Otherwise
      the step is recorded, and nothing else happens. */
  lemma ConditionDecides(step: DagStep, ctx: Ctx)
    ensures Begin(step, ctx).1.Waiting? <==>
      || step.condition == None
      || step.condition == Some(None)
      || var r := Eval(step.condition.value.value, ctx.context + ctx.input); r.Err? || Truthy(r.value)
    ensures step.condition.Some? && step.condition.value.Some? && WellPlaced(step.condition.value.value, true) ==>
      var (e, env) := (step.condition.value.value, ctx.context + ctx.input);
      Begin(step, ctx).1.Waiting? <==>
        Eval(e, env).Err? || (ShortCircuit(e, env).Ok? && Truthy(ShortCircuit(e, env).value))
    ensures Begin(step, ctx).1.Waiting? ==> Begin(step, ctx).0 == ctx
    ensures !Begin(step, ctx).1.Waiting? ==>
      Begin(step, ctx) == (ctx.(completed := ctx.completed + [step.name]), Ended(false))
  {
    if step.condition.Some? && step.condition.value.Some? && WellPlaced(step.condition.value.value, true) {
      SafeEvalSpec(step.condition.value.value, ctx.context, ctx.input);
    }
  }

  // ---- The context object ----

  /** The context updated in place by the coroutines of a run. */
  class DagContext {
    const input: Env
    var context: Env
    var results: Env
    var completed: seq<string>

    ghost function View(): Ctx reads this { Ctx(input, context, results, completed) }

    constructor (initial: Env)
      ensures View() == Ctx(initial, initial, map[], [])
    {
      input, context, results, completed := initial, initial, map[], [];
    }

    /** Condition check and input mapping. */
    method BeginStep(step: DagStep) returns (p: Phase)
      modifies this
      ensures (View(), p) == Begin(step, old(View()))
      ensures p.Waiting? <==>
        || step.condition == None
        || step.condition == Some(None)
        || var r := Eval(step.condition.value.value, old(context) + input); r.Err? || Truthy(r.value)
      ensures p.Waiting? ==> View() == old(View())
      ensures !p.Waiting? ==> p == Ended(false) && View() == old(View()).(completed := old(completed) + [step.name])
    {
      ConditionDecides(step, View());
      if step.condition.Some? && !SafeEval(step.condition.value, context, input) {
        completed := completed + [step.name];
        return Ended(false);
      }
      var data := MapInputs(step, Ctx(input, context, results, completed));
      p := Waiting(data);
    }

    /** Output mapping, result and completion record. */
    method FinishStep(step: DagStep, items: seq<Value>, o: Outcome) returns (p: Phase)
      modifies this
      ensures (View(), p) == Finish(step, old(View()), items, o)
    {
      var settled := Settle(step, items, o.replies);
      if settled.None? { return Ended(true); }
      context := MapOutputs(step, context, settled.value);
      results := results[step.name := Dict(settled.value)];
      completed := completed + [step.name];
      p := Ended(o.saveFails);
    }
  }

  lemma MappedOneMore(step: DagStep, ctx: Ctx, keys: set<string>, dst: string)
    requires keys <= step.inputMapping.Keys && dst in step.inputMapping && dst !in keys
    ensures var val := Pick(ctx, step.inputMapping[dst]);
      ctx.input + Mapped(step, ctx, keys + {dst}) ==
        if val != Null then (ctx.input + Mapped(step, ctx, keys))[dst := val] else ctx.input + Mapped(step, ctx, keys)
  {
    var val := Pick(ctx, step.inputMapping[dst]);
    assert Mapped(step, ctx, keys + {dst}) ==
      if val != Null then Mapped(step, ctx, keys)[dst := val] else Mapped(step, ctx, keys);
  }

  /** The input-mapping loop. */
  method MapInputs(step: DagStep, ctx: Ctx) returns (data: Env)
    ensures data == BuildInput(step, ctx)
  {
    data := ctx.input;
    var todo, done := step.inputMapping.Keys, {};
    while todo != {}
      invariant todo !! done && todo + done == step.inputMapping.Keys
      invariant data == ctx.input + Mapped(step, ctx, done)
    {
      var dst :| dst in todo;
      MappedOneMore(step, ctx, done, dst);
      var val := Pick(ctx, step.inputMapping[dst]);
      if val != Null { data := data[dst := val]; }
      todo, done := todo - {dst}, done + {dst};
    }
  }

  lemma OutputsOneMore(step: DagStep, context: Env, result: Env, keys: set<string>, dst: string)
    requires keys <= step.outputMapping.Keys && dst in step.outputMapping && dst !in keys
    ensures var src := step.outputMapping[dst];
      context + OutputsFor(step, result, keys + {dst}) ==
        if src in result then (context + OutputsFor(step, result, keys))[dst := result[src]]
        else context + OutputsFor(step, result, keys)
  {
    var src := step.outputMapping[dst];
    assert OutputsFor(step, result, keys + {dst}) ==
      if src in result then OutputsFor(step, result, keys)[dst := result[src]] else OutputsFor(step, result, keys);
  }

  /** The output-mapping loop. */
  method MapOutputs(step: DagStep, context: Env, result: Env) returns (context': Env)
    ensures context' == context + Outputs(step, result)
  {
    context' := context;
    var todo, done := step.outputMapping.Keys, {};
    while todo != {}
      invariant todo !! done && todo + done == step.outputMapping.Keys
      invariant context' == context + OutputsFor(step, result, done)
    {
      var dst :| dst in todo;
      OutputsOneMore(step, context, result, done, dst);
      var src := step.outputMapping[dst];
      if src in result { context' := context'[dst := result[src]]; }
      todo, done := todo - {dst}, done + {dst};
    }
  }
}
