/** Whole runs of the DAG engine (src/platform/dag_engine.py, execute): waves in order,
    the steps of a wave in any interleaving, any replies from the outside world. */
module DagExecution {
  import opened Conditions
  import opened DagModel
  import opened Prelude
  import opened StepRun
  import opened TopoSort

  datatype Status = Running | Completed | Failed

  datatype Run = Run(status: Status, wave: nat, ctx: Ctx, phases: seq<Phase>)

  /** Either the i-th step of the current wave takes its next action, or the gathered
      wave is inspected. */
  datatype Event = Move(i: nat, o: Outcome) | Inspect

  datatype Plan = Plan(steps: seq<DagStep>, order: seq<seq<string>>)

  ghost predicate ValidPlan(plan: Plan) {
    DistinctNames(plan.steps) && CorrectSchedule(GraphOf(plan.steps), plan.order)
  }

  /** Every scheduled name is a key of the step dictionary. */
  lemma Known(plan: Plan, k: nat, n: string)
    requires ValidPlan(plan) && k < |plan.order| && n in plan.order[k]
    ensures n in StepMap(plan.steps) && n in GraphOf(plan.steps)
    ensures GraphOf(plan.steps)[n] == StepMap(plan.steps)[n].dependsOn
  {
    assert Schedulable(GraphOf(plan.steps), n);
    assert ChainFrom(GraphOf(plan.steps), n, [n]);
    assert n in [n];
    GraphIsStepMap(plan.steps);
  }

  ghost function StepAt(plan: Plan, k: nat, i: nat): (step: DagStep)
    requires ValidPlan(plan) && k < |plan.order| && i < |plan.order[k]|
    ensures step.name == plan.order[k][i]
  {
    Known(plan, k, plan.order[k][i]);
    StepMap(plan.steps)[plan.order[k][i]]
  }

  ghost function Idles(n: nat): seq<Phase> { seq(n, _ => Idle) }

  ghost function Init(plan: Plan, ctx: Ctx): Run {
    if plan.order == [] then Run(Completed, 0, ctx, [])
    else Run(Running, 0, ctx, Idles(|plan.order[0]|))
  }

  /** Some ABORT step of the gathered wave raised. */
  ghost predicate Aborted(plan: Plan, s: Run)
    requires ValidPlan(plan) && Shaped(plan, s)
  {
    exists i :: 0 <= i < |s.phases| && s.phases[i] == Ended(true) && StepAt(plan, s.wave, i).onFailure.Abort?
  }

  ghost predicate Shaped(plan: Plan, s: Run) {
    s.wave < |plan.order| && |s.phases| == |plan.order[s.wave]|
  }

  ghost predicate AllEnded(s: Run) {
    forall i :: 0 <= i < |s.phases| ==> s.phases[i].Ended?
  }

  ghost predicate Enabled(plan: Plan, s: Run, e: Event) {
    && ValidPlan(plan) && s.status.Running? && Shaped(plan, s)
    && match e case Move(i, _) => i < |s.phases| case Inspect => AllEnded(s)
  }

  ghost function Next(plan: Plan, s: Run, e: Event): Run
    requires Enabled(plan, s, e)
  {
    match e
    case Move(i, o) =>
      var (ctx, p) := Act(StepAt(plan, s.wave, i), s.ctx, s.phases[i], o);
      s.(ctx := ctx, phases := s.phases[i := p])
    case Inspect =>
      if Aborted(plan, s) then s.(status := Failed)
      else if s.wave + 1 == |plan.order| then s.(status := Completed)
      else s.(wave := s.wave + 1, phases := Idles(|plan.order[s.wave + 1]|))
  }

  /** s' is reached from s by these events. */
  ghost predicate Reaches(plan: Plan, s: Run, events: seq<Event>, s': Run)
    decreases events
  {
    if events == [] then s' == s
    else Enabled(plan, s, events[0]) && Reaches(plan, Next(plan, s, events[0]), events[1..], s')
  }

  // ---- The safety invariant ----

  /** A FALLBACK step without a fallback configuration that can fail: its failure
      propagates but does not stop the run. */
  ghost predicate Unprotected(step: DagStep) {
    step.onFailure.Fallback? && step.fallback.None? && CanFail(step)
  }

  /** n was scheduled in some wave before k. */
  ghost predicate Before(plan: Plan, k: nat, n: string) {
    exists j :: 0 <= j < k && j < |plan.order| && n in plan.order[j]
  }

  /** n is an unprotected step. */
  ghost predicate MayBeLost(plan: Plan, n: string) {
    n in StepMap(plan.steps) && Unprotected(StepMap(plan.steps)[n])
  }

  ghost predicate Safe(plan: Plan, s: Run) {
    && ValidPlan(plan)
    && NoRepeats(s.ctx.completed)
    && (s.status.Running? ==> Shaped(plan, s) && SafeWave(plan, s))
    && (s.status.Completed? ==> SafeEnd(plan, s, |plan.order|))
    && (s.status.Failed? ==> Shaped(plan, s) && Aborted(plan, s))
  }

  /** Before wave k: every scheduled step is recorded or lost, and nothing else is recorded. */
  ghost predicate SafeEnd(plan: Plan, s: Run, k: nat) {
    && (forall n :: n in s.ctx.completed ==> Before(plan, k, n))
    && (forall n :: Before(plan, k, n) ==> n in s.ctx.completed || MayBeLost(plan, n))
  }

  ghost predicate SafeWave(plan: Plan, s: Run)
    requires ValidPlan(plan) && Shaped(plan, s)
  {
    var names := plan.order[s.wave];
    && (forall n :: n in s.ctx.completed ==>
          Before(plan, s.wave, n) || exists i :: 0 <= i < |names| && n == names[i] && s.phases[i].Ended?)
    && (forall n :: Before(plan, s.wave, n) ==> n in s.ctx.completed || MayBeLost(plan, n))
    && (forall i :: 0 <= i < |names| && s.phases[i].Ended? ==>
          names[i] in s.ctx.completed
          || (s.phases[i].raised && (StepAt(plan, s.wave, i).onFailure.Abort? || MayBeLost(plan, names[i]))))
  }

  lemma OneWaveOnly(plan: Plan, k: nat, i: nat)
    requires ValidPlan(plan) && k < |plan.order| && i < |plan.order[k]|
    ensures !Before(plan, k, plan.order[k][i])
    ensures forall j :: 0 <= j < |plan.order[k]| && plan.order[k][j] == plan.order[k][i] ==> j == i
  {
    var n := plan.order[k][i];
    forall j | 0 <= j < |plan.order| && n in plan.order[j] ensures j == k {
      OneWave(GraphOf(plan.steps), plan.order, j, k, n);
    }
    assert NoRepeats(plan.order[k]);
  }

  /** What one action of a step can do to the completion record. */
  lemma ActRecords(step: DagStep, ctx: Ctx, p: Phase, o: Outcome)
    ensures var (ctx', p') := Act(step, ctx, p, o);
      && (p.Ended? ==> ctx' == ctx && p' == p)
      && (ctx'.completed == ctx.completed || (ctx'.completed == ctx.completed + [step.name] && p'.Ended?))
      && (!p.Ended? && p'.Ended? && ctx'.completed == ctx.completed ==>
            p'.raised && (step.onFailure.Abort? || Unprotected(step)))
  {
    if p.Working? { SettleRaises(step, p.items, o.replies); }
  }

  lemma MoveIsSafe(plan: Plan, s: Run, i: nat, o: Outcome)
    requires Safe(plan, s) && Enabled(plan, s, Move(i, o))
    ensures Safe(plan, Next(plan, s, Move(i, o)))
  {
    var step := StepAt(plan, s.wave, i);
    var names := plan.order[s.wave];
    var s' := Next(plan, s, Move(i, o));
    ActRecords(step, s.ctx, s.phases[i], o);
    OneWaveOnly(plan, s.wave, i);
    Known(plan, s.wave, names[i]);
    if s'.ctx.completed != s.ctx.completed {
      assert names[i] !in s.ctx.completed;
    }
    forall n | n in s'.ctx.completed
      ensures Before(plan, s.wave, n) || exists j :: 0 <= j < |names| && n == names[j] && s'.phases[j].Ended?
    {
      if n in s.ctx.completed && !Before(plan, s.wave, n) {
        var j :| 0 <= j < |names| && n == names[j] && s.phases[j].Ended?;
        assert s'.phases[j].Ended?;
      } else if n !in s.ctx.completed {
        assert n == names[i] && s'.phases[i].Ended?;
      }
    }
  }

  lemma BeforeNext(plan: Plan, k: nat, n: string)
    requires k < |plan.order|
    ensures Before(plan, k + 1, n) <==> Before(plan, k, n) || n in plan.order[k]
  {
    if Before(plan, k + 1, n) {
      var j :| 0 <= j < k + 1 && n in plan.order[j];
      assert j < k ==> Before(plan, k, n);
    }
  }

  /** A gathered wave that was not aborted joins the waves before it. */
  lemma WaveIsDone(plan: Plan, s: Run)
    requires Safe(plan, s) && Enabled(plan, s, Inspect) && !Aborted(plan, s)
    ensures SafeEnd(plan, s, s.wave + 1)
  {
    var names := plan.order[s.wave];
    forall n | Before(plan, s.wave + 1, n) ensures n in s.ctx.completed || MayBeLost(plan, n) {
      if !Before(plan, s.wave, n) {
        BeforeNext(plan, s.wave, n);
        var i :| 0 <= i < |names| && names[i] == n;
        assert s.phases[i].Ended? && !(s.phases[i] == Ended(true) && StepAt(plan, s.wave, i).onFailure.Abort?);
      }
    }
    forall n | n in s.ctx.completed ensures Before(plan, s.wave + 1, n) {
      BeforeNext(plan, s.wave, n);
    }
  }

  lemma InspectIsSafe(plan: Plan, s: Run)
    requires Safe(plan, s) && Enabled(plan, s, Inspect)
    ensures Safe(plan, Next(plan, s, Inspect))
  {
    if !Aborted(plan, s) {
      WaveIsDone(plan, s);
    }
  }

  lemma {:induction false} RunsAreSafe(plan: Plan, s: Run, events: seq<Event>, s': Run)
    requires Safe(plan, s) && Reaches(plan, s, events, s')
    ensures Safe(plan, s')
    decreases events
  {
    if events != [] {
      match events[0]
      case Move(i, o) => MoveIsSafe(plan, s, i, o); RunsAreSafe(plan, Next(plan, s, events[0]), events[1..], s');
      case Inspect => InspectIsSafe(plan, s); RunsAreSafe(plan, Next(plan, s, events[0]), events[1..], s');
    }
  }

  lemma InitIsSafe(plan: Plan, ctx: Ctx)
    requires ValidPlan(plan) && ctx.completed == []
    ensures Safe(plan, Init(plan, ctx))
  {
  }

  // ---- The promises of a run ----

  ghost predicate Protected(plan: Plan) {
    forall s :: s in plan.steps ==> !Unprotected(s)
  }

  /** While a wave runs, every dependency of every step of it is in completed_steps unless
      that dependency is unprotected. No step is recorded twice. */
  lemma StartsAfterDependencies(plan: Plan, ctx: Ctx, events: seq<Event>, s: Run, i: nat, d: string)
    requires ValidPlan(plan) && ctx.completed == []
    requires Reaches(plan, Init(plan, ctx), events, s)
    requires s.status.Running? && Shaped(plan, s) && i < |s.phases|
    requires d in StepAt(plan, s.wave, i).dependsOn
    ensures (d in s.ctx.completed || MayBeLost(plan, d)) && NoRepeats(s.ctx.completed)
  {
    InitIsSafe(plan, ctx);
    RunsAreSafe(plan, Init(plan, ctx), events, s);
    var n := plan.order[s.wave][i];
    Known(plan, s.wave, n);
    DependenciesComeEarlier(GraphOf(plan.steps), plan.order, s.wave, n, d);
    assert Before(plan, s.wave, d);
  }

  /** A COMPLETED run has recorded the scheduled steps, each exactly once; without the
      fallback assumption the only scheduled steps missing are unprotected ones. */
  lemma CompletedMeansAllDone(plan: Plan, ctx: Ctx, events: seq<Event>, s: Run)
    requires ValidPlan(plan) && ctx.completed == []
    requires Reaches(plan, Init(plan, ctx), events, s) && s.status.Completed?
    ensures NoRepeats(s.ctx.completed)
    ensures forall n :: n in s.ctx.completed ==> Schedulable(GraphOf(plan.steps), n)
    ensures forall n :: Schedulable(GraphOf(plan.steps), n) ==> n in s.ctx.completed || MayBeLost(plan, n)
    ensures Protected(plan) ==>
      forall n :: n in s.ctx.completed <==> Schedulable(GraphOf(plan.steps), n)
  {
    InitIsSafe(plan, ctx);
    RunsAreSafe(plan, Init(plan, ctx), events, s);
    forall n ensures Schedulable(GraphOf(plan.steps), n) <==> Before(plan, |plan.order|, n) {}
  }

  /** From the moment an ABORT step has raised, no later wave starts and the only
      outcome left is FAILED. */
  lemma {:induction false} AbortIsFinal(plan: Plan, s: Run, events: seq<Event>, s': Run)
    requires ValidPlan(plan) && Shaped(plan, s) && Aborted(plan, s) && !s.status.Completed?
    requires Reaches(plan, s, events, s')
    ensures Shaped(plan, s') && s'.wave == s.wave && !s'.status.Completed?
    ensures s'.status.Running? && AllEnded(s') ==> Next(plan, s', Inspect).status == Failed
    decreases events
  {
    if events != [] {
      var t := Next(plan, s, events[0]);
      var i :| 0 <= i < |s.phases| && s.phases[i] == Ended(true) && StepAt(plan, s.wave, i).onFailure.Abort?;
      assert t.phases[i] == Ended(true) && t.wave == s.wave;
      assert Aborted(plan, t);
      AbortIsFinal(plan, t, events[1..], s');
    }
  }

  // ---- Every run ends, and how ----

  /** A possible event that is not a turn of a step that has already ended. */
  ghost predicate Productive(plan: Plan, s: Run, e: Event) {
    Enabled(plan, s, e) && (e.Move? ==> !s.phases[e.i].Ended?)
  }

  ghost predicate ProductiveRun(plan: Plan, s: Run, events: seq<Event>, s': Run)
    decreases events
  {
    if events == [] then s' == s
    else Productive(plan, s, events[0]) && ProductiveRun(plan, Next(plan, s, events[0]), events[1..], s')
  }

  ghost function ActionsLeft(p: Phase): nat {
    match p case Idle => 3 case Waiting(_) => 2 case Working(_, _) => 1 case Ended(_) => 0
  }

  ghost function AllActionsLeft(phases: seq<Phase>): nat {
    if phases == [] then 0 else AllActionsLeft(phases[..|phases| - 1]) + ActionsLeft(phases[|phases| - 1])
  }

  /** Three actions for every step of the waves from k on, and one inspection per wave. */
  ghost function WavesLeft(plan: Plan, k: nat): nat
    decreases |plan.order| - k
  {
    if k >= |plan.order| then 0 else 3 * |plan.order[k]| + 1 + WavesLeft(plan, k + 1)
  }

  ghost function EventsLeft(plan: Plan, s: Run): nat {
    if s.status.Running? then AllActionsLeft(s.phases) + 1 + WavesLeft(plan, s.wave + 1) else 0
  }

  lemma {:induction false} ActionTaken(phases: seq<Phase>, i: nat, p: Phase)
    requires i < |phases| && ActionsLeft(p) < ActionsLeft(phases[i])
    ensures AllActionsLeft(phases[i := p]) < AllActionsLeft(phases)
  {
    var n := |phases| - 1;
    if i < n {
      ActionTaken(phases[..n], i, p);
      assert phases[i := p][..n] == phases[..n][i := p];
    } else {
      assert phases[i := p][..n] == phases[..n];
    }
  }

  lemma {:induction false} IdlesLeft(n: nat)
    ensures AllActionsLeft(Idles(n)) == 3 * n
  {
    if n > 0 {
      IdlesLeft(n - 1);
      assert Idles(n)[..n - 1] == Idles(n - 1);
    }
  }

  lemma ProductiveShrinks(plan: Plan, s: Run, e: Event)
    requires Productive(plan, s, e)
    ensures EventsLeft(plan, Next(plan, s, e)) < EventsLeft(plan, s)
  {
    match e
    case Move(i, o) =>
      var p := Act(StepAt(plan, s.wave, i), s.ctx, s.phases[i], o).1;
      assert ActionsLeft(p) < ActionsLeft(s.phases[i]);
      ActionTaken(s.phases, i, p);
    case Inspect =>
      if s.wave + 1 < |plan.order| { IdlesLeft(|plan.order[s.wave + 1]|); }
  }

  /** No run goes on for ever: from the start at most three actions per scheduled step and
      one inspection per wave happen. */
  lemma {:induction false} RunsAreFinite(plan: Plan, s: Run, events: seq<Event>, s': Run)
    requires ProductiveRun(plan, s, events, s')
    ensures |events| + EventsLeft(plan, s') <= EventsLeft(plan, s)
    decreases events
  {
    if events != [] {
      ProductiveShrinks(plan, s, events[0]);
      RunsAreFinite(plan, Next(plan, s, events[0]), events[1..], s');
    }
  }

  /** A running state is never stuck, whatever the outside world answers. */
  lemma NeverStuck(plan: Plan, s: Run, o: Outcome) returns (e: Event)
    requires ValidPlan(plan) && s.status.Running? && Shaped(plan, s)
    ensures Productive(plan, s, e) && (e.Move? ==> e.o == o)
  {
    if AllEnded(s) { return Inspect; }
    var i :| 0 <= i < |s.phases| && !s.phases[i].Ended?;
    e := Move(i, o);
  }

  /** At some moment of the run an ABORT step of the wave has raised. */
  ghost predicate AbortRaised(plan: Plan, s: Run, events: seq<Event>)
    requires ValidPlan(plan)
    decreases events
  {
    || (Shaped(plan, s) && Aborted(plan, s))
    || (events != [] && Enabled(plan, s, events[0]) && AbortRaised(plan, Next(plan, s, events[0]), events[1..]))
  }

  lemma {:induction false} AbortDecides(plan: Plan, s: Run, events: seq<Event>, s': Run)
    requires Safe(plan, s) && Reaches(plan, s, events, s') && !s'.status.Running?
    requires s.status.Completed? ==> !(Shaped(plan, s) && Aborted(plan, s))
    ensures s'.status.Failed? <==> AbortRaised(plan, s, events)
    decreases events
  {
    if Shaped(plan, s) && Aborted(plan, s) {
      AbortIsFinal(plan, s, events, s');
    } else if events != [] {
      var t := Next(plan, s, events[0]);
      RunsAreSafe(plan, s, [events[0]], t);
      AbortDecides(plan, t, events[1..], s');
    }
  }

  /** A run in which every step has had its actions and every gathered wave was inspected,
      so that nothing is left to happen, has ended: FAILED exactly if an ABORT step raised,
      and COMPLETED otherwise. */
  lemma RunEnds(plan: Plan, ctx: Ctx, events: seq<Event>, s: Run)
    requires ValidPlan(plan) && ctx.completed == []
    requires Reaches(plan, Init(plan, ctx), events, s) && forall e :: !Productive(plan, s, e)
    ensures s.status == if AbortRaised(plan, Init(plan, ctx), events) then Failed else Completed
  {
    InitIsSafe(plan, ctx);
    RunsAreSafe(plan, Init(plan, ctx), events, s);
    if s.status.Running? {
      var e := NeverStuck(plan, s, Outcome(_ => Fail(""), false));
      assert false;
    }
    AbortDecides(plan, Init(plan, ctx), events, s);
  }

  /** In a world that answers well no action raises. */
  lemma GoodActEnds(step: DagStep, ctx: Ctx, p: Phase)
    requires !p.Ended?
    ensures Act(step, ctx, p, Outcome(_ => Good(map[]), false)).1 != Ended(true)
  {
    if p.Working? { SettleExtremes(step, p.items, _ => Good(map[])); }
  }

  /** From every running state in which no ABORT step has raised the run can still complete. */
  lemma {:induction false} CanComplete(plan: Plan, s: Run) returns (events: seq<Event>, s': Run)
    requires ValidPlan(plan) && s.status.Running? && Shaped(plan, s) && !Aborted(plan, s)
    ensures Reaches(plan, s, events, s') && s'.status.Completed?
    decreases EventsLeft(plan, s)
  {
    var e := NeverStuck(plan, s, Outcome(_ => Good(map[]), false));
    ProductiveShrinks(plan, s, e);
    var t := Next(plan, s, e);
    if e.Move? { GoodActEnds(StepAt(plan, s.wave, e.i), s.ctx, s.phases[e.i]); }
    var rest;
    if t.status.Running? {
      CompletionStaysOpen(plan, s, e);
      rest, s' := CanComplete(plan, t);
    } else {
      rest, s' := [], t;
    }
    ReachesCons(plan, s, e, rest, s');
    events := [e] + rest;
  }

  lemma CompletionStaysOpen(plan: Plan, s: Run, e: Event)
    requires Productive(plan, s, e) && !Aborted(plan, s) && Next(plan, s, e).status.Running?
    requires e.Move? ==> Next(plan, s, e).phases[e.i] != Ended(true)
    ensures Shaped(plan, Next(plan, s, e)) && !Aborted(plan, Next(plan, s, e))
  {
    var t := Next(plan, s, e);
    if e.Move? {
      forall j | 0 <= j < |t.phases| && t.phases[j] == Ended(true) ensures !StepAt(plan, t.wave, j).onFailure.Abort? {
        assert s.phases[j] == Ended(true);
      }
    }
  }

  // ---- What a step leaves behind stays ----

  /** The step named n has ended. */
  ghost predicate HasEnded(plan: Plan, s: Run, n: string) {
    || Before(plan, s.wave, n)
    || (Shaped(plan, s) && exists i :: 0 <= i < |s.phases| && plan.order[s.wave][i] == n && s.phases[i].Ended?)
  }

  lemma OthersKeepResult(step: DagStep, ctx: Ctx, p: Phase, o: Outcome, n: string)
    requires step.name != n || p.Ended?
    ensures Lookup(Act(step, ctx, p, o).0.results, n) == Lookup(ctx.results, n)
    ensures Act(step, ctx, p, o).0.input == ctx.input
  {
  }

  lemma EventKeepsResult(plan: Plan, s: Run, e: Event, n: string)
    requires Enabled(plan, s, e) && HasEnded(plan, s, n)
    ensures var t := Next(plan, s, e);
      HasEnded(plan, t, n) && Lookup(t.ctx.results, n) == Lookup(s.ctx.results, n)
  {
    var t := Next(plan, s, e);
    match e
    case Move(i, o) =>
      OneWaveOnly(plan, s.wave, i);
      if !Before(plan, s.wave, n) {
        var j :| 0 <= j < |s.phases| && plan.order[s.wave][j] == n && s.phases[j].Ended?;
        assert t.phases[j].Ended?;
      }
      OthersKeepResult(StepAt(plan, s.wave, i), s.ctx, s.phases[i], o, n);
    case Inspect =>
      BeforeNext(plan, s.wave, n);
  }

  /** Once a step has ended its result stays as it is to the end of the run. */
  lemma {:induction false} ResultsStay(plan: Plan, s: Run, events: seq<Event>, s': Run, n: string)
    requires Reaches(plan, s, events, s') && HasEnded(plan, s, n)
    ensures HasEnded(plan, s', n) && Lookup(s'.ctx.results, n) == Lookup(s.ctx.results, n)
    decreases events
  {
    if events != [] {
      EventKeepsResult(plan, s, events[0], n);
      ResultsStay(plan, Next(plan, s, events[0]), events[1..], s', n);
    }
  }

  /** A wave starts from the very context that the waves before it left. */
  lemma WaveInherits(plan: Plan, s: Run)
    requires Enabled(plan, s, Inspect)
    ensures Next(plan, s, Inspect).ctx == s.ctx
  {
  }

  // ---- Exactly which steps can go missing ----

  /** The step runs, with something to do, whatever the other steps wrote: no condition, or
      one that does not parse, and a MAP list that comes from the initial input. */
  ghost predicate AlwaysRuns(step: DagStep, input: Env) {
    && (step.condition.None? || step.condition.value.None?)
    && (IsMap(step) ==> step.mapOver !in step.inputMapping && Truthy(Lookup(input, step.mapOver)))
  }

  /** The outside world in which only the step named d fails. */
  ghost function OnlyFails(d: string, n: string): Outcome {
    if n == d then Outcome(_ => Fail(""), false) else Outcome(_ => Good(map[]), false)
  }

  /** An always running step has something to do when it starts working. */
  lemma HasWork(step: DagStep, ctx: Ctx)
    requires AlwaysRuns(step, ctx.input)
    ensures Runs(step, ctx) && (IsMap(step) ==> Items(step, ctx, BuildInput(step, ctx)) != [])
  {
    if IsMap(step) {
      var v := ctx.input[step.mapOver];
      UnmappedInputStays(step, ctx, step.mapOver);
      assert BuildInput(step, ctx)[step.mapOver] == v && Truthy(v);
      assert v.List? ==> v.xs != [];
    }
  }

  ghost function ThreeActs(step: DagStep, ctx: Ctx, o: Outcome): (Ctx, Phase) {
    var (one, p) := Act(step, ctx, Idle, o);
    var (two, q) := Act(step, one, p, o);
    Act(step, two, q, o)
  }

  /** In that world a step ends after three actions, raises only if it is d, and d is not
      recorded. */
  lemma OnlyLosesOne(step: DagStep, ctx: Ctx, d: string)
    requires step.name == d ==> Unprotected(step) && AlwaysRuns(step, ctx.input)
    requires d !in ctx.completed
    ensures var (ctx', p) := ThreeActs(step, ctx, OnlyFails(d, step.name));
      p.Ended? && (p.raised ==> step.name == d) && d !in ctx'.completed && ctx'.input == ctx.input
  {
    var items := Items(step, ctx, BuildInput(step, ctx));
    SettleExtremes(step, items, OnlyFails(d, step.name).replies);
    if step.name == d { HasWork(step, ctx); }
  }

  /** A running state in which d is unrecorded and nothing but d has raised. */
  ghost predicate Losing(plan: Plan, s: Run, d: string, input: Env) {
    && ValidPlan(plan) && s.status.Running? && Shaped(plan, s)
    && MayBeLost(plan, d) && AlwaysRuns(StepMap(plan.steps)[d], input)
    && s.ctx.input == input && d !in s.ctx.completed
    && forall j :: 0 <= j < |s.phases| && s.phases[j] == Ended(true) ==> plan.order[s.wave][j] == d
  }

  lemma StepLoses(plan: Plan, s: Run, i: nat, d: string, input: Env) returns (events: seq<Event>, s': Run)
    requires Losing(plan, s, d, input) && i < |s.phases| && s.phases[i].Idle?
    ensures Reaches(plan, s, events, s') && Losing(plan, s', d, input) && s'.wave == s.wave
    ensures s'.phases[i].Ended? && s'.phases == s.phases[i := s'.phases[i]]
  {
    var step := StepAt(plan, s.wave, i);
    var e := Move(i, OnlyFails(d, step.name));
    OnlyLosesOne(step, s.ctx, d);
    var s1 := Next(plan, s, e);
    var s2 := Next(plan, s1, e);
    s' := Next(plan, s2, e);
    ReachesCons(plan, s2, e, [], s');
    ReachesCons(plan, s1, e, [e], s');
    ReachesCons(plan, s, e, [e] + [e], s');
    events := [e] + ([e] + [e]);
  }

  lemma {:induction false} WaveLoses(plan: Plan, s: Run, i: nat, d: string, input: Env) returns (events: seq<Event>, s': Run)
    requires Losing(plan, s, d, input) && i <= |s.phases|
    requires forall j :: 0 <= j < |s.phases| ==> if j < i then s.phases[j].Ended? else s.phases[j].Idle?
    ensures Reaches(plan, s, events, s') && Losing(plan, s', d, input) && s'.wave == s.wave && AllEnded(s')
    decreases |s.phases| - i
  {
    if i == |s.phases| { return [], s; }
    var one, t := StepLoses(plan, s, i, d, input);
    var two;
    two, s' := WaveLoses(plan, t, i + 1, d, input);
    ReachesJoin(plan, s, one, t, two, s');
    events := one + two;
  }

  /** d's exception does not stop the run. */
  lemma NextWaveStarts(plan: Plan, s: Run, d: string, input: Env)
    requires Losing(plan, s, d, input) && AllEnded(s) && s.wave + 1 < |plan.order|
    ensures var t := Next(plan, s, Inspect);
      Losing(plan, t, d, input) && t.wave == s.wave + 1 && t.phases == Idles(|t.phases|)
  {
  }

  /** The run goes on to any later wave without d. */
  lemma {:induction false} RunLoses(plan: Plan, s: Run, d: string, input: Env, w: nat) returns (events: seq<Event>, s': Run)
    requires Losing(plan, s, d, input) && s.phases == Idles(|s.phases|) && s.wave <= w < |plan.order|
    ensures Reaches(plan, s, events, s') && Losing(plan, s', d, input) && s'.wave == w
    decreases w - s.wave
  {
    if s.wave == w { return [], s; }
    var one, t := WaveLoses(plan, s, 0, d, input);
    NextWaveStarts(plan, t, d, input);
    var u := Next(plan, t, Inspect);
    var two;
    two, s' := RunLoses(plan, u, d, input, w);
    ReachesCons(plan, t, Inspect, two, s');
    ReachesJoin(plan, s, one, t, [Inspect] + two, s');
    events := one + ([Inspect] + two);
  }

  /** Whatever a run does, n is recorded when wave w runs. */
  ghost predicate AlwaysRecorded(plan: Plan, ctx: Ctx, n: string, w: nat) {
    forall events, s :: Reaches(plan, Init(plan, ctx), events, s) && s.status.Running? && s.wave == w ==>
      n in s.ctx.completed
  }

  /** For a step that always runs: it is recorded in every run that gets to a later wave if
      and only if it is protected. */
  lemma RecordedIffProtected(plan: Plan, ctx: Ctx, k: nat, i: nat, w: nat)
    requires ValidPlan(plan) && ctx.completed == []
    requires k < w < |plan.order| && i < |plan.order[k]|
    requires AlwaysRuns(StepAt(plan, k, i), ctx.input)
    ensures AlwaysRecorded(plan, ctx, plan.order[k][i], w) <==> !Unprotected(StepAt(plan, k, i))
  {
    var n := plan.order[k][i];
    Known(plan, k, n);
    InitIsSafe(plan, ctx);
    if Unprotected(StepAt(plan, k, i)) {
      var events, s := RunLoses(plan, Init(plan, ctx), n, ctx.input, w);
      assert n !in s.ctx.completed;
    } else {
      forall events, s | Reaches(plan, Init(plan, ctx), events, s) && s.status.Running? && s.wave == w
        ensures n in s.ctx.completed
      {
        RunsAreSafe(plan, Init(plan, ctx), events, s);
        assert Before(plan, w, n);
      }
    }
  }

  ghost function PlainStep(name: string, deps: seq<string>, onFailure: OnFailure): DagStep {
    DagStep(name, deps, Task, None, map[], map[], "", AbortAll, 0, onFailure, None)
  }

  ghost function TwoSteps(): Plan {
    Plan([PlainStep("a", [], Fallback), PlainStep("b", ["a"], Abort)], [["a"], ["b"]])
  }

  lemma TwoStepsAreScheduled()
    ensures ValidPlan(TwoSteps())
  {
    var plan := TwoSteps();
    var g: Graph := map["a" := [], "b" := ["a"]];
    assert plan.steps[..1] == [PlainStep("a", [], Fallback)] && plan.steps[..1][..0] == [];
    assert GraphOf([]) == map[];
    assert GraphOf(plan.steps[..1]) == map["a" := []];
    assert GraphOf(plan.steps) == g;
    assert Ready(g, 0) == {} && "a" in g["b"];
    assert Ready(g, 1) == {"a"};
    assert Ready(g, 2) == {"a", "b"};
    assert Ready(g, 3) == {"a", "b"};
    assert Elements(["a"]) == {"a"} && Elements(["b"]) == {"b"};
    LevelWavesAreCorrect(g, plan.order);
  }

  /** FALLBACK without a configuration: the wave of "b" runs although its dependency "a"
      was never recorded. */
  lemma UnprotectedBreaksOrder(ctx: Ctx) returns (events: seq<Event>, s: Run)
    requires ctx.completed == []
    ensures ValidPlan(TwoSteps()) && Reaches(TwoSteps(), Init(TwoSteps(), ctx), events, s)
    ensures s.status.Running? && s.wave == 1
    ensures "a" in StepAt(TwoSteps(), 1, 0).dependsOn && "a" !in s.ctx.completed
  {
    var plan := TwoSteps();
    TwoStepsAreScheduled();
    StepMapAt(plan.steps, 0);
    StepMapAt(plan.steps, 1);
    events, s := RunLoses(plan, Init(plan, ctx), "a", ctx.input, 1);
  }

  lemma {:induction false} ReachesJoin(plan: Plan, s: Run, one: seq<Event>, t: Run, two: seq<Event>, u: Run)
    requires Reaches(plan, s, one, t) && Reaches(plan, t, two, u)
    ensures Reaches(plan, s, one + two, u)
    decreases one
  {
    if one == [] {
      assert one + two == two;
    } else {
      ReachesJoin(plan, Next(plan, s, one[0]), one[1..], t, two, u);
      assert (one + two)[1..] == one[1..] + two;
    }
  }

  lemma ReachesCons(plan: Plan, s: Run, e: Event, rest: seq<Event>, s': Run)
    requires Enabled(plan, s, e) && Reaches(plan, Next(plan, s, e), rest, s')
    ensures Reaches(plan, s, [e] + rest, s')
  {
    assert ([e] + rest)[0] == e && ([e] + rest)[1..] == rest;
  }
}
