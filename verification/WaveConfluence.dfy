/** Steps of one wave run concurrently (src/platform/dag_engine.py, execute): when no
    step touches a key a sibling writes, the order of their actions does not matter. */
module WaveConfluence {
  import opened Conditions
  import opened DagModel
  import opened Prelude
  import opened StepRun

  /** What the outside world answers a step, as a function of what the step sends. */
  type World = (string, Env, seq<Value>) -> Outcome

  datatype WaveState = WaveState(ctx: Ctx, phases: seq<Phase>)

  ghost function Step(wave: seq<DagStep>, s: WaveState, i: nat, world: World): WaveState
    requires i < |wave| == |s.phases|
  {
    var p := s.phases[i];
    var o := if p.Working? then world(wave[i].name, p.input, p.items) else world("", map[], []);
    var (ctx, p') := Act(wave[i], s.ctx, p, o);
    WaveState(ctx, s.phases[i := p'])
  }

  ghost predicate ValidSchedule(wave: seq<DagStep>, schedule: seq<nat>) {
    forall t :: 0 <= t < |schedule| ==> schedule[t] < |wave|
  }

  /** A schedule names, action by action, the step that moves. */
  ghost function RunSchedule(wave: seq<DagStep>, s: WaveState, schedule: seq<nat>, world: World): WaveState
    requires |s.phases| == |wave| && ValidSchedule(wave, schedule)
    ensures |RunSchedule(wave, s, schedule, world).phases| == |wave|
    decreases schedule
  {
    if schedule == [] then s
    else RunSchedule(wave, Step(wave, s, schedule[0], world), schedule[1..], world)
  }

  ghost predicate Finished(s: WaveState) {
    forall i :: 0 <= i < |s.phases| ==> s.phases[i].Ended?
  }

  ghost function Start(wave: seq<DagStep>, ctx: Ctx): WaveState {
    WaveState(ctx, seq(|wave|, _ => Idle))
  }

  // ---- Footprints ----

  ghost function ContextReads(step: DagStep): set<string> {
    (if step.condition.Some? && step.condition.value.Some? then NamesIn(step.condition.value.value) else {})
    + step.inputMapping.Values
    + (if IsMap(step) then {step.mapOver} else {})
  }

  ghost function ContextWrites(step: DagStep): set<string> { step.outputMapping.Keys }

  /** b writes nothing that a reads or writes. */
  ghost predicate Undisturbed(a: DagStep, b: DagStep) {
    && ContextReads(a) !! ContextWrites(b)
    && ContextWrites(a) !! ContextWrites(b)
    && b.name !in a.inputMapping.Values
    && a.name != b.name
  }

  ghost predicate Independent(wave: seq<DagStep>) {
    forall i, j :: 0 <= i < |wave| && 0 <= j < |wave| && i != j ==> Undisturbed(wave[i], wave[j])
  }

  /** a and b hold the same entries at these keys. */
  ghost predicate SameAt(keys: set<string>, a: Env, b: Env) {
    forall k :: k in keys ==> (k in a <==> k in b) && (k in a ==> a[k] == b[k])
  }

  /** Everything step reads is the same in both contexts. */
  ghost predicate LooksAlike(step: DagStep, a: Ctx, b: Ctx) {
    && a.input == b.input
    && SameAt(ContextReads(step), a.context, b.context)
    && SameAt(step.inputMapping.Values, a.results, b.results)
  }

  lemma ReadsDecide(step: DagStep, a: Ctx, b: Ctx)
    requires LooksAlike(step, a, b)
    ensures Runs(step, a) == Runs(step, b)
    ensures BuildInput(step, a) == BuildInput(step, b)
    ensures forall input :: Items(step, a, input) == Items(step, b, input)
  {
    ReadsDecideCondition(step, a, b);
    ReadsDecideInput(step, a, b);
    assert IsMap(step) ==> step.mapOver in ContextReads(step);
  }

  lemma ReadsDecideCondition(step: DagStep, a: Ctx, b: Ctx)
    requires LooksAlike(step, a, b)
    ensures Runs(step, a) == Runs(step, b)
  {
    if step.condition.Some? && step.condition.value.Some? {
      var e := step.condition.value.value;
      forall n | n in NamesIn(e)
        ensures Lookup(a.context + a.input, n) == Lookup(b.context + b.input, n)
      {
        assert n in ContextReads(step);
      }
      EvalReadsNames(e, a.context + a.input, b.context + b.input);
    }
  }

  lemma ReadsDecideInput(step: DagStep, a: Ctx, b: Ctx)
    requires LooksAlike(step, a, b)
    ensures BuildInput(step, a) == BuildInput(step, b)
  {
    forall dst | dst in step.inputMapping
      ensures Pick(a, step.inputMapping[dst]) == Pick(b, step.inputMapping[dst])
    {
      assert step.inputMapping[dst] in step.inputMapping.Values;
      assert step.inputMapping[dst] in ContextReads(step);
    }
    assert Mapped(step, a, step.inputMapping.Keys) == Mapped(step, b, step.inputMapping.Keys);
  }

  // ---- What each step does when it runs alone from the start of the wave ----

  /** The recorded result of a step run from ctx, or None if it is skipped or raises. */
  ghost function Result(step: DagStep, ctx: Ctx, world: World): Option<Env> {
    if !Runs(step, ctx) then None
    else
      var input := BuildInput(step, ctx);
      Settle(step, Items(step, ctx, input), world(step.name, input, Items(step, ctx, input)).replies)
  }

  ghost function Raises(step: DagStep, ctx: Ctx, world: World): bool {
    Runs(step, ctx) &&
    (Result(step, ctx, world).None? ||
     var input := BuildInput(step, ctx);
     world(step.name, input, Items(step, ctx, input)).saveFails)
  }

  /** p is a phase the step passes through when run from ctx. */
  ghost predicate OnTrack(step: DagStep, ctx: Ctx, world: World, p: Phase) {
    match p
    case Idle => true
    case Waiting(input) => Runs(step, ctx) && input == BuildInput(step, ctx)
    case Working(input, items) =>
      Runs(step, ctx) && input == BuildInput(step, ctx) && items == Items(step, ctx, input)
    case Ended(raised) => raised == Raises(step, ctx, world)
  }

  ghost function ContextPart(step: DagStep, ctx: Ctx, world: World): Env {
    match Result(step, ctx, world) case None => map[] case Some(r) => Outputs(step, r)
  }

  ghost function ResultPart(step: DagStep, ctx: Ctx, world: World): Env {
    match Result(step, ctx, world) case None => map[] case Some(r) => map[step.name := Dict(r)]
  }

  ghost function CompletedPart(step: DagStep, ctx: Ctx, world: World): multiset<string> {
    if !Runs(step, ctx) || Result(step, ctx, world).Some? then multiset{step.name} else multiset{}
  }

  // ---- The effect of the ended steps, gathered in wave order ----

  ghost function Overlay(parts: seq<Env>, on: seq<bool>): Env
    requires |parts| == |on|
  {
    if parts == [] then map[]
    else
      var n := |parts| - 1;
      if on[n] then Overlay(parts[..n], on[..n]) + parts[n] else Overlay(parts[..n], on[..n])
  }

  lemma {:induction false} OverlayWithin(parts: seq<Env>, on: seq<bool>)
    requires |parts| == |on|
    ensures forall k :: k in Overlay(parts, on) ==> exists j :: 0 <= j < |parts| && on[j] && k in parts[j]
  {
    if parts != [] {
      var n := |parts| - 1;
      OverlayWithin(parts[..n], on[..n]);
      forall k | k in Overlay(parts, on) ensures exists j :: 0 <= j < |parts| && on[j] && k in parts[j] {
        if k in Overlay(parts[..n], on[..n]) {
          var j :| 0 <= j < n && on[..n][j] && k in parts[..n][j];
          assert on[j] && k in parts[j];
        }
      }
    }
  }

  /** Switching one more part on adds exactly that part, whatever its place. */
  lemma {:induction false} OverlayOneMore(parts: seq<Env>, on: seq<bool>, i: nat)
    requires i < |parts| == |on| && !on[i]
    requires forall j :: 0 <= j < |parts| && j != i ==> parts[i].Keys !! parts[j].Keys
    ensures Overlay(parts, on[i := true]) == Overlay(parts, on) + parts[i]
  {
    var n := |parts| - 1;
    if i == n {
      assert on[i := true][..n] == on[..n];
    } else {
      OverlayOneMore(parts[..n], on[..n], i);
      assert on[i := true][..n] == on[..n][i := true];
    }
  }

  lemma {:induction false} OverlayOff(parts: seq<Env>, on: seq<bool>)
    requires |parts| == |on| && forall j :: 0 <= j < |on| ==> !on[j]
    ensures Overlay(parts, on) == map[]
  {
    if parts != [] { OverlayOff(parts[..|parts| - 1], on[..|parts| - 1]); }
  }

  ghost function Tally(parts: seq<multiset<string>>, on: seq<bool>): multiset<string>
    requires |parts| == |on|
  {
    if parts == [] then multiset{}
    else
      var n := |parts| - 1;
      Tally(parts[..n], on[..n]) + if on[n] then parts[n] else multiset{}
  }

  lemma {:induction false} TallyOneMore(parts: seq<multiset<string>>, on: seq<bool>, i: nat)
    requires i < |parts| == |on| && !on[i]
    ensures Tally(parts, on[i := true]) == Tally(parts, on) + parts[i]
  {
    var n := |parts| - 1;
    if i == n {
      assert on[i := true][..n] == on[..n];
    } else {
      TallyOneMore(parts[..n], on[..n], i);
      assert on[i := true][..n] == on[..n][i := true];
    }
  }

  lemma {:induction false} TallyOff(parts: seq<multiset<string>>, on: seq<bool>)
    requires |parts| == |on| && forall j :: 0 <= j < |on| ==> !on[j]
    ensures Tally(parts, on) == multiset{}
  {
    if parts != [] { TallyOff(parts[..|parts| - 1], on[..|parts| - 1]); }
  }

  ghost function ContextParts(wave: seq<DagStep>, ctx: Ctx, world: World): (r: seq<Env>)
    ensures |r| == |wave| && forall i :: 0 <= i < |wave| ==> r[i] == ContextPart(wave[i], ctx, world)
  {
    seq(|wave|, i requires 0 <= i < |wave| => ContextPart(wave[i], ctx, world))
  }

  ghost function ResultParts(wave: seq<DagStep>, ctx: Ctx, world: World): (r: seq<Env>)
    ensures |r| == |wave| && forall i :: 0 <= i < |wave| ==> r[i] == ResultPart(wave[i], ctx, world)
  {
    seq(|wave|, i requires 0 <= i < |wave| => ResultPart(wave[i], ctx, world))
  }

  ghost function CompletedParts(wave: seq<DagStep>, ctx: Ctx, world: World): (r: seq<multiset<string>>)
    ensures |r| == |wave| && forall i :: 0 <= i < |wave| ==> r[i] == CompletedPart(wave[i], ctx, world)
  {
    seq(|wave|, i requires 0 <= i < |wave| => CompletedPart(wave[i], ctx, world))
  }

  ghost function EndedFlags(phases: seq<Phase>): (r: seq<bool>)
    ensures |r| == |phases| && forall i :: 0 <= i < |phases| ==> r[i] == phases[i].Ended?
  {
    seq(|phases|, i requires 0 <= i < |phases| => phases[i].Ended?)
  }

  // ---- The invariant of every interleaving ----

  ghost predicate Inv(wave: seq<DagStep>, ctx: Ctx, world: World, s: WaveState) {
    && |s.phases| == |wave|
    && (forall i :: 0 <= i < |wave| ==> OnTrack(wave[i], ctx, world, s.phases[i]))
    && EffectsOf(wave, ctx, world, EndedFlags(s.phases), s.ctx)
  }

  /** now is ctx plus the parts of the steps that have ended. */
  ghost predicate EffectsOf(wave: seq<DagStep>, ctx: Ctx, world: World, on: seq<bool>, now: Ctx)
    requires |on| == |wave|
  {
    && now.input == ctx.input
    && now.context == ctx.context + Overlay(ContextParts(wave, ctx, world), on)
    && now.results == ctx.results + Overlay(ResultParts(wave, ctx, world), on)
    && multiset(now.completed) == multiset(ctx.completed) + Tally(CompletedParts(wave, ctx, world), on)
  }

  lemma PartsWithin(step: DagStep, ctx: Ctx, world: World)
    ensures ContextPart(step, ctx, world).Keys <= ContextWrites(step)
    ensures ResultPart(step, ctx, world).Keys <= {step.name}
  {
  }

  /** A step that has not ended sees the context the wave started with. */
  lemma SeesStart(wave: seq<DagStep>, ctx: Ctx, world: World, s: WaveState, i: nat)
    requires Independent(wave) && Inv(wave, ctx, world, s) && i < |wave| && !s.phases[i].Ended?
    ensures LooksAlike(wave[i], ctx, s.ctx)
  {
    var on := EndedFlags(s.phases);
    var cs, rs := ContextParts(wave, ctx, world), ResultParts(wave, ctx, world);
    OverlayWithin(cs, on);
    OverlayWithin(rs, on);
    forall j | 0 <= j < |wave| && on[j]
      ensures ContextReads(wave[i]) !! cs[j].Keys && wave[i].inputMapping.Values !! rs[j].Keys
    {
      assert Undisturbed(wave[i], wave[j]);
      PartsWithin(wave[j], ctx, world);
    }
  }

  /** Ending step i adds its parts to the context. */
  lemma EndStep(wave: seq<DagStep>, ctx: Ctx, world: World, on: seq<bool>, now: Ctx, i: nat, now': Ctx)
    requires Independent(wave) && i < |wave| == |on| && !on[i]
    requires EffectsOf(wave, ctx, world, on, now)
    requires AddsParts(wave[i], ctx, world, now, now')
    ensures EffectsOf(wave, ctx, world, on[i := true], now')
  {
    var cs, rs := ContextParts(wave, ctx, world), ResultParts(wave, ctx, world);
    PartsDisjoint(wave, ctx, world, i);
    OverlayOneMore(cs, on, i);
    OverlayOneMore(rs, on, i);
    TallyOneMore(CompletedParts(wave, ctx, world), on, i);
    PlusAssociates(ctx.context, Overlay(cs, on), cs[i]);
    PlusAssociates(ctx.results, Overlay(rs, on), rs[i]);
  }

  lemma PlusAssociates(a: Env, b: Env, c: Env)
    ensures (a + b) + c == a + (b + c)
  {
  }

  lemma PartsDisjoint(wave: seq<DagStep>, ctx: Ctx, world: World, i: nat)
    requires Independent(wave) && i < |wave|
    ensures forall j :: 0 <= j < |wave| && j != i ==>
      ContextParts(wave, ctx, world)[i].Keys !! ContextParts(wave, ctx, world)[j].Keys
    ensures forall j :: 0 <= j < |wave| && j != i ==>
      ResultParts(wave, ctx, world)[i].Keys !! ResultParts(wave, ctx, world)[j].Keys
  {
    PartsWithin(wave[i], ctx, world);
    forall j | 0 <= j < |wave| && j != i
      ensures ContextPart(wave[i], ctx, world).Keys !! ContextPart(wave[j], ctx, world).Keys
      ensures ResultPart(wave[i], ctx, world).Keys !! ResultPart(wave[j], ctx, world).Keys
    {
      assert Undisturbed(wave[i], wave[j]);
      PartsWithin(wave[j], ctx, world);
    }
  }

  ghost predicate AddsParts(step: DagStep, ctx: Ctx, world: World, now: Ctx, now': Ctx) {
    && now'.input == now.input
    && now'.context == now.context + ContextPart(step, ctx, world)
    && now'.results == now.results + ResultPart(step, ctx, world)
    && multiset(now'.completed) == multiset(now.completed) + CompletedPart(step, ctx, world)
  }

  lemma StepKeepsInv(wave: seq<DagStep>, ctx: Ctx, world: World, s: WaveState, i: nat)
    requires Independent(wave) && Inv(wave, ctx, world, s) && i < |wave|
    ensures Inv(wave, ctx, world, Step(wave, s, i, world))
  {
    var s' := Step(wave, s, i, world);
    var p, p' := s.phases[i], s'.phases[i];
    if p.Ended? {
      assert s' == s;
    } else {
      SeesStart(wave, ctx, world, s, i);
      ReadsDecide(wave[i], ctx, s.ctx);
      ActStaysOnTrack(wave[i], ctx, world, s.ctx, p);
      if p'.Ended? {
        assert EndedFlags(s'.phases) == EndedFlags(s.phases)[i := true];
        EndStep(wave, ctx, world, EndedFlags(s.phases), s.ctx, i, s'.ctx);
      } else {
        assert EndedFlags(s'.phases) == EndedFlags(s.phases);
      }
    }
  }

  /** Seeing the start of the wave, a step acts as it would have then. */
  lemma ActStaysOnTrack(step: DagStep, ctx: Ctx, world: World, now: Ctx, p: Phase)
    requires OnTrack(step, ctx, world, p) && !p.Ended? && LooksAlike(step, ctx, now)
    ensures var o := if p.Working? then world(step.name, p.input, p.items) else world("", map[], []);
      var (now', p') := Act(step, now, p, o);
      && OnTrack(step, ctx, world, p')
      && if p'.Ended? then AddsParts(step, ctx, world, now, now') else now' == now
  {
    ReadsDecide(step, ctx, now);
    match p
    case Idle => if !Runs(step, ctx) { SkipAdds(step, ctx, world, now); }
    case Waiting(input) =>
    case Working(input, items) => FinishAdds(step, ctx, world, now);
  }

  lemma SkipAdds(step: DagStep, ctx: Ctx, world: World, now: Ctx)
    requires !Runs(step, ctx)
    ensures AddsParts(step, ctx, world, now, now.(completed := now.completed + [step.name]))
  {
    assert now.context + map[] == now.context && now.results + map[] == now.results;
  }

  lemma FinishAdds(step: DagStep, ctx: Ctx, world: World, now: Ctx)
    requires Runs(step, ctx)
    ensures var input := BuildInput(step, ctx);
      var items := Items(step, ctx, input);
      var (now', p') := Finish(step, now, items, world(step.name, input, items));
      AddsParts(step, ctx, world, now, now') && p' == Ended(Raises(step, ctx, world))
  {
    var input := BuildInput(step, ctx);
    var items := Items(step, ctx, input);
    FinishEffect(step, now, items, world(step.name, input, items));
    assert now.context + map[] == now.context && now.results + map[] == now.results;
  }

  /** The last action, part by part. */
  lemma FinishEffect(step: DagStep, now: Ctx, items: seq<Value>, o: Outcome)
    ensures var (now', p') := Finish(step, now, items, o);
      match Settle(step, items, o.replies)
      case None => now' == now && p' == Ended(true)
      case Some(r) =>
        && now'.input == now.input && now'.context == now.context + Outputs(step, r)
        && now'.results == now.results + map[step.name := Dict(r)]
        && multiset(now'.completed) == multiset(now.completed) + multiset{step.name}
        && p' == Ended(o.saveFails)
  {
  }

  lemma {:induction false} ScheduleKeepsInv(wave: seq<DagStep>, ctx: Ctx, world: World, s: WaveState, schedule: seq<nat>)
    requires Independent(wave) && Inv(wave, ctx, world, s) && ValidSchedule(wave, schedule)
    ensures Inv(wave, ctx, world, RunSchedule(wave, s, schedule, world))
    decreases schedule
  {
    if schedule != [] {
      StepKeepsInv(wave, ctx, world, s, schedule[0]);
      ScheduleKeepsInv(wave, ctx, world, Step(wave, s, schedule[0], world), schedule[1..]);
    }
  }

  lemma StartInv(wave: seq<DagStep>, ctx: Ctx, world: World)
    ensures Inv(wave, ctx, world, Start(wave, ctx))
  {
    var off := EndedFlags(Start(wave, ctx).phases);
    OverlayOff(ContextParts(wave, ctx, world), off);
    OverlayOff(ResultParts(wave, ctx, world), off);
    TallyOff(CompletedParts(wave, ctx, world), off);
    assert ctx.context + map[] == ctx.context && ctx.results + map[] == ctx.results;
  }

  /** A finished state is determined by the start of the wave. */
  lemma FinishedIsUnique(wave: seq<DagStep>, ctx: Ctx, world: World, a: WaveState, b: WaveState)
    requires Inv(wave, ctx, world, a) && Inv(wave, ctx, world, b) && Finished(a) && Finished(b)
    ensures a.phases == b.phases && a.ctx.context == b.ctx.context && a.ctx.results == b.ctx.results
    ensures multiset(a.ctx.completed) == multiset(b.ctx.completed)
  {
    forall i | 0 <= i < |wave| ensures a.phases[i] == b.phases[i] {
      assert OnTrack(wave[i], ctx, world, a.phases[i]) && OnTrack(wave[i], ctx, world, b.phases[i]);
    }
    assert EndedFlags(a.phases) == EndedFlags(b.phases);
  }

  /** Every two schedules that let all steps of an independent wave end agree on the
      context, the step results, the completed steps and on which steps raised. */
  lemma WaveIsConfluent(wave: seq<DagStep>, ctx: Ctx, world: World, one: seq<nat>, two: seq<nat>)
    requires Independent(wave)
    requires ValidSchedule(wave, one) && ValidSchedule(wave, two)
    requires Finished(RunSchedule(wave, Start(wave, ctx), one, world))
    requires Finished(RunSchedule(wave, Start(wave, ctx), two, world))
    ensures var a := RunSchedule(wave, Start(wave, ctx), one, world);
      var b := RunSchedule(wave, Start(wave, ctx), two, world);
      && a.phases == b.phases
      && a.ctx.context == b.ctx.context
      && a.ctx.results == b.ctx.results
      && multiset(a.ctx.completed) == multiset(b.ctx.completed)
  {
    StartInv(wave, ctx, world);
    ScheduleKeepsInv(wave, ctx, world, Start(wave, ctx), one);
    ScheduleKeepsInv(wave, ctx, world, Start(wave, ctx), two);
    FinishedIsUnique(wave, ctx, world, RunSchedule(wave, Start(wave, ctx), one, world),
                     RunSchedule(wave, Start(wave, ctx), two, world));
  }

  // ---- Schedules that finish ----

  ghost function Turns(p: Phase): nat {
    match p case Idle => 0 case Waiting(_) => 1 case Working(_, _) => 2 case Ended(_) => 3
  }

  lemma {:induction false} TurnsAdvance(wave: seq<DagStep>, s: WaveState, schedule: seq<nat>, world: World, i: nat)
    requires |s.phases| == |wave| && ValidSchedule(wave, schedule) && i < |wave|
    ensures Turns(RunSchedule(wave, s, schedule, world).phases[i]) >= 3
      || Turns(RunSchedule(wave, s, schedule, world).phases[i]) >= Turns(s.phases[i]) + multiset(schedule)[i]
    decreases schedule
  {
    if schedule != [] {
      TurnsAdvance(wave, Step(wave, s, schedule[0], world), schedule[1..], world, i);
      assert schedule == [schedule[0]] + schedule[1..];
    }
  }

  /** Three turns for every step finish the wave, whatever the world answers. */
  lemma ThreeTurnsFinish(wave: seq<DagStep>, ctx: Ctx, schedule: seq<nat>, world: World)
    requires ValidSchedule(wave, schedule)
    requires forall i :: 0 <= i < |wave| ==> multiset(schedule)[i] >= 3
    ensures Finished(RunSchedule(wave, Start(wave, ctx), schedule, world))
  {
    forall i | 0 <= i < |wave|
      ensures RunSchedule(wave, Start(wave, ctx), schedule, world).phases[i].Ended?
    {
      TurnsAdvance(wave, Start(wave, ctx), schedule, world, i);
    }
  }
}
