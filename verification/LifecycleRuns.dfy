/** The theorems about whole runs: what every reachable state satisfies, whichever way the steps of
    the controller, the users and the clusters interleave. */
module LifecycleRuns {
  import opened Types
  import opened Components
  import opened Planner
  import opened Lifecycle
  import opened LifecycleSafety

  /** The controller is between two passes. */
  predicate Start(s: State) {
    s.pc == Idle && WorldOk(s.w)
  }

  lemma {:induction false} CoreAlongRun(e: Setting, run: seq<State>, i: nat)
    requires IsRun(e, run) && Start(run[0]) && i < |run|
    ensures Core(run[i])
  {
    if i > 0 {
      CoreAlongRun(e, run, i - 1);
      StepKeepsCore(e, run[i - 1], run[i]);
    }
  }

  // ---------------------------------------------------------------- what one step can change

  /** How a step can change the persisted controller finalizers. */
  lemma StepPersisted(e: Setting, s: State, s': State)
    requires Core(s) && Step(e, s, s')
    ensures
      || Persisted(s'.w) == Persisted(s.w)
      || (s.pc == EnsureAccess && Persisted(s'.w) == Persisted(s.w) + {AccessFinalizer})
      || (s.pc == EnsureComponents && Persisted(s'.w) == Persisted(s.w) + {ComponentsFinalizer} && AccessFinalizer in Persisted(s.w))
      || (s.pc == DropLegacy && Persisted(s'.w) == Persisted(s.w) - {LegacyFinalizer} && AccessFinalizer in Persisted(s.w))
      || (s.pc == DropComponents && Persisted(s'.w) == Persisted(s.w) - {ComponentsFinalizer}
            && AccessFinalizer in Persisted(s.w) && s.w.present == {})
      || (s.pc == DropAccess && Persisted(s.w) == {AccessFinalizer} && Persisted(s'.w) == {} && !s.w.access && s.l.xp.deleting)
  {
    if PassStep(e, s, s') {
      PassPersisted(e, s, s');
    } else if EnvStep(s.w, s'.w) && s' == s.(w := s'.w) {
      EnvKeepsCore(s, s'.w);
    }
  }

  lemma PassPersisted(e: Setting, s: State, s': State)
    requires Core(s) && PassStep(e, s, s')
    ensures
      || Persisted(s'.w) == Persisted(s.w)
      || (s.pc == EnsureAccess && Persisted(s'.w) == Persisted(s.w) + {AccessFinalizer})
      || (s.pc == EnsureComponents && Persisted(s'.w) == Persisted(s.w) + {ComponentsFinalizer} && AccessFinalizer in Persisted(s.w))
      || (s.pc == DropLegacy && Persisted(s'.w) == Persisted(s.w) - {LegacyFinalizer} && AccessFinalizer in Persisted(s.w))
      || (s.pc == DropComponents && Persisted(s'.w) == Persisted(s.w) - {ComponentsFinalizer}
            && AccessFinalizer in Persisted(s.w) && s.w.present == {})
      || (s.pc == DropAccess && Persisted(s.w) == {AccessFinalizer} && Persisted(s'.w) == {} && !s.w.access && s.l.xp.deleting)
  {
    hide Gate, Update, Handles, Planned, Tasks, JuggleStep;
    var f := s.l.xp.finalizers;
    match s.pc {
      case EnsureAccess =>
        if AccessFinalizer !in f { WriteKeepsCore(e, s, s', f + {AccessFinalizer}, DropLegacy); }
      case EnsureComponents =>
        if ComponentsFinalizer !in f { WriteKeepsCore(e, s, s', f + {ComponentsFinalizer}, DropLegacyAgain); }
      case DropLegacy =>
        if LegacyFinalizer in f { WriteKeepsCore(e, s, s', f - {LegacyFinalizer}, ReconcileAccess); }
      case DropComponents => WriteKeepsCore(e, s, s', f - {ComponentsFinalizer}, UpdateStatus);
      case DropAccess =>
        if AccessFinalizer in f { WriteKeepsCore(e, s, s', f - {AccessFinalizer}, UpdateStatus); }
      case Juggle(stage) => JuggleKeepsStored(s, s', stage);
      case _ =>
    }
  }

  lemma JuggleKeepsStored(s: State, s': State, stage: Stage)
    requires JuggleStep(s, s', stage)
    ensures s'.w.stored == s.w.stored && s'.w.access == s.w.access
  {
    if s.l.todo != multiset{} {
      var t, status :| t in s.l.todo && Handles(s.w, s'.w, t, status) && s' == State(s'.w, s.pc, Record(s.l, stage, t, status));
    }
  }

  /** How a step can add an access request or a managed object. */
  lemma StepAdds(e: Setting, s: State, s': State)
    requires Core(s) && Step(e, s, s')
    ensures s'.w.access ==> s.w.access || (s.pc == ReconcileAccess && AccessFinalizer in Persisted(s.w))
    ensures s'.w.present <= s.w.present
      || (s.pc == Juggle(Install) && ComponentsFinalizer in Persisted(s.w) && AccessFinalizer in Persisted(s.w))
  {
    hide PassStep, Persisted;
    if PassStep(e, s, s') {
      CallAdds(e, s, s');
      GuardsOfCall(s);
      if s.pc.Juggle? {
        JuggleAdds(s, s', s.pc.stage);
      }
    }
  }

  lemma CallAdds(e: Setting, s: State, s': State)
    requires PassStep(e, s, s')
    ensures s'.w.access ==> s.w.access || s.pc == ReconcileAccess
    ensures s.pc.Juggle? ==> JuggleStep(s, s', s.pc.stage)
    ensures !s.pc.Juggle? ==> s'.w.present == s.w.present
  {
    hide Planned, Tasks, JuggleStep;
    if s.pc.Juggle? {
      JuggleKeepsStored(s, s', s.pc.stage);
    }
  }

  lemma GuardsOfCall(s: State)
    requires Core(s)
    ensures s.pc == ReconcileAccess ==> AccessFinalizer in Persisted(s.w)
    ensures s.pc == Juggle(Install) ==> ComponentsFinalizer in Persisted(s.w) && AccessFinalizer in Persisted(s.w)
  {
    hide Gate, Coverage;
  }

  lemma JuggleAdds(s: State, s': State, stage: Stage)
    requires Core(s) && s.pc == Juggle(stage) && JuggleStep(s, s', stage)
    ensures s'.w.present <= s.w.present || stage == Install
  {
    hide Handles;
    if s.l.todo != multiset{} {
      var t, status :| t in s.l.todo && Handles(s.w, s'.w, t, status) && s' == State(s'.w, s.pc, Record(s.l, stage, t, status));
      HandlesEffect(s.w, s'.w, t, status);
    }
  }

  // ---------------------------------------------------------------- nothing leaks

  /** Under strict finalizers, an object in deletion with some finalizer of the controller but without
      the access finalizer can never get the access finalizer, so it never moves on. */
  predicate Stuck(e: Setting, w: World) {
    && e.strict && w.stored.Some? && w.stored.value.deleting
    && Persisted(w) != {} && AccessFinalizer !in Persisted(w)
  }

  /** What exists is guarded by a persisted finalizer; a missing object has none. */
  predicate Guarded(e: Setting, w: World) {
    && (w.access ==> Persisted(w) != {})
    && (w.present != {} ==> ComponentsFinalizer in Persisted(w) || Stuck(e, w))
  }

  /** Gone, and something it created is left behind. */
  predicate Leaked(w: World) {
    w.stored.None? && (w.access || w.present != {})
  }

  /** An object deleted before it got the access finalizer is never released: the server refuses the
      finalizer that the controller insists on adding first. */
  lemma StuckForever(e: Setting, s: State, s': State)
    requires Core(s) && Stuck(e, s.w) && Step(e, s, s')
    ensures Stuck(e, s'.w)
  {
    hide Core, Step, Persisted;
    StepPersisted(e, s, s');
    DeletionIsFinal(e, s, s');
    if s.pc == EnsureAccess {
      AccessIsRefused(e, s, s');
    }
  }

  /** Nothing takes an object out of deletion. */
  lemma DeletionIsFinal(e: Setting, s: State, s': State)
    requires Core(s) && Step(e, s, s')
    requires s.w.stored.Some? && s.w.stored.value.deleting
    ensures Persisted(s'.w) == {} || (s'.w.stored.Some? && s'.w.stored.value.deleting)
  {
    hide Gate, Coverage, CopyFacts, Planned, Tasks, JuggleStep;
    if PassStep(e, s, s') && s.pc.Juggle? {
      JuggleKeepsStored(s, s', s.pc.stage);
    }
  }

  lemma AccessIsRefused(e: Setting, s: State, s': State)
    requires Core(s) && Stuck(e, s.w) && Step(e, s, s') && s.pc == EnsureAccess
    ensures AccessFinalizer !in Persisted(s'.w)
  {
    hide Gate, Coverage, CopyFacts;
    if EnvStep(s.w, s'.w) {
      EnvKeepsCore(s, s'.w);
    }
  }

  /** So its deletion never completes, whatever happens afterwards. */
  lemma {:induction false} StuckRunsStayStuck(e: Setting, run: seq<State>, i: nat)
    requires IsRun(e, run) && Start(run[0]) && Stuck(e, run[0].w) && i < |run|
    ensures Stuck(e, run[i].w) && run[i].w.stored.Some?
  {
    hide Core, Step;
    if i > 0 {
      StuckRunsStayStuck(e, run, i - 1);
      CoreAlongRun(e, run, i - 1);
      StuckForever(e, run[i - 1], run[i]);
    }
  }

  /** No step takes the guard away from something that still exists. */
  lemma StepKeepsGuarded(e: Setting, s: State, s': State)
    requires Core(s) && Guarded(e, s.w) && Step(e, s, s')
    ensures Guarded(e, s'.w)
  {
    hide Core, Step, Persisted, Stuck;
    StepPersisted(e, s, s');
    StepAdds(e, s, s');
    assert s'.w.present <= s.w.present && s.w.present == {} ==> s'.w.present == {};
    assert AccessFinalizer in Persisted(s'.w) ==> Persisted(s'.w) != {};
    if Stuck(e, s.w) {
      StuckForever(e, s, s');
      StuckHasNoAccess(e, s.w);
    }
  }

  lemma StuckHasNoAccess(e: Setting, w: World)
    requires Stuck(e, w)
    ensures Persisted(w) != {} && AccessFinalizer !in Persisted(w)
  {
  }

  lemma {:induction false} GuardedAlongRun(e: Setting, run: seq<State>, i: nat)
    requires IsRun(e, run) && Start(run[0]) && Guarded(e, run[0].w) && i < |run|
    ensures Guarded(e, run[i].w)
  {
    hide Core, Guarded, Step;
    if i > 0 {
      GuardedAlongRun(e, run, i - 1);
      CoreAlongRun(e, run, i - 1);
      StepKeepsGuarded(e, run[i - 1], run[i]);
    }
  }

  // ---------------------------------------------------------------- what keeps a deletion from ending

  /** The pass has read the ProviderConfig. */
  predicate KnowsConfig(pc: Pc) {
    Active(pc) && pc != HandleOperation && pc != GetConfig
  }

  predicate Ignored(w: World) {
    w.stored.Some? ==> w.stored.value.operation == IgnoreOperation
  }

  /** No spec the object ever has can be torn down with any ProviderConfig there ever is. */
  ghost predicate NeverPlannable(e: Setting, run: seq<State>) {
    forall i, j | 0 <= i < |run| && 0 <= j < |run| && run[i].w.stored.Some? && run[j].w.config.Some? ::
      PlanError(e.env, run[i].w.stored.value.spec, run[j].w.config.value, false).Some?
  }

  /** One of the four things that hold a release up, all along. */
  ghost predicate BlockedThroughout(e: Setting, run: seq<State>)
    requires run != []
  {
    || (forall i | 0 <= i < |run| :: run[i].w.config.None?)
    || (forall i | 0 <= i < |run| :: Ignored(run[i].w))
    || (ComponentsFinalizer in Persisted(run[0].w) && NeverPlannable(e, run))
    || Stuck(e, run[0].w)
  }

  /** Without a ProviderConfig no pass gets beyond reading it. */
  lemma {:induction false} ConfiglessRuns(e: Setting, run: seq<State>, i: nat)
    requires IsRun(e, run) && Start(run[0]) && i < |run|
    requires forall k | 0 <= k < |run| :: run[k].w.config.None?
    ensures run[i].pc in {Idle, HandleOperation, GetConfig, UpdateStatus}
    ensures Persisted(run[i].w) == Persisted(run[0].w)
  {
    hide Core, Step, Persisted;
    if i > 0 {
      ConfiglessRuns(e, run, i - 1);
      CoreAlongRun(e, run, i - 1);
      StepPersisted(e, run[i - 1], run[i]);
      ConfiglessStep(e, run[i - 1], run[i]);
    }
  }

  lemma ConfiglessStep(e: Setting, s: State, s': State)
    requires Step(e, s, s') && s.w.config.None? && s.pc in {Idle, HandleOperation, GetConfig, UpdateStatus}
    ensures s'.pc in {Idle, HandleOperation, GetConfig, UpdateStatus}
  {
    hide EnvStep, Write;
  }

  /** Under the ignore annotation no pass gets beyond reading it. */
  lemma {:induction false} IgnoredRuns(e: Setting, run: seq<State>, i: nat)
    requires IsRun(e, run) && Start(run[0]) && i < |run|
    requires forall k | 0 <= k < |run| :: Ignored(run[k].w)
    ensures run[i].pc in {Idle, HandleOperation, UpdateStatus}
    ensures run[i].pc == HandleOperation ==> run[i].l.xp.operation == IgnoreOperation
    ensures Persisted(run[i].w) == Persisted(run[0].w)
  {
    hide Core, Step, Persisted;
    if i > 0 {
      IgnoredRuns(e, run, i - 1);
      CoreAlongRun(e, run, i - 1);
      StepPersisted(e, run[i - 1], run[i]);
      IgnoredStep(e, run[i - 1], run[i]);
    }
  }

  lemma IgnoredStep(e: Setting, s: State, s': State)
    requires Step(e, s, s') && Ignored(s.w) && s.pc in {Idle, HandleOperation, UpdateStatus}
    requires s.pc == HandleOperation ==> s.l.xp.operation == IgnoreOperation
    ensures s'.pc in {Idle, HandleOperation, UpdateStatus}
    ensures s'.pc == HandleOperation ==> s'.l.xp.operation == IgnoreOperation
  {
    hide EnvStep, Write;
  }

  /** Up to position `i` of the run the object had this spec, there was this ProviderConfig. */
  ghost predicate HadSpec(run: seq<State>, i: nat, spec: Spec) {
    exists k | 0 <= k <= i && k < |run| :: run[k].w.stored.Some? && run[k].w.stored.value.spec == spec
  }

  ghost predicate HadConfig(run: seq<State>, i: nat, config: ProviderConfig) {
    exists k | 0 <= k <= i && k < |run| :: run[k].w.config == Some(config)
  }

  /** What a pass works on was there at some time. */
  lemma {:induction false} InputsWereThere(e: Setting, run: seq<State>, i: nat)
    requires IsRun(e, run) && Start(run[0]) && i < |run|
    ensures Active(run[i].pc) ==> HadSpec(run, i, run[i].l.xp.spec)
    ensures KnowsConfig(run[i].pc) ==> HadConfig(run, i, run[i].l.config)
  {
    hide Step;
    if i > 0 {
      InputsWereThere(e, run, i - 1);
      InputsOfStep(e, run[i - 1], run[i]);
    }
  }

  lemma InputsOfStep(e: Setting, s: State, s': State)
    requires Step(e, s, s')
    ensures Active(s'.pc) ==> (Active(s.pc) && s'.l.xp.spec == s.l.xp.spec) || (s.w.stored.Some? && s.w.stored.value.spec == s'.l.xp.spec)
    ensures KnowsConfig(s'.pc) ==> (KnowsConfig(s.pc) && s'.l.config == s.l.config) || s.w.config == Some(s'.l.config)
  {
    hide PassStep, EnvStep;
    if PassStep(e, s, s') {
      SpecOfCall(e, s, s');
      ConfigOfCall(e, s, s');
    }
  }

  lemma SpecOfCall(e: Setting, s: State, s': State)
    requires PassStep(e, s, s')
    ensures Active(s'.pc) ==> (Active(s.pc) && s'.l.xp.spec == s.l.xp.spec) || (s.w.stored.Some? && s.w.stored.value.spec == s'.l.xp.spec)
  {
    hide Write, Planned, Tasks, AfterAccess, JuggleStep;
    if s.pc.Juggle? {
      JuggleKeepsInputs(s, s', s.pc.stage);
    }
  }

  lemma ConfigOfCall(e: Setting, s: State, s': State)
    requires PassStep(e, s, s')
    ensures KnowsConfig(s'.pc) ==> (KnowsConfig(s.pc) && s'.l.config == s.l.config) || s.w.config == Some(s'.l.config)
  {
    hide Write, Planned, Tasks, AfterAccess, JuggleStep;
    if s.pc.Juggle? {
      JuggleKeepsInputs(s, s', s.pc.stage);
    }
  }

  lemma JuggleKeepsInputs(s: State, s': State, stage: Stage)
    requires JuggleStep(s, s', stage)
    ensures s'.l.xp == s.l.xp && s'.l.config == s.l.config
  {
    hide Handles;
  }

  /** When nothing can be planned the components finalizer stays. */
  lemma {:induction false} UnplannableKeeps(e: Setting, run: seq<State>, i: nat)
    requires IsRun(e, run) && Start(run[0]) && i < |run|
    requires ComponentsFinalizer in Persisted(run[0].w) && NeverPlannable(e, run)
    ensures run[i].pc != Juggle(Phase2) && run[i].pc != DropComponents
    ensures ComponentsFinalizer in Persisted(run[i].w)
  {
    hide Core, Step, Persisted, PlanError;
    if i > 0 {
      var s := run[i - 1];
      UnplannableKeeps(e, run, i - 1);
      CoreAlongRun(e, run, i - 1);
      InputsWereThere(e, run, i - 1);
      StepPersisted(e, s, run[i]);
      if s.pc == Register(Phase2) {
        var a :| 0 <= a <= i - 1 && run[a].w.stored.Some? && run[a].w.stored.value.spec == s.l.xp.spec;
        var b :| 0 <= b <= i - 1 && run[b].w.config == Some(s.l.config);
        assert PlanError(e.env, run[a].w.stored.value.spec, run[b].w.config.value, false).Some?;
      }
      UnplannableStep(e, s, run[i]);
    }
  }

  lemma UnplannableStep(e: Setting, s: State, s': State)
    requires Step(e, s, s') && s.pc != Juggle(Phase2) && s.pc != DropComponents
    requires s.pc == Register(Phase2) ==> PlanError(e.env, s.l.xp.spec, s.l.config, false).Some?
    ensures s'.pc != Juggle(Phase2) && s'.pc != DropComponents
  {
    hide PlanList, PlanError, Tasks, Handles, Persisted, Write, EnvStep;
  }

  /** Without a pod namespace no teardown can ever be planned. */
  lemma UnplannableRuns(e: Setting, run: seq<State>, i: nat)
    requires IsRun(e, run) && Start(run[0]) && i < |run|
    requires e.env.podNs == "" && ComponentsFinalizer in Persisted(run[0].w)
    ensures ComponentsFinalizer in Persisted(run[i].w)
  {
    hide IsRun, Start, Persisted;
    assert NeverPlannable(e, run);
    UnplannableKeeps(e, run, i);
  }

  /** A run that is blocked throughout, for one reason or another, never gives up the last finalizer,
      whatever the users, the clusters and the controller do. */
  lemma BlockedNeverReleases(e: Setting, run: seq<State>, i: nat)
    requires IsRun(e, run) && Start(run[0]) && i < |run|
    requires Persisted(run[0].w) != {} && BlockedThroughout(e, run)
    ensures Persisted(run[i].w) != {}
  {
    hide IsRun, Start, Persisted, NeverPlannable, Stuck;
    if forall k | 0 <= k < |run| :: run[k].w.config.None? {
      ConfiglessRuns(e, run, i);
    } else if forall k | 0 <= k < |run| :: Ignored(run[k].w) {
      IgnoredRuns(e, run, i);
    } else if Stuck(e, run[0].w) {
      StuckRunsStayStuck(e, run, i);
      StuckHasNoAccess(e, run[i].w);
    } else {
      UnplannableKeeps(e, run, i);
    }
  }

  // ---------------------------------------------------------------- from a fresh object

  /** The controller has not touched the object yet, and nothing is left of an earlier one. */
  predicate Fresh(s: State) {
    Start(s) && Persisted(s.w) == {} && !s.w.access && s.w.present == {}
  }

  /** The guards of an object that never carried the legacy finalizer. */
  predicate FullyGuarded(w: World) {
    && LegacyFinalizer !in Persisted(w)
    && (ComponentsFinalizer in Persisted(w) ==> AccessFinalizer in Persisted(w))
    && (w.access ==> AccessFinalizer in Persisted(w))
    && (w.present != {} ==> ComponentsFinalizer in Persisted(w) && AccessFinalizer in Persisted(w))
  }

  lemma StepKeepsFullyGuarded(e: Setting, s: State, s': State)
    requires Core(s) && FullyGuarded(s.w) && Step(e, s, s')
    ensures FullyGuarded(s'.w)
  {
    hide Core, Step, Persisted;
    StepPersisted(e, s, s');
    StepAdds(e, s, s');
    assert s'.w.present <= s.w.present && s.w.present == {} ==> s'.w.present == {};
  }

  /** In every state reachable from a fresh object, whatever interleaves: an access request implies
      the access finalizer is persisted, a managed object implies the components and the access
      finalizer are; so once the object is gone nothing it created remains. */
  lemma {:induction false} FreshRunsAreGuarded(e: Setting, run: seq<State>, i: nat)
    requires IsRun(e, run) && Fresh(run[0]) && i < |run|
    ensures FullyGuarded(run[i].w) && !Leaked(run[i].w)
  {
    hide Core, Step, FullyGuarded, Fresh, Leaked;
    FreshIsGuarded(run[0]);
    if i > 0 {
      FreshRunsAreGuarded(e, run, i - 1);
      CoreAlongRun(e, run, i - 1);
      StepKeepsFullyGuarded(e, run[i - 1], run[i]);
    }
    GuardedIsNotLeaked(run[i].w);
  }

  lemma FreshRunIsGuarded(e: Setting, run: seq<State>)
    requires IsRun(e, run) && Fresh(run[0])
    ensures forall i | 0 <= i < |run| :: FullyGuarded(run[i].w) && !Leaked(run[i].w)
  {
    hide IsRun, Fresh, FullyGuarded, Leaked;
    forall i | 0 <= i < |run| ensures FullyGuarded(run[i].w) && !Leaked(run[i].w) {
      FreshRunsAreGuarded(e, run, i);
    }
  }

  lemma FreshIsGuarded(s: State)
    requires Fresh(s)
    ensures Start(s) && FullyGuarded(s.w)
  {
  }

  lemma GuardedIsNotLeaked(w: World)
    requires FullyGuarded(w)
    ensures !Leaked(w)
  {
  }

  // ---------------------------------------------------------------- giving the finalizers up

  /** From any start, legacy objects included: the controller's finalizers disappear only when a pass
      that found the object in deletion removes the access finalizer as the last one, after the
      access library reported the request gone. */
  lemma FinalizersGoInOrder(e: Setting, run: seq<State>, i: nat)
    requires IsRun(e, run) && Start(run[0]) && i + 1 < |run|
    requires Persisted(run[i].w) != {} && Persisted(run[i + 1].w) == {}
    ensures run[i].pc == DropAccess && Persisted(run[i].w) == {AccessFinalizer}
    ensures !run[i].w.access && run[i].l.xp.deleting
  {
    hide Core, Step, Persisted;
    CoreAlongRun(e, run, i);
    LastFinalizer(e, run[i], run[i + 1]);
  }

  lemma LastFinalizer(e: Setting, s: State, s': State)
    requires Core(s) && Step(e, s, s')
    requires Persisted(s.w) != {} && Persisted(s'.w) == {}
    ensures s.pc == DropAccess && Persisted(s.w) == {AccessFinalizer} && !s.w.access && s.l.xp.deleting
  {
    hide Core, Step, Persisted;
    StepPersisted(e, s, s');
    assert AccessFinalizer !in Persisted(s'.w) && ComponentsFinalizer !in Persisted(s'.w);
  }

  // ---------------------------------------------------------------- Crossplane goes last

  /** Everything requested was reported absent in phase 1 of this pass. */
  predicate PackagesReportedAbsent(l: Local) {
    && (forall p | p in Items(l.xp.spec.providers) :: ProviderKey(p.name) in l.seen && l.seen[ProviderKey(p.name)] == StatusDisabled)
    && (forall f | f in Items(l.xp.spec.functions) :: FunctionKey(f.name) in l.seen && l.seen[FunctionKey(f.name)] == StatusDisabled)
    && forall k | k in l.handed :: k in l.seen && l.seen[k] == StatusDisabled
  }

  predicate ListsPackages(spec: Spec) {
    Items(spec.providers) != [] || Items(spec.functions) != []
  }

  /** Earlier in this pass one of the two revision lists was read, and it was empty. */
  ghost predicate SawNone(run: seq<State>, i: nat, pc: Pc) {
    exists j | 0 <= j < i && i < |run| :: ListedNone(run[j], pc) && InOnePass(run, j, i)
  }

  predicate ListedNone(s: State, pc: Pc) {
    && s.pc == pc
    && (pc == ListProviderRevisions ==> s.w.providerRevisions == 0)
    && (pc == ListFunctionRevisions ==> s.w.functionRevisions == 0)
  }

  ghost predicate InOnePass(run: seq<State>, j: nat, i: nat) {
    i < |run| && forall m | j <= m <= i :: run[m].pc != Idle
  }

  /** The only ways into the second phase, when packages are listed. */
  lemma IntoPhase2(e: Setting, s: State, s': State)
    requires Step(e, s, s')
    ensures s'.pc == ListFunctionRevisions ==> s.pc == ListFunctionRevisions || ListedNone(s, ListProviderRevisions)
    ensures PastPhase1(s'.pc) && ListsPackages(s'.l.xp.spec) ==>
      (PastPhase1(s.pc) && s.l.xp.spec == s'.l.xp.spec) || ListedNone(s, ListFunctionRevisions)
  {
    hide Write, Tasks, Planned, EnvStep, JuggleStep;
    if PassStep(e, s, s') && s.pc.Juggle? {
      JuggleStays(s, s', s.pc.stage);
      JuggleKeepsInputs(s, s', s.pc.stage);
    }
  }

  lemma JuggleStays(s: State, s': State, stage: Stage)
    requires JuggleStep(s, s', stage) && s.pc == Juggle(stage)
    ensures s'.pc == s.pc || s'.pc == AfterJuggle(s.l, stage)
  {
    hide Handles, AfterJuggle;
  }

  lemma {:induction false} RevisionsWereListed(e: Setting, run: seq<State>, i: nat)
    requires IsRun(e, run) && Start(run[0]) && i < |run|
    ensures run[i].pc == ListFunctionRevisions ==> SawNone(run, i, ListProviderRevisions)
    ensures PastPhase1(run[i].pc) && ListsPackages(run[i].l.xp.spec) ==>
      SawNone(run, i, ListProviderRevisions) && SawNone(run, i, ListFunctionRevisions)
  {
    hide Step, ListsPackages, SawNone;
    if i == 0 {
      assert run[0].pc == Idle;
    } else {
      var s := run[i - 1];
      RevisionsWereListed(e, run, i - 1);
      IntoPhase2(e, s, run[i]);
      if run[i].pc == ListFunctionRevisions || PastPhase1(run[i].pc) {
        SawNoneStays(run, i, ListProviderRevisions);
        SawNoneStays(run, i, ListFunctionRevisions);
      }
    }
  }

  lemma SawNoneStays(run: seq<State>, i: nat, pc: Pc)
    requires 0 < i < |run| && run[i].pc != Idle && pc != Idle
    ensures SawNone(run, i - 1, pc) || ListedNone(run[i - 1], pc) ==> SawNone(run, i, pc)
  {
    if ListedNone(run[i - 1], pc) {
      assert InOnePass(run, i - 1, i);
    } else if j :| 0 <= j < i - 1 && ListedNone(run[j], pc) && InOnePass(run, j, i - 1) {
      assert InOnePass(run, j, i);
    }
  }

  /** Earlier in this pass the juggler of phase 1 found this object absent. */
  ghost predicate FoundAbsent(run: seq<State>, i: nat, k: Key) {
    exists j | 0 < j <= i && i < |run| :: SeenAbsent(run[j - 1], run[j], k) && InOnePass(run, j - 1, i)
  }

  predicate SeenAbsent(s: State, s': State, k: Key) {
    s.pc == Juggle(Phase1) && k !in s'.w.present
  }

  /** From the juggler of phase 1 on. */
  predicate FromPhase1(pc: Pc) {
    pc == Juggle(Phase1) || pc == ListProviderRevisions || pc == ListFunctionRevisions || PastPhase1(pc)
  }

  predicate Disabled(l: Local, k: Key) {
    k in l.seen && l.seen[k] == StatusDisabled
  }

  /** The only way a report of StatusDisabled comes about. */
  lemma DisabledIsAbsent(e: Setting, s: State, s': State, k: Key)
    requires Core(s) && Step(e, s, s')
    requires FromPhase1(s'.pc) && ListsPackages(s'.l.xp.spec) && Disabled(s'.l, k)
    ensures SeenAbsent(s, s', k) || (FromPhase1(s.pc) && ListsPackages(s.l.xp.spec) && Disabled(s.l, k))
  {
    hide Core, PassStep, ListsPackages, EnvStep, SeenAbsent, Disabled;
    if PassStep(e, s, s') {
      if s.pc.Juggle? {
        CallAdds(e, s, s');
        ReportedAbsent(s, s', s.pc.stage, k);
      } else {
        ReportStays(e, s, s', k);
      }
    }
  }

  /** Outside the juggler nothing is reported. */
  lemma ReportStays(e: Setting, s: State, s': State, k: Key)
    requires PassStep(e, s, s') && !s.pc.Juggle?
    requires FromPhase1(s'.pc) && ListsPackages(s'.l.xp.spec) && Disabled(s'.l, k)
    ensures FromPhase1(s.pc) && s'.l.xp.spec == s.l.xp.spec && Disabled(s.l, k)
  {
    hide Write, Tasks, Planned, Keys, ListsPackages, HasPackages;
    match s.pc {
      case GetAccessRequest => assert ListsPackages(s.l.xp.spec) == HasPackages(s.l.xp.spec) by { Lists(s.l.xp.spec); }
      case Register(stage) => assert Setup(e, s, s', stage);
      case _ =>
    }
  }

  lemma Lists(spec: Spec)
    ensures ListsPackages(spec) == HasPackages(spec)
  {
  }

  lemma ReportedAbsent(s: State, s': State, stage: Stage, k: Key)
    requires Core(s) && s.pc == Juggle(stage) && JuggleStep(s, s', stage) && FromPhase1(s'.pc) && Disabled(s'.l, k)
    ensures s'.l.xp == s.l.xp && (SeenAbsent(s, s', k) || (FromPhase1(s.pc) && Disabled(s.l, k)))
  {
    hide Gate, Synced, CopyFacts, Keys;
    if s.l.todo != multiset{} {
      var t, status :| t in s.l.todo && Handles(s.w, s'.w, t, status) && s' == State(s'.w, s.pc, Record(s.l, stage, t, status));
    }
  }

  lemma {:induction false} DisabledWereAbsent(e: Setting, run: seq<State>, i: nat, k: Key)
    requires IsRun(e, run) && Start(run[0]) && i < |run|
    requires FromPhase1(run[i].pc) && ListsPackages(run[i].l.xp.spec) && Disabled(run[i].l, k)
    ensures FoundAbsent(run, i, k)
  {
    hide Step, ListsPackages, Core, SeenAbsent;
    if i > 0 {
      var s := run[i - 1];
      CoreAlongRun(e, run, i - 1);
      DisabledIsAbsent(e, s, run[i], k);
      if SeenAbsent(s, run[i], k) {
        assert s.pc == Juggle(Phase1) by { AbsentInPhase1(s, run[i], k); }
        assert InOnePass(run, i - 1, i);
      } else {
        DisabledWereAbsent(e, run, i - 1, k);
        var j :| 0 < j <= i - 1 && SeenAbsent(run[j - 1], run[j], k) && InOnePass(run, j - 1, i - 1);
        assert InOnePass(run, j - 1, i);
      }
    }
  }

  lemma AbsentInPhase1(s: State, s': State, k: Key)
    requires SeenAbsent(s, s', k)
    ensures s.pc == Juggle(Phase1)
  {
  }

  /** In every run, when a deletion hands Crossplane to the juggler the spec lists no package, or in
      the same pass every package it lists and everything else of phase 1 was StatusDisabled and both
      revision lists were read and empty; and then nothing the controller manages is left but Crossplane. */
  lemma CrossplaneGoesLast(e: Setting, run: seq<State>, i: nat)
    requires IsRun(e, run) && Start(run[0]) && i < |run| && run[i].pc == Juggle(Phase2)
    ensures Items(run[i].l.xp.spec.providers) != [] || Items(run[i].l.xp.spec.functions) != [] ==>
      && PackagesReportedAbsent(run[i].l)
      && run[i].l.noProviderRevisions && run[i].l.noFunctionRevisions
      && (forall p | p in Items(run[i].l.xp.spec.providers) :: FoundAbsent(run, i, ProviderKey(p.name)))
      && (forall f | f in Items(run[i].l.xp.spec.functions) :: FoundAbsent(run, i, FunctionKey(f.name)))
      && SawNone(run, i, ListProviderRevisions) && SawNone(run, i, ListFunctionRevisions)
      && run[i].w.present <= {ReleaseKey}
  {
    hide SawNone, IsRun, FoundAbsent, Core;
    CoreAlongRun(e, run, i);
    PastPhase1Holds(run[i]);
    RevisionsWereListed(e, run, i);
    if ListsPackages(run[i].l.xp.spec) {
      forall p | p in Items(run[i].l.xp.spec.providers) ensures FoundAbsent(run, i, ProviderKey(p.name)) {
        DisabledWereAbsent(e, run, i, ProviderKey(p.name));
      }
      forall f | f in Items(run[i].l.xp.spec.functions) ensures FoundAbsent(run, i, FunctionKey(f.name)) {
        DisabledWereAbsent(e, run, i, FunctionKey(f.name));
      }
    }
  }

  lemma PastPhase1Holds(s: State)
    requires Core(s) && PastPhase1(s.pc)
    ensures Items(s.l.xp.spec.providers) != [] || Items(s.l.xp.spec.functions) != [] ==>
      && PackagesReportedAbsent(s.l)
      && s.l.noProviderRevisions && s.l.noFunctionRevisions
      && s.w.present <= {ReleaseKey}
  {
    hide Synced, CopyFacts, Phase1Done;
    if Items(s.l.xp.spec.providers) != [] || Items(s.l.xp.spec.functions) != [] {
      assert HasPackages(s.l.xp.spec);
      Phase1Covers(s.l);
    }
  }

  lemma Phase1Covers(l: Local)
    requires Phase1Done(l)
    ensures PackagesReportedAbsent(l)
  {
    var spec := l.xp.spec;
    var list := Phase1List(spec, l.config);
    TaskListMembers(list);
    PackagesInPhase1(spec, l.config);
    hide TaskList, Phase1List;
    forall c | c in list ensures KeyOf(c) in l.handed {
      assert Task(KeyOf(c), c.enabled) in multiset(TaskList(list));
      assert KeyOf(c) in Keys(multiset(TaskList(list)));
    }
  }

  lemma PackagesInPhase1(spec: Spec, config: ProviderConfig)
    ensures forall p | p in Items(spec.providers) :: exists c :: c in Phase1List(spec, config) && KeyOf(c) == ProviderKey(p.name)
    ensures forall f | f in Items(spec.functions) :: exists c :: c in Phase1List(spec, config) && KeyOf(c) == FunctionKey(f.name)
  {
    var providers, functions := Items(spec.providers), Items(spec.functions);
    var list := Phase1List(spec, config);
    forall p | p in providers ensures exists c :: c in list && KeyOf(c) == ProviderKey(p.name) {
      var i :| 0 <= i < |providers| && providers[i] == p;
      assert list[i] == ProviderFor(p, config, false) && list[i] in list;
    }
    forall f | f in functions ensures exists c :: c in list && KeyOf(c) == FunctionKey(f.name) {
      var i :| 0 <= i < |functions| && functions[i] == f;
      assert list[|providers| + i] == FunctionFor(f, config, false) && list[|providers| + i] in list;
    }
  }

  /** A step of the controller that starts or completes the uninstallation of Crossplane. */
  predicate Uninstalls(s: State, s': State) {
    && ReleaseKey in s.w.present
    && (ReleaseKey !in s'.w.present || (ReleaseKey in s'.w.terminating && ReleaseKey !in s.w.terminating))
  }

  /** The controller uninstalls Crossplane only in phase 2 of a deletion, and never while a package
      or a revision exists, managed or not. */
  lemma NoPackageOutlivesCrossplane(e: Setting, run: seq<State>, i: nat)
    requires IsRun(e, run) && Start(run[0]) && i + 1 < |run|
    requires PassStep(e, run[i], run[i + 1]) && Uninstalls(run[i], run[i + 1])
    ensures run[i].pc == Juggle(Phase2) && run[i].l.xp.deleting
    ensures run[i].w.foreignPackages == 0 && run[i].w.providerRevisions == 0 && run[i].w.functionRevisions == 0
    ensures forall name :: ProviderKey(name) !in run[i].w.present && FunctionKey(name) !in run[i].w.present
  {
    hide Core, PassStep, Uninstalls;
    CoreAlongRun(e, run, i);
    UninstallStep(e, run[i], run[i + 1]);
  }

  lemma UninstallStep(e: Setting, s: State, s': State)
    requires Core(s) && PassStep(e, s, s') && Uninstalls(s, s')
    ensures s.pc == Juggle(Phase2) && s.l.xp.deleting && HookClear(s.w)
  {
    hide Gate, Synced, HookClear, Planned, Tasks, Settle;
    assert s.pc.Juggle?;
  }

  // ---------------------------------------------------------------- exactly when nothing leaks

  ghost predicate Reaches(e: Setting, s: State, s': State) {
    exists run :: IsRun(e, run) && run[0] == s && run[|run| - 1] == s'
  }

  lemma ReachesSelf(e: Setting, s: State)
    ensures Reaches(e, s, s)
  {
    assert IsRun(e, [s]);
  }

  lemma Then(e: Setting, s: State, m: State, n: State)
    requires Reaches(e, s, m) && Step(e, m, n)
    ensures Reaches(e, s, n)
  {
    hide Step;
    var run :| IsRun(e, run) && run[0] == s && run[|run| - 1] == m;
    var longer := run + [n];
    assert IsRun(e, longer);
    assert longer[0] == s && longer[|longer| - 1] == n;
  }

  lemma ThenReaches(e: Setting, s: State, m: State, n: State)
    requires Reaches(e, s, m) && Reaches(e, m, n)
    ensures Reaches(e, s, n)
  {
    hide Step;
    var a :| IsRun(e, a) && a[0] == s && a[|a| - 1] == m;
    var b :| IsRun(e, b) && b[0] == m && b[|b| - 1] == n;
    var run := a + b[1..];
    forall i | 0 <= i < |run| - 1 ensures Step(e, run[i], run[i + 1]) {
      if i < |a| - 1 {
      } else {
        assert run[i] == b[i + 1 - |a|] && run[i + 1] == b[i + 2 - |a|];
      }
    }
    assert IsRun(e, run);
    assert run[|run| - 1] == n;
  }

  ghost predicate CanLeak(e: Setting, s: State) {
    exists t :: Reaches(e, s, t) && Leaked(t.w)
  }

  /** Without controller finalizers a delete and the other controllers make the object disappear. */
  lemma UnguardedDisappears(e: Setting, s: State) returns (t: State)
    requires Persisted(s.w) == {}
    ensures Reaches(e, s, t) && t.w.stored.None?
    ensures t.w.access == s.w.access && t.w.present == s.w.present
  {
    hide Reaches;
    ReachesSelf(e, s);
    t := s;
    if s.w.stored.Some? {
      var a := s.(w := Write(s.w, s.w.stored.value.(deleting := true)));
      assert UserDeletes(s.w, a.w);
      Then(e, s, s, a);
      t := a;
      if a.w.stored.Some? {
        t := a.(w := Write(a.w, a.w.stored.value.(finalizers := {})));
        assert ForeignWrites(a.w, t.w);
        Then(e, s, a, t);
      }
    }
  }

  /** The user clears the operation annotation and a ProviderConfig exists: a pass gets going. */
  lemma StartsPass(e: Setting, s: State) returns (t: State)
    requires Start(s) && s.w.stored.Some?
    ensures Reaches(e, s, t) && t.w.stored.Some? && WorldOk(t.w)
    ensures t.pc == (if ReadyForCleanup(t.l.xp) then DeleteAccess else EnsureAccess)
    ensures t.l.xp == t.w.stored.value
    ensures t.l.xp.finalizers == s.w.stored.value.finalizers && t.l.xp.deleting == s.w.stored.value.deleting
    ensures t.w.access == s.w.access && t.w.present == s.w.present
  {
    hide Reaches;
    ReachesSelf(e, s);
    var config := ProviderConfig([], [], [], [], [], None);
    var a := s.(w := Write(s.w, s.w.stored.value.(operation := NoOperation)));
    assert UserEdits(s.w, a.w);
    Then(e, s, s, a);
    var b := a.(w := a.w.(config := Some(config)));
    assert ClustersMove(a.w, b.w);
    Then(e, s, a, b);
    var c := State(b.w, HandleOperation, Begin(b.w.stored.value, b.l.config));
    assert PassStep(e, b, c);
    Then(e, s, b, c);
    var d := Goto(c, GetConfig);
    assert PassStep(e, c, d);
    Then(e, s, c, d);
    t := State(d.w, if ReadyForCleanup(d.l.xp) then DeleteAccess else EnsureAccess, d.l.(config := config));
    assert PassStep(e, d, t);
    Then(e, s, d, t);
  }

  /** With the access finalizer only, deletion gives up the access and then that finalizer. */
  lemma AccessOnlyReleases(e: Setting, s: State) returns (t: State)
    requires Start(s) && Persisted(s.w) == {AccessFinalizer}
    ensures Reaches(e, s, t) && Persisted(t.w) == {} && t.w.present == s.w.present
  {
    hide Reaches;
    ReachesSelf(e, s);
    var a := s.(w := Write(s.w, s.w.stored.value.(deleting := true)));
    assert UserDeletes(s.w, a.w);
    Then(e, s, s, a);
    var b := StartsPass(e, a);
    ThenReaches(e, s, a, b);
    assert Controlled(b.l.xp.finalizers) == {AccessFinalizer};
    assert LegacyFinalizer !in Controlled(b.l.xp.finalizers) && ComponentsFinalizer !in Controlled(b.l.xp.finalizers);
    assert b.pc == DeleteAccess;
    var c := State(b.w.(access := false), DropAccess, b.l);
    assert PassStep(e, b, c);
    Then(e, s, b, c);
    var xp := c.l.xp.(finalizers := c.l.xp.finalizers - {AccessFinalizer});
    t := State(Write(c.w, xp), UpdateStatus, c.l.(xp := xp.(version := c.w.clock + 1)));
    assert PassStep(e, c, t);
    Then(e, s, c, t);
  }

  /** One pass gives the object the access finalizer, unless it is stuck. */
  lemma AccessIsEnsured(e: Setting, s: State) returns (t: State)
    requires Start(s) && !Stuck(e, s.w)
    requires LegacyFinalizer in Persisted(s.w) || ComponentsFinalizer in Persisted(s.w)
    ensures Reaches(e, s, t) && t.pc == DropLegacy && t.w.stored == Some(t.l.xp) && WorldOk(t.w)
    ensures Persisted(t.w) == Persisted(s.w) + {AccessFinalizer} && t.w.present == s.w.present
  {
    hide Reaches;
    var a := StartsPass(e, s);
    var o := a.l.xp;
    t := if AccessFinalizer in o.finalizers then Goto(a, DropLegacy)
      else
        var xp := o.(finalizers := o.finalizers + {AccessFinalizer});
        State(Write(a.w, xp), DropLegacy, a.l.(xp := xp.(version := a.w.clock + 1)));
    assert PassStep(e, a, t);
    Then(e, s, a, t);
  }

  /** An object on its way through the migration has the access finalizer only. */
  lemma WithoutComponentsReleases(e: Setting, s: State) returns (t: State)
    requires Start(s) && !Stuck(e, s.w)
    requires Persisted(s.w) != {} && ComponentsFinalizer !in Persisted(s.w)
    ensures Reaches(e, s, t) && Persisted(t.w) == {} && t.w.present == s.w.present
  {
    hide Reaches;
    if LegacyFinalizer !in Persisted(s.w) {
      assert Persisted(s.w) == {AccessFinalizer};
      t := AccessOnlyReleases(e, s);
    } else {
      var b := AccessIsEnsured(e, s);
      var xp := b.l.xp.(finalizers := b.l.xp.finalizers - {LegacyFinalizer});
      var c := State(Write(b.w, xp), ReconcileAccess, b.l.(xp := xp.(version := b.w.clock + 1)));
      assert LegacyFinalizer in Persisted(b.w) && AccessFinalizer in Persisted(b.w);
      assert Update(e, b, c, b.l.xp.finalizers - {LegacyFinalizer}, ReconcileAccess);
      assert Drop(e, b, c, LegacyFinalizer, ReconcileAccess);
      assert PassStep(e, b, c);
      Then(e, s, b, c);
      var d := Goto(c, Idle);
      Then(e, s, c, d);
      assert AccessFinalizer in xp.finalizers && d.w.stored == Some(xp.(version := d.w.clock));
      assert Controlled(xp.finalizers) == Persisted(b.w) - {LegacyFinalizer} == {AccessFinalizer};
      t := AccessOnlyReleases(e, d);
      ThenReaches(e, s, d, t);
    }
  }

  /** Components under the legacy finalizer alone: the migration moves the object to the access
      finalizer first, and a delete then finds nothing to delete but the access. */
  lemma LegacyCanLeak(e: Setting, s: State)
    requires Start(s) && ComponentsFinalizer !in Persisted(s.w)
    requires s.w.present != {} && !Stuck(e, s.w)
    ensures CanLeak(e, s)
  {
    hide Reaches;
    var t := s;
    ReachesSelf(e, s);
    if Persisted(s.w) != {} {
      t := WithoutComponentsReleases(e, s);
    }
    var u := UnguardedDisappears(e, t);
    ThenReaches(e, s, t, u);
    assert Leaked(u.w);
  }

  /** No run from `s` leaks if and only if what exists at `s` is guarded. The unguarded starts are the
      objects installed under the legacy finalizer alone. */
  lemma LeakFreeExactly(e: Setting, s: State)
    requires Start(s)
    ensures Guarded(e, s.w) <==> forall t | Reaches(e, s, t) :: !Leaked(t.w)
  {
    if Guarded(e, s.w) {
      forall t | Reaches(e, s, t) ensures !Leaked(t.w) {
        var run :| IsRun(e, run) && run[0] == s && run[|run| - 1] == t;
        GuardedAlongRun(e, run, |run| - 1);
      }
    } else if s.w.access && Persisted(s.w) == {} {
      var t := UnguardedDisappears(e, s);
      assert Leaked(t.w);
    } else {
      LegacyCanLeak(e, s);
    }
  }
}
