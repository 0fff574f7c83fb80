/** Safety of every run: nothing leaks, Crossplane goes last, finalizers are given up in order. */
module LifecycleSafety {
  import opened Types
  import opened Components
  import opened Planner
  import opened Lifecycle
  import PlanLaws

  // ---------------------------------------------------------------- the core invariant

  /** Inside a pass, before its outcome is settled. */
  predicate Active(pc: Pc) {
    pc != Idle && pc != UpdateStatus
  }

  /** The access finalizer has been ensured. */
  predicate AccessEnsured(pc: Pc) {
    match pc
    case DropLegacy => true
    case ReconcileAccess => true
    case GetCluster => true
    case GetAccessRequest => true
    case _ => Installing(pc) || Deleting(pc)
  }

  /** On the way to installing components. */
  predicate Installing(pc: Pc) {
    pc == EnsureComponents || pc == DropLegacyAgain || pc == Register(Install) || pc == Juggle(Install)
  }

  /** The components finalizer has been ensured, on the way to installing. */
  predicate ComponentsEnsured(pc: Pc) {
    Installing(pc) && pc != EnsureComponents
  }

  /** On the way to deleting components. */
  predicate Deleting(pc: Pc) {
    match pc
    case Register(stage) => stage != Install
    case Juggle(stage) => stage != Install
    case ListProviderRevisions => true
    case ListFunctionRevisions => true
    case DropComponents => true
    case _ => false
  }

  /** Past phase 1 of a deletion. */
  predicate PastPhase1(pc: Pc) {
    pc == Register(Phase2) || pc == Juggle(Phase2) || pc == DropComponents
  }

  predicate WorldOk(w: World) {
    w.stored.Some? ==>
      w.stored.value.version <= w.clock && !(w.stored.value.deleting && w.stored.value.finalizers == {})
  }

  /** The copy carries the controller finalizers that are persisted, whatever happened meanwhile, and
      equals the persisted object as long as the version is the same. */
  predicate Synced(s: State) {
    Active(s.pc) ==>
      && s.l.xp.version <= s.w.clock
      && Persisted(s.w) == Controlled(s.l.xp.finalizers)
      && (s.w.stored.Some? && s.w.stored.value.version == s.l.xp.version ==> s.w.stored.value == s.l.xp)
  }

  predicate CopyFacts(s: State) {
    var f := s.l.xp.finalizers;
    && (AccessEnsured(s.pc) ==> AccessFinalizer in f)
    && (AccessEnsured(s.pc) && s.pc != DropLegacy ==> LegacyFinalizer !in f)
    && (Installing(s.pc) ==> !s.l.xp.deleting)
    && (ComponentsEnsured(s.pc) || Deleting(s.pc) ==> ComponentsFinalizer in f)
    && (Deleting(s.pc) ==> s.l.xp.deleting)
    && (s.pc == DeleteAccess || s.pc == DropAccess ==> ReadyForCleanup(s.l.xp))
    && (s.pc == DropAccess ==> !s.w.access)
  }

  /** What is still there is still to be handled, unless something was reported as remaining. */
  predicate Coverage(s: State) {
    && (s.pc == Juggle(Phase1) ==>
          && (forall t | t in s.l.todo :: !t.enabled)
          && (!s.l.remaining ==> s.w.present <= Keys(s.l.todo) + {ReleaseKey}))
    && (s.pc == Juggle(Phase2) ==>
          && (forall t | t in s.l.todo :: !t.enabled)
          && (!s.l.remaining ==> s.w.present <= Keys(s.l.todo)))
    && (s.pc.Juggle? && s.pc.stage != Phase2 ==> forall t | t in s.l.todo && t.key == ReleaseKey :: t.enabled)
    && (s.pc == ListProviderRevisions || s.pc == ListFunctionRevisions ==> s.w.present <= {ReleaseKey})
    && (PastPhase1(s.pc) && HasPackages(s.l.xp.spec) ==> s.w.present <= {ReleaseKey})
    && (s.pc == DropComponents ==> s.w.present == {})
  }

  /** Phase 1 handed over every requested package and got StatusDisabled for everything. */
  predicate Phase1Done(l: Local) {
    && Keys(multiset(TaskList(Phase1List(l.xp.spec, l.config)))) <= l.handed
    && forall k | k in l.handed :: k in l.seen && l.seen[k] == StatusDisabled
  }

  predicate Phase1Running(l: Local) {
    && Keys(multiset(TaskList(Phase1List(l.xp.spec, l.config)))) <= l.handed
    && Keys(l.todo) <= l.handed
    && (!l.remaining ==> forall k | k in l.handed && k !in Keys(l.todo) :: k in l.seen && l.seen[k] == StatusDisabled)
  }

  /** The order of a deletion, as far as the pass has come. */
  predicate Gate(s: State) {
    && (s.pc == Juggle(Phase1) ==> HasPackages(s.l.xp.spec) && Phase1Running(s.l))
    && (s.pc == Register(Phase1) ==> HasPackages(s.l.xp.spec))
    && (s.pc == ListProviderRevisions ==> Phase1Done(s.l))
    && (s.pc == ListFunctionRevisions ==> Phase1Done(s.l) && s.l.noProviderRevisions)
    && (PastPhase1(s.pc) && HasPackages(s.l.xp.spec) ==>
          Phase1Done(s.l) && s.l.noProviderRevisions && s.l.noFunctionRevisions)
  }

  predicate Core(s: State) {
    WorldOk(s.w) && Synced(s) && CopyFacts(s) && Coverage(s) && Gate(s)
  }

  lemma EnvKeepsCore(s: State, w': World)
    requires Core(s) && EnvStep(s.w, w')
    ensures Core(s.(w := w'))
    ensures Persisted(w') == Persisted(s.w) && w'.present <= s.w.present && (w'.access ==> s.w.access)
  {
    hide Phase1Done, Phase1Running;
  }

  lemma WriteKeepsCore(e: Setting, s: State, s': State, finalizers: set<Finalizer>, next: Pc)
    requires Core(s) && Active(s.pc)
    requires Update(e, s, s', finalizers, next)
    ensures s'.pc == UpdateStatus || s'.pc == next
    ensures s'.l == s.l.(xp := s'.l.xp) && s'.l.xp == s.l.xp.(finalizers := finalizers, version := s'.l.xp.version)
    ensures s'.w == s.w.(clock := s'.w.clock, stored := s'.w.stored)
    ensures WorldOk(s'.w) && Synced(s')
    ensures s'.w == s.w || Persisted(s'.w) == Controlled(finalizers)
  {
  }

  lemma EnsureKeepsCore(e: Setting, s: State, s': State, f: Finalizer, next: Pc)
    requires Core(s) && Ensure(e, s, s', f, next)
    requires (s.pc, f, next) in {(EnsureAccess, AccessFinalizer, DropLegacy), (EnsureComponents, ComponentsFinalizer, DropLegacyAgain)}
    ensures Core(s')
  {
    hide Phase1Done, Phase1Running, Update;
    if f !in s.l.xp.finalizers {
      WriteKeepsCore(e, s, s', s.l.xp.finalizers + {f}, next);
    }
  }

  lemma DropKeepsCore(e: Setting, s: State, s': State, f: Finalizer, next: Pc)
    requires Core(s) && Drop(e, s, s', f, next)
    requires (s.pc, f, next) in {(DropLegacy, LegacyFinalizer, ReconcileAccess), (DropLegacyAgain, LegacyFinalizer, Register(Install)),
                                 (DropComponents, ComponentsFinalizer, UpdateStatus), (DropAccess, AccessFinalizer, UpdateStatus)}
    ensures Core(s')
  {
    hide Phase1Done, Phase1Running, Update;
    if f in s.l.xp.finalizers {
      WriteKeepsCore(e, s, s', s.l.xp.finalizers - {f}, next);
    }
  }

  lemma SetupKeepsCore(e: Setting, s: State, s': State, stage: Stage)
    requires Core(s) && s.pc == Register(stage) && Setup(e, s, s', stage)
    ensures Core(s')
  {
    hide Tasks, TaskList, Phase1List, Plan, Keys, HasPackages;
    if s'.pc == Juggle(stage) {
      var comps := Planned(e, stage, s.l.xp.spec, s.l.config).value;
      TasksCover(comps, s.w.present);
      match stage {
        case Install =>
          PlanEnabled(e.env, s.l.xp.spec, s.l.config);
          TasksOnRelease(comps, s.w.present);
        case Phase1 =>
          Phase1Disabled(s.l.xp.spec, s.l.config);
          TasksOnRelease(comps, s.w.present);
          TasksDisabled(comps, s.w.present);
        case Phase2 =>
          PlanDisabled(e.env, s.l.xp.spec, s.l.config);
          TasksDisabled(comps, s.w.present);
      }
    }
  }

  lemma TasksDisabled(comps: seq<Component>, present: set<Key>)
    requires forall c | c in comps :: !c.enabled
    ensures forall t | t in Tasks(comps, present) :: !t.enabled
  {
    TaskListMembers(comps);
    hide TaskList;
    forall t | t in Tasks(comps, present) ensures !t.enabled {
      assert t in TaskList(comps) || t in Orphans(comps, present);
    }
  }

  /** Crossplane is never taken for an orphan. */
  lemma TasksOnRelease(comps: seq<Component>, present: set<Key>)
    requires forall c | c in comps && KeyOf(c) == ReleaseKey :: c.enabled
    ensures forall t | t in Tasks(comps, present) && t.key == ReleaseKey :: t.enabled
  {
    TaskListMembers(comps);
    hide TaskList;
    forall t | t in Tasks(comps, present) ensures t.key == ReleaseKey ==> t.enabled {
      assert t in TaskList(comps) || t in Orphans(comps, present);
    }
  }

  lemma PlanEnabled(env: Env, spec: Spec, config: ProviderConfig)
    requires Plan(env, spec, config, true).Ok?
    ensures forall c | c in Plan(env, spec, config, true).value :: c.enabled
  {
    hide PlanList, PlanLaws.PullSecretNames, PlanLaws.Prefixed, EffectiveChartSecret;
    forall c | c in Plan(env, spec, config, true).value ensures c.enabled {
      PlanLaws.PlanMembers(env, spec, config, true, c);
    }
  }

  lemma Phase1Disabled(spec: Spec, config: ProviderConfig)
    ensures forall c | c in Phase1List(spec, config) :: !c.enabled && KeyOf(c) != ReleaseKey
  {
  }

  /** A teardown plan names Crossplane first and enables nothing. */
  lemma PlanDisabled(env: Env, spec: Spec, config: ProviderConfig)
    requires Plan(env, spec, config, false).Ok?
    ensures var comps := Plan(env, spec, config, false).value;
      (forall c | c in comps :: !c.enabled) && exists c :: c in comps && KeyOf(c) == ReleaseKey
  {
    hide PlanList, PlanLaws.PullSecretNames, PlanLaws.Prefixed, EffectiveChartSecret;
    var comps := Plan(env, spec, config, false).value;
    forall c | c in comps ensures !c.enabled {
      PlanLaws.PlanMembers(env, spec, config, false, c);
    }
    PlanLaws.PlanMembers(env, spec, config, false, CrossplaneFor(spec, config, PlanLaws.Prefixed(env, spec, config), false));
    assert KeyOf(CrossplaneFor(spec, config, PlanLaws.Prefixed(env, spec, config), false)) == ReleaseKey;
  }

  lemma TaskListMembers(comps: seq<Component>)
    ensures forall t | t in TaskList(comps) :: exists c :: c in comps && t == Task(KeyOf(c), c.enabled)
    ensures forall c | c in comps :: Task(KeyOf(c), c.enabled) in TaskList(comps)
  {
    forall t | t in TaskList(comps) ensures exists c :: c in comps && t == Task(KeyOf(c), c.enabled) {
      var i :| 0 <= i < |comps| && TaskList(comps)[i] == t;
      assert comps[i] in comps;
    }
    forall c | c in comps ensures Task(KeyOf(c), c.enabled) in TaskList(comps) {
      var i :| 0 <= i < |comps| && comps[i] == c;
      assert TaskList(comps)[i] == Task(KeyOf(c), c.enabled);
    }
  }

  lemma TasksCover(comps: seq<Component>, present: set<Key>)
    ensures forall k | k in present && k != ReleaseKey :: k in Keys(Tasks(comps, present))
    ensures forall c | c in comps :: KeyOf(c) in Keys(Tasks(comps, present))
    ensures Keys(multiset(TaskList(comps))) <= Keys(Tasks(comps, present))
  {
    hide TaskList;
    TaskListMembers(comps);
    forall c | c in comps ensures KeyOf(c) in Keys(Tasks(comps, present)) {
      assert Task(KeyOf(c), c.enabled) in Tasks(comps, present);
    }
    forall k | k in present && k != ReleaseKey ensures k in Keys(Tasks(comps, present)) {
      if forall c | c in comps :: KeyOf(c) != k {
        assert Task(k, false) in Orphans(comps, present);
        assert Task(k, false) in Tasks(comps, present);
      } else {
        var c :| c in comps && KeyOf(c) == k;
      }
    }
  }

  /** The orphans are the managed objects that, converted back, no configured component of their kind
      is the same as. */
  lemma OrphansAreTheUnmatched(comps: seq<Component>, present: set<Key>, k: Key)
    requires k != ReleaseKey
    ensures Task(k, false) in Orphans(comps, present) <==>
      k in present && forall c | c in comps && !c.Crossplane? && SameKind(c, FromObject(k)) :: !Same(c, FromObject(k))
  {
    forall c | c in comps
      ensures KeyOf(c) == k <==> !c.Crossplane? && SameKind(c, FromObject(k)) && Same(c, FromObject(k))
    {
      if !c.Crossplane? && SameKind(c, FromObject(k)) {
        OrphanRoundTrip(FromObject(k), c);
      }
    }
  }

  lemma KeysWithout(todo: multiset<Task>, t: Task, k: Key)
    requires t in todo && k in Keys(todo) && k != t.key
    ensures k in Keys(todo - multiset{t})
  {
    var u :| u in todo && u.key == k;
    assert u in todo - multiset{t};
  }

  /** Handling one component only ever lowers what is present, unless it is an enabled one. */
  lemma HandlesEffect(w: World, w': World, t: Task, status: Status)
    requires Handles(w, w', t, status)
    ensures w'.stored == w.stored && w'.clock == w.clock && w'.access == w.access
    ensures t.enabled ==> w'.present <= w.present + {t.key}
    ensures !t.enabled ==> w'.present <= w.present
    ensures !t.enabled && status == StatusDisabled ==> t.key !in w'.present
  {
  }

  lemma JuggleKeepsCore(s: State, s': State, stage: Stage)
    requires Core(s) && s.pc == Juggle(stage) && JuggleStep(s, s', stage)
    ensures Core(s')
  {
    if s.l.todo == multiset{} {
      assert Keys(s.l.todo) == {};
    } else {
      var t, status :| t in s.l.todo && Handles(s.w, s'.w, t, status) && s' == State(s'.w, s.pc, Record(s.l, stage, t, status));
      RecordKeepsCore(s, s', stage, t, status);
    }
  }

  lemma RecordKeepsCore(s: State, s': State, stage: Stage, t: Task, status: Status)
    requires Core(s) && s.pc == Juggle(stage) && t in s.l.todo
    requires Handles(s.w, s'.w, t, status) && s' == State(s'.w, s.pc, Record(s.l, stage, t, status))
    ensures Core(s')
  {
    hide Handles, TaskList, Phase1List, HasPackages, Keys;
    HandlesEffect(s.w, s'.w, t, status);
    forall k | k in Keys(s.l.todo) && k != t.key ensures k in Keys(s'.l.todo) {
      KeysWithout(s.l.todo, t, k);
    }
    KeysOfSubset(s'.l.todo, s.l.todo);
    KeysOfMember(s.l.todo, t);
  }

  lemma KeysOfSubset(a: multiset<Task>, b: multiset<Task>)
    requires a <= b
    ensures Keys(a) <= Keys(b)
  {
  }

  lemma KeysOfMember(a: multiset<Task>, t: Task)
    requires t in a
    ensures t.key in Keys(a)
  {
  }

  /** The core invariant survives every step of the system. */
  lemma StepKeepsCore(e: Setting, s: State, s': State)
    requires Core(s) && Step(e, s, s')
    ensures Core(s')
  {
    if PassStep(e, s, s') {
      PassKeepsCore(e, s, s');
    } else if EnvStep(s.w, s'.w) && s' == s.(w := s'.w) {
      EnvKeepsCore(s, s'.w);
    }
  }

  lemma PassKeepsCore(e: Setting, s: State, s': State)
    requires Core(s) && PassStep(e, s, s')
    ensures Core(s')
  {
    hide Core, Fetch, Operate, Configure, Grant, Revoke, Setup, JuggleStep, ListRevisions, WriteStatus, Ensure, Drop;
    match s.pc {
      case Idle => ReadKeepsCore(e, s, s');
      case HandleOperation => ReadKeepsCore(e, s, s');
      case GetConfig => ReadKeepsCore(e, s, s');
      case EnsureAccess => EnsureKeepsCore(e, s, s', AccessFinalizer, DropLegacy);
      case DropLegacy => DropKeepsCore(e, s, s', LegacyFinalizer, ReconcileAccess);
      case ReconcileAccess => ProbeKeepsCore(e, s, s');
      case GetCluster => ProbeKeepsCore(e, s, s');
      case GetAccessRequest => ProbeKeepsCore(e, s, s');
      case EnsureComponents => EnsureKeepsCore(e, s, s', ComponentsFinalizer, DropLegacyAgain);
      case DropLegacyAgain => DropKeepsCore(e, s, s', LegacyFinalizer, Register(Install));
      case Register(stage) => SetupKeepsCore(e, s, s', stage);
      case Juggle(stage) => JuggleKeepsCore(s, s', stage);
      case ListProviderRevisions => ProbeKeepsCore(e, s, s');
      case ListFunctionRevisions => ProbeKeepsCore(e, s, s');
      case DropComponents => DropKeepsCore(e, s, s', ComponentsFinalizer, UpdateStatus);
      case DeleteAccess => ProbeKeepsCore(e, s, s');
      case DropAccess => DropKeepsCore(e, s, s', AccessFinalizer, UpdateStatus);
      case UpdateStatus => ReadKeepsCore(e, s, s');
    }
  }

  lemma ReadKeepsCore(e: Setting, s: State, s': State)
    requires Core(s) && PassStep(e, s, s')
    requires s.pc in {Idle, HandleOperation, GetConfig, UpdateStatus}
    ensures Core(s')
  {
    hide Phase1Done, Phase1Running, HasPackages, Ensure, Drop, Setup, JuggleStep, ListRevisions, Fetch, Operate, Configure, Grant, Revoke;
    match s.pc {
      case Idle => FetchKeepsCore(s, s');
      case HandleOperation => OperateKeepsCore(s, s');
      case GetConfig => ConfigureKeepsCore(s, s');
      case UpdateStatus =>
    }
  }

  lemma FetchKeepsCore(s: State, s': State)
    requires Core(s) && s.pc == Idle && Fetch(s, s')
    ensures Core(s')
  {
    hide Phase1Done, Phase1Running, HasPackages;
  }

  lemma OperateKeepsCore(s: State, s': State)
    requires Core(s) && s.pc == HandleOperation && Operate(s, s')
    ensures Core(s')
  {
    OperateSyncs(s, s');
    hide Operate, WorldOk, Synced;
    NothingGated(s');
  }

  lemma OperateSyncs(s: State, s': State)
    requires WorldOk(s.w) && Synced(s) && s.pc == HandleOperation && Operate(s, s')
    ensures WorldOk(s'.w) && Synced(s') && s'.pc in {UpdateStatus, GetConfig, Idle}
  {
  }

  lemma NothingGated(s: State)
    requires s.pc in {UpdateStatus, GetConfig, Idle}
    ensures CopyFacts(s) && Coverage(s) && Gate(s)
  {
    hide Phase1Done, Phase1Running, HasPackages;
  }

  lemma ConfigureKeepsCore(s: State, s': State)
    requires Core(s) && s.pc == GetConfig && Configure(s, s')
    ensures Core(s')
  {
    hide Phase1Done, Phase1Running, HasPackages;
  }

  lemma ProbeKeepsCore(e: Setting, s: State, s': State)
    requires Core(s) && PassStep(e, s, s')
    requires s.pc in {ReconcileAccess, GetCluster, GetAccessRequest, ListProviderRevisions, ListFunctionRevisions, DeleteAccess}
    ensures Core(s')
  {
    hide Phase1Done, Phase1Running, HasPackages, Ensure, Drop, Setup, JuggleStep, ListRevisions, Fetch, Operate, Configure, WriteStatus;
    match s.pc {
      case ListProviderRevisions => ListKeepsCore(s, s');
      case ListFunctionRevisions => ListKeepsCore(s, s');
      case _ =>
    }
  }

  lemma ListKeepsCore(s: State, s': State)
    requires Core(s) && s.pc in {ListProviderRevisions, ListFunctionRevisions} && ListRevisions(s, s')
    ensures Core(s')
  {
    hide Phase1Running, HasPackages;
  }
}
