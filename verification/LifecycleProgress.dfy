/** One call of a deletion in a cooperating environment: what it keeps, what it moves closer to the end,
    and that some call can always succeed. */
module LifecycleProgress {
  import opened Types
  import opened Components
  import opened Planner
  import opened Lifecycle
  import opened LifecycleSafety
  import opened LifecycleRuns

  // ---------------------------------------------------------------- cooperation

  predicate HasPackageKey(w: World) {
    exists k :: k in w.present && IsPackageKey(k)
  }

  /** What still has to go before Crossplane may: revisions and packages nobody here manages. */
  function Blockers(w: World): nat {
    w.foreignPackages + w.providerRevisions + w.functionRevisions
  }

  /** Managed objects count twice while they are not even marked for deletion. */
  function Rank(w: World): nat {
    |w.present| + |w.present - w.terminating|
  }

  /** The clusters move towards the end only. */
  predicate Benign(w: World, w': World) {
    && w' == w.(access := w'.access, present := w'.present, terminating := w'.terminating,
                foreignPackages := w'.foreignPackages, providerRevisions := w'.providerRevisions,
                functionRevisions := w'.functionRevisions)
    && (w'.access ==> w.access)
    && w'.present <= w.present
    && w'.present - w'.terminating <= w.present - w.terminating
    && w'.foreignPackages <= w.foreignPackages
    && w'.providerRevisions <= w.providerRevisions
    && w'.functionRevisions <= w.functionRevisions
  }

  /** Blockers decrease once no managed package keeps them alive. */
  predicate Unblocks(w: World, w': World) {
    Blockers(w) > 0 && !HasPackageKey(w) ==> Blockers(w') < Blockers(w)
  }

  /** The juggler reports absent components as such and gets every other one closer to its end,
      Crossplane only when the hook allows. */
  ghost predicate Lowers(s: State, s': State, stage: Stage) {
    exists t, status ::
      && t in s.l.todo && Handles(s.w, s'.w, t, status)
      && s' == State(s'.w, s.pc, Record(s.l, stage, t, status))
      && (t.key !in s.w.present ==> status == StatusDisabled)
      && (t.key in s.w.present && (t.key == ReleaseKey ==> HookClear(s.w)) ==> Benign(s.w, s'.w) && Rank(s'.w) < Rank(s.w))
      && (t.key in s.w.present && t.key == ReleaseKey && !HookClear(s.w) ==> s'.w == s.w)
  }

  /** The call does what it is for. */
  ghost predicate Succeeds(s: State, s': State) {
    match s.pc
    case Idle => s'.pc == HandleOperation
    case HandleOperation => s'.pc == GetConfig
    case GetConfig => s'.pc != UpdateStatus
    case EnsureAccess => s'.pc == DropLegacy
    case DropLegacy => s'.pc == ReconcileAccess
    case ReconcileAccess => s'.pc == GetCluster
    case GetCluster => s'.pc == GetAccessRequest
    case GetAccessRequest => s'.pc == AfterAccess(s.l.xp)
    case Register(stage) => s'.pc == Juggle(stage)
    case Juggle(stage) => s.l.todo != multiset{} ==> Lowers(s, s', stage)
    case ListProviderRevisions => s.w.providerRevisions == 0 ==> s'.pc == ListFunctionRevisions
    case ListFunctionRevisions => s.w.functionRevisions == 0 ==> s'.pc == Register(Phase2)
    case DropComponents => ComponentsFinalizer !in Persisted(s'.w)
    case DeleteAccess => s'.pc == DropAccess
    case DropAccess => AccessFinalizer !in Persisted(s'.w)
    case _ => true
  }

  /** One call that succeeds, preceded by whatever the clusters did meanwhile. */
  ghost predicate CallStep(e: Setting, s: State, s': State) {
    exists w :: Benign(s.w, w) && PassStep(e, s.(w := w), s') && Succeeds(s.(w := w), s')
  }

  /** One call that may fail in any way, or a crash. */
  ghost predicate LenientStep(e: Setting, s: State, s': State) {
    exists w :: Benign(s.w, w) && (PassStep(e, s.(w := w), s') || s' == Goto(s.(w := w), Idle))
  }

  /** The controller has nothing more to give up. */
  predicate Released(s: State) {
    Persisted(s.w) == {}
  }

  /** Nothing holds the deletion up: there is a ProviderConfig, the object is not to be ignored, its
      teardown can be built if there is one to be done, and the access finalizer is there if the server
      refuses it now. */
  predicate Unblocked(e: Setting, w: World) {
    && w.config.Some?
    && w.stored.Some? && w.stored.value.operation != IgnoreOperation
    && (ComponentsFinalizer in Persisted(w) ==> PlanError(e.env, w.stored.value.spec, w.config.value, false).None?)
    && (e.strict ==> AccessFinalizer in Persisted(w))
  }

  /** The object is being deleted, and nothing holds the deletion up. */
  predicate Cooperative(e: Setting, s: State) {
    && Core(s)
    && Unblocked(e, s.w) && s.w.stored.value.deleting
    && (Active(s.pc) ==> s.w.stored == Some(s.l.xp))
    && (KnowsConfig(s.pc) ==> s.l.config == s.w.config.value)
    && (s.pc == EnsureAccess || s.pc == DropLegacy ==> !ReadyForCleanup(s.l.xp))
  }

  // ---------------------------------------------------------------- the measure

  /** The access finalizer counts as long as any is left, so ensuring it costs nothing. */
  function Finalizers(w: World): nat {
    (if LegacyFinalizer in Persisted(w) then 4 else 0)
    + (if ComponentsFinalizer in Persisted(w) then 2 else 0)
    + (if Persisted(w) != {} then 1 else 0)
  }

  function Work(w: World): nat {
    Rank(w) + Blockers(w)
  }

  predicate Below(w: World, f: nat, n: nat) {
    Finalizers(w) < f || (Finalizers(w) == f && Work(w) < n)
  }

  predicate NotAbove(w: World, f: nat, n: nat) {
    Below(w, f, n) || (Finalizers(w) == f && Work(w) == n)
  }

  /** How far a deletion pass still has to go. */
  function Distance(pc: Pc): nat {
    match pc
    case HandleOperation => 14
    case GetConfig => 13
    case EnsureAccess => 12
    case DropLegacy => 11
    case ReconcileAccess => 10
    case GetCluster => 9
    case GetAccessRequest => 8
    case Register(Phase1) => 7
    case Juggle(Phase1) => 6
    case ListProviderRevisions => 5
    case ListFunctionRevisions => 4
    case Register(Phase2) => 3
    case Juggle(Phase2) => 2
    case DropComponents => 1
    case DeleteAccess => 2
    case DropAccess => 1
    case _ => 0
  }

  /** Inside a pass that has not lowered the measure yet, nothing has been reported as remaining but
      a Crossplane held back by a package that is still to be handled. */
  predicate Untouched(s: State) {
    && (Blockers(s.w) > 0 ==> HasPackageKey(s.w))
    && (s.pc in {ReconcileAccess, GetCluster, GetAccessRequest} ==> ComponentsFinalizer in s.l.xp.finalizers)
    && (s.pc == Juggle(Phase1) ==> !s.l.remaining)
    && (s.pc == Juggle(Phase2) ==>
          && (s.l.remaining ==> HasPackageKey(s.w))
          && forall k | k in s.w.present && k != ReleaseKey :: k in Keys(s.l.todo))
    && s.pc != UpdateStatus
  }

  /** The pass started with measure (f, n) and has lowered it, or still will. */
  predicate OnTheWay(e: Setting, s: State, f: nat, n: nat) {
    && Cooperative(e, s) && s.pc != Idle
    && NotAbove(s.w, f, n)
    && (Below(s.w, f, n) || Untouched(s))
  }

  lemma SubsetSize<T>(a: set<T>, b: set<T>)
    requires a <= b
    ensures |a| <= |b| && (a != b ==> |a| < |b|)
  {
    assert b == a + (b - a);
  }

  lemma BenignLowers(w: World, w': World)
    requires Benign(w, w')
    ensures Rank(w') <= Rank(w) && Blockers(w') <= Blockers(w)
    ensures w'.present != w.present ==> Rank(w') < Rank(w)
    ensures Finalizers(w') == Finalizers(w)
    ensures Work(w') < Work(w) || (w'.present == w.present && Blockers(w') == Blockers(w))
  {
    SubsetSize(w'.present, w.present);
    SubsetSize(w'.present - w'.terminating, w.present - w.terminating);
  }

  lemma BenignKeepsCore(s: State, w: World)
    requires Core(s) && Benign(s.w, w)
    ensures Core(s.(w := w))
  {
    assert ClustersMove(s.w, w);
    EnvKeepsCore(s, w);
  }

  // ---------------------------------------------------------------- one cooperative step

  lemma BenignKeepsOnTheWay(e: Setting, s: State, w: World, f: nat, n: nat)
    requires OnTheWay(e, s, f, n) && Benign(s.w, w)
    ensures OnTheWay(e, s.(w := w), f, n)
  {
    hide Core, Rank, Blockers, Finalizers;
    BenignKeepsCore(s, w);
    BenignLowers(s.w, w);
  }

  /** A successful finalizer update leaves the copy and the persisted object equal. */
  lemma UpdatedTogether(e: Setting, s: State, s': State, finalizers: set<Finalizer>, next: Pc)
    requires Cooperative(e, s) && Active(s.pc) && next != UpdateStatus
    requires Update(e, s, s', finalizers, next) && s'.pc == next && finalizers != {}
    ensures s'.w == s.w.(clock := s'.w.clock, stored := s'.w.stored)
    ensures s'.w.stored == Some(s'.l.xp) && s'.l == s.l.(xp := s'.l.xp)
    ensures s'.l.xp == s.l.xp.(finalizers := finalizers, version := s'.l.xp.version)
  {
  }

  lemma EnsureAccessMoves(e: Setting, s: State, s': State, f: nat, n: nat)
    requires OnTheWay(e, s, f, n) && s.pc == EnsureAccess && PassStep(e, s, s') && Succeeds(s, s')
    ensures OnTheWay(e, s', f, n)
  {
    hide Core, Update, PlanError;
    PassKeepsCore(e, s, s');
    var x := s.l.xp.finalizers;
    if AccessFinalizer !in x {
      UpdatedTogether(e, s, s', x + {AccessFinalizer}, DropLegacy);
      assert LegacyFinalizer in Persisted(s.w) || ComponentsFinalizer in Persisted(s.w);
      assert AccessFinalizer in Persisted(s'.w);
    }
  }

  lemma DropLegacyMoves(e: Setting, s: State, s': State, f: nat, n: nat)
    requires OnTheWay(e, s, f, n) && s.pc == DropLegacy && PassStep(e, s, s') && Succeeds(s, s')
    ensures OnTheWay(e, s', f, n)
  {
    hide Rank, Update, PlanError, Blockers, Gate, Coverage;
    PassKeepsCore(e, s, s');
    var x := s.l.xp.finalizers;
    if LegacyFinalizer in x {
      assert AccessFinalizer in x - {LegacyFinalizer};
      UpdatedTogether(e, s, s', x - {LegacyFinalizer}, ReconcileAccess);
    }
  }

  lemma DropComponentsMoves(e: Setting, s: State, s': State, f: nat, n: nat)
    requires OnTheWay(e, s, f, n) && s.pc == DropComponents && PassStep(e, s, s') && Succeeds(s, s')
    ensures OnTheWay(e, s', f, n) && s'.pc == UpdateStatus
  {
    hide Rank, PlanError, Blockers, Gate, Coverage;
    PassKeepsCore(e, s, s');
    assert AccessFinalizer in s.l.xp.finalizers - {ComponentsFinalizer};
  }

  lemma JuggleMoves(e: Setting, s: State, s': State, f: nat, n: nat, stage: Stage)
    requires OnTheWay(e, s, f, n) && s.pc == Juggle(stage) && PassStep(e, s, s') && Succeeds(s, s')
    ensures OnTheWay(e, s', f, n)
    ensures Distance(s'.pc) < Distance(s.pc) || (s'.pc == s.pc && |s'.l.todo| < |s.l.todo|)
  {
    hide OnTheWay, Core, Ensure, Drop, Setup, ListRevisions, Fetch, Operate, Configure, Grant, Revoke, WriteStatus, Plan, Record, Handles;
    OnTheWayParts(e, s, f, n);
    PassKeepsCore(e, s, s');
    JugglingDeletes(s, stage);
    PhaseOneKeepsRelease(s, stage);
    if s.l.todo == multiset{} {
      JuggleEnds(e, s, s', f, n, stage);
    } else {
      var t, status :| t in s.l.todo && Handles(s.w, s'.w, t, status)
        && s' == State(s'.w, s.pc, Record(s.l, stage, t, status))
        && (t.key !in s.w.present ==> status == StatusDisabled)
        && (t.key in s.w.present && (t.key == ReleaseKey ==> HookClear(s.w)) ==> Benign(s.w, s'.w) && Rank(s'.w) < Rank(s.w))
        && (t.key in s.w.present && t.key == ReleaseKey && !HookClear(s.w) ==> s'.w == s.w);
      JuggleHandles(e, s, s', f, n, stage, t, status);
    }
  }

  lemma OnTheWayParts(e: Setting, s: State, f: nat, n: nat)
    requires OnTheWay(e, s, f, n)
    ensures Core(s) && (Active(s.pc) ==> s.w.stored == Some(s.l.xp) && s.l.xp.deleting)
  {
  }

  lemma PhaseOneKeepsRelease(s: State, stage: Stage)
    requires Core(s) && s.pc == Juggle(stage)
    ensures stage == Phase1 ==> forall t | t in s.l.todo :: t.key != ReleaseKey
  {
    hide Gate;
    assert stage == Phase1 ==> forall t | t in s.l.todo :: !t.enabled;
  }

  lemma JugglingDeletes(s: State, stage: Stage)
    requires Core(s) && s.pc == Juggle(stage) && s.w.stored == Some(s.l.xp) && s.l.xp.deleting
    ensures stage != Install && forall t | t in s.l.todo :: !t.enabled
  {
  }

  /** All handled: if the measure has not fallen, then everything was absent, Crossplane included or
      still to come, and the pass goes on. */
  lemma JuggleEnds(e: Setting, s: State, s': State, f: nat, n: nat, stage: Stage)
    requires OnTheWay(e, s, f, n) && s.pc == Juggle(stage) && stage != Install && s.l.todo == multiset{}
    requires s' == Goto(s, AfterJuggle(s.l, stage)) && Core(s')
    ensures OnTheWay(e, s', f, n) && Distance(s'.pc) < Distance(s.pc)
  {
    hide Core, Rank, PlanError, Blockers, Finalizers;
    assert Keys(s.l.todo) == {};
  }

  lemma JuggleHandles(e: Setting, s: State, s': State, f: nat, n: nat, stage: Stage, t: Task, status: Status)
    requires OnTheWay(e, s, f, n) && s.pc == Juggle(stage) && stage != Install
    requires t in s.l.todo && Handles(s.w, s'.w, t, status) && !t.enabled
    requires s' == State(s'.w, s.pc, Record(s.l, stage, t, status)) && Core(s')
    requires stage == Phase1 ==> t.key != ReleaseKey
    requires t.key !in s.w.present ==> status == StatusDisabled
    requires t.key in s.w.present && (t.key == ReleaseKey ==> HookClear(s.w)) ==> Benign(s.w, s'.w) && Rank(s'.w) < Rank(s.w)
    requires t.key in s.w.present && t.key == ReleaseKey && !HookClear(s.w) ==> s'.w == s.w
    ensures OnTheWay(e, s', f, n) && s'.pc == s.pc && |s'.l.todo| < |s.l.todo|
  {
    assert s'.l.todo == s.l.todo - multiset{t};
    if t.key in s.w.present && (t.key == ReleaseKey ==> HookClear(s.w)) {
      HandledLower(e, s, s', f, n);
    } else {
      HandledStill(e, s, s', f, n, stage, t, status);
    }
  }

  lemma HandledLower(e: Setting, s: State, s': State, f: nat, n: nat)
    requires OnTheWay(e, s, f, n) && s.pc.Juggle?
    requires Core(s') && s'.pc == s.pc && s'.l.xp == s.l.xp && s'.l.config == s.l.config
    requires Benign(s.w, s'.w) && Rank(s'.w) < Rank(s.w)
    ensures OnTheWay(e, s', f, n)
  {
    hide Core, PlanError, Untouched, Rank;
    BenignLowers(s.w, s'.w);
  }

  lemma HandledStill(e: Setting, s: State, s': State, f: nat, n: nat, stage: Stage, t: Task, status: Status)
    requires OnTheWay(e, s, f, n) && s.pc == Juggle(stage) && stage != Install
    requires t in s.l.todo && s'.w == s.w
    requires s' == State(s'.w, s.pc, Record(s.l, stage, t, status)) && Core(s')
    requires stage == Phase1 ==> t.key != ReleaseKey
    requires if t.key in s.w.present then t.key == ReleaseKey && !HookClear(s.w) else status == StatusDisabled
    ensures OnTheWay(e, s', f, n)
  {
    hide Core, PlanError, Finalizers, Work, Keys;
    forall k | k in Keys(s.l.todo) && k != t.key ensures k in Keys(s'.l.todo) {
      KeysWithout(s.l.todo, t, k);
    }
  }

  lemma ProbeMoves(e: Setting, s: State, s': State, f: nat, n: nat)
    requires OnTheWay(e, s, f, n) && PassStep(e, s, s') && Succeeds(s, s')
    requires s.pc in {HandleOperation, GetConfig, ReconcileAccess, GetCluster, GetAccessRequest, ListProviderRevisions, ListFunctionRevisions, DeleteAccess}
    ensures OnTheWay(e, s', f, n) && Distance(s'.pc) < Distance(s.pc)
  {
    PassKeepsCore(e, s, s');
    match s.pc {
      case HandleOperation => OperateMoves(e, s, s', f, n);
      case GetAccessRequest => AccessMoves(e, s, s', f, n);
      case ListProviderRevisions => ListMoves(e, s, s', f, n);
      case ListFunctionRevisions => ListMoves(e, s, s', f, n);
      case _ => OtherMoves(e, s, s', f, n);
    }
  }

  lemma OperateMoves(e: Setting, s: State, s': State, f: nat, n: nat)
    requires OnTheWay(e, s, f, n) && s.pc == HandleOperation && Operate(s, s') && s'.pc == GetConfig && Core(s')
    ensures OnTheWay(e, s', f, n)
  {
    hide Core, PlanError;
    assert WorldOk(s.w) by { CoreHas(s); }
  }

  lemma CoreHas(s: State)
    requires Core(s)
    ensures WorldOk(s.w) && CopyFacts(s) && Coverage(s)
  {
  }

  lemma AccessMoves(e: Setting, s: State, s': State, f: nat, n: nat)
    requires OnTheWay(e, s, f, n) && s.pc == GetAccessRequest && s' == Goto(s, AfterAccess(s.l.xp)) && Core(s')
    ensures OnTheWay(e, s', f, n) && Distance(s'.pc) < Distance(s.pc)
  {
    hide Core, PlanError, Rank, Blockers;
    CoreHas(s);
  }

  /** No managed package and no blocker left: the revision lists are empty. */
  lemma ListMoves(e: Setting, s: State, s': State, f: nat, n: nat)
    requires OnTheWay(e, s, f, n) && s.pc in {ListProviderRevisions, ListFunctionRevisions}
    requires ListRevisions(s, s') && Succeeds(s, s') && Core(s')
    ensures OnTheWay(e, s', f, n) && Distance(s'.pc) < Distance(s.pc)
  {
    hide Core, Cooperative, Rank, Finalizers, Work, Below, HasPackageKey, Keys;
    NothingListed(e, s);
    StaysCooperative(e, s, s');
    assert s'.w == s.w;
    assert !Below(s.w, f, n) ==> Blockers(s.w) == 0;
  }

  lemma NothingListed(e: Setting, s: State)
    requires Cooperative(e, s) && s.pc in {ListProviderRevisions, ListFunctionRevisions}
    ensures !HasPackageKey(s.w)
  {
    CoreHas(s);
    NoPackageAmongRelease(s.w);
  }

  lemma StaysCooperative(e: Setting, s: State, s': State)
    requires Cooperative(e, s) && Core(s') && KnowsConfig(s.pc)
    requires s'.w == s.w && s'.l.xp == s.l.xp && s'.l.config == s.l.config
    requires s'.pc != EnsureAccess && s'.pc != DropLegacy
    ensures Cooperative(e, s')
  {
    hide Core, PlanError;
  }

  lemma NoPackageAmongRelease(w: World)
    requires w.present <= {ReleaseKey}
    ensures !HasPackageKey(w)
  {
  }

  lemma OtherMoves(e: Setting, s: State, s': State, f: nat, n: nat)
    requires OnTheWay(e, s, f, n) && PassStep(e, s, s') && Succeeds(s, s') && Core(s')
    requires s.pc in {GetConfig, ReconcileAccess, GetCluster, DeleteAccess}
    ensures OnTheWay(e, s', f, n) && Distance(s'.pc) < Distance(s.pc)
  {
    hide Core, PlanError, Plan, Ensure, Drop, Setup, JuggleStep, ListRevisions, Fetch, Operate, WriteStatus;
  }

  lemma RegisterMoves(e: Setting, s: State, s': State, f: nat, n: nat, stage: Stage)
    requires OnTheWay(e, s, f, n) && s.pc == Register(stage) && PassStep(e, s, s') && Succeeds(s, s')
    ensures OnTheWay(e, s', f, n) && Distance(s'.pc) < Distance(s.pc)
  {
    hide PlanError, Rank, Blockers, Finalizers, Tasks, Planned;
    PassKeepsCore(e, s, s');
    CoreHas(s);
    if stage == Phase2 {
      TasksCover(Planned(e, stage, s.l.xp.spec, s.l.config).value, s.w.present);
    }
  }

  /** One successful call inside a pass gets closer to the end of the pass, or releases the object. */
  lemma CallMoves(e: Setting, s: State, s': State, f: nat, n: nat)
    requires OnTheWay(e, s, f, n) && s.pc != UpdateStatus && PassStep(e, s, s') && Succeeds(s, s')
    ensures Released(s') || OnTheWay(e, s', f, n)
    ensures Distance(s'.pc) < Distance(s.pc) || (s.pc.Juggle? && s'.pc == s.pc && |s'.l.todo| < |s.l.todo|)
  {
    hide OnTheWay, Core;
    PcOnTheWay(e, s, f, n);
    match s.pc {
      case EnsureAccess => EnsureAccessMoves(e, s, s', f, n);
      case DropLegacy => DropLegacyMoves(e, s, s', f, n);
      case DropComponents => DropComponentsMoves(e, s, s', f, n);
      case DropAccess => DropAccessReleases(e, s, s', f, n);
      case Register(stage) => RegisterMoves(e, s, s', f, n, stage);
      case Juggle(stage) => JuggleMoves(e, s, s', f, n, stage);
      case _ => ProbeMoves(e, s, s', f, n);
    }
  }

  lemma PcOnTheWay(e: Setting, s: State, f: nat, n: nat)
    requires OnTheWay(e, s, f, n)
    ensures s.pc != Idle && !Installing(s.pc)
  {
  }

  lemma DropAccessReleases(e: Setting, s: State, s': State, f: nat, n: nat)
    requires OnTheWay(e, s, f, n) && s.pc == DropAccess && PassStep(e, s, s') && Succeeds(s, s')
    ensures Released(s') && s'.pc == UpdateStatus
  {
    hide Gate, Coverage, PlanError, Rank, Blockers;
    assert Persisted(s.w) <= {AccessFinalizer};
    PassPersistedDrops(e, s, s');
  }

  lemma PassPersistedDrops(e: Setting, s: State, s': State)
    requires Core(s) && s.pc == DropAccess && PassStep(e, s, s')
    ensures Persisted(s'.w) <= Persisted(s.w) && s'.pc == UpdateStatus
  {
    hide Gate, Coverage;
    if AccessFinalizer in s.l.xp.finalizers {
      WriteKeepsCore(e, s, s', s.l.xp.finalizers - {AccessFinalizer}, UpdateStatus);
    }
  }

  // ---------------------------------------------------------------- one call that may fail

  /** Nothing that counts has risen. */
  predicate NotRisen(w: World, w': World) {
    Finalizers(w') <= Finalizers(w) && Rank(w') <= Rank(w) && Blockers(w') <= Blockers(w)
  }

  lemma BenignKeepsCooperative(e: Setting, s: State, w: World)
    requires Cooperative(e, s) && Benign(s.w, w)
    ensures Cooperative(e, s.(w := w)) && NotRisen(s.w, w) && Persisted(w) == Persisted(s.w)
  {
    hide Core, PlanError, Rank, Blockers;
    BenignKeepsCore(s, w);
    BenignLowers(s.w, w);
  }

  /** A write of the copy, successful or not. */
  lemma UpdateKeepsCooperative(e: Setting, s: State, s': State, finalizers: set<Finalizer>, next: Pc)
    requires Cooperative(e, s) && Active(s.pc) && next != EnsureAccess && (next == DropLegacy ==> !ReadyForCleanup(s.l.xp.(finalizers := finalizers)))
    requires Update(e, s, s', finalizers, next) && Core(s') && (KnowsConfig(next) ==> KnowsConfig(s.pc))
    requires Controlled(finalizers) <= Controlled(s.l.xp.finalizers) + {AccessFinalizer}
    requires AccessFinalizer in s.l.xp.finalizers && AccessFinalizer !in finalizers ==> Controlled(finalizers) == {}
    requires Controlled(finalizers) != {} ==> Controlled(s.l.xp.finalizers) != {}
    ensures Released(s') || Cooperative(e, s')
    ensures NotRisen(s.w, s'.w)
  {
    hide Core, PlanError, Planned;
    assert Persisted(s.w) == Controlled(s.l.xp.finalizers) by { CoreSyncs(s); }
    if s'.w != s.w {
      assert Persisted(s'.w) == Controlled(finalizers);
    }
  }

  lemma CoreSyncs(s: State)
    requires Core(s) && Active(s.pc)
    ensures Persisted(s.w) == Controlled(s.l.xp.finalizers)
  {
    hide CopyFacts, Coverage, Gate;
  }

  lemma WriteCallKeeps(e: Setting, s: State, s': State)
    requires Cooperative(e, s) && PassStep(e, s, s') && s.pc in {EnsureAccess, DropLegacy, DropComponents, DropAccess}
    ensures Released(s') || Cooperative(e, s')
    ensures NotRisen(s.w, s'.w)
  {
    hide Core, PlanError, Update, Rank, Blockers, Finalizers;
    PassKeepsCore(e, s, s');
    CoreHas(s);
    hide Coverage;
    var x := s.l.xp.finalizers;
    match s.pc {
      case EnsureAccess =>
        assert Controlled(x + {AccessFinalizer}) == Controlled(x) + {AccessFinalizer};
        assert LegacyFinalizer in Controlled(x) || ComponentsFinalizer in Controlled(x);
        if AccessFinalizer !in x { UpdateKeepsCooperative(e, s, s', x + {AccessFinalizer}, DropLegacy); }
      case DropLegacy =>
        if LegacyFinalizer in x { UpdateKeepsCooperative(e, s, s', x - {LegacyFinalizer}, ReconcileAccess); }
      case DropComponents =>
        if ComponentsFinalizer in x { UpdateKeepsCooperative(e, s, s', x - {ComponentsFinalizer}, UpdateStatus); }
      case DropAccess =>
        assert Controlled(x - {AccessFinalizer}) == {};
        if AccessFinalizer in x { UpdateKeepsCooperative(e, s, s', x - {AccessFinalizer}, UpdateStatus); }
    }
  }

  /** Whatever the juggler does to a component that is not enabled, nothing rises. */
  lemma HandledNotRisen(w: World, w': World, t: Task, status: Status)
    requires Handles(w, w', t, status) && !t.enabled
    ensures w' == w.(present := w'.present, terminating := w'.terminating) && NotRisen(w, w')
  {
    SubsetSize(w'.present, w.present);
    SubsetSize(w'.present - w'.terminating, w.present - w.terminating);
  }

  lemma JuggleCallKeeps(e: Setting, s: State, s': State, stage: Stage)
    requires Cooperative(e, s) && s.pc == Juggle(stage) && PassStep(e, s, s')
    ensures Cooperative(e, s') && NotRisen(s.w, s'.w)
    ensures Distance(s'.pc) < Distance(s.pc) || (s'.pc == s.pc && |s'.l.todo| < |s.l.todo|)
  {
    hide Core, PlanError, Rank, Blockers, Handles, Record;
    hide Ensure, Drop, Setup, ListRevisions, Fetch, Operate, Configure, Grant, Revoke, WriteStatus;
    PassKeepsCore(e, s, s');
    JugglingDeletes(s, stage);
    if s.l.todo != multiset{} {
      var t, status :| t in s.l.todo && Handles(s.w, s'.w, t, status) && s' == State(s'.w, s.pc, Record(s.l, stage, t, status));
      HandledNotRisen(s.w, s'.w, t, status);
      RecordedIs(s.l, stage, t, status);
    }
  }

  lemma RecordedIs(l: Local, stage: Stage, t: Task, status: Status)
    requires t in l.todo
    ensures var r := Record(l, stage, t, status);
      r.xp == l.xp && r.config == l.config && r.todo == l.todo - multiset{t} && |r.todo| < |l.todo|
  {
  }

  lemma ReadCallKeeps(e: Setting, s: State, s': State)
    requires Cooperative(e, s) && PassStep(e, s, s') && s.pc in {Idle, HandleOperation, UpdateStatus}
    ensures Cooperative(e, s') && NotRisen(s.w, s'.w)
  {
    hide PlanError, Rank, Gate, Coverage, CopyFacts, Configure;
    PassKeepsCore(e, s, s');
    SameRank(s.w, s'.w);
    hide Core;
  }

  lemma OtherCallKeeps(e: Setting, s: State, s': State)
    requires Cooperative(e, s) && PassStep(e, s, s')
    requires s.pc !in {Idle, HandleOperation, UpdateStatus, EnsureAccess, DropLegacy, DropComponents, DropAccess} && !s.pc.Juggle?
    ensures Cooperative(e, s') && NotRisen(s.w, s'.w)
  {
    hide Core, PlanError, Rank, Blockers, Tasks, Planned, Ensure, Drop, JuggleStep, Fetch, Operate, WriteStatus, Persisted;
    PassKeepsCore(e, s, s');
    NotInstalling(e, s);
    SamePersisted(s.w, s'.w);
  }

  lemma SameRank(w: World, w': World)
    requires w'.present == w.present && w'.terminating == w.terminating
    ensures Rank(w') == Rank(w)
  {
  }

  lemma SamePersisted(w: World, w': World)
    requires w'.stored == w.stored && w'.present == w.present && w'.terminating == w.terminating
    requires w'.foreignPackages == w.foreignPackages && w'.providerRevisions == w.providerRevisions && w'.functionRevisions == w.functionRevisions
    ensures Persisted(w') == Persisted(w) && NotRisen(w, w')
  {
  }

  lemma NotInstalling(e: Setting, s: State)
    requires Cooperative(e, s)
    ensures !Installing(s.pc)
  {
    hide PlanError, Gate, Coverage;
  }

  /** Any call of a cooperating deletion, failing or not, leaves it cooperating and raises nothing. */
  lemma PassKeepsCooperative(e: Setting, s: State, s': State)
    requires Cooperative(e, s) && PassStep(e, s, s')
    ensures Released(s') || Cooperative(e, s')
    ensures NotRisen(s.w, s'.w)
  {
    hide Cooperative, PassStep, NotRisen;
    if s.pc in {EnsureAccess, DropLegacy, DropComponents, DropAccess} {
      WriteCallKeeps(e, s, s');
    } else if s.pc.Juggle? {
      JuggleCallKeeps(e, s, s', s.pc.stage);
    } else if s.pc in {Idle, HandleOperation, UpdateStatus} {
      ReadCallKeeps(e, s, s');
    } else {
      OtherCallKeeps(e, s, s');
    }
  }

  lemma CrashKeepsCooperative(e: Setting, s: State)
    requires Cooperative(e, s)
    ensures Cooperative(e, Goto(s, Idle))
  {
    hide PlanError, Phase1Done, Phase1Running;
  }

  lemma LenientKeeps(e: Setting, s: State, s': State)
    requires Cooperative(e, s) && !Released(s) && LenientStep(e, s, s')
    ensures Released(s') || Cooperative(e, s')
    ensures NotRisen(s.w, s'.w)
  {
    hide Cooperative, PassStep;
    var w :| Benign(s.w, w) && (PassStep(e, s.(w := w), s') || s' == Goto(s.(w := w), Idle));
    BenignKeepsCooperative(e, s, w);
    if PassStep(e, s.(w := w), s') {
      PassKeepsCooperative(e, s.(w := w), s');
    } else {
      CrashKeepsCooperative(e, s.(w := w));
    }
  }

  /** Every call, failing or not, brings the pass closer to its end. */
  lemma CallEnds(e: Setting, s: State, s': State)
    requires Cooperative(e, s) && s.pc != Idle && LenientStep(e, s, s')
    ensures s'.pc == Idle || Distance(s'.pc) < Distance(s.pc) || (s.pc.Juggle? && s'.pc == s.pc && |s'.l.todo| < |s.l.todo|)
  {
    hide Cooperative, PassStep;
    var w :| Benign(s.w, w) && (PassStep(e, s.(w := w), s') || s' == Goto(s.(w := w), Idle));
    BenignKeepsCooperative(e, s, w);
    if PassStep(e, s.(w := w), s') {
      if s.pc.Juggle? {
        JuggleCallKeeps(e, s.(w := w), s', s.pc.stage);
      } else {
        PassEnds(e, s.(w := w), s');
      }
    }
  }

  lemma PassEnds(e: Setting, s: State, s': State)
    requires Cooperative(e, s) && PassStep(e, s, s') && s.pc != Idle && !s.pc.Juggle?
    ensures s'.pc == Idle || Distance(s'.pc) < Distance(s.pc)
  {
    NotInstalling(e, s);
    CoopDeletes(e, s);
    hide Cooperative, Write, Tasks, Planned, JuggleStep;
  }

  lemma CoopDeletes(e: Setting, s: State)
    requires Cooperative(e, s)
    ensures Active(s.pc) ==> s.l.xp.deleting
  {
    hide Core;
  }

  /** The last call removes the object exactly when no other controller holds a finalizer on it. */
  lemma LastCallRemoves(e: Setting, s: State, s': State)
    requires Cooperative(e, s) && !Released(s) && LenientStep(e, s, s') && Released(s')
    ensures s.pc == DropAccess
    ensures s'.w.stored.None? <==> s.w.stored.value.finalizers == {AccessFinalizer}
  {
    hide PassStep, PlanError, Core;
    var w :| Benign(s.w, w) && (PassStep(e, s.(w := w), s') || s' == Goto(s.(w := w), Idle));
    BenignKeepsCooperative(e, s, w);
    LastCall(e, s.(w := w), s');
  }

  lemma LastCall(e: Setting, s: State, s': State)
    requires Cooperative(e, s) && !Released(s) && PassStep(e, s, s') && Released(s')
    ensures s.pc == DropAccess
    ensures s'.w.stored.None? <==> s.w.stored.value.finalizers == {AccessFinalizer}
  {
    hide PlanError, Gate, Coverage, Handles, Planned, Tasks;
    LastFinalizer(e, s, s');
    assert s.l.xp.finalizers == s.w.stored.value.finalizers;
    var rest := s.l.xp.finalizers - {AccessFinalizer};
    assert Update(e, s, s', rest, UpdateStatus);
    assert rest == {} <==> s.l.xp.finalizers == {AccessFinalizer};
  }

  // ---------------------------------------------------------------- cooperation is possible

  /** A cooperating deletion is never at a dead end: some call can succeed, while loose blockers go. */
  lemma SomeCallSucceeds(e: Setting, s: State) returns (w: World, s': State)
    requires Cooperative(e, s) && !Released(s)
    ensures Benign(s.w, w) && Unblocks(s.w, w) && PassStep(e, s.(w := w), s') && Succeeds(s.(w := w), s')
    ensures CallStep(e, s, s') && LenientStep(e, s, s')
  {
    hide PassStep, Succeeds, Cooperative;
    w := s.w.(foreignPackages := 0, providerRevisions := 0, functionRevisions := 0);
    var m := s.(w := w);
    BenignKeepsCooperative(e, s, w);
    if s.pc.Juggle? {
      s' := HandlesOne(e, m, s.pc.stage);
    } else if s.pc in {EnsureAccess, DropLegacy, DropComponents, DropAccess} {
      s' := Updates(e, m);
    } else {
      s' := Answers(e, m);
    }
  }

  lemma HandlesOne(e: Setting, s: State, stage: Stage) returns (s': State)
    requires Cooperative(e, s) && s.pc == Juggle(stage)
    ensures PassStep(e, s, s') && Succeeds(s, s')
  {
    hide Ensure, Drop, Setup, ListRevisions, Fetch, Operate, Configure, Grant, Revoke, WriteStatus, Plan, PlanError, Core, AfterJuggle;
    JugglingDeletes(s, stage);
    if s.l.todo == multiset{} {
      s' := Goto(s, AfterJuggle(s.l, stage));
    } else {
      var t :| t in s.l.todo;
      if t.key !in s.w.present {
        s' := State(s.w, s.pc, Record(s.l, stage, t, StatusDisabled));
        assert Handles(s.w, s'.w, t, StatusDisabled);
      } else if t.key == ReleaseKey && !HookClear(s.w) {
        s' := State(s.w, s.pc, Record(s.l, stage, t, StatusOther));
        assert Handles(s.w, s'.w, t, StatusOther);
      } else {
        var w := s.w.(present := s.w.present - {t.key}, terminating := s.w.terminating - {t.key});
        SubsetSize(w.present, s.w.present);
        SubsetSize(w.present - w.terminating, s.w.present - s.w.terminating);
        s' := State(w, s.pc, Record(s.l, stage, t, StatusUninstalled));
        assert Handles(s.w, s'.w, t, StatusUninstalled);
      }
      assert Lowers(s, s', stage);
    }
  }

  lemma Updates(e: Setting, s: State) returns (s': State)
    requires Cooperative(e, s) && s.pc in {EnsureAccess, DropLegacy, DropComponents, DropAccess}
    ensures PassStep(e, s, s') && Succeeds(s, s')
  {
    hide Gate, Coverage, PlanError;
    var x := s.l.xp.finalizers;
    match s.pc {
      case EnsureAccess =>
        if AccessFinalizer in x { s' := Goto(s, DropLegacy); } else { s' := Updated(e, s, x + {AccessFinalizer}, DropLegacy); }
      case DropLegacy =>
        if LegacyFinalizer !in x { s' := Goto(s, ReconcileAccess); } else { s' := Updated(e, s, x - {LegacyFinalizer}, ReconcileAccess); }
      case DropComponents => s' := Updated(e, s, x - {ComponentsFinalizer}, UpdateStatus);
      case DropAccess =>
        if AccessFinalizer !in x { s' := Goto(s, UpdateStatus); } else { s' := Updated(e, s, x - {AccessFinalizer}, UpdateStatus); }
    }
  }

  lemma Updated(e: Setting, s: State, finalizers: set<Finalizer>, next: Pc) returns (s': State)
    requires Cooperative(e, s) && Active(s.pc)
    requires e.strict ==> finalizers <= s.l.xp.finalizers
    ensures Update(e, s, s', finalizers, next) && s'.pc == next && Persisted(s'.w) == Controlled(finalizers)
  {
    hide Gate, Coverage, PlanError;
    var xp := s.l.xp.(finalizers := finalizers);
    s' := State(Write(s.w, xp), next, s.l.(xp := xp.(version := s.w.clock + 1)));
  }

  lemma Registers(e: Setting, s: State, stage: Stage) returns (s': State)
    requires Cooperative(e, s) && s.pc == Register(stage)
    ensures PassStep(e, s, s') && Succeeds(s, s')
  {
    hide Gate, Coverage, Tasks, PlanList, TaskList;
    var tasks := Tasks(Planned(e, stage, s.l.xp.spec, s.l.config).value, s.w.present);
    s' := State(s.w, Juggle(stage), s.l.(todo := tasks, remaining := false,
      handed := if stage == Phase1 then Keys(tasks) else s.l.handed,
      seen := if stage == Phase1 then map[] else s.l.seen));
  }

  lemma Operates(e: Setting, s: State) returns (s': State)
    requires Cooperative(e, s) && s.pc == HandleOperation
    ensures PassStep(e, s, s') && Succeeds(s, s')
  {
    hide Core, PlanError;
    if s.l.xp.operation == NoOperation {
      s' := Goto(s, GetConfig);
    } else {
      var patched := s.w.stored.value.(operation := NoOperation, version := s.w.clock + 1);
      s' := State(Write(s.w, patched), GetConfig, s.l.(xp := patched));
    }
  }

  lemma Answers(e: Setting, s: State) returns (s': State)
    requires Cooperative(e, s) && !s.pc.Juggle?
    requires s.pc !in {EnsureAccess, DropLegacy, DropComponents, DropAccess}
    ensures PassStep(e, s, s') && Succeeds(s, s')
  {
    NotInstalling(e, s);
    hide Core, Coverage, Setup, Ensure, Drop, JuggleStep, PlanError, Operate, Write;
    match s.pc {
      case Idle => s' := State(s.w, HandleOperation, Begin(s.w.stored.value, s.l.config));
      case HandleOperation => s' := Operates(e, s);
      case GetConfig =>
        s' := State(s.w, if ReadyForCleanup(s.l.xp) then DeleteAccess else EnsureAccess, s.l.(config := s.w.config.value));
      case ReconcileAccess => s' := State(s.w.(access := true), GetCluster, s.l);
      case GetCluster => s' := Goto(s, GetAccessRequest);
      case GetAccessRequest => s' := Goto(s, AfterAccess(s.l.xp));
      case Register(stage) => s' := Registers(e, s, stage);
      case ListProviderRevisions =>
        s' := if s.w.providerRevisions == 0 then State(s.w, ListFunctionRevisions, s.l.(noProviderRevisions := true)) else Goto(s, UpdateStatus);
      case ListFunctionRevisions =>
        s' := if s.w.functionRevisions == 0 then State(s.w, Register(Phase2), s.l.(noFunctionRevisions := true)) else Goto(s, UpdateStatus);
      case DeleteAccess => s' := State(s.w.(access := false), DropAccess, s.l);
      case _ => s' := Goto(s, Idle);
    }
  }
}
