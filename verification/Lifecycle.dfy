/** The lifecycle of one Crossplane object as a step machine. Every API call of a reconcile pass is
    one atomic step; user edits, deletes, other controllers and crashes interleave with them. */
module Lifecycle {
  import opened Types
  import opened Components
  import opened Planner

  datatype Finalizer = LegacyFinalizer | ComponentsFinalizer | AccessFinalizer | Foreign(name: string)

  datatype Operation = NoOperation | IgnoreOperation | ReconcileOperation

  /** The parts of a Crossplane object the controller acts on. */
  datatype Object = Object(version: nat, finalizers: set<Finalizer>, deleting: bool, operation: Operation, spec: Spec)

  /** The clusters: the persisted object, the ProviderConfig, the access request and the managed objects. */
  datatype World = World(
    clock: nat,                     // the last resource version handed out
    stored: Option<Object>,
    config: Option<ProviderConfig>,
    access: bool,                   // an access request exists
    present: set<Key>,              // managed objects that exist
    terminating: set<Key>,          // those already marked for deletion
    foreignPackages: nat,           // Providers and Functions nobody here manages
    providerRevisions: nat,
    functionRevisions: nat)

  datatype Stage = Install | Phase1 | Phase2

  /** The next API call of a pass. */
  datatype Pc =
    | Idle
    | HandleOperation
    | GetConfig
    | EnsureAccess | DropLegacy | ReconcileAccess | GetCluster | GetAccessRequest
    | EnsureComponents | DropLegacyAgain
    | Register(stage: Stage) | Juggle(stage: Stage)
    | ListProviderRevisions | ListFunctionRevisions
    | DropComponents
    | DeleteAccess | DropAccess
    | UpdateStatus

  /** What the juggler reports for one component. */
  datatype Status = StatusDisabled | StatusUninstalled | StatusOther

  datatype Task = Task(key: Key, enabled: bool)

  /** The local variables of a pass: the copy of the object, and what was seen so far. */
  datatype Local = Local(
    xp: Object,
    config: ProviderConfig,
    todo: multiset<Task>,           // components the juggler has not handled yet
    remaining: bool,                // some result was not StatusDisabled
    handed: set<Key>,               // what phase 1 handed to the juggler
    seen: map<Key, Status>,         // what phase 1 got back
    noProviderRevisions: bool,
    noFunctionRevisions: bool)

  datatype State = State(w: World, pc: Pc, l: Local)

  /** The planner's surroundings, and whether the API server refuses new finalizers on an object
      that is being deleted (Kubernetes does). */
  datatype Setting = Setting(env: Env, strict: bool)

  // ---------------------------------------------------------------- vocabulary

  function Controlled(finalizers: set<Finalizer>): set<Finalizer> {
    finalizers * {LegacyFinalizer, ComponentsFinalizer, AccessFinalizer}
  }

  /** The controller's finalizers on the persisted object; none when it is gone. */
  function Persisted(w: World): set<Finalizer> {
    if w.stored.Some? then Controlled(w.stored.value.finalizers) else {}
  }

  predicate HasPackages(spec: Spec) {
    |Items(spec.providers)| > 0 || |Items(spec.functions)| > 0
  }

  /** readyForCleanup. */
  predicate ReadyForCleanup(xp: Object) {
    xp.deleting && ComponentsFinalizer !in xp.finalizers && LegacyFinalizer !in xp.finalizers
  }

  /** A persisted object whose deletion is pending disappears with its last finalizer. */
  function Settle(o: Object): Option<Object> {
    if o.deleting && o.finalizers == {} then None else Some(o)
  }

  /** A successful write of `o`: it gets a new version. */
  function Write(w: World, o: Object): World {
    w.(clock := w.clock + 1, stored := Settle(o.(version := w.clock + 1)))
  }

  function TaskList(comps: seq<Component>): seq<Task> {
    seq(|comps|, i requires 0 <= i < |comps| => Task(KeyOf(comps[i]), comps[i].enabled))
  }

  /** RegisterOrphanedComponents: every managed object that is not configured, except the release. */
  function Orphans(comps: seq<Component>, present: set<Key>): set<Task> {
    set k | k in present && k != ReleaseKey && (forall c | c in comps :: KeyOf(c) != k) :: Task(k, false)
  }

  /** What the juggler is going to handle: the configured components and the orphans. */
  function Tasks(comps: seq<Component>, present: set<Key>): multiset<Task> {
    multiset(TaskList(comps)) + multiset(Orphans(comps, present))
  }

  function Keys(tasks: multiset<Task>): set<Key> {
    set t | t in tasks :: t.key
  }

  /** The components a stage builds. */
  function Planned(e: Setting, stage: Stage, spec: Spec, config: ProviderConfig): Result<seq<Component>> {
    match stage
    case Install => Plan(e.env, spec, config, true)
    case Phase1 => Ok(Phase1List(spec, config))
    case Phase2 => Plan(e.env, spec, config, false)
  }

  predicate IsPackageKey(k: Key) {
    k.ProviderKey? || k.FunctionKey?
  }

  /** The PreUninstall hook lets Crossplane go only when no package and no revision exists. */
  predicate HookClear(w: World) {
    && w.foreignPackages == 0 && w.providerRevisions == 0 && w.functionRevisions == 0
    && forall k | k in w.present :: !IsPackageKey(k)
  }

  // ---------------------------------------------------------------- the environment

  predicate UserDeletes(w: World, w': World) {
    && w.stored.Some?
    && w' == Write(w, w.stored.value.(deleting := true))
  }

  predicate UserEdits(w: World, w': World) {
    && w.stored.Some? && w'.stored.Some?
    && w' == Write(w, w.stored.value.(operation := w'.stored.value.operation, spec := w'.stored.value.spec))
  }

  /** A new object never carries the controller's finalizers. */
  predicate UserCreates(w: World, w': World) {
    && w.stored.None? && w'.stored.Some?
    && Persisted(w') == {} && !w'.stored.value.deleting
    && w' == Write(w, w'.stored.value)
  }

  /** Another controller adds or removes its own finalizers; an object that vanishes had none left. */
  predicate ForeignWrites(w: World, w': World) {
    var finalizers := if w'.stored.Some? then w'.stored.value.finalizers else {};
    && w.stored.Some?
    && Controlled(finalizers) == Controlled(w.stored.value.finalizers)
    && w' == Write(w, w.stored.value.(finalizers := finalizers))
  }

  /** Objects vanish, packages and revisions come and go, the ProviderConfig changes; nobody else
      creates managed objects or access requests. */
  predicate ClustersMove(w: World, w': World) {
    && w'.clock == w.clock && w'.stored == w.stored
    && (w'.access ==> w.access)
    && w'.present <= w.present
  }

  predicate EnvStep(w: World, w': World) {
    || UserDeletes(w, w')
    || UserEdits(w, w')
    || UserCreates(w, w')
    || ForeignWrites(w, w')
    || ClustersMove(w, w')
  }

  // ---------------------------------------------------------------- API calls of a pass

  function Goto(s: State, pc: Pc): State {
    s.(pc := pc)
  }

  /** An Update of the copy: a compare-and-swap on the resource version that may fail for any other
      reason too. The copy keeps the change either way; a failure ends the pass. */
  predicate Update(e: Setting, s: State, s': State, finalizers: set<Finalizer>, next: Pc) {
    var xp := s.l.xp.(finalizers := finalizers);
    || (&& s.w.stored.Some? && s.w.stored.value.version == xp.version
        && (e.strict && s.w.stored.value.deleting ==> finalizers <= s.w.stored.value.finalizers)
        && s' == State(Write(s.w, xp), next, s.l.(xp := xp.(version := s.w.clock + 1))))
    || s' == State(s.w, UpdateStatus, s.l.(xp := xp))
  }

  /** ensureFinalizer: no call when the copy has it already. */
  predicate Ensure(e: Setting, s: State, s': State, f: Finalizer, next: Pc) {
    if f in s.l.xp.finalizers then s' == Goto(s, next) else Update(e, s, s', s.l.xp.finalizers + {f}, next)
  }

  /** removeFinalizer: no call when the copy lacks it. */
  predicate Drop(e: Setting, s: State, s': State, f: Finalizer, next: Pc) {
    if f !in s.l.xp.finalizers then s' == Goto(s, next) else Update(e, s, s', s.l.xp.finalizers - {f}, next)
  }

  /** The local variables at the start of a pass. */
  function Begin(xp: Object, config: ProviderConfig): Local {
    Local(xp, config, multiset{}, false, {}, map[], false, false)
  }

  /** The first call reads the object; when it is gone or the read fails, there is nothing to do. */
  predicate Fetch(s: State, s': State) {
    || s' == s
    || (s.w.stored.Some? && s' == State(s.w, HandleOperation, Begin(s.w.stored.value, s.l.config)))
  }

  /** The reconcile annotation is removed by a patch, which carries no version and refreshes the copy. */
  predicate Operate(s: State, s': State) {
    match s.l.xp.operation
    case IgnoreOperation => s' == Goto(s, UpdateStatus)
    case NoOperation => s' == Goto(s, GetConfig)
    case ReconcileOperation =>
      || s' == Goto(s, Idle)
      || (&& s.w.stored.Some?
          && var patched := s.w.stored.value.(operation := NoOperation, version := s.w.clock + 1);
             s' == State(Write(s.w, patched), GetConfig, s.l.(xp := patched)))
  }

  predicate Configure(s: State, s': State) {
    || s' == Goto(s, UpdateStatus)
    || (&& s.w.config.Some?
        && s' == State(s.w, if ReadyForCleanup(s.l.xp) then DeleteAccess else EnsureAccess, s.l.(config := s.w.config.value)))
  }

  /** The access library: it may create the request whatever it reports; "granted" means it exists. */
  predicate Grant(s: State, s': State) {
    && s'.w == s.w.(access := s'.w.access) && (s.w.access ==> s'.w.access)
    && s'.l == s.l
    && (s'.pc == UpdateStatus || (s'.pc == GetCluster && s'.w.access))
  }

  /** The access library on delete: no error and no requeue means gone. */
  predicate Revoke(s: State, s': State) {
    && s'.w == s.w.(access := s'.w.access) && (s'.w.access ==> s.w.access)
    && s'.l == s.l
    && (s'.pc == UpdateStatus || (s'.pc == DropAccess && !s'.w.access))
  }

  /** Where a pass goes once cluster access is granted. */
  function AfterAccess(xp: Object): Pc {
    if !xp.deleting then EnsureComponents
    else if ComponentsFinalizer !in xp.finalizers then UpdateStatus
    else if HasPackages(xp.spec) then Register(Phase1)
    else Register(Phase2)
  }

  /** Building the components and setting up the juggler. */
  predicate Setup(e: Setting, s: State, s': State, stage: Stage) {
    || s' == Goto(s, UpdateStatus)
    || (var planned := Planned(e, stage, s.l.xp.spec, s.l.config);
        && planned.Ok?
        && var tasks := Tasks(planned.value, s.w.present);
           s' == State(s.w, Juggle(stage), s.l.(
             todo := tasks, remaining := false,
             handed := if stage == Phase1 then Keys(tasks) else s.l.handed,
             seen := if stage == Phase1 then map[] else s.l.seen)))
  }

  /** The juggler on one component. Enabled ones may be created; disabled ones are reported
      StatusDisabled only when absent, and Crossplane itself is touched only with the hook clear. */
  predicate Handles(w: World, w': World, t: Task, status: Status) {
    if t.enabled then
      && status == StatusOther
      && (w' == w || w' == w.(present := w.present + {t.key}))
    else if t.key !in w.present then
      && w' == w
      && status != StatusUninstalled
    else
      && status != StatusDisabled
      && (|| w' == w
          || (&& (t.key == ReleaseKey ==> HookClear(w))
              && (|| w' == w.(terminating := w.terminating + {t.key})
                  || w' == w.(present := w.present - {t.key}, terminating := w.terminating - {t.key}))))
  }

  /** The local state after one result. */
  function Record(l: Local, stage: Stage, t: Task, status: Status): Local {
    l.(todo := l.todo - multiset{t},
       remaining := l.remaining || status != StatusDisabled,
       seen := if stage == Phase1 then l.seen[t.key := status] else l.seen)
  }

  function AfterJuggle(l: Local, stage: Stage): Pc {
    match stage
    case Install => UpdateStatus
    case Phase1 => if l.remaining then UpdateStatus else ListProviderRevisions
    case Phase2 => if l.remaining then UpdateStatus else DropComponents
  }

  ghost predicate JuggleStep(s: State, s': State, stage: Stage) {
    if s.l.todo == multiset{} then s' == Goto(s, AfterJuggle(s.l, stage))
    else exists t, status ::
      && t in s.l.todo && Handles(s.w, s'.w, t, status)
      && s' == State(s'.w, s.pc, Record(s.l, stage, t, status))
  }

  predicate ListRevisions(s: State, s': State) {
    || s' == Goto(s, UpdateStatus)
    || (s.pc == ListProviderRevisions && s.w.providerRevisions == 0
        && s' == State(s.w, ListFunctionRevisions, s.l.(noProviderRevisions := true)))
    || (s.pc == ListFunctionRevisions && s.w.functionRevisions == 0
        && s' == State(s.w, Register(Phase2), s.l.(noFunctionRevisions := true)))
  }

  /** The status write may fail; it changes nothing but the version. */
  predicate WriteStatus(s: State, s': State) {
    || s' == Goto(s, Idle)
    || (s.w.stored.Some? && s' == State(Write(s.w, s.w.stored.value), Idle, s.l))
  }

  ghost predicate PassStep(e: Setting, s: State, s': State) {
    match s.pc
    case Idle => Fetch(s, s')
    case HandleOperation => Operate(s, s')
    case GetConfig => Configure(s, s')
    case EnsureAccess => Ensure(e, s, s', AccessFinalizer, DropLegacy)
    case DropLegacy => Drop(e, s, s', LegacyFinalizer, ReconcileAccess)
    case ReconcileAccess => Grant(s, s')
    case GetCluster => s' == Goto(s, GetAccessRequest) || s' == Goto(s, UpdateStatus)
    case GetAccessRequest => s' == Goto(s, AfterAccess(s.l.xp)) || s' == Goto(s, UpdateStatus)
    case EnsureComponents => Ensure(e, s, s', ComponentsFinalizer, DropLegacyAgain)
    case DropLegacyAgain => Drop(e, s, s', LegacyFinalizer, Register(Install))
    case Register(stage) => Setup(e, s, s', stage)
    case Juggle(stage) => JuggleStep(s, s', stage)
    case ListProviderRevisions => ListRevisions(s, s')
    case ListFunctionRevisions => ListRevisions(s, s')
    case DropComponents => Drop(e, s, s', ComponentsFinalizer, UpdateStatus)
    case DeleteAccess => Revoke(s, s')
    case DropAccess => Drop(e, s, s', AccessFinalizer, UpdateStatus)
    case UpdateStatus => WriteStatus(s, s')
  }

  /** One step of the system: the controller, its environment, or a crash of the controller. */
  ghost predicate Step(e: Setting, s: State, s': State) {
    || PassStep(e, s, s')
    || (EnvStep(s.w, s'.w) && s' == s.(w := s'.w))
    || s' == Goto(s, Idle)
  }

  ghost predicate IsRun(e: Setting, run: seq<State>) {
    && |run| > 0
    && forall i | 0 <= i < |run| - 1 :: Step(e, run[i], run[i + 1])
  }
}
