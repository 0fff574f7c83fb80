/** Liveness of installing: an object whose spec is admitted comes to a pass that reports Ready, however
    many passes fail before. */
module LifecycleInstall {
  import opened Types
  import opened Resolver
  import opened Components
  import opened Planner
  import opened Lifecycle
  import opened LifecycleSafety
  import opened LifecycleRuns
  import PlanLaws
  import P = LifecycleProgress
  import C = Conditions

  // ---------------------------------------------------------------- what is to be installed

  function PlanOf(e: Setting, w: World): seq<Component> {
    if w.stored.Some? && w.config.Some? && Plan(e.env, w.stored.value.spec, w.config.value, true).Ok?
    then Plan(e.env, w.stored.value.spec, w.config.value, true).value
    else []
  }

  function Wanted(e: Setting, w: World): set<Key> {
    set c | c in PlanOf(e, w) :: KeyOf(c)
  }

  /** The object is there to stay, its plan can be built, and the allow-list admits every component. */
  predicate Admissible(e: Setting, w: World) {
    && w.stored.Some? && !w.stored.value.deleting && w.stored.value.operation != IgnoreOperation
    && w.config.Some?
    && Plan(e.env, w.stored.value.spec, w.config.value, true).Ok?
    && forall c | c in PlanOf(e, w) :: IsInstallable(c, StrictResolver(w.config.value))
  }

  /** Managed objects that are not wanted; they count twice while they are not marked for deletion. */
  function Strays(w: World, wanted: set<Key>): nat {
    |w.present - wanted| + |w.present - wanted - w.terminating|
  }

  // ---------------------------------------------------------------- the environment

  /** Nobody edits the object or the ProviderConfig, and wanted objects are left alone. */
  predicate Calm(w: World, w': World, wanted: set<Key>) {
    && w' == w.(access := w'.access, present := w'.present, terminating := w'.terminating,
                foreignPackages := w'.foreignPackages, providerRevisions := w'.providerRevisions,
                functionRevisions := w'.functionRevisions)
    && (w'.access ==> w.access)
    && w'.present <= w.present && w.present * wanted <= w'.present
    && w'.present - wanted - w'.terminating <= w.present - wanted - w.terminating
  }

  /** One call that may fail in any way, or a crash, after whatever the clusters did. */
  ghost predicate InstallStep(e: Setting, s: State, s': State) {
    exists w :: Calm(s.w, w, Wanted(e, s.w)) && (PassStep(e, s.(w := w), s') || s' == Goto(s.(w := w), Idle))
  }

  /** A planned component of this key that the juggler may install. */
  ghost predicate Admitted(e: Setting, s: State, k: Key) {
    exists c :: c in PlanOf(e, s.w) && KeyOf(c) == k && IsInstallable(c, StrictResolver(s.l.config))
  }

  /** The juggler creates an enabled component the allow-list admits, and gets any other one that still
      exists closer to its end. */
  ghost predicate Juggles(e: Setting, s: State, s': State) {
    exists t, status ::
      && t in s.l.todo && Handles(s.w, s'.w, t, status)
      && s' == State(s'.w, s.pc, Record(s.l, Install, t, status))
      && (t.enabled && Admitted(e, s, t.key) ==> t.key in s'.w.present)
      && (!t.enabled && t.key in s.w.present ==> Strays(s'.w, Wanted(e, s.w)) < Strays(s.w, Wanted(e, s.w)))
  }

  /** The call does what it is for. */
  ghost predicate Installs(e: Setting, s: State, s': State) {
    match s.pc
    case Idle => s'.pc == HandleOperation
    case HandleOperation => s'.pc == GetConfig
    case GetConfig => s'.pc != UpdateStatus
    case EnsureAccess => s'.pc == DropLegacy
    case DropLegacy => s'.pc == ReconcileAccess
    case ReconcileAccess => s'.pc == GetCluster
    case GetCluster => s'.pc == GetAccessRequest
    case GetAccessRequest => s'.pc == AfterAccess(s.l.xp)
    case EnsureComponents => s'.pc == DropLegacyAgain
    case DropLegacyAgain => s'.pc == Register(Install)
    case Register(_) => s'.pc == Juggle(Install)
    case Juggle(_) => s.l.todo != multiset{} ==> Juggles(e, s, s')
    case _ => true
  }

  ghost predicate InstallCall(e: Setting, s: State, s': State) {
    exists w :: Calm(s.w, w, Wanted(e, s.w)) && PassStep(e, s.(w := w), s') && Installs(e, s.(w := w), s')
  }

  predicate SamePass(run: nat -> State, from: nat, to: nat) {
    forall i: nat | from <= i <= to :: run(i).pc != Idle
  }

  /** A pass begins in which every call succeeds. */
  ghost predicate GoodPass(e: Setting, run: nat -> State, i: nat) {
    && run(i).pc == Idle
    && forall j: nat | i <= j && SamePass(run, i + 1, j) :: InstallCall(e, run(j), run(j + 1))
  }

  ghost predicate GoodPassAfter(e: Setting, run: nat -> State, n: nat) {
    exists i: nat :: i >= n && GoodPass(e, run, i)
  }

  ghost predicate ReadyFrom(ready: nat -> set<Key>, k: Key, n: nat) {
    forall i: nat | i >= n :: k in ready(i)
  }

  /** A wanted object that exists becomes healthy some time, and stays so. */
  ghost predicate Matures(run: nat -> State, ready: nat -> set<Key>, k: Key) {
    forall i: nat | k in run(i).w.present :: exists n: nat :: ReadyFrom(ready, k, n)
  }

  /** Calls may fail and passes may crash for ever, but again and again a pass succeeds; `ready` tells
      what is healthy at each time. */
  ghost predicate InstallRun(e: Setting, run: nat -> State, ready: nat -> set<Key>) {
    && (forall i: nat :: InstallStep(e, run(i), run(i + 1)))
    && (forall n: nat :: GoodPassAfter(e, run, n))
    && (forall k | k in Wanted(e, run(0).w) :: Matures(run, ready, k))
  }

  // ---------------------------------------------------------------- what every call keeps

  predicate Going(e: Setting, s: State) {
    && Core(s) && Admissible(e, s.w)
    && (Active(s.pc) ==> s.w.stored == Some(s.l.xp))
    && (KnowsConfig(s.pc) ==> Some(s.l.config) == s.w.config)
    && (s.pc.Juggle? ==> s.pc.stage == Install && forall t | t in s.l.todo :: t.enabled <==> t.key in Wanted(e, s.w))
  }

  /** Wanted objects stay, the plan stays, and nothing unwanted is added. */
  predicate Kept(e: Setting, w: World, w': World) {
    && PlanOf(e, w') == PlanOf(e, w)
    && w.present * Wanted(e, w) <= w'.present
    && w'.present - Wanted(e, w) <= w.present - Wanted(e, w)
    && w'.present - Wanted(e, w) - w'.terminating <= w.present - Wanted(e, w) - w.terminating
  }

  lemma StraysFall(w: World, w': World, wanted: set<Key>)
    requires w'.present - wanted <= w.present - wanted
    requires w'.present - wanted - w'.terminating <= w.present - wanted - w.terminating
    ensures Strays(w', wanted) <= Strays(w, wanted)
    ensures w'.present - wanted != w.present - wanted ==> Strays(w', wanted) < Strays(w, wanted)
  {
    P.SubsetSize(w'.present - wanted, w.present - wanted);
    P.SubsetSize(w'.present - wanted - w'.terminating, w.present - wanted - w.terminating);
  }

  lemma CalmKeeps(e: Setting, s: State, w: World)
    requires Going(e, s) && Calm(s.w, w, Wanted(e, s.w))
    ensures Going(e, s.(w := w)) && Kept(e, s.w, w) && Wanted(e, w) == Wanted(e, s.w)
  {
    hide Core, Plan;
    assert ClustersMove(s.w, w);
    EnvKeepsCore(s, w);
  }

  lemma NotDeleting(e: Setting, s: State)
    requires Going(e, s)
    ensures !Deleting(s.pc) && s.pc != DeleteAccess && s.pc != DropAccess
    ensures Active(s.pc) ==> !s.l.xp.deleting
  {
    hide Coverage, Gate, Admissible;
    assert Admissible(e, s.w) ==> s.w.stored.Some? && !s.w.stored.value.deleting by { IsThere(e, s.w); }
  }

  lemma IsThere(e: Setting, w: World)
    ensures Admissible(e, w) ==> w.stored.Some? && !w.stored.value.deleting
  {
  }

  lemma SameWorldKept(e: Setting, w: World, w': World)
    requires w'.present == w.present && w'.terminating == w.terminating && PlanOf(e, w') == PlanOf(e, w)
    ensures Kept(e, w, w')
  {
  }

  lemma WriteKeeps(e: Setting, s: State, s': State)
    requires Going(e, s) && PassStep(e, s, s') && s.pc in {EnsureAccess, DropLegacy, EnsureComponents, DropLegacyAgain}
    ensures Going(e, s') && Kept(e, s.w, s'.w)
  {
    hide Core, Plan, Kept;
    PassKeepsCore(e, s, s');
    SameWorldKept(e, s.w, s'.w);
  }

  lemma ReadKeeps(e: Setting, s: State, s': State)
    requires Going(e, s) && PassStep(e, s, s') && s.pc in {Idle, HandleOperation, UpdateStatus}
    ensures Going(e, s') && Kept(e, s.w, s'.w)
  {
    hide Core, Plan, Kept, Configure;
    PassKeepsCore(e, s, s');
    SameWorldKept(e, s.w, s'.w);
  }

  lemma OtherKeeps(e: Setting, s: State, s': State)
    requires Going(e, s) && PassStep(e, s, s') && s.pc in {GetConfig, ReconcileAccess, GetCluster, GetAccessRequest}
    ensures Going(e, s') && Kept(e, s.w, s'.w)
  {
    hide Core, Plan, Kept;
    PassKeepsCore(e, s, s');
    NotDeleting(e, s);
    SameWorldKept(e, s.w, s'.w);
  }

  lemma RegisterKeeps(e: Setting, s: State, s': State)
    requires Going(e, s) && PassStep(e, s, s') && s.pc == Register(Install)
    ensures Going(e, s') && Kept(e, s.w, s'.w)
    ensures s'.pc == Juggle(Install) ==> s'.l.todo == Tasks(PlanOf(e, s.w), s.w.present) && s'.w == s.w
  {
    hide Core, Plan, Kept, Tasks, Keys;
    PassKeepsCore(e, s, s');
    SameWorldKept(e, s.w, s'.w);
    TasksOfPlan(e, s.w);
  }

  /** The enabled tasks of an install are the wanted ones. */
  lemma TasksOfPlan(e: Setting, w: World)
    requires Admissible(e, w)
    ensures forall t | t in Tasks(PlanOf(e, w), w.present) :: t.enabled <==> t.key in Wanted(e, w)
    ensures forall t | t in Tasks(PlanOf(e, w), w.present) && !t.enabled :: t in Orphans(PlanOf(e, w), w.present)
  {
    hide Plan, TaskList;
    var comps := PlanOf(e, w);
    PlanEnabled(e.env, w.stored.value.spec, w.config.value);
    TaskListMembers(comps);
    forall t | t in Tasks(comps, w.present)
      ensures t.enabled <==> t.key in Wanted(e, w)
      ensures !t.enabled ==> t in Orphans(comps, w.present)
    {
      assert t in TaskList(comps) || t in Orphans(comps, w.present);
    }
  }

  lemma HandledKept(w: World, w': World, t: Task, status: Status, wanted: set<Key>)
    requires Handles(w, w', t, status) && (t.enabled <==> t.key in wanted)
    ensures w' == w.(present := w'.present, terminating := w'.terminating)
    ensures w.present * wanted <= w'.present && w'.present - wanted <= w.present - wanted
    ensures w'.present - wanted - w'.terminating <= w.present - wanted - w.terminating
  {
  }

  lemma JuggleKeeps(e: Setting, s: State, s': State)
    requires Going(e, s) && PassStep(e, s, s') && s.pc == Juggle(Install)
    ensures Going(e, s') && Kept(e, s.w, s'.w)
  {
    hide Core, Plan, Handles, Record;
    PassKeepsCore(e, s, s');
    if s.l.todo != multiset{} {
      var t, status :| t in s.l.todo && Handles(s.w, s'.w, t, status) && s' == State(s'.w, s.pc, Record(s.l, Install, t, status));
      HandledKept(s.w, s'.w, t, status, Wanted(e, s.w));
      P.RecordedIs(s.l, Install, t, status);
    }
  }

  lemma PassKeepsGoing(e: Setting, s: State, s': State)
    requires Going(e, s) && PassStep(e, s, s')
    ensures Going(e, s') && Kept(e, s.w, s'.w)
  {
    NotDeleting(e, s);
    GoingStage(e, s);
    hide Going, PassStep, Kept;
    match s.pc {
      case EnsureAccess => WriteKeeps(e, s, s');
      case DropLegacy => WriteKeeps(e, s, s');
      case EnsureComponents => WriteKeeps(e, s, s');
      case DropLegacyAgain => WriteKeeps(e, s, s');
      case Idle => ReadKeeps(e, s, s');
      case HandleOperation => ReadKeeps(e, s, s');
      case UpdateStatus => ReadKeeps(e, s, s');
      case Register(_) => RegisterKeeps(e, s, s');
      case Juggle(_) => JuggleKeeps(e, s, s');
      case _ => OtherKeeps(e, s, s');
    }
  }

  lemma GoingStage(e: Setting, s: State)
    requires Going(e, s)
    ensures s.pc.Register? || s.pc.Juggle? ==> s.pc.stage == Install
  {
    NotDeleting(e, s);
  }

  lemma KeptThrough(e: Setting, w: World, m: World, n: World)
    requires Kept(e, w, m) && Kept(e, m, n)
    ensures Kept(e, w, n) && Wanted(e, n) == Wanted(e, w)
  {
    hide PlanOf;
  }

  lemma StepKeepsGoing(e: Setting, s: State, s': State)
    requires Going(e, s) && InstallStep(e, s, s')
    ensures Going(e, s') && Kept(e, s.w, s'.w)
  {
    hide Going, PassStep, Calm, Kept;
    var w :| Calm(s.w, w, Wanted(e, s.w)) && (PassStep(e, s.(w := w), s') || s' == Goto(s.(w := w), Idle));
    CalmKeeps(e, s, w);
    if PassStep(e, s.(w := w), s') {
      PassKeepsGoing(e, s.(w := w), s');
      KeptThrough(e, s.w, w, s'.w);
    } else {
      CrashKeeps(e, s.(w := w));
    }
  }

  lemma CrashKeeps(e: Setting, s: State)
    requires Going(e, s)
    ensures Going(e, Goto(s, Idle))
  {
    hide Admissible, Phase1Done, Phase1Running;
  }

  lemma {:induction false} GoesOn(e: Setting, run: nat -> State, ready: nat -> set<Key>, i: nat, j: nat)
    requires InstallRun(e, run, ready) && Going(e, run(i)) && i <= j
    ensures Going(e, run(j)) && Kept(e, run(i).w, run(j).w) && Wanted(e, run(j).w) == Wanted(e, run(i).w)
  {
    hide InstallRun, Going, InstallStep, Kept;
    KeptSelf(e, run(i).w);
    if j > i {
      GoesOn(e, run, ready, i, j - 1);
      assert InstallStep(e, run(j - 1), run(j)) by { StepOfRun(e, run, ready, j - 1); }
      StepKeepsGoing(e, run(j - 1), run(j));
      KeptThrough(e, run(i).w, run(j - 1).w, run(j).w);
    }
  }

  lemma KeptSelf(e: Setting, w: World)
    ensures Kept(e, w, w)
  {
  }

  lemma StepOfRun(e: Setting, run: nat -> State, ready: nat -> set<Key>, i: nat)
    requires InstallRun(e, run, ready)
    ensures InstallStep(e, run(i), run(i + 1))
  {
  }

  // ---------------------------------------------------------------- a pass in which every call succeeds

  function Distance(pc: Pc): nat {
    match pc
    case Idle => 11
    case HandleOperation => 10
    case GetConfig => 9
    case EnsureAccess => 8
    case DropLegacy => 7
    case ReconcileAccess => 6
    case GetCluster => 5
    case GetAccessRequest => 4
    case EnsureComponents => 3
    case DropLegacyAgain => 2
    case Register(_) => 1
    case _ => 0
  }

  lemma CallLeadsOn(e: Setting, s: State, s': State)
    requires Going(e, s) && InstallCall(e, s, s') && Distance(s.pc) > 1
    ensures 0 < Distance(s'.pc) < Distance(s.pc) && s'.pc != Idle
  {
    hide Going, PassStep, Installs;
    var w :| Calm(s.w, w, Wanted(e, s.w)) && PassStep(e, s.(w := w), s') && Installs(e, s.(w := w), s');
    CalmKeeps(e, s, w);
    PassLeadsOn(e, s.(w := w), s');
  }

  lemma PassLeadsOn(e: Setting, s: State, s': State)
    requires Going(e, s) && PassStep(e, s, s') && Installs(e, s, s') && Distance(s.pc) > 1
    ensures 0 < Distance(s'.pc) < Distance(s.pc) && s'.pc != Idle
  {
    hide Going, PassStep, Juggles, Active;
    NotDeleting(e, s);
    ActiveCalls(s.pc);
    if s.pc == GetConfig {
      ConfigCall(e, s, s');
    }
  }

  lemma ActiveCalls(pc: Pc)
    requires Distance(pc) > 1
    ensures !pc.Juggle? && !pc.Register? && pc != UpdateStatus && (pc == Idle || Active(pc))
  {
  }

  lemma ConfigCall(e: Setting, s: State, s': State)
    requires PassStep(e, s, s') && s.pc == GetConfig
    ensures s'.pc == UpdateStatus || s'.pc == (if ReadyForCleanup(s.l.xp) then DeleteAccess else EnsureAccess)
  {
  }

  /** The pass comes to set up the juggler. */
  lemma {:induction false} ComesToRegister(e: Setting, run: nat -> State, ready: nat -> set<Key>, i: nat, j: nat) returns (k: nat)
    requires InstallRun(e, run, ready) && GoodPass(e, run, i) && i <= j && SamePass(run, i + 1, j)
    requires Going(e, run(j)) && Distance(run(j).pc) > 0
    ensures k >= j && SamePass(run, i + 1, k) && run(k).pc == Register(Install) && Going(e, run(k))
    decreases Distance(run(j).pc)
  {
    hide InstallRun, Going, InstallCall;
    if Distance(run(j).pc) == 1 {
      GoingStage(e, run(j));
      return j;
    }
    CallLeadsOn(e, run(j), run(j + 1));
    GoesOn(e, run, ready, j, j + 1);
    k := ComesToRegister(e, run, ready, i, j + 1);
  }

  lemma KeptStrays(e: Setting, w: World, w': World)
    requires Kept(e, w, w')
    ensures Wanted(e, w') == Wanted(e, w) && Strays(w', Wanted(e, w)) <= Strays(w, Wanted(e, w))
    ensures (exists k :: k in w.present - Wanted(e, w) && k !in w'.present) ==> Strays(w', Wanted(e, w)) < Strays(w, Wanted(e, w))
  {
    StraysFall(w, w', Wanted(e, w));
  }

  /** What the juggler did to one component. */
  lemma OneJuggled(e: Setting, s: State, s': State) returns (t: Task)
    requires Going(e, s) && s.pc == Juggle(Install) && s.l.todo != multiset{} && InstallCall(e, s, s')
    ensures t in s.l.todo && s'.l.todo == s.l.todo - multiset{t} && s'.pc == s.pc
    ensures t.enabled ==> t.key in s'.w.present
    ensures !t.enabled && t.key in s.w.present ==> Strays(s'.w, Wanted(e, s.w)) < Strays(s.w, Wanted(e, s.w))
  {
    hide Going, Core, Plan, PassStep, Record, Handles, Strays, Kept, Admitted, Calm;
    var w :| Calm(s.w, w, Wanted(e, s.w)) && PassStep(e, s.(w := w), s') && Installs(e, s.(w := w), s');
    var m := s.(w := w);
    CalmKeeps(e, s, w);
    KeptStrays(e, s.w, w);
    assert Juggles(e, m, s');
    var u, status :| u in m.l.todo && Handles(m.w, s'.w, u, status)
      && s' == State(s'.w, m.pc, Record(m.l, Install, u, status))
      && (u.enabled && Admitted(e, m, u.key) ==> u.key in s'.w.present)
      && (!u.enabled && u.key in m.w.present ==> Strays(s'.w, Wanted(e, m.w)) < Strays(m.w, Wanted(e, m.w)));
    t := u;
    P.RecordedIs(m.l, Install, u, status);
    TaskIsWanted(e, m, u);
    JuggleKeeps(e, m, s');
    KeptStrays(e, m.w, s'.w);
  }

  lemma TaskIsWanted(e: Setting, s: State, t: Task)
    requires Going(e, s) && s.pc == Juggle(Install) && t in s.l.todo
    ensures t.enabled <==> t.key in Wanted(e, s.w)
    ensures t.enabled ==> Admitted(e, s, t.key)
  {
    hide Core, Plan;
  }

  /** The juggler gets through everything: what is wanted exists, and some stray is closer to its end. */
  lemma {:induction false} AllJuggled(e: Setting, run: nat -> State, ready: nat -> set<Key>, i: nat, j: nat) returns (k: nat)
    requires InstallRun(e, run, ready) && GoodPass(e, run, i) && i <= j && SamePass(run, i + 1, j)
    requires Going(e, run(j)) && run(j).pc == Juggle(Install)
    ensures k >= j && Going(e, run(k)) && Kept(e, run(j).w, run(k).w)
    ensures forall t | t in run(j).l.todo && t.enabled :: t.key in run(k).w.present
    ensures (exists t :: t in run(j).l.todo && !t.enabled && t.key in run(j).w.present) ==>
      Strays(run(k).w, Wanted(e, run(j).w)) < Strays(run(j).w, Wanted(e, run(j).w))
    decreases |run(j).l.todo|
  {
    hide InstallRun, Going, InstallCall, Strays, Kept, Wanted;
    if run(j).l.todo == multiset{} {
      KeptSelf(e, run(j).w);
      return j;
    }
    var t := OneJuggled(e, run(j), run(j + 1));
    GoesOn(e, run, ready, j, j + 1);
    k := AllJuggled(e, run, ready, i, j + 1);
    GoesOn(e, run, ready, j, k);
    KeptStrays(e, run(j).w, run(j + 1).w);
    KeptStrays(e, run(j + 1).w, run(k).w);
    forall u | u in run(j).l.todo && u.enabled ensures u.key in run(k).w.present {
      if u == t {
        TaskIsWanted(e, run(j), u);
        StaysPresent(e, run(j + 1).w, run(k).w, u.key);
      } else {
        assert u in run(j + 1).l.todo;
      }
    }
    if u :| u in run(j).l.todo && !u.enabled && u.key in run(j).w.present {
      TaskIsWanted(e, run(j), u);
      assert u == t || u in run(j + 1).l.todo;
    }
  }

  lemma StaysPresent(e: Setting, w: World, w': World, k: Key)
    requires Kept(e, w, w') && k in Wanted(e, w) && k in w.present
    ensures k in w'.present
  {
  }

  /** From the set-up of the juggler: the components and the orphans of that moment are to be handled. */
  lemma SetUp(e: Setting, s: State, s': State)
    requires Going(e, s) && s.pc == Register(Install) && InstallCall(e, s, s')
    ensures s'.pc == Juggle(Install) && s'.l.todo == Tasks(PlanOf(e, s'.w), s'.w.present) && Wanted(e, s'.w) == Wanted(e, s.w)
  {
    hide Going, PassStep, Kept, Tasks, Plan;
    var w :| Calm(s.w, w, Wanted(e, s.w)) && PassStep(e, s.(w := w), s') && Installs(e, s.(w := w), s');
    CalmKeeps(e, s, w);
    RegisterKeeps(e, s.(w := w), s');
  }

  lemma EverythingIsTodo(e: Setting, w: World)
    requires Admissible(e, w)
    ensures forall c | c in PlanOf(e, w) :: c.enabled && Task(KeyOf(c), true) in Tasks(PlanOf(e, w), w.present)
    ensures forall k | k in w.present - Wanted(e, w) :: Task(k, false) in Tasks(PlanOf(e, w), w.present)
  {
    hide Plan, TaskList;
    var comps := PlanOf(e, w);
    PlanEnabled(e.env, w.stored.value.spec, w.config.value);
    TaskListMembers(comps);
    ReleaseIsWanted(e, w);
    forall c | c in comps ensures Task(KeyOf(c), true) in Tasks(comps, w.present) {
      assert Task(KeyOf(c), c.enabled) in TaskList(comps);
    }
    forall k | k in w.present - Wanted(e, w) ensures Task(k, false) in Tasks(comps, w.present) {
      assert Task(k, false) in Orphans(comps, w.present);
    }
  }

  lemma ReleaseIsWanted(e: Setting, w: World)
    requires Admissible(e, w)
    ensures ReleaseKey in Wanted(e, w)
  {
    hide PlanList, PlanError;
    var spec, pc := w.stored.value.spec, w.config.value;
    var xp := CrossplaneFor(spec, pc, PlanLaws.Prefixed(e.env, spec, pc), true);
    hide PlanLaws.PullSecretNames, PlanLaws.Prefixed, EffectiveChartSecret;
    PlanLaws.PlanMembers(e.env, spec, pc, true, xp);
    assert KeyOf(xp) == ReleaseKey;
  }

  /** After a good pass everything wanted exists, and if anything unwanted did, there is less of it. */
  lemma GoodPassAchieves(e: Setting, run: nat -> State, ready: nat -> set<Key>, i: nat) returns (k: nat)
    requires InstallRun(e, run, ready) && GoodPass(e, run, i) && Going(e, run(i))
    ensures k >= i && Going(e, run(k)) && Kept(e, run(i).w, run(k).w)
    ensures Wanted(e, run(i).w) <= run(k).w.present
    ensures run(i).w.present - Wanted(e, run(i).w) != {} ==>
      Strays(run(k).w, Wanted(e, run(i).w)) < Strays(run(i).w, Wanted(e, run(i).w))
  {
    hide InstallRun, Going, InstallCall, Strays, Kept, Tasks, Wanted, PlanOf;
    var r := ComesToRegister(e, run, ready, i, i);
    SetUp(e, run(r), run(r + 1));
    GoesOn(e, run, ready, i, r);
    GoesOn(e, run, ready, i, r + 1);
    var w := run(r + 1).w;
    GoingIsAdmissible(e, run(r + 1));
    EverythingIsTodo(e, w);
    k := AllJuggled(e, run, ready, i, r + 1);
    GoesOn(e, run, ready, i, k);
    WantedIsTodo(e, w);
    assert Wanted(e, w) <= run(k).w.present;
    FewerStrays(e, run(i).w, w, run(k).w);
  }

  lemma WantedIsTodo(e: Setting, w: World)
    requires Admissible(e, w)
    ensures forall k | k in Wanted(e, w) :: Task(k, true) in Tasks(PlanOf(e, w), w.present)
  {
    hide Admissible, Tasks, PlanOf;
    EverythingIsTodo(e, w);
  }

  /** When the unwanted objects still there have become fewer, or some have gone before. */
  lemma FewerStrays(e: Setting, w: World, m: World, n: World)
    requires Kept(e, w, m) && Kept(e, m, n)
    requires (exists t :: t in Tasks(PlanOf(e, m), m.present) && !t.enabled && t.key in m.present) ==>
      Strays(n, Wanted(e, m)) < Strays(m, Wanted(e, m))
    requires forall k | k in m.present - Wanted(e, m) :: Task(k, false) in Tasks(PlanOf(e, m), m.present)
    ensures w.present - Wanted(e, w) != {} ==> Strays(n, Wanted(e, w)) < Strays(w, Wanted(e, w))
  {
    hide Strays, Tasks, Kept, Wanted;
    KeptStrays(e, w, m);
    KeptStrays(e, m, n);
    if k :| k in w.present - Wanted(e, w) {
      assert k in m.present ==> Task(k, false) in Tasks(PlanOf(e, m), m.present);
    }
  }

  lemma GoingIsAdmissible(e: Setting, s: State)
    requires Going(e, s)
    ensures Admissible(e, s.w)
  {
  }

  /** The next good pass. */
  lemma GoodPassOfRun(e: Setting, run: nat -> State, ready: nat -> set<Key>, n: nat) returns (i: nat)
    requires InstallRun(e, run, ready)
    ensures i >= n && GoodPass(e, run, i)
  {
    hide GoodPass, InstallStep, Matures;
    assert GoodPassAfter(e, run, n);
    i :| i >= n && GoodPass(e, run, i);
  }

  /** Some time nothing unwanted is left. */
  lemma {:induction false} StraysVanish(e: Setting, run: nat -> State, ready: nat -> set<Key>, n: nat) returns (i: nat)
    requires InstallRun(e, run, ready) && Going(e, run(n))
    ensures i >= n && run(i).w.present <= Wanted(e, run(n).w)
    decreases Strays(run(n).w, Wanted(e, run(n).w))
  {
    hide InstallRun, Going, GoodPass, Strays, Kept;
    if run(n).w.present <= Wanted(e, run(n).w) {
      return n;
    }
    var p := GoodPassOfRun(e, run, ready, n);
    GoesOn(e, run, ready, n, p);
    if run(p).w.present <= Wanted(e, run(n).w) {
      return p;
    }
    KeptStrays(e, run(n).w, run(p).w);
    assert run(p).w.present - Wanted(e, run(p).w) != {} by {
      var key :| key in run(p).w.present && key !in Wanted(e, run(p).w);
      assert key in run(p).w.present - Wanted(e, run(p).w);
    }
    var k := GoodPassAchieves(e, run, ready, p);
    GoesOn(e, run, ready, n, k);
    i := StraysVanish(e, run, ready, k);
  }

  // ---------------------------------------------------------------- the report

  /** What the juggler reports for one component: True exactly when the object exists and is healthy. */
  ghost predicate ReportOf(run: nat -> State, ready: nat -> set<Key>, i: nat, r: C.ComponentResult) {
    var t := Task(KeyOf(r.component), true);
    && run(i).pc == Juggle(Install) && r.component.enabled && r.status == StatusOther
    && t in run(i).l.todo && run(i + 1).l.todo == run(i).l.todo - multiset{t}
    && (r.ready == C.True <==> t.key in run(i + 1).w.present && t.key in ready(i))
  }

  /** The results of a pass: one report after the other, for all components of the plan and nothing else. */
  ghost predicate ReportedPass(e: Setting, run: nat -> State, ready: nat -> set<Key>, i: nat, results: seq<C.ComponentResult>) {
    && run(i).pc == Juggle(Install)
    && run(i).l.todo == multiset(TaskList(PlanOf(e, run(i).w))) == multiset(TaskList(C.ComponentsOf(results)))
    && (forall m: nat | m < |results| :: ReportOf(run, ready, i + m, results[m]))
    && run(i + |results|).l.todo == multiset{} && run(i + |results| + 1).pc == UpdateStatus
  }

  /** From position `i` on these are the reports, all of them True. */
  ghost predicate TrueReports(run: nat -> State, ready: nat -> set<Key>, i: nat, results: seq<C.ComponentResult>) {
    forall m: nat | m < |results| :: ReportOf(run, ready, i + m, results[m]) && results[m].ready == C.True
  }

  lemma TrueReportsCons(run: nat -> State, ready: nat -> set<Key>, i: nat, r: C.ComponentResult, rest: seq<C.ComponentResult>)
    requires ReportOf(run, ready, i, r) && r.ready == C.True && TrueReports(run, ready, i + 1, rest)
    ensures TrueReports(run, ready, i, [r] + rest)
  {
    hide ReportOf;
    var results := [r] + rest;
    forall m: nat | m < |results| ensures ReportOf(run, ready, i + m, results[m]) && results[m].ready == C.True {
      if m > 0 {
        assert ReportOf(run, ready, i + 1 + (m - 1), rest[m - 1]);
      }
    }
  }

  /** The last good pass: everything wanted is there and healthy. */
  lemma {:induction false} AllReported(e: Setting, run: nat -> State, ready: nat -> set<Key>, i: nat, j: nat) returns (results: seq<C.ComponentResult>)
    requires InstallRun(e, run, ready) && GoodPass(e, run, i) && i <= j && SamePass(run, i + 1, j)
    requires Going(e, run(j)) && run(j).pc == Juggle(Install)
    requires forall t | t in run(j).l.todo :: t.enabled
    requires HealthyFrom(ready, Wanted(e, run(j).w), j)
    ensures multiset(TaskList(C.ComponentsOf(results))) == run(j).l.todo
    ensures TrueReports(run, ready, j, results)
    ensures run(j + |results|).l.todo == multiset{} && run(j + |results| + 1).pc == UpdateStatus
    decreases |run(j).l.todo|
  {
    hide InstallRun, Going, InstallCall, Kept, Wanted, TaskList, C.ComponentsOf, ReportOf, TrueReports, PlanOf, GoodPass, SamePass, HealthyFrom;
    SamePassGoesOn(e, run, i, j);
    if run(j).l.todo == multiset{} {
      NoReports(run, ready, j);
      JuggleEnds(e, run(j), run(j + 1));
      return [];
    }
    var r;
    r := FirstReported(e, run, ready, j);
    GoesOn(e, run, ready, j, j + 1);
    HealthyLater(ready, Wanted(e, run(j).w), j, j + 1);
    var rest := AllReported(e, run, ready, i, j + 1);
    TrueReportsCons(run, ready, j, r, rest);
    TaskListCons(r, rest);
    results := [r] + rest;
    assert j + |results| == j + 1 + |rest|;
  }

  lemma FirstReported(e: Setting, run: nat -> State, ready: nat -> set<Key>, j: nat) returns (r: C.ComponentResult)
    requires Going(e, run(j)) && run(j).pc == Juggle(Install) && run(j).l.todo != multiset{}
    requires InstallCall(e, run(j), run(j + 1)) && forall t | t in run(j).l.todo :: t.enabled
    requires HealthyFrom(ready, Wanted(e, run(j).w), j)
    ensures ReportOf(run, ready, j, r) && r.ready == C.True && run(j + 1).pc == run(j).pc
    ensures var t := Task(KeyOf(r.component), r.component.enabled);
      run(j).l.todo == multiset{t} + run(j + 1).l.todo && |run(j + 1).l.todo| < |run(j).l.todo|
    ensures forall t | t in run(j + 1).l.todo :: t.enabled
  {
    hide Going, InstallCall, Wanted, ReportOf, PlanOf;
    var t := OneJuggled(e, run(j), run(j + 1));
    TaskIsWanted(e, run(j), t);
    var c := WantedComponent(e, run(j), t.key);
    r := C.ComponentResult(c, StatusOther, C.True, "");
    ReportNow(run, ready, j, r, t);
  }

  lemma ReportNow(run: nat -> State, ready: nat -> set<Key>, i: nat, r: C.ComponentResult, t: Task)
    requires run(i).pc == Juggle(Install) && t in run(i).l.todo && run(i + 1).l.todo == run(i).l.todo - multiset{t}
    requires r.component.enabled && t == Task(KeyOf(r.component), true)
    requires r.status == StatusOther && r.ready == C.True && t.key in run(i + 1).w.present && t.key in ready(i)
    ensures ReportOf(run, ready, i, r)
  {
  }

  lemma NoReports(run: nat -> State, ready: nat -> set<Key>, i: nat)
    ensures TaskList(C.ComponentsOf([])) == [] && TrueReports(run, ready, i, [])
  {
  }

  lemma TaskListCons(r: C.ComponentResult, rest: seq<C.ComponentResult>)
    ensures multiset(TaskList(C.ComponentsOf([r] + rest)))
         == multiset{Task(KeyOf(r.component), r.component.enabled)} + multiset(TaskList(C.ComponentsOf(rest)))
  {
    assert TaskList(C.ComponentsOf([r] + rest)) == [Task(KeyOf(r.component), r.component.enabled)] + TaskList(C.ComponentsOf(rest));
  }

  lemma JuggleEnds(e: Setting, s: State, s': State)
    requires s.pc == Juggle(Install) && s.l.todo == multiset{} && InstallCall(e, s, s')
    ensures s'.pc == UpdateStatus
  {
  }

  lemma WantedComponent(e: Setting, s: State, k: Key) returns (c: Component)
    requires Going(e, s) && k in Wanted(e, s.w)
    ensures c in PlanOf(e, s.w) && KeyOf(c) == k && c.enabled
  {
    hide Core, Plan;
    PlanEnabled(e.env, s.w.stored.value.spec, s.w.config.value);
    c :| c in PlanOf(e, s.w) && KeyOf(c) == k;
  }

  ghost predicate HealthyFrom(ready: nat -> set<Key>, keys: set<Key>, n: nat) {
    forall k, m: nat | k in keys && m >= n :: k in ready(m)
  }

  /** From some time on all of these are healthy. */
  lemma {:induction false} AllMature(run: nat -> State, ready: nat -> set<Key>, i: nat, keys: seq<Key>) returns (n: nat)
    requires forall k | k in keys :: k in run(i).w.present && Matures(run, ready, k)
    ensures forall k | k in keys :: ReadyFrom(ready, k, n)
  {
    n := 0;
    if keys != [] {
      var m := AllMature(run, ready, i, keys[1..]);
      assert keys[0] in keys;
      var x: nat :| ReadyFrom(ready, keys[0], x);
      n := if m >= x then m else x;
      forall k | k in keys ensures ReadyFrom(ready, k, n) {
        assert k == keys[0] || k in keys[1..];
        assert ReadyFrom(ready, k, if k == keys[0] then x else m);
      }
    }
  }

  /** Every condition that is not True belongs to a planned component. */
  predicate OnlyPlannedUntrue(e: Setting, w: World, existing: seq<C.Condition>) {
    forall i | 0 <= i < |existing| && existing[i].kind != C.RECONCILED && existing[i].status != C.True ::
      exists c | c in PlanOf(e, w) :: C.ConditionKind(c) == existing[i].kind
  }

  /** Some time nothing unwanted is left and everything wanted exists and is healthy, for good. */
  lemma ComesToRest(e: Setting, run: nat -> State, ready: nat -> set<Key>) returns (n: nat)
    requires InstallRun(e, run, ready) && Going(e, run(0))
    ensures run(n).w.present <= Wanted(e, run(0).w) && HealthyFrom(ready, Wanted(e, run(0).w), n)
  {
    hide InstallRun, Going, GoodPass, Kept, Matures, ReadyFrom, PlanOf;
    var a := StraysVanish(e, run, ready, 0);
    var p := GoodPassOfRun(e, run, ready, a);
    GoesOn(e, run, ready, 0, p);
    var b := GoodPassAchieves(e, run, ready, p);
    var keys := KeysOf(PlanOf(e, run(0).w));
    MatureRun(e, run, ready);
    KeysAreWanted(e, run(0).w);
    var m := AllMature(run, ready, b, keys);
    n := if a >= m then a else m;
    GoesOn(e, run, ready, 0, a);
    GoesOn(e, run, ready, a, n);
    NoStrays(e, run(a).w, run(n).w);
    Healthy(ready, Wanted(e, run(0).w), m, n);
  }

  lemma Healthy(ready: nat -> set<Key>, keys: set<Key>, m: nat, n: nat)
    requires m <= n && forall k | k in keys :: ReadyFrom(ready, k, m)
    ensures HealthyFrom(ready, keys, n)
  {
    forall k, x: nat | k in keys && x >= n ensures k in ready(x) {
      assert ReadyFrom(ready, k, m);
    }
  }

  /** A good pass from then on reports everything as ready. */
  lemma RestIsReported(e: Setting, run: nat -> State, ready: nat -> set<Key>, n: nat) returns (i: nat, results: seq<C.ComponentResult>)
    requires InstallRun(e, run, ready) && Going(e, run(n))
    requires run(n).w.present <= Wanted(e, run(n).w) && HealthyFrom(ready, Wanted(e, run(n).w), n)
    ensures i >= n && Going(e, run(i)) && run(i).pc == Juggle(Install) && TrueReports(run, ready, i, results)
    ensures run(i).l.todo == multiset(TaskList(PlanOf(e, run(i).w))) == multiset(TaskList(C.ComponentsOf(results)))
    ensures run(i + |results|).l.todo == multiset{} && run(i + |results| + 1).pc == UpdateStatus
  {
    hide InstallRun, Going, GoodPass, Kept, TaskList, Tasks, PlanOf, TrueReports, HealthyFrom, InstallCall;
    var q := GoodPassOfRun(e, run, ready, n);
    GoesOn(e, run, ready, n, q);
    PassStarts(e, run, q);
    var r := ComesToRegister(e, run, ready, q, q);
    i := r + 1;
    SamePassGoesOn(e, run, q, r);
    SetUp(e, run(r), run(i));
    GoesOn(e, run, ready, n, i);
    NoStrays(e, run(n).w, run(i).w);
    NothingButThePlan(e, run(i));
    HealthyLater(ready, Wanted(e, run(n).w), n, i);
    results := AllReported(e, run, ready, q, i);
  }

  lemma HealthyLater(ready: nat -> set<Key>, keys: set<Key>, n: nat, m: nat)
    requires n <= m && HealthyFrom(ready, keys, n)
    ensures HealthyFrom(ready, keys, m)
  {
  }

  /** Installing succeeds: in every such run an admitted spec comes to a pass that reports every planned
      component as ready, and nothing else; so the phase becomes Ready, unless a condition of something
      that is not planned is in the way. */
  lemma InstallBecomesReady(e: Setting, run: nat -> State, ready: nat -> set<Key>) returns (i: nat, results: seq<C.ComponentResult>)
    requires InstallRun(e, run, ready) && Start(run(0)) && Admissible(e, run(0).w)
    ensures ReportedPass(e, run, ready, i, results)
    ensures PlanOf(e, run(i).w) == PlanOf(e, run(0).w)
    ensures forall existing | C.UniqueKinds(existing) && OnlyPlannedUntrue(e, run(0).w, existing) ::
      C.PhaseOf(false, C.UpdatedStatus(existing, C.Installed(results))) == C.Ready
  {
    hide InstallRun, Going, Admissible, PlanOf, TaskList, OnlyPlannedUntrue, C.PhaseOf, C.UpdatedStatus, C.UniqueKinds, ReportOf, HealthyFrom;
    StartGoes(e, run(0));
    var n := ComesToRest(e, run, ready);
    GoesOn(e, run, ready, 0, n);
    i, results := RestIsReported(e, run, ready, n);
    GoesOn(e, run, ready, 0, i);
    forall m: nat | m < |results| ensures results[m].component.enabled && results[m].ready == C.True && results[m].status == StatusOther {
      ReportIs(run, ready, i + m, results[m]);
    }
    forall existing | C.UniqueKinds(existing) && OnlyPlannedUntrue(e, run(0).w, existing)
      ensures C.PhaseOf(false, C.UpdatedStatus(existing, C.Installed(results))) == C.Ready
    {
      SamePlanUntrue(e, run(0).w, run(i).w, existing);
      PlanIsReported(e, run(i), results, existing);
    }
  }

  lemma SamePlanUntrue(e: Setting, w: World, w': World, existing: seq<C.Condition>)
    requires PlanOf(e, w') == PlanOf(e, w) && OnlyPlannedUntrue(e, w, existing)
    ensures OnlyPlannedUntrue(e, w', existing)
  {
    hide PlanOf;
  }

  lemma ReportIs(run: nat -> State, ready: nat -> set<Key>, i: nat, r: C.ComponentResult)
    requires ReportOf(run, ready, i, r)
    ensures r.component.enabled && r.status == StatusOther
  {
  }

  lemma StartGoes(e: Setting, s: State)
    requires Start(s) && Admissible(e, s.w)
    ensures Going(e, s)
  {
    hide Admissible;
  }

  function KeysOf(comps: seq<Component>): seq<Key> {
    seq(|comps|, i requires 0 <= i < |comps| => KeyOf(comps[i]))
  }

  lemma KeysAreWanted(e: Setting, w: World)
    ensures forall k :: k in KeysOf(PlanOf(e, w)) <==> k in Wanted(e, w)
  {
    var comps := PlanOf(e, w);
    forall k | k in Wanted(e, w) ensures k in KeysOf(comps) {
      var i :| 0 <= i < |comps| && KeyOf(comps[i]) == k;
      assert KeysOf(comps)[i] == k;
    }
  }

  lemma MatureRun(e: Setting, run: nat -> State, ready: nat -> set<Key>)
    requires InstallRun(e, run, ready)
    ensures forall k | k in Wanted(e, run(0).w) :: Matures(run, ready, k)
  {
  }

  lemma PassStarts(e: Setting, run: nat -> State, i: nat)
    requires GoodPass(e, run, i)
    ensures run(i).pc == Idle && SamePass(run, i + 1, i)
  {
  }

  lemma SamePassGoesOn(e: Setting, run: nat -> State, i: nat, j: nat)
    requires GoodPass(e, run, i) && i <= j && SamePass(run, i + 1, j)
    ensures InstallCall(e, run(j), run(j + 1))
    ensures run(j + 1).pc != Idle ==> SamePass(run, i + 1, j + 1)
  {
    hide InstallCall;
  }

  lemma NoStrays(e: Setting, w: World, w': World)
    requires Kept(e, w, w') && w.present <= Wanted(e, w)
    ensures w'.present <= Wanted(e, w')
  {
    assert w.present - Wanted(e, w) == {};
    forall k | k in w'.present ensures k in Wanted(e, w) {
      assert k !in w'.present - Wanted(e, w);
    }
  }

  lemma NothingButThePlan(e: Setting, s: State)
    requires Going(e, s) && s.w.present <= Wanted(e, s.w)
    requires s.l.todo == Tasks(PlanOf(e, s.w), s.w.present)
    ensures s.l.todo == multiset(TaskList(PlanOf(e, s.w))) && forall t | t in s.l.todo :: t.enabled
  {
    hide Core, Plan, TaskList;
    GoingIsAdmissible(e, s);
    TasksOfPlan(e, s.w);
    assert Orphans(PlanOf(e, s.w), s.w.present) == {};
  }

  lemma PlanIsReported(e: Setting, s: State, results: seq<C.ComponentResult>, existing: seq<C.Condition>)
    requires C.UniqueKinds(existing) && OnlyPlannedUntrue(e, s.w, existing)
    requires multiset(TaskList(C.ComponentsOf(results))) == multiset(TaskList(PlanOf(e, s.w)))
    requires forall m | 0 <= m < |results| :: results[m].component.enabled && results[m].ready == C.True && results[m].status == StatusOther
    ensures C.PhaseOf(false, C.UpdatedStatus(existing, C.Installed(results))) == C.Ready
  {
    hide PlanOf, TaskList, C.ConditionKind, C.UniqueKinds, C.PhaseOf, C.UpdatedStatus;
    var comps := PlanOf(e, s.w);
    TaskListMembers(comps);
    TaskListMembers(C.ComponentsOf(results));
    forall i | 0 <= i < |existing| && existing[i].kind != C.RECONCILED && existing[i].status != C.True
      ensures exists m | 0 <= m < |results| :: C.ConditionKind(results[m].component) == existing[i].kind
    {
      var c :| c in comps && C.ConditionKind(c) == existing[i].kind;
      assert Task(KeyOf(c), c.enabled) in multiset(TaskList(comps));
      assert Task(KeyOf(c), c.enabled) in TaskList(C.ComponentsOf(results));
      var d :| d in C.ComponentsOf(results) && Task(KeyOf(c), c.enabled) == Task(KeyOf(d), d.enabled);
      SameKeySameKind(c, d);
      var m :| 0 <= m < |results| && C.ComponentsOf(results)[m] == d;
    }
    C.AllReadyIsReady(existing, results);
  }

  lemma SameKeySameKind(c: Component, d: Component)
    requires KeyOf(c) == KeyOf(d)
    ensures C.ConditionKind(c) == C.ConditionKind(d)
  {
  }

  // ---------------------------------------------------------------- there are such runs

  /** Some call of an install can succeed. */
  lemma SomeCallInstalls(e: Setting, s: State) returns (s': State)
    requires Going(e, s)
    ensures InstallCall(e, s, s') && InstallStep(e, s, s')
  {
    hide Going, PassStep, Installs;
    NotDeleting(e, s);
    if s.pc.Juggle? {
      s' := JugglesOne(e, s);
    } else if s.pc in {EnsureAccess, DropLegacy, EnsureComponents, DropLegacyAgain} {
      s' := Writes(e, s);
    } else {
      s' := Answers(e, s);
    }
    assert Calm(s.w, s.w, Wanted(e, s.w)) && PassStep(e, s.(w := s.w), s') && Installs(e, s.(w := s.w), s');
  }

  lemma JugglesOne(e: Setting, s: State) returns (s': State)
    requires Going(e, s) && s.pc.Juggle?
    ensures PassStep(e, s, s') && Installs(e, s, s')
  {
    hide Core, Plan, Wanted, PlanOf, Strays, AfterJuggle, Admissible, Handles, Record;
    GoingStage(e, s);
    if s.l.todo == multiset{} {
      s' := Goto(s, AfterJuggle(s.l, Install));
    } else {
      var t :| t in s.l.todo;
      var w, status := HandlesTask(e, s, t);
      s' := State(w, s.pc, Record(s.l, Install, t, status));
      assert Juggles(e, s, s');
    }
  }

  lemma HandlesTask(e: Setting, s: State, t: Task) returns (w: World, status: Status)
    requires Going(e, s) && s.pc == Juggle(Install) && t in s.l.todo
    ensures Handles(s.w, w, t, status)
    ensures t.enabled ==> t.key in w.present
    ensures !t.enabled && t.key in s.w.present ==> Strays(w, Wanted(e, s.w)) < Strays(s.w, Wanted(e, s.w))
  {
    hide Going, Wanted, Strays, HookClear;
    TaskIsWanted(e, s, t);
    GoingWantsRelease(e, s);
    w, status := s.w, StatusOther;
    if t.enabled {
      w := s.w.(present := s.w.present + {t.key});
    } else if t.key !in s.w.present {
      status := StatusDisabled;
    } else {
      w := s.w.(present := s.w.present - {t.key}, terminating := s.w.terminating - {t.key});
      status := StatusUninstalled;
      OneStrayLess(s.w, w, t.key, Wanted(e, s.w));
    }
  }

  lemma OneStrayLess(w: World, w': World, k: Key, wanted: set<Key>)
    requires k in w.present && k !in wanted
    requires w' == w.(present := w.present - {k}, terminating := w.terminating - {k})
    ensures Strays(w', wanted) < Strays(w, wanted)
  {
    assert k in w.present - wanted && k !in w'.present - wanted;
    StraysFall(w, w', wanted);
  }

  lemma GoingWantsRelease(e: Setting, s: State)
    requires Going(e, s)
    ensures ReleaseKey in Wanted(e, s.w)
  {
    ReleaseIsWanted(e, s.w);
  }

  lemma Writes(e: Setting, s: State) returns (s': State)
    requires Going(e, s) && s.pc in {EnsureAccess, DropLegacy, EnsureComponents, DropLegacyAgain}
    ensures PassStep(e, s, s') && Installs(e, s, s')
  {
    hide Core, Plan, PlanOf;
    var x := s.l.xp.finalizers;
    match s.pc {
      case EnsureAccess =>
        s' := if AccessFinalizer in x then Goto(s, DropLegacy) else Written(s, x + {AccessFinalizer}, DropLegacy);
      case DropLegacy =>
        s' := if LegacyFinalizer !in x then Goto(s, ReconcileAccess) else Written(s, x - {LegacyFinalizer}, ReconcileAccess);
      case EnsureComponents =>
        s' := if ComponentsFinalizer in x then Goto(s, DropLegacyAgain) else Written(s, x + {ComponentsFinalizer}, DropLegacyAgain);
      case DropLegacyAgain =>
        s' := if LegacyFinalizer !in x then Goto(s, Register(Install)) else Written(s, x - {LegacyFinalizer}, Register(Install));
    }
  }

  function Written(s: State, finalizers: set<Finalizer>, next: Pc): State {
    var xp := s.l.xp.(finalizers := finalizers);
    State(Write(s.w, xp), next, s.l.(xp := xp.(version := s.w.clock + 1)))
  }

  lemma Answers(e: Setting, s: State) returns (s': State)
    requires Going(e, s) && !s.pc.Juggle? && s.pc !in {EnsureAccess, DropLegacy, EnsureComponents, DropLegacyAgain}
    ensures PassStep(e, s, s') && Installs(e, s, s')
  {
    NotDeleting(e, s);
    GoingStage(e, s);
    hide Core, Tasks, PlanList, PlanError, PlanOf, Keys;
    match s.pc {
      case Idle => s' := State(s.w, HandleOperation, Begin(s.w.stored.value, s.l.config));
      case HandleOperation =>
        if s.l.xp.operation == NoOperation {
          s' := Goto(s, GetConfig);
        } else {
          var patched := s.w.stored.value.(operation := NoOperation, version := s.w.clock + 1);
          s' := State(Write(s.w, patched), GetConfig, s.l.(xp := patched));
        }
      case GetConfig => s' := State(s.w, EnsureAccess, s.l.(config := s.w.config.value));
      case ReconcileAccess => s' := State(s.w.(access := true), GetCluster, s.l);
      case GetCluster => s' := Goto(s, GetAccessRequest);
      case GetAccessRequest => s' := Goto(s, AfterAccess(s.l.xp));
      case Register(_) =>
        var tasks := Tasks(Planned(e, Install, s.l.xp.spec, s.l.config).value, s.w.present);
        s' := State(s.w, Juggle(Install), s.l.(todo := tasks, remaining := false));
      case _ => s' := Goto(s, Idle);
    }
  }

  ghost function Follow(e: Setting, s: State, i: nat): State {
    if i == 0 then s else Next(e, Follow(e, s, i - 1))
  }

  ghost function Next(e: Setting, s: State): State {
    if exists s' :: InstallCall(e, s, s') && InstallStep(e, s, s') then
      var s' :| InstallCall(e, s, s') && InstallStep(e, s, s'); s'
    else s
  }

  lemma {:induction false} FollowGoes(e: Setting, s: State, i: nat)
    requires Going(e, s)
    ensures Going(e, Follow(e, s, i)) && InstallCall(e, Follow(e, s, i), Follow(e, s, i + 1))
    ensures InstallStep(e, Follow(e, s, i), Follow(e, s, i + 1))
  {
    hide Going, InstallCall, InstallStep, Kept;
    if i > 0 {
      FollowGoes(e, s, i - 1);
      StepKeepsGoing(e, Follow(e, s, i - 1), Follow(e, s, i));
    }
    var s' := SomeCallInstalls(e, Follow(e, s, i));
  }

  /** A successful call brings the pass closer to its end. */
  lemma CallEnds(e: Setting, s: State, s': State)
    requires Going(e, s) && InstallCall(e, s, s') && s.pc != Idle
    ensures s'.pc == Idle || Left(s'.pc) < Left(s.pc) || (s'.pc == s.pc && |s'.l.todo| < |s.l.todo|)
  {
    NotDeleting(e, s);
    hide Going;
    if Distance(s.pc) > 1 {
      CallLeadsOn(e, s, s');
    } else if s.pc.Juggle? && s.l.todo != multiset{} {
      GoingStage(e, s);
      var t := OneJuggled(e, s, s');
    } else {
      GoingStage(e, s);
      LastCalls(e, s, s');
    }
  }

  function Left(pc: Pc): nat {
    match pc
    case UpdateStatus => 0
    case Juggle(_) => 1
    case _ => 1 + Distance(pc)
  }

  lemma LastCalls(e: Setting, s: State, s': State)
    requires InstallCall(e, s, s')
    requires s.pc == Register(Install) || (s.pc == Juggle(Install) && s.l.todo == multiset{}) || s.pc == UpdateStatus
    ensures s'.pc == Idle || Left(s'.pc) < Left(s.pc)
  {
    hide Tasks, Planned;
  }

  lemma {:induction false} FollowComesToIdle(e: Setting, s: State, i: nat) returns (k: nat)
    requires Going(e, s)
    ensures k >= i && Follow(e, s, k).pc == Idle
    decreases Left(Follow(e, s, i).pc), |Follow(e, s, i).l.todo|
  {
    hide Going, InstallCall, InstallStep;
    if Follow(e, s, i).pc == Idle {
      return i;
    }
    FollowGoes(e, s, i);
    CallEnds(e, Follow(e, s, i), Follow(e, s, i + 1));
    if Follow(e, s, i + 1).pc == Idle {
      return i + 1;
    }
    k := FollowComesToIdle(e, s, i + 1);
  }

  /** From every start with an admitted spec there is a run of this kind. */
  lemma InstallRunExists(e: Setting, s: State) returns (run: nat -> State, ready: nat -> set<Key>)
    requires Start(s) && Admissible(e, s.w)
    ensures run(0) == s && InstallRun(e, run, ready)
  {
    hide Going, InstallCall, InstallStep, Admissible, Wanted;
    StartGoes(e, s);
    run := (i: nat) => Follow(e, s, i);
    ready := (i: nat) => Wanted(e, s.w);
    forall i: nat ensures InstallStep(e, run(i), run(i + 1)) {
      FollowGoes(e, s, i);
    }
    forall n: nat ensures GoodPassAfter(e, run, n) {
      var k := FollowComesToIdle(e, s, n);
      forall j: nat | k <= j && SamePass(run, k + 1, j) ensures InstallCall(e, run(j), run(j + 1)) {
        FollowGoes(e, s, j);
      }
      assert GoodPass(e, run, k);
    }
    forall k | k in Wanted(e, s.w) ensures Matures(run, ready, k) {
      assert ReadyFrom(ready, k, 0);
    }
  }
}
