/** Conditions, the Reconciled verdict and the phase. */
module Conditions {
  import opened Types
  import opened Components
  import L = Lifecycle

  datatype CondStatus = True | False | Unknown

  datatype Condition = Condition(kind: string, status: CondStatus, reason: string)

  datatype Phase = Progressing | Ready | Terminating

  datatype Requeue = Unset | NoRequeue | Reset | Backoff

  const RECONCILED := "Reconciled"

  // ---------------------------------------------------------------- overriding

  /** overrideCondition: the first condition of this type is changed in place, else one is appended. */
  function Overridden(conds: seq<Condition>, c: Condition): seq<Condition> {
    if conds == [] then [c]
    else if conds[0].kind == c.kind then [c] + conds[1..]
    else [conds[0]] + Overridden(conds[1..], c)
  }

  function OverriddenAll(conds: seq<Condition>, updates: seq<Condition>): seq<Condition> {
    if updates == [] then conds
    else Overridden(OverriddenAll(conds, updates[..|updates| - 1]), updates[|updates| - 1])
  }

  /** What a reader of the list finds under a type: the first condition of that type. */
  function AsMap(conds: seq<Condition>): map<string, Condition> {
    if conds == [] then map[] else AsMap(conds[1..])[conds[0].kind := conds[0]]
  }

  /** Last writer wins. */
  function LastWriters(updates: seq<Condition>): map<string, Condition> {
    if updates == [] then map[]
    else LastWriters(updates[..|updates| - 1])[updates[|updates| - 1].kind := updates[|updates| - 1]]
  }

  predicate UniqueKinds(conds: seq<Condition>) {
    forall i, j | 0 <= i < j < |conds| :: conds[i].kind != conds[j].kind
  }

  function Kinds(conds: seq<Condition>): seq<string> {
    seq(|conds|, i requires 0 <= i < |conds| => conds[i].kind)
  }

  function Count(conds: seq<Condition>, kind: string): nat {
    if conds == [] then 0 else (if conds[0].kind == kind then 1 else 0) + Count(conds[1..], kind)
  }

  lemma {:induction false} OverrideMaps(conds: seq<Condition>, c: Condition)
    ensures AsMap(Overridden(conds, c)) == AsMap(conds)[c.kind := c]
  {
    if conds != [] && conds[0].kind != c.kind {
      OverrideMaps(conds[1..], c);
      assert Overridden(conds, c)[1..] == Overridden(conds[1..], c);
    }
  }

  lemma {:induction false} OverrideKeepsKinds(conds: seq<Condition>, c: Condition)
    ensures Kinds(Overridden(conds, c)) == if c.kind in Kinds(conds) then Kinds(conds) else Kinds(conds) + [c.kind]
  {
    if conds != [] {
      assert Kinds(conds) == [conds[0].kind] + Kinds(conds[1..]);
      if conds[0].kind != c.kind {
        OverrideKeepsKinds(conds[1..], c);
        var rest := Overridden(conds[1..], c);
        assert Overridden(conds, c) == [conds[0]] + rest;
        assert Kinds([conds[0]] + rest) == [conds[0].kind] + Kinds(rest);
      } else {
        assert Overridden(conds, c) == [c] + conds[1..];
      }
    }
  }

  /** Overriding updates the map, keeps the order and adds at most one type, at the end. */
  lemma OverrideUpdates(conds: seq<Condition>, c: Condition)
    ensures AsMap(Overridden(conds, c)) == AsMap(conds)[c.kind := c]
    ensures Kinds(Overridden(conds, c)) == if c.kind in Kinds(conds) then Kinds(conds) else Kinds(conds) + [c.kind]
    ensures UniqueKinds(conds) ==> UniqueKinds(Overridden(conds, c))
  {
    OverrideMaps(conds, c);
    OverrideKeepsKinds(conds, c);
    hide Overridden, Kinds, AsMap;
    KindsUnique(conds);
    KindsUnique(Overridden(conds, c));
  }

  lemma KindsUnique(conds: seq<Condition>)
    ensures UniqueKinds(conds) <==> forall i, j | 0 <= i < j < |Kinds(conds)| :: Kinds(conds)[i] != Kinds(conds)[j]
  {
    assert |Kinds(conds)| == |conds| && forall i | 0 <= i < |conds| :: Kinds(conds)[i] == conds[i].kind;
    if forall i, j | 0 <= i < j < |Kinds(conds)| :: Kinds(conds)[i] != Kinds(conds)[j] {
      forall i, j | 0 <= i < j < |conds| ensures conds[i].kind != conds[j].kind {
        assert Kinds(conds)[i] != Kinds(conds)[j];
      }
    }
  }

  /** Any sequence of overrides equals last-writer-wins updates of the map; types stay unique and the
      existing ones keep their places. */
  lemma {:induction false} OverridesAreMapUpdates(conds: seq<Condition>, updates: seq<Condition>)
    ensures AsMap(OverriddenAll(conds, updates)) == AsMap(conds) + LastWriters(updates)
    ensures UniqueKinds(conds) ==> UniqueKinds(OverriddenAll(conds, updates))
    ensures Kinds(conds) <= Kinds(OverriddenAll(conds, updates))
  {
    hide Overridden, Kinds, UniqueKinds, AsMap;
    if updates != [] {
      var init := updates[..|updates| - 1];
      OverridesAreMapUpdates(conds, init);
      OverrideUpdates(OverriddenAll(conds, init), updates[|updates| - 1]);
    }
  }

  // ---------------------------------------------------------------- phase and requeue

  /** computePhase. */
  method ComputePhase(deleting: bool, conds: seq<Condition>) returns (phase: Phase)
    ensures phase == PhaseOf(deleting, conds)
    ensures phase == Terminating <==> deleting
    ensures phase == Ready <==> !deleting && conds != [] && forall i | 0 <= i < |conds| :: conds[i].status == True
  {
    if deleting {
      return Terminating;
    }
    if |conds| == 0 {
      return Progressing;
    }
    for i := 0 to |conds|
      invariant forall k | 0 <= k < i :: conds[k].status == True
    {
      if conds[i].status != True {
        return Progressing;
      }
    }
    return Ready;
  }

  function PhaseOf(deleting: bool, conds: seq<Condition>): Phase {
    if deleting then Terminating
    else if conds != [] && forall i | 0 <= i < |conds| :: conds[i].status == True then Ready
    else Progressing
  }

  /** Exactly which phase an object is in. */
  lemma PhaseExactly(deleting: bool, conds: seq<Condition>)
    ensures PhaseOf(deleting, conds) == Terminating <==> deleting
    ensures PhaseOf(deleting, conds) == Progressing <==>
      !deleting && (conds == [] || exists i | 0 <= i < |conds| :: conds[i].status != True)
    ensures PhaseOf(deleting, conds) == Ready <==>
      !deleting && conds != [] && forall i | 0 <= i < |conds| :: conds[i].status == True
  {
  }

  /** smartRequeueConditional; `None` is a result without an object. */
  method SmartRequeueConditional(requeue: Requeue, existing: Option<seq<Condition>>) returns (action: Requeue)
    ensures action == RequeueOf(requeue, existing)
    ensures requeue != Unset ==> action == requeue
    ensures requeue == Unset && existing.None? ==> action == NoRequeue
    ensures requeue == Unset && existing.Some? ==>
      action == if exists i | 0 <= i < |existing.value| :: existing.value[i].status != True then Reset else Backoff
  {
    if requeue != Unset {
      return requeue;
    }
    if existing.None? {
      return NoRequeue;
    }
    var conds := existing.value;
    for i := 0 to |conds|
      invariant forall k | 0 <= k < i :: conds[k].status == True
    {
      if conds[i].status != True {
        return Reset;
      }
    }
    return Backoff;
  }

  function RequeueOf(requeue: Requeue, existing: Option<seq<Condition>>): Requeue {
    if requeue != Unset then requeue
    else if existing.None? then NoRequeue
    else if forall i | 0 <= i < |existing.value| :: existing.value[i].status == True then Backoff
    else Reset
  }

  // ---------------------------------------------------------------- juggler results

  /** One juggler result; `ready` and `reason` are what its own condition says. */
  datatype ComponentResult = ComponentResult(component: Component, status: L.Status, ready: CondStatus, reason: string)

  function ComponentsOf(results: seq<ComponentResult>): seq<Component> {
    seq(|results|, i requires 0 <= i < |results| => results[i].component)
  }

  /** The condition type of a component. */
  function ConditionKind(c: Component): string {
    GetName(c) + "Ready"
  }

  function ToCondition(r: ComponentResult): Condition {
    Condition(ConditionKind(r.component), r.ready, r.reason)
  }

  lemma KindIsNotReconciled(c: Component)
    ensures ConditionKind(c) != RECONCILED
  {
    var k := ConditionKind(c);
    assert k[|k| - 1] == 'y';
    assert RECONCILED[|RECONCILED| - 1] == 'd';
  }

  /** Never installed, or gone: nothing to report. */
  predicate Silent(r: ComponentResult) {
    !r.component.enabled && r.status == L.StatusDisabled
  }

  function InstallCondition(r: ComponentResult): Condition {
    if r.status == L.StatusUninstalled then ToCondition(r).(status := True) else ToCondition(r)
  }

  /** The conditions an install pass reports for its components. */
  function InstallConditions(results: seq<ComponentResult>): seq<Condition> {
    if results == [] then []
    else
      var init, last := InstallConditions(results[..|results| - 1]), results[|results| - 1];
      if Silent(last) then init else init + [InstallCondition(last)]
  }

  /** The loop of createOrUpdateCrossplaneInstance over the results. */
  method CollectConditions(results: seq<ComponentResult>) returns (conds: seq<Condition>)
    ensures conds == InstallConditions(results)
  {
    conds := [];
    for i := 0 to |results|
      invariant conds == InstallConditions(results[..i])
    {
      assert results[..i + 1][..i] == results[..i];
      var r := results[i];
      if !r.component.enabled && r.status == L.StatusDisabled {
        continue;
      }
      var c := ToCondition(r);
      if r.status == L.StatusUninstalled {
        c := c.(status := True);
      }
      conds := conds + [c];
    }
    assert results[..|results|] == results;
  }

  function AllConditions(results: seq<ComponentResult>): seq<Condition> {
    seq(|results|, i requires 0 <= i < |results| => ToCondition(results[i]))
  }

  predicate AnyRemaining(results: seq<ComponentResult>) {
    exists i | 0 <= i < |results| :: results[i].status != L.StatusDisabled
  }

  /** The two loops of deleteComponents. */
  method CollectDeleted(results: seq<ComponentResult>) returns (conds: seq<Condition>, anyRemaining: bool)
    ensures conds == AllConditions(results) && anyRemaining == AnyRemaining(results)
  {
    hide ToCondition;
    anyRemaining := false;
    for i := 0 to |results|
      invariant anyRemaining <==> exists k | 0 <= k < i :: results[k].status != L.StatusDisabled
    {
      if results[i].status != L.StatusDisabled {
        anyRemaining := true;
      }
    }
    conds := [];
    for i := 0 to |results|
      invariant conds == AllConditions(results)[..i]
    {
      conds := conds + [ToCondition(results[i])];
    }
  }

  /** A component counts as done when it is silent, cleanly removed, or True in its own words. */
  predicate Done(r: ComponentResult) {
    (!r.component.enabled && r.status == L.StatusDisabled) || r.status == L.StatusUninstalled || r.ready == True
  }

  predicate AllTrue(conds: seq<Condition>) {
    forall i | 0 <= i < |conds| :: conds[i].status == True
  }

  method CheckAllReady(conds: seq<Condition>) returns (allReady: bool)
    ensures allReady == AllTrue(conds)
  {
    allReady := true;
    for i := 0 to |conds|
      invariant allReady && forall k | 0 <= k < i :: conds[k].status == True
    {
      if conds[i].status != True {
        allReady := false;
        break;
      }
    }
  }

  predicate AllDone(results: seq<ComponentResult>) {
    forall i | 0 <= i < |results| :: Done(results[i])
  }

  lemma {:induction false} AllTrueIsAllDone(results: seq<ComponentResult>)
    ensures AllTrue(InstallConditions(results)) <==> AllDone(results)
  {
    if results != [] {
      hide InstallConditions, InstallCondition, Done, Silent, AllTrue, AllDone;
      var init, last := results[..|results| - 1], results[|results| - 1];
      AllTrueIsAllDone(init);
      LastOfAllDone(results);
      LastDone(last);
      LastInstalled(results);
      AllTrueSnoc(InstallConditions(init), InstallCondition(last));
    }
  }

  lemma LastOfAllDone(results: seq<ComponentResult>)
    requires results != []
    ensures AllDone(results) <==> AllDone(results[..|results| - 1]) && Done(results[|results| - 1])
  {
    hide Done;
    var init := results[..|results| - 1];
    assert forall i | 0 <= i < |init| :: results[i] == init[i];
  }

  lemma LastInstalled(results: seq<ComponentResult>)
    requires results != []
    ensures var init, last := results[..|results| - 1], results[|results| - 1];
      InstallConditions(results)
        == if Silent(last) then InstallConditions(init) else InstallConditions(init) + [InstallCondition(last)]
  {
    hide InstallCondition, Silent;
  }

  lemma LastDone(r: ComponentResult)
    ensures Done(r) <==> Silent(r) || InstallCondition(r).status == True
  {
    hide GetName;
  }

  lemma AllTrueSnoc(conds: seq<Condition>, c: Condition)
    ensures AllTrue(conds + [c]) <==> AllTrue(conds) && c.status == True
  {
    assert (conds + [c])[|conds|] == c;
    assert forall i | 0 <= i < |conds| :: (conds + [c])[i] == conds[i];
  }

  // ---------------------------------------------------------------- the outcomes of a pass

  /** Where a pass that reaches the status update ended. */
  datatype Outcome =
    | Ignored
    | NoConfig
    | NoContext
    | CleanupFailed | CleanupPending | CleanupFinalizerFailed | CleanedUp
    | AccessFailed | AccessPending
    | FinalizerFailed                                          // while installing
    | BuildFailed(userError: bool)
    | Installed(results: seq<ComponentResult>)
    | NothingToDelete
    | DeletionFailed
    | DeletionPending(results: seq<ComponentResult>)
    | ComponentsDeleted(results: seq<ComponentResult>)
    | ComponentsFinalizerFailed(results: seq<ComponentResult>)

  function Verdict(status: CondStatus, reason: string): Condition {
    Condition(RECONCILED, status, reason)
  }

  /** The conditions a pass emits. */
  function Emitted(o: Outcome): seq<Condition> {
    match o
    case Ignored => [Verdict(False, "ReconciliationIgnored")]
    case NoConfig => [Verdict(False, "ProviderConfigNotFound")]
    case NoContext => [Verdict(False, "ReconciliationContextFailed")]
    case CleanupFailed => [Verdict(False, "DeletionInProgress")]
    case CleanupPending => [Verdict(False, "DeletionInProgress")]
    case CleanupFinalizerFailed => [Verdict(False, "DeletionInProgress")]
    case CleanedUp => [Verdict(False, "DeletionInProgress")]
    case AccessFailed => [Verdict(False, "ClusterAccessFailed")]
    case AccessPending => [Verdict(False, "ClusterAccessPending")]
    case FinalizerFailed => [Verdict(True, "Reconciled")]
    case BuildFailed(_) => [Verdict(False, "ComponentBuildFailed")]
    case Installed(results) =>
      var conds := InstallConditions(results);
      [if AllTrue(conds) then Verdict(True, "Reconciled") else Verdict(False, "ComponentReconcileFailed")] + conds
    case NothingToDelete => [Verdict(True, "Reconciled")]
    case DeletionFailed => [Verdict(False, "DeletionComponentCleanupError")]
    case DeletionPending(results) => [Verdict(False, "DeletionInProgress")] + AllConditions(results)
    case ComponentsDeleted(results) => [Verdict(True, "Reconciled")] + AllConditions(results)
    case ComponentsFinalizerFailed(results) => [Verdict(True, "Reconciled")] + AllConditions(results)
  }

  lemma {:induction false} CountConcat(a: seq<Condition>, b: seq<Condition>, kind: string)
    ensures Count(a + b, kind) == Count(a, kind) + Count(b, kind)
  {
    if a == [] {
      assert a + b == b;
    } else {
      CountConcat(a[1..], b, kind);
      assert (a + b)[1..] == a[1..] + b;
    }
  }

  lemma {:induction false} CountNone(conds: seq<Condition>, kind: string)
    requires forall i | 0 <= i < |conds| :: conds[i].kind != kind
    ensures Count(conds, kind) == 0
  {
    if conds != [] {
      CountNone(conds[1..], kind);
    }
  }

  lemma ComponentConditionsNeverReconciled(results: seq<ComponentResult>)
    ensures Count(InstallConditions(results), RECONCILED) == 0
    ensures Count(AllConditions(results), RECONCILED) == 0
  {
    hide ConditionKind, Count, InstallConditions;
    forall i | 0 <= i < |results| ensures ConditionKind(results[i].component) != RECONCILED {
      KindIsNotReconciled(results[i].component);
    }
    InstallKinds(results, RECONCILED);
    CountNone(InstallConditions(results), RECONCILED);
    CountNone(AllConditions(results), RECONCILED);
  }

  /** Every pass that reaches the status update emits exactly one Reconciled condition, first. */
  lemma ExactlyOneReconciled(o: Outcome)
    ensures Count(Emitted(o), RECONCILED) == 1 && Emitted(o)[0].kind == RECONCILED == "Reconciled"
    ensures AsMap(Emitted(o))[RECONCILED] == Emitted(o)[0]
  {
    var e := Emitted(o);
    var rest := e[1..];
    assert e == [e[0]] + rest;
    CountConcat([e[0]], rest, RECONCILED);
    match o {
      case Installed(results) => ComponentConditionsNeverReconciled(results); assert rest == InstallConditions(results);
      case DeletionPending(results) => ComponentConditionsNeverReconciled(results); assert rest == AllConditions(results);
      case ComponentsDeleted(results) => ComponentConditionsNeverReconciled(results); assert rest == AllConditions(results);
      case ComponentsFinalizerFailed(results) => ComponentConditionsNeverReconciled(results); assert rest == AllConditions(results);
      case _ =>
    }
  }

  predicate ReconciledTrue(o: Outcome) {
    AsMap(Emitted(o)).Keys >= {RECONCILED} && AsMap(Emitted(o))[RECONCILED].status == True
  }

  /** Exactly when Reconciled is True. Past the finalizers of an install it means that building and
      the juggler's setup succeeded and every component is done; but it is also what a failed
      finalizer update and a finished component deletion leave behind. */
  lemma ReconciledTrueExactly(o: Outcome)
    ensures ReconciledTrue(o) <==>
      match o
      case Installed(results) => forall i | 0 <= i < |results| :: Done(results[i])
      case FinalizerFailed => true
      case NothingToDelete => true
      case ComponentsDeleted(_) => true
      case ComponentsFinalizerFailed(_) => true
      case _ => false
  {
    ExactlyOneReconciled(o);
    if o.Installed? {
      AllTrueIsAllDone(o.results);
    }
  }

  /** The requeue action a pass sets, if any. */
  function RequeueSet(o: Outcome): Requeue {
    match o
    case Ignored => NoRequeue
    case CleanupFailed => Reset
    case CleanupPending => Reset
    case CleanupFinalizerFailed => Reset
    case CleanedUp => Reset
    case AccessPending => Backoff
    case Installed(_) => Backoff
    case NothingToDelete => Reset
    case DeletionPending(_) => Backoff
    case ComponentsDeleted(_) => Reset
    case _ => Unset
  }

  /** The reason of the error a pass returns, if any; a user's mistake is not retried as an error. */
  function ErrorOf(o: Outcome): Option<string> {
    match o
    case NoConfig => Some("ProviderConfigNotFound")
    case NoContext => Some("ReconciliationContextFailed")
    case CleanupFailed => Some("ClusterAccessFailed")
    case CleanupFinalizerFailed => Some("FinalizerFailed")
    case AccessFailed => Some("ClusterAccessFailed")
    case FinalizerFailed => Some("FinalizerFailed")
    case BuildFailed(userError) => if userError then None else Some("ComponentReconcileFailed")
    case DeletionFailed => Some("DeletionComponentCleanupError")
    case ComponentsFinalizerFailed(_) => Some("FinalizerFailed")
    case _ => None
  }

  /** A pass that does not get to the juggler reports its verdict alone; an install puts the conditions of
      its components behind it. */
  lemma OnlyTheVerdict(o: Outcome)
    ensures !o.Installed? && !o.DeletionPending? && !o.ComponentsDeleted? && !o.ComponentsFinalizerFailed? ==> |Emitted(o)| == 1
    ensures o.Installed? ==> Emitted(o)[1..] == InstallConditions(o.results)
  {
    hide InstallConditions, AllConditions;
  }

  /** A deletion reports every result, in order, behind the verdict: under the component's name, with the
      status and the reason it was given. */
  lemma DeletionReportsAll(o: Outcome)
    requires o.DeletionPending? || o.ComponentsDeleted? || o.ComponentsFinalizerFailed?
    ensures |Emitted(o)| == 1 + |o.results|
    ensures forall k | 0 <= k < |o.results| ::
      Emitted(o)[1 + k] == Condition(GetName(o.results[k].component) + "Ready", o.results[k].ready, o.results[k].reason)
  {
    EmittedOfDeletion(o);
    hide Emitted, GetName;
    forall k | 0 <= k < |o.results|
      ensures Emitted(o)[1 + k] == Condition(GetName(o.results[k].component) + "Ready", o.results[k].ready, o.results[k].reason)
    {
      assert Emitted(o)[1 + k] == Emitted(o)[1..][k] == ToCondition(o.results[k]);
    }
  }

  lemma EmittedOfDeletion(o: Outcome)
    requires o.DeletionPending? || o.ComponentsDeleted? || o.ComponentsFinalizerFailed?
    ensures |Emitted(o)| > 0 && Emitted(o)[1..] == AllConditions(o.results)
  {
    hide AllConditions, InstallConditions;
  }

  /** An install reports every result but those of components that are disabled and absent, and what was
      uninstalled as True; and nothing else. */
  lemma {:induction false} InstallReportsExactly(results: seq<ComponentResult>, c: Condition)
    ensures c in InstallConditions(results) <==>
      exists k | 0 <= k < |results| ::
        && (results[k].component.enabled || results[k].status != L.StatusDisabled)
        && c == Condition(GetName(results[k].component) + "Ready",
                          if results[k].status == L.StatusUninstalled then True else results[k].ready,
                          results[k].reason)
  {
    hide GetName;
    if results != [] {
      var init, last := results[..|results| - 1], results[|results| - 1];
      InstallReportsExactly(init, c);
      assert forall k | 0 <= k < |init| :: init[k] == results[k];
    }
  }

  /** The cleanup of the cluster access has begun. */
  predicate InCleanup(o: Outcome) {
    o.CleanupFailed? || o.CleanupPending? || o.CleanupFinalizerFailed? || o.CleanedUp?
  }

  /** Something a pass called returned an error. */
  predicate CallFailed(o: Outcome) {
    || o.NoConfig? || o.NoContext? || o.AccessFailed? || o.BuildFailed? || o.DeletionFailed?
    || o.CleanupFailed? || o.CleanupFinalizerFailed? || o.FinalizerFailed? || o.ComponentsFinalizerFailed?
  }

  /** A pass returns an error exactly when something it called did, a user's mistake excepted. */
  lemma ErrorExactly(o: Outcome)
    ensures ErrorOf(o).Some? <==> CallFailed(o) && o != BuildFailed(true)
  {
  }

  /** Which passes choose when they are repeated: the cleanup and a finished deletion at once, whatever
      waits for somebody else with growing delay, an ignored object not at all; after any other error
      the choice is left to the conditions. */
  lemma RequeueExactly(o: Outcome)
    ensures RequeueSet(o) == NoRequeue <==> o == Ignored
    ensures RequeueSet(o) == Reset <==> InCleanup(o) || o.NothingToDelete? || o.ComponentsDeleted?
    ensures RequeueSet(o) == Backoff <==> o.AccessPending? || o.Installed? || o.DeletionPending?
    ensures RequeueSet(o) == Unset <==> CallFailed(o) && !InCleanup(o)
  {
  }

  /** The reason of the verdict. When a pass ends in an error before it gets to the components, or while
      deleting them, the verdict carries the error's reason; a failed finalizer update leaves it alone. */
  lemma ReasonsExactly(o: Outcome)
    ensures var reason := Emitted(o)[0].reason;
      && (o.NoConfig? || o.NoContext? || o.AccessFailed? || o.DeletionFailed? ==> ErrorOf(o) == Some(reason))
      && (reason == "Reconciled" <==> Emitted(o)[0].status == True)
      && (reason == "DeletionInProgress" <==> InCleanup(o) || o.DeletionPending?)
      && (reason == "ReconciliationIgnored" <==> o == Ignored)
      && (reason == "ProviderConfigNotFound" <==> o == NoConfig)
      && (reason == "ReconciliationContextFailed" <==> o == NoContext)
      && (reason == "ClusterAccessFailed" <==> o == AccessFailed)
      && (reason == "ClusterAccessPending" <==> o == AccessPending)
      && (reason == "ComponentBuildFailed" <==> o.BuildFailed?)
      && (reason == "ComponentReconcileFailed" <==> o.Installed? && Emitted(o)[0].status != True)
      && (reason == "DeletionComponentCleanupError" <==> o == DeletionFailed)
    ensures ErrorOf(o) == Some("FinalizerFailed") <==> o.FinalizerFailed? || o.CleanupFinalizerFailed? || o.ComponentsFinalizerFailed?
    ensures ErrorOf(o) == Some("ClusterAccessFailed") <==> o.AccessFailed? || o.CleanupFailed?
    ensures ErrorOf(o) == Some("ComponentReconcileFailed") <==> o == BuildFailed(false)
  {
    hide InstallConditions, AllConditions;
  }

  // ---------------------------------------------------------------- the status update

  /** The status updater: conditions are replaced or added by type, the others stay. */
  function UpdatedStatus(existing: seq<Condition>, o: Outcome): seq<Condition> {
    OverriddenAll(existing, Emitted(o))
  }

  lemma {:induction false} LastWritersContents(updates: seq<Condition>, kind: string)
    ensures kind in LastWriters(updates) <==> exists i | 0 <= i < |updates| :: updates[i].kind == kind
    ensures kind in LastWriters(updates) ==> LastWriters(updates)[kind].kind == kind && LastWriters(updates)[kind] in updates
  {
    if updates != [] {
      var init := updates[..|updates| - 1];
      LastWritersContents(init, kind);
      assert forall i | 0 <= i < |init| :: updates[i] == init[i];
    }
  }

  /** Overriding leaves nothing but True exactly when the last update of every type is True and every
      condition whose type is not updated is. */
  lemma ReadyByUpdates(existing: seq<Condition>, updates: seq<Condition>)
    requires UniqueKinds(existing)
    ensures PhaseOf(false, OverriddenAll(existing, updates)) == Ready <==>
      && (existing != [] || updates != [])
      && (forall kind | kind in LastWriters(updates) :: LastWriters(updates)[kind].status == True)
      && (forall i | 0 <= i < |existing| && existing[i].kind !in LastWriters(updates) :: existing[i].status == True)
  {
    var status, writers := OverriddenAll(existing, updates), LastWriters(updates);
    OverridesAreMapUpdates(existing, updates);
    AllTrueByMap(status);
    AsMapUnique(existing);
    if updates != [] {
      LastWritersContents(updates, updates[0].kind);
      assert updates[0].kind in AsMap(status);
    }
    if existing != [] {
      assert existing[0].kind in AsMap(status);
    }
    if forall kind | kind in AsMap(status) :: AsMap(status)[kind].status == True {
      forall kind | kind in writers ensures writers[kind].status == True {
        assert AsMap(status)[kind] == writers[kind];
      }
      forall i | 0 <= i < |existing| && existing[i].kind !in writers ensures existing[i].status == True {
        assert AsMap(status)[existing[i].kind] == existing[i];
      }
    }
  }

  /** A pass over an object that is not being deleted reports Ready only when its verdict is True, no
      emitted condition is otherwise, and no stale condition of another type is either. */
  lemma ReadyExactly(existing: seq<Condition>, o: Outcome)
    requires UniqueKinds(existing)
    ensures PhaseOf(false, UpdatedStatus(existing, o)) == Ready <==>
      && (forall kind | kind in LastWriters(Emitted(o)) :: LastWriters(Emitted(o))[kind].status == True)
      && (forall i | 0 <= i < |existing| && existing[i].kind !in LastWriters(Emitted(o)) :: existing[i].status == True)
    ensures PhaseOf(false, UpdatedStatus(existing, o)) == Ready ==> ReconciledTrue(o)
  {
    ReadyByUpdates(existing, Emitted(o));
    ExactlyOneReconciled(o);
    LastVerdict(o);
  }

  /** Nothing after the first condition overwrites the verdict. */
  lemma LastVerdict(o: Outcome)
    ensures RECONCILED in LastWriters(Emitted(o)) && LastWriters(Emitted(o))[RECONCILED] == AsMap(Emitted(o))[RECONCILED]
  {
    var e := Emitted(o);
    ExactlyOneReconciled(o);
    LastWritersContents(e, RECONCILED);
    CountedOnce(e, RECONCILED);
  }

  lemma {:induction false} CountZero(conds: seq<Condition>, kind: string)
    requires Count(conds, kind) == 0
    ensures forall i | 0 <= i < |conds| :: conds[i].kind != kind
  {
    if conds != [] {
      CountZero(conds[1..], kind);
      assert forall i | 1 <= i < |conds| :: conds[i] == conds[1..][i - 1];
    }
  }

  lemma CountedOnce(conds: seq<Condition>, kind: string)
    requires conds != [] && conds[0].kind == kind && Count(conds, kind) == 1
    ensures forall i | 1 <= i < |conds| :: conds[i].kind != kind
  {
    CountZero(conds[1..], kind);
    assert forall i | 1 <= i < |conds| :: conds[i] == conds[1..][i - 1];
  }

  lemma {:induction false} AsMapUnique(conds: seq<Condition>)
    requires UniqueKinds(conds)
    ensures forall i | 0 <= i < |conds| :: conds[i].kind in AsMap(conds) && AsMap(conds)[conds[i].kind] == conds[i]
    ensures forall kind | kind in AsMap(conds) :: exists i | 0 <= i < |conds| :: conds[i].kind == kind && AsMap(conds)[kind] == conds[i]
  {
    if conds != [] {
      AsMapUnique(conds[1..]);
      assert forall i | 1 <= i < |conds| :: conds[i] == conds[1..][i - 1];
    }
  }

  lemma AllTrueByMap(conds: seq<Condition>)
    requires UniqueKinds(conds)
    ensures AllTrue(conds) ==> forall kind | kind in AsMap(conds) :: AsMap(conds)[kind].status == True
    ensures (forall kind | kind in AsMap(conds) :: AsMap(conds)[kind].status == True) ==> AllTrue(conds)
  {
    hide UniqueKinds;
    AsMapUnique(conds);
    var byKind := AsMap(conds);
    if !AllTrue(conds) {
      var i :| 0 <= i < |conds| && conds[i].status != True;
      assert conds[i].kind in byKind && byKind[conds[i].kind].status != True;
    }
  }

  /** An install that reports every component as ready makes the object Ready, when it speaks for every
      condition that is not True. */
  lemma AllReadyIsReady(existing: seq<Condition>, results: seq<ComponentResult>)
    requires UniqueKinds(existing)
    requires forall m | 0 <= m < |results| ::
      results[m].component.enabled && results[m].ready == True && results[m].status == L.StatusOther
    requires forall i | 0 <= i < |existing| && existing[i].kind != RECONCILED && existing[i].status != True ::
      exists m | 0 <= m < |results| :: ConditionKind(results[m].component) == existing[i].kind
    ensures PhaseOf(false, UpdatedStatus(existing, Installed(results))) == Ready
  {
    hide ConditionKind, PhaseOf, UniqueKinds, Emitted, AsMap, LastWriters;
    var o := Installed(results);
    var last := LastWriters(Emitted(o));
    ReadyExactly(existing, o);
    AllReportedTrue(results);
    forall i | 0 <= i < |existing| && existing[i].kind !in last ensures existing[i].status == True {
      assert existing[i].kind != RECONCILED;
      assert forall m | 0 <= m < |results| :: ConditionKind(results[m].component) in last;
    }
  }

  lemma AllReportedTrue(results: seq<ComponentResult>)
    requires forall m | 0 <= m < |results| ::
      results[m].component.enabled && results[m].ready == True && results[m].status == L.StatusOther
    ensures var last := LastWriters(Emitted(Installed(results)));
      && RECONCILED in last
      && (forall m | 0 <= m < |results| :: ConditionKind(results[m].component) in last)
      && (forall kind | kind in last :: last[kind].status == True)
  {
    hide ConditionKind, LastWriters;
    var o := Installed(results);
    var emitted := Emitted(o);
    InstallIs(results);
    LastVerdict(o);
    forall kind | kind in LastWriters(emitted) ensures LastWriters(emitted)[kind].status == True {
      LastWritersContents(emitted, kind);
    }
    forall m | 0 <= m < |results| ensures ConditionKind(results[m].component) in LastWriters(emitted) {
      assert emitted[m + 1].kind == ConditionKind(results[m].component);
      LastWritersContents(emitted, ConditionKind(results[m].component));
    }
  }

  lemma {:induction false} InstallIs(results: seq<ComponentResult>)
    requires forall m | 0 <= m < |results| ::
      results[m].component.enabled && results[m].ready == True && results[m].status == L.StatusOther
    ensures InstallConditions(results) == AllConditions(results) && AllTrue(AllConditions(results))
  {
    hide ConditionKind;
    if results != [] {
      var init := results[..|results| - 1];
      assert forall m | 0 <= m < |init| :: init[m] == results[m];
      InstallIs(init);
    }
  }

  /** A user's mistake is not returned as an error, but the pass is repeated soon. */
  lemma UserErrorIsRetried(existing: seq<Condition>)
    ensures ErrorOf(BuildFailed(true)).None?
    ensures RequeueOf(RequeueSet(BuildFailed(true)), Some(UpdatedStatus(existing, BuildFailed(true)))) == Reset
  {
    var o := BuildFailed(true);
    var status := UpdatedStatus(existing, o);
    OverridesAreMapUpdates(existing, Emitted(o));
    LastVerdict(o);
    AsMapFirst(status, RECONCILED);
    assert AsMap(status)[RECONCILED].status == False;
  }

  lemma {:induction false} AsMapFirst(conds: seq<Condition>, kind: string)
    requires kind in AsMap(conds)
    ensures AsMap(conds)[kind] in conds
  {
    if conds[0].kind != kind {
      AsMapFirst(conds[1..], kind);
    }
  }

  // ---------------------------------------------------------------- removed components

  /** A component that was configured, reported under its name and then dropped from the spec comes
      back as an orphan; once uninstalled, its condition replaces the stale one of the same name. */
  lemma OrphanReplacesStaleCondition(existing: seq<Condition>, c: Component, before: seq<ComponentResult>, after: seq<ComponentResult>, ready: CondStatus, reason: string)
    requires !c.Crossplane?
    requires forall i | 0 <= i < |after| :: ConditionKind(after[i].component) != ConditionKind(c)
    ensures
      var orphan := ComponentResult(FromObject(KeyOf(c)), L.StatusUninstalled, ready, reason);
      var status := AsMap(UpdatedStatus(existing, Installed(before + [orphan] + after)));
      && ConditionKind(c) in status
      && status[ConditionKind(c)] == Condition(ConditionKind(c), True, reason)
  {
    var orphan := ComponentResult(FromObject(KeyOf(c)), L.StatusUninstalled, ready, reason);
    var results, kind := before + [orphan] + after, ConditionKind(c);
    OrphanRoundTrip(c, c);
    assert InstallCondition(orphan) == Condition(kind, True, reason);
    InstalledWriters(before, orphan, after);
    hide ConditionKind, FromObject, AsMap, LastWriters, Emitted;
    OverridesAreMapUpdates(existing, Emitted(Installed(results)));
  }

  /** The last writer of a kind is the last result that speaks for it. */
  lemma InstalledWriters(before: seq<ComponentResult>, r: ComponentResult, after: seq<ComponentResult>)
    requires !Silent(r)
    requires forall i | 0 <= i < |after| :: ConditionKind(after[i].component) != ConditionKind(r.component)
    ensures var kind := ConditionKind(r.component);
      var writers := LastWriters(Emitted(Installed(before + [r] + after)));
      kind in writers && writers[kind] == InstallCondition(r)
  {
    hide ConditionKind, LastWriters, InstallConditions;
    var results, kind := before + [r] + after, ConditionKind(r.component);
    InstallConditionsConcat(before + [r], after);
    InstallConditionsSnoc(before, r);
    InstallKinds(after, kind);
    var u := [Emitted(Installed(results))[0]] + InstallConditions(before);
    assert Emitted(Installed(results)) == (u + [InstallCondition(r)]) + InstallConditions(after);
    LastWritersConcat(u + [InstallCondition(r)], InstallConditions(after), kind);
    LastWritersSnoc(u, InstallCondition(r));
  }

  lemma InstallConditionsSnoc(init: seq<ComponentResult>, last: ComponentResult)
    requires !Silent(last)
    ensures InstallConditions(init + [last]) == InstallConditions(init) + [InstallCondition(last)]
  {
    assert (init + [last])[..|init|] == init;
  }

  lemma LastWritersSnoc(init: seq<Condition>, last: Condition)
    ensures LastWriters(init + [last]) == LastWriters(init)[last.kind := last]
  {
    assert (init + [last])[..|init|] == init;
  }

  lemma {:induction false} InstallConditionsConcat(a: seq<ComponentResult>, b: seq<ComponentResult>)
    ensures InstallConditions(a + b) == InstallConditions(a) + InstallConditions(b)
  {
    hide Silent, InstallCondition;
    if b == [] {
      assert a + b == a;
    } else {
      InstallConditionsConcat(a, b[..|b| - 1]);
      assert (a + b)[..|a + b| - 1] == a + b[..|b| - 1];
    }
  }

  lemma {:induction false} InstallKinds(results: seq<ComponentResult>, kind: string)
    requires forall i | 0 <= i < |results| :: ConditionKind(results[i].component) != kind
    ensures forall i | 0 <= i < |InstallConditions(results)| :: InstallConditions(results)[i].kind != kind
  {
    if results != [] {
      InstallKinds(results[..|results| - 1], kind);
    }
  }

  lemma {:induction false} LastWritersConcat(a: seq<Condition>, b: seq<Condition>, kind: string)
    requires forall i | 0 <= i < |b| :: b[i].kind != kind
    ensures kind in LastWriters(a + b) <==> kind in LastWriters(a)
    ensures kind in LastWriters(a) ==> LastWriters(a + b)[kind] == LastWriters(a)[kind]
  {
    if b == [] {
      assert a + b == a;
    } else {
      LastWritersConcat(a, b[..|b| - 1], kind);
      assert (a + b)[..|a + b| - 1] == a + b[..|b| - 1];
    }
  }

  /** The status after a sequence of passes. */
  function StatusAfter(existing: seq<Condition>, passes: seq<Outcome>): seq<Condition> {
    if passes == [] then existing
    else UpdatedStatus(StatusAfter(existing, passes[..|passes| - 1]), passes[|passes| - 1])
  }

  /** All conditions these passes emit, in order. */
  function Reported(passes: seq<Outcome>): seq<Condition> {
    if passes == [] then [] else Reported(passes[..|passes| - 1]) + Emitted(passes[|passes| - 1])
  }

  predicate Reports(o: Outcome, kind: string) {
    exists i | 0 <= i < |Emitted(o)| :: Emitted(o)[i].kind == kind
  }

  lemma {:induction false} OverriddenAllConcat(conds: seq<Condition>, a: seq<Condition>, b: seq<Condition>)
    ensures OverriddenAll(conds, a + b) == OverriddenAll(OverriddenAll(conds, a), b)
  {
    if b == [] {
      assert a + b == a;
    } else {
      OverriddenAllConcat(conds, a, b[..|b| - 1]);
      assert (a + b)[..|a + b| - 1] == a + b[..|b| - 1];
    }
  }

  lemma {:induction false} StatusAfterReports(existing: seq<Condition>, passes: seq<Outcome>)
    ensures StatusAfter(existing, passes) == OverriddenAll(existing, Reported(passes))
  {
    hide Emitted;
    if passes != [] {
      var init, last := passes[..|passes| - 1], passes[|passes| - 1];
      StatusAfterReports(existing, init);
      OverriddenAllConcat(existing, Reported(init), Emitted(last));
    }
  }

  lemma {:induction false} ReportedBySome(passes: seq<Outcome>, k: nat)
    requires k < |Reported(passes)|
    ensures exists o | o in passes :: Reports(o, Reported(passes)[k].kind)
  {
    hide Emitted;
    var init, last := passes[..|passes| - 1], passes[|passes| - 1];
    if k < |Reported(init)| {
      ReportedBySome(init, k);
      assert forall o | o in init :: o in passes;
    } else {
      assert Emitted(last)[k - |Reported(init)|] == Reported(passes)[k];
      assert last in passes;
    }
  }

  /** The phase after any sequence of passes is Ready exactly when the last report of every type is True
      and every condition no pass reports again was True from the start. */
  lemma ReadyAfterExactly(existing: seq<Condition>, passes: seq<Outcome>)
    requires UniqueKinds(existing)
    ensures var last := LastWriters(Reported(passes));
      PhaseOf(false, StatusAfter(existing, passes)) == Ready <==>
      && (existing != [] || passes != [])
      && (forall kind | kind in last :: last[kind].status == True)
      && (forall i | 0 <= i < |existing| && existing[i].kind !in last :: existing[i].status == True)
  {
    hide LastWriters, PhaseOf;
    StatusAfterReports(existing, passes);
    ReadyByUpdates(existing, Reported(passes));
    if passes != [] {
      ExactlyOneReconciled(passes[|passes| - 1]);
    }
  }

  /** A condition that is not True and whose component vanished without being reported keeps the object
      from becoming Ready, however many passes follow, until one of them reports that type again. */
  lemma StaleConditionBlocksReady(existing: seq<Condition>, i: nat, passes: seq<Outcome>)
    requires UniqueKinds(existing) && i < |existing| && existing[i].status != True
    ensures PhaseOf(false, StatusAfter(existing, passes)) == Ready ==> exists o | o in passes :: Reports(o, existing[i].kind)
  {
    var updates, kind := Reported(passes), existing[i].kind;
    ReadyAfterExactly(existing, passes);
    LastWritersContents(updates, kind);
    if k :| 0 <= k < |updates| && updates[k].kind == kind {
      ReportedBySome(passes, k);
    }
  }

  /** Through installs alone Ready comes back only after a component of that name shows up again. */
  lemma StaleConditionBlocksInstalls(existing: seq<Condition>, i: nat, passes: seq<Outcome>)
    requires UniqueKinds(existing) && i < |existing| && existing[i].status != True && existing[i].kind != RECONCILED
    requires forall o | o in passes :: o.Installed?
    ensures PhaseOf(false, StatusAfter(existing, passes)) == Ready ==>
      exists o, k | o in passes && 0 <= k < |o.results| :: ConditionKind(o.results[k].component) == existing[i].kind
  {
    hide ConditionKind, PhaseOf, Emitted;
    StaleConditionBlocksReady(existing, i, passes);
    if o :| o in passes && Reports(o, existing[i].kind) {
      InstallReports(o.results, existing[i].kind);
    }
  }

  /** An install reports a type only when one of its components goes by it. */
  lemma InstallReports(results: seq<ComponentResult>, kind: string)
    requires kind != RECONCILED && Reports(Installed(results), kind)
    ensures exists k | 0 <= k < |results| :: ConditionKind(results[k].component) == kind
  {
    if forall k | 0 <= k < |results| :: ConditionKind(results[k].component) != kind {
      InstallKinds(results, kind);
    }
  }

  // ---------------------------------------------------------------- when condition types collide

  predicate DistinctKinds(comps: seq<Component>) {
    forall i, j | 0 <= i < j < |comps| :: ConditionKind(comps[i]) != ConditionKind(comps[j])
  }

  /** The condition types of a list of components, a plan with its orphans for example, are pairwise
      distinct exactly when no two components share a name; across kinds a name can be shared too. */
  lemma DistinctKindsExactly(comps: seq<Component>)
    requires forall c | c in comps :: ModelledComponent(c)
    ensures DistinctKinds(comps) <==> forall i, j | 0 <= i < j < |comps| :: !SharesName(comps[i], comps[j])
  {
    hide ModelledComponent, SharesName, GetName;
    forall i, j | 0 <= i < j < |comps|
      ensures ConditionKind(comps[i]) == ConditionKind(comps[j]) <==> SharesName(comps[i], comps[j])
    {
      NamesCollideExactly(comps[i], comps[j]);
      SameSuffix(GetName(comps[i]), GetName(comps[j]), "Ready");
    }
  }

  lemma SameSuffix(a: string, b: string, suffix: string)
    ensures a + suffix == b + suffix <==> a == b
  {
    if a + suffix == b + suffix {
      assert |a| == |b|;
      assert a == (a + suffix)[..|a|] == (b + suffix)[..|b|] == b;
    }
  }
}
