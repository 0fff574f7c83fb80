/** The reconciler itself: the local copy of the object and the result it fills are objects changed
    in place, and every call on the clusters may be preceded by anything others do. A ghost log shows
    that a pass is a run of the step machine of module Lifecycle. */
module Controller {
  import opened Types
  import opened Components
  import opened Planner
  import opened Lifecycle
  import opened Conditions
  import PlanLaws
  import LifecycleSafety
  import LifecycleRuns

  // ---------------------------------------------------------------- the objects a pass changes

  /** The copy of the Crossplane object a pass works on. */
  class Crossplane {
    var version: nat
    var finalizers: set<Finalizer>
    var deleting: bool
    var operation: Operation
    var spec: Spec

    ghost function View(): Object
      reads this
    {
      Object(version, finalizers, deleting, operation, spec)
    }

    function Value(): (o: Object)
      reads this
      ensures o == View()
    {
      Object(version, finalizers, deleting, operation, spec)
    }

    constructor (o: Object)
      ensures View() == o
    {
      version, finalizers, deleting, operation, spec := o.version, o.finalizers, o.deleting, o.operation, o.spec;
    }

    method Refresh(o: Object)
      modifies this
      ensures View() == o
    {
      version, finalizers, deleting, operation, spec := o.version, o.finalizers, o.deleting, o.operation, o.spec;
    }

    method AddFinalizer(f: Finalizer) returns (updated: bool)
      modifies this`finalizers
      ensures finalizers == old(finalizers) + {f} && (updated <==> f !in old(finalizers))
    {
      updated := f !in finalizers;
      finalizers := finalizers + {f};
    }

    method RemoveFinalizer(f: Finalizer) returns (updated: bool)
      modifies this`finalizers
      ensures finalizers == old(finalizers) - {f} && (updated <==> f in old(finalizers))
    {
      updated := f in finalizers;
      finalizers := finalizers - {f};
    }
  }

  /** What a pass reports. */
  class ReconcileResult {
    var conditions: seq<Condition>
    var requeue: Requeue
    var error: Option<string>

    constructor ()
      ensures conditions == [] && requeue == Unset && error == None
    {
      conditions, requeue, error := [], Unset, None;
    }

    method AddCondition(status: CondStatus, reason: string)
      modifies this`conditions
      ensures conditions == old(conditions) + [Verdict(status, reason)]
    {
      conditions := conditions + [Verdict(status, reason)];
    }

    /** overrideCondition, on the list of this result. */
    method OverrideCondition(c: Condition)
      modifies this`conditions
      ensures conditions == Overridden(old(conditions), c)
    {
      var i := 0;
      while i < |conditions|
        invariant 0 <= i <= |conditions| && conditions == old(conditions)
        invariant forall k | 0 <= k < i :: conditions[k].kind != c.kind
      {
        if conditions[i].kind == c.kind {
          OverriddenAt(conditions, c, i);
          conditions := conditions[i := c];
          return;
        }
        i := i + 1;
      }
      OverriddenAt(conditions, c, i);
      conditions := conditions + [c];
    }

    /** The result shows this outcome and nothing else. */
    ghost predicate Shows(o: Outcome)
      reads this
    {
      conditions == Emitted(o) && requeue == RequeueSet(o) && error == ErrorOf(o)
    }
  }

  lemma {:induction false} OverriddenAt(conds: seq<Condition>, c: Condition, i: nat)
    requires i <= |conds| && forall k | 0 <= k < i :: conds[k].kind != c.kind
    requires i < |conds| ==> conds[i].kind == c.kind
    ensures Overridden(conds, c) == if i < |conds| then conds[i := c] else conds + [c]
  {
    if i > 0 {
      OverriddenAt(conds[1..], c, i - 1);
      var rest := Overridden(conds[1..], c);
      assert Overridden(conds, c) == [conds[0]] + rest;
      if i < |conds| {
        assert [conds[0]] + conds[1..][i - 1 := c] == conds[i := c];
      } else {
        assert [conds[0]] + (conds[1..] + [c]) == conds + [c];
      }
    }
  }

  /** Overriding the verdict in front of other conditions. */
  lemma OverriddenFirst(first: Condition, rest: seq<Condition>, c: Condition)
    requires first.kind == c.kind
    ensures Overridden([first] + rest, c) == [c] + rest
  {
    OverriddenAt([first] + rest, c, 0);
  }

  // ---------------------------------------------------------------- the reconciler

  class Reconciler {
    const setting: Setting
    var world: World
    ghost var run: seq<State>
    ghost var failed: bool            // the last call of the pass returned an error

    ghost function Now(): State
      reads this`run
      requires run != []
    {
      run[|run| - 1]
    }

    /** The call made last. */
    ghost function Previous(): Pc
      reads this`run
    {
      if |run| < 2 then Idle else run[|run| - 2].pc
    }

    /** The log is a run of the step machine that started between two passes and ends in the present. */
    ghost predicate Valid()
      reads this
    {
      run != [] && Logged() && Now().w == world
    }

    ghost predicate Logged()
      reads this`run
    {
      run != [] && IsRun(setting, run) && LifecycleRuns.Start(run[0])
    }

    /** A pass stands before call `pc`, with `xp` as its copy. */
    ghost predicate At(pc: Pc, xp: Crossplane)
      reads this, xp
    {
      Valid() && Now().pc == pc && Now().l.xp == xp.View()
    }

    constructor (setting: Setting, world: World, ghost l: Local)
      requires LifecycleSafety.WorldOk(world)
      ensures Valid() && run == [State(world, Idle, l)] && this.setting == setting
    {
      this.setting, this.world := setting, world;
      run := [State(world, Idle, l)];
      failed := false;
    }

    ghost method Log(s: State)
      requires run != [] && Logged() && Step(setting, Now(), s) && s.w == world
      modifies this`run
      ensures Valid() && Now() == s && run == old(run) + [s]
    {
      RunExtends(setting, run, s);
      run := run + [s];
    }

    /** A call of the pass has been made. */
    ghost method LogCall(s: State, err: bool)
      requires run != [] && Logged() && PassStep(setting, Now(), s) && s.w == world
      modifies this`run, this`failed
      ensures failed == err
      ensures Valid() && Now() == s && Grows(old(run), run) && Previous() == old(Now().pc) && |run| == |old(run)| + 1
    {
      hide IsRun, PassStep;
      Log(s);
      failed := err;
    }

    /** The invariant of all runs holds in the present. */
    lemma CoreNow()
      requires Valid()
      ensures LifecycleSafety.Core(Now())
    {
      LifecycleRuns.CoreAlongRun(setting, run, |run| - 1);
    }

    /** At a call that still belongs to the pass the copy carries the persisted finalizers. */
    lemma CopyIsPersisted()
      requires Valid() && LifecycleSafety.Active(Now().pc)
      ensures Persisted(world) == Controlled(Now().l.xp.finalizers)
    {
      hide IsRun, LifecycleSafety.CopyFacts, LifecycleSafety.Coverage, LifecycleSafety.Gate;
      CoreNow();
    }

    /** Since the world was `w`, no managed object and no access request came into being. */
    ghost predicate NothingAdded(w: World)
      reads this`world
    {
      world.present <= w.present && (world.access ==> w.access)
    }

    lemma NothingAddedYet()
      ensures NothingAdded(world)
    {
    }

    /** Whatever users, other controllers and the clusters do between two calls. */
    method Interfere()
      requires Valid()
      modifies this
      ensures Valid() && Grows(old(run), run) && Now() == old(Now()).(w := world)
      ensures Persisted(world) == Persisted(old(world)) && NothingAdded(old(world)) && failed == old(failed)
    {
      hide IsRun, LifecycleSafety.Core, Persisted, EnvStep;
      var n: int := *;
      var i := 0;
      while i < n
        invariant Valid() && Grows(old(run), run) && Now() == old(Now()).(w := world)
        invariant Persisted(world) == Persisted(old(world)) && NothingAdded(old(world)) && failed == old(failed)
      {
        var w: World := *;
        if EnvStep(world, w) {
          CoreNow();
          LifecycleSafety.EnvKeepsCore(Now(), w);
          world := w;
          Log(Now().(w := w));
        }
        i := i + 1;
      }
    }

    // -------------------------------------------------------------- finalizers

    /** ensureFinalizer. */
    method EnsureFinalizer(xp: Crossplane, f: Finalizer, ghost next: Pc) returns (ok: bool)
      requires Valid() && Now().l.xp == xp.View()
      requires Ensures(Now().pc, f, next)
      modifies this, xp
      ensures Valid() && Grows(old(run), run)
      ensures Now().pc == (if ok then next else UpdateStatus) && Previous() == old(Now().pc)
      ensures failed <==> !ok
      ensures xp.finalizers == old(xp.finalizers) + {f}
      ensures ok ==> Persisted(world) == Controlled(xp.finalizers) && f in Persisted(world)
      ensures f in old(xp.finalizers) ==> ok
      ensures Now().l == old(Now().l).(xp := xp.View())
      ensures xp.deleting == old(xp.deleting) && xp.operation == old(xp.operation) && xp.spec == old(xp.spec)
    {
      hide Grows, Logged, Previous, PassStep, Updates, Ensures, Persisted, Controlled, LifecycleSafety.Active, NothingAdded;
      ghost var from := Now();
      EnsureIsPassStep(setting, from, f, next);
      var updated := xp.AddFinalizer(f);
      ControlledHolds(xp.finalizers, f);
      assert !updated ==> xp.finalizers == from.l.xp.finalizers;
      ok := SendIfUpdated(xp, updated, from.l.xp.finalizers, next);
    }

    /** removeFinalizer. */
    method RemoveFinalizer(xp: Crossplane, f: Finalizer, ghost next: Pc) returns (ok: bool)
      requires Valid() && Now().l.xp == xp.View()
      requires Drops(Now().pc, f, next)
      modifies this, xp
      ensures Valid() && Grows(old(run), run)
      ensures Now().pc == (if ok then next else UpdateStatus) && Previous() == old(Now().pc)
      ensures failed <==> !ok
      ensures xp.finalizers == old(xp.finalizers) - {f}
      ensures ok ==> Persisted(world) == Controlled(xp.finalizers) && f !in Persisted(world)
      ensures f !in old(xp.finalizers) ==> ok
      ensures NothingAdded(old(world))
      ensures Now().l == old(Now().l).(xp := xp.View())
      ensures xp.deleting == old(xp.deleting) && xp.operation == old(xp.operation) && xp.spec == old(xp.spec)
    {
      hide Grows, Logged, Previous, NothingAdded, PassStep, Updates, Drops, Persisted, Controlled, LifecycleSafety.Active;
      ghost var from := Now();
      DropIsPassStep(setting, from, f, next);
      var updated := xp.RemoveFinalizer(f);
      ControlledHolds(xp.finalizers, f);
      assert !updated ==> xp.finalizers == from.l.xp.finalizers;
      ok := SendIfUpdated(xp, updated, from.l.xp.finalizers, next);
    }

    /** An Update if the copy was changed, else nothing. */
    method SendIfUpdated(xp: Crossplane, updated: bool, ghost before: set<Finalizer>, ghost next: Pc) returns (ok: bool)
      requires Valid() && Now().l.xp == xp.View().(finalizers := before) && LifecycleSafety.Active(Now().pc)
      requires if updated then Updates(Now().pc, before, xp.finalizers, next)
               else before == xp.finalizers && PassStep(setting, Now(), Goto(Now(), next))
      modifies this, xp`version
      ensures Valid() && Grows(old(run), run)
      ensures Now().pc == (if ok then next else UpdateStatus) && Previous() == old(Now().pc)
      ensures failed <==> !ok
      ensures Now().l == old(Now().l).(xp := xp.View())
      ensures ok ==> Persisted(world) == Controlled(xp.finalizers)
      ensures !updated ==> ok
      ensures NothingAdded(old(world))
    {
      hide Grows, Logged, Previous, NothingAdded, PassStep, Updates, Persisted, Controlled, LifecycleSafety.Active;
      GrowthChains();
      if updated {
        ok := SendUpdate(xp, before, next);
      } else {
        ok := true;
        assert xp.View() == Now().l.xp;
        CopyIsPersisted();
        NothingAddedYet();
        LogCall(Goto(Now(), next), false);
      }
    }

    /** The client's Update of the changed copy: it succeeds only on the version the copy was read at. */
    method SendUpdate(xp: Crossplane, ghost before: set<Finalizer>, ghost next: Pc) returns (ok: bool)
      requires Valid() && Now().l.xp == xp.View().(finalizers := before)
      requires Updates(Now().pc, before, xp.finalizers, next)
      modifies this, xp`version
      ensures Valid() && Grows(old(run), run)
      ensures Now().pc == (if ok then next else UpdateStatus) && Previous() == old(Now().pc)
      ensures failed <==> !ok
      ensures Now().l == old(Now().l).(xp := xp.View())
      ensures ok ==> Persisted(world) == Controlled(xp.finalizers)
      ensures NothingAdded(old(world))
    {
      hide Grows, Previous, Logged, Updates, PassStep, EnvStep, Write, Persisted, AfterUpdate;
      GrowthChains();
      Interfere();
      ok := *;
      ok := ok && world.stored.Some? && world.stored.value.version == xp.version
        && (setting.strict && world.stored.value.deleting ==> xp.finalizers <= world.stored.value.finalizers);
      ghost var from := Now();
      ghost var to := AfterUpdate(from, xp.View(), ok, next);
      UpdateIsPassStep(setting, from, to, xp.finalizers, next, ok);
      AfterUpdateHolds(from, xp.View(), ok, next);
      if ok {
        var version := world.clock + 1;
        world := Write(world, xp.Value());
        xp.version := version;
      }
      LogCall(to, !ok);
    }
  
    // -------------------------------------------------------------- reading

    /** The first call of a pass. */
    method Get() returns (xp: Crossplane?)
      requires Valid() && Now().pc == Idle
      modifies this
      ensures Valid() && Grows(old(run), run)
      ensures if xp == null then Now().pc == Idle else fresh(xp) && At(HandleOperation, xp) && |old(run)| < |run|
    {
      hide Grows, Logged;
      GrowthChains();
      Interfere();
      var fails: bool := *;
      if world.stored.None? || fails {
        return null;
      }
      xp := new Crossplane(world.stored.value);
      LogCall(State(world, HandleOperation, Begin(xp.View(), Now().l.config)), false);
    }

    /** handleOperationAnnotation: an error here ends the pass without a status update. */
    method HandleOperationAnnotation(xp: Crossplane) returns (skip: bool, failed: bool)
      requires At(HandleOperation, xp)
      modifies this, xp
      ensures Valid() && Grows(old(run), run)
      ensures if failed then !skip && Now().pc == Idle else At(if skip then UpdateStatus else GetConfig, xp)
      ensures skip <==> old(xp.operation) == IgnoreOperation
      ensures failed ==> old(xp.operation) == ReconcileOperation
      ensures !skip && !failed ==> xp.operation == NoOperation
      ensures !skip && !failed && old(xp.operation) == ReconcileOperation ==> world.stored == Some(xp.View())
      ensures old(xp.operation) != ReconcileOperation ==> xp.View() == old(xp.View())
      ensures Previous() == HandleOperation
      ensures this.failed <==> failed
    {
      hide Grows, Logged, LifecycleSafety.Synced, LifecycleSafety.CopyFacts, LifecycleSafety.Coverage, LifecycleSafety.Gate;
      GrowthChains();
      if xp.operation == IgnoreOperation {
        LogCall(Goto(Now(), UpdateStatus), false);
        return true, false;
      }
      if xp.operation == ReconcileOperation {
        Interfere();
        var fails: bool := *;
        if fails || world.stored.None? {
          LogCall(Goto(Now(), Idle), true);
          return false, true;
        }
        CoreNow();
        var patched := world.stored.value.(operation := NoOperation, version := world.clock + 1);
        world := Write(world, patched);
        xp.Refresh(patched);
        LogCall(State(world, GetConfig, Now().l.(xp := patched)), false);
        return false, false;
      }
      LogCall(Goto(Now(), GetConfig), false);
      return false, false;
    }

    /** A read that can only fail or go on. */
    method Probe(xp: Crossplane, ghost next: Pc) returns (ok: bool)
      requires (Before(GetCluster) && next == GetAccessRequest) || (Before(GetAccessRequest) && next == AfterAccess(xp.View()))
      requires Valid() && Now().l.xp == xp.View()
      modifies this
      ensures Grows(old(run), run) && At(if ok then next else UpdateStatus, xp) && Now().l == old(Now().l)
      ensures Previous() == old(Now().pc) && Persisted(world) == old(Persisted(world))
      ensures failed <==> !ok
    {
      hide Grows, Logged;
      GrowthChains();
      Interfere();
      ok := *;
      LogCall(Goto(Now(), if ok then next else UpdateStatus), !ok);
    }

    ghost predicate Before(pc: Pc)
      reads this`run
    {
      run != [] && Now().pc == pc
    }

    // -------------------------------------------------------------- cluster access

    /** setupClusterAccess: `None` is an error, else whether access is granted. */
    method SetupClusterAccess(xp: Crossplane) returns (granted: Option<bool>)
      requires At(EnsureAccess, xp)
      modifies this, xp
      ensures Grows(old(run), run) && At(if granted == Some(true) then AfterAccess(xp.View()) else UpdateStatus, xp)
      ensures Now().l.config == old(Now().l.config)
      ensures Previous() !in {EnsureAccess, DropLegacy} ==>
        && xp.finalizers == old(xp.finalizers) + {AccessFinalizer} - {LegacyFinalizer}
        && Persisted(world) == Controlled(xp.finalizers)
      ensures granted.Some? ==> Previous() !in {EnsureAccess, DropLegacy}
      ensures match granted
        case None => Previous() in {EnsureAccess, DropLegacy, ReconcileAccess, GetCluster, GetAccessRequest}
        case Some(g) => Previous() == if g then GetAccessRequest else ReconcileAccess
      ensures failed <==> granted.None?
    {
      hide Grows, Logged, Previous, AfterAccess, PassStep, Step, EnvStep;
      GrowthChains();
      var ok := EnsureFinalizer(xp, AccessFinalizer, DropLegacy);
      if !ok {
        return None;
      }
      ok := RemoveFinalizer(xp, LegacyFinalizer, ReconcileAccess);
      if !ok {
        return None;
      }
      granted := RequestAccess(xp);
      if granted != Some(true) {
        return;
      }
      ok := Probe(xp, GetAccessRequest);
      if !ok {
        return None;
      }
      ok := Probe(xp, AfterAccess(xp.View()));
      if !ok {
        return None;
      }
      return Some(true);
    }

    /** The access library's Reconcile. */
    method RequestAccess(xp: Crossplane) returns (granted: Option<bool>)
      requires At(ReconcileAccess, xp)
      modifies this
      ensures Grows(old(run), run) && At(if granted == Some(true) then GetCluster else UpdateStatus, xp) && Now().l == old(Now().l)
      ensures Previous() == ReconcileAccess && Persisted(world) == old(Persisted(world))
      ensures failed <==> granted.None?
    {
      hide Grows, Logged;
      GrowthChains();
      Interfere();
      var created: bool, fails: bool, pending: bool := *, *, *;
      world := world.(access := world.access || created);
      granted := if fails then None else Some(world.access && !pending);
      LogCall(State(world, if granted == Some(true) then GetCluster else UpdateStatus, Now().l), granted.None?);
    }

    /** The access library's ReconcileDelete: `None` is an error, else whether the request is gone. */
    method RevokeAccess(xp: Crossplane) returns (gone: Option<bool>)
      requires At(DeleteAccess, xp)
      modifies this
      ensures Grows(old(run), run) && At(if gone == Some(true) then DropAccess else UpdateStatus, xp) && Now().l == old(Now().l)
      ensures Previous() == DeleteAccess && (gone.Some? ==> (gone.value <==> !world.access))
      ensures failed <==> gone.None?
    {
      hide Grows, Logged;
      GrowthChains();
      Interfere();
      var deleted: bool, fails: bool := *, *;
      world := world.(access := world.access && !deleted);
      gone := if fails then None else Some(!world.access);
      LogCall(State(world, if gone == Some(true) then DropAccess else UpdateStatus, Now().l), gone.None?);
    }

    /** doCleanupClusterAccess. */
    method DoCleanupClusterAccess(xp: Crossplane, rr: ReconcileResult) returns (outcome: Outcome)
      requires At(DeleteAccess, xp)
      requires rr.conditions == [Verdict(False, "DeletionInProgress")] && rr.requeue == Reset && rr.error == None
      modifies this, xp, rr
      ensures Grows(old(run), run) && At(UpdateStatus, xp) && rr.Shows(outcome)
      ensures outcome in {CleanupFailed, CleanupPending, CleanupFinalizerFailed, CleanedUp} && Fits(outcome, Previous())
      ensures outcome in {CleanupFailed, CleanupPending} ==> xp.View() == old(xp.View())
      ensures outcome == CleanupPending ==> world.access
      ensures outcome in {CleanupFinalizerFailed, CleanedUp} ==>
        !world.access && xp.finalizers == old(xp.finalizers) - {AccessFinalizer}
      ensures outcome == CleanedUp ==> Persisted(world) == Controlled(xp.finalizers)
      ensures failed <==> outcome in {CleanupFailed, CleanupFinalizerFailed}
    {
      hide Grows, Logged;
      GrowthChains();
      var gone := RevokeAccess(xp);
      if gone.None? {
        rr.error := Some("ClusterAccessFailed");
        return CleanupFailed;
      }
      if !gone.value {
        return CleanupPending;
      }
      var ok := RemoveFinalizer(xp, AccessFinalizer, UpdateStatus);
      if !ok {
        rr.error := Some("FinalizerFailed");
        return CleanupFinalizerFailed;
      }
      return CleanedUp;
    }

    // -------------------------------------------------------------- the juggler

    /** RegisterOrphanedComponents: the managed objects no configured component stands for. */
    method ListOrphans(comps: seq<Component>) returns (orphans: seq<Component>)
      ensures multiset(TaskList(orphans)) == multiset(Orphans(comps, world.present))
      ensures forall c | c in orphans :: !c.enabled
    {
      var rest := set k | k in world.present && k != ReleaseKey && (forall c | c in comps :: KeyOf(c) != k);
      ghost var all := rest;
      var items: seq<Key> := [];
      while rest != {}
        invariant multiset(items) + multiset(rest) == multiset(all)
        decreases |rest|
      {
        var k :| k in rest;
        items := items + [k];
        rest := rest - {k};
      }
      assert ReleaseKey !in multiset(all);
      orphans := ConvertItems(items);
      OrphanTasks(items, orphans, all);
      assert Orphans(comps, world.present) == set k | k in all :: Task(k, false);
    }

    /** newJuggler: registers the components and the orphans. */
    method NewJuggler(xp: Crossplane, stage: Stage, comps: seq<Component>) returns (ok: bool, registered: seq<Component>)
      requires At(Register(stage), xp)
      requires Planned(setting, stage, xp.spec, Now().l.config) == Ok(comps)
      modifies this
      ensures Grows(old(run), run) && At(if ok then Juggle(stage) else UpdateStatus, xp)
      ensures Now().l.config == old(Now().l.config)
      ensures ok ==> Now().l.todo == multiset(TaskList(registered)) && !Now().l.remaining && comps <= registered
      ensures Previous() == Register(stage) && |old(run)| < |run|
      ensures failed <==> !ok
    {
      hide Grows, Logged, Planned, Orphans;
      GrowthChains();
      Interfere();
      var fails: bool := *;
      if fails {
        LogCall(Goto(Now(), UpdateStatus), true);
        return false, [];
      }
      var orphans := ListOrphans(comps);
      registered := comps + orphans;
      assert TaskList(registered) == TaskList(comps) + TaskList(orphans);
      ghost var l := Now().l;
      ghost var tasks := Tasks(comps, world.present);
      LogCall(State(world, Juggle(stage), l.(todo := tasks, remaining := false,
        handed := if stage == Phase1 then Keys(tasks) else l.handed,
        seen := if stage == Phase1 then map[] else l.seen)), false);
      return true, registered;
    }

    /** The juggler's work on one component, whatever it achieves. */
    method HandleComponent(xp: Crossplane, ghost stage: Stage, c: Component) returns (r: ComponentResult)
      requires At(Juggle(stage), xp) && Task(KeyOf(c), c.enabled) in Now().l.todo
      modifies this
      ensures Grows(old(run), run) && At(Juggle(stage), xp) && r.component == c
      ensures Now().l == Record(old(Now().l), stage, Task(KeyOf(c), c.enabled), r.status)
      ensures |old(run)| < |run| && Truthful(world, r)
    {
      hide Grows, Logged, Handles, PassStep, Step, EnvStep, Truthful;
      GrowthChains();
      Interfere();
      ghost var from := Now();
      var t := Task(KeyOf(c), c.enabled);
      var status, ready;
      world, status, ready := ActOn(world, t);
      HandledStep(setting, from, world, stage, t, status);
      var reason: string := *;
      r := ComponentResult(c, status, ready, reason);
      assert Truthful(world, r) by { TruthfulResult(world, r); }
      LogCall(State(world, Juggle(stage), Record(from.l, stage, t, status)), false);
    }

    /** Creates, deletes or leaves one object alone, and reports something compatible with it. An
        enabled component is called ready only when its object exists. */
    static method ActOn(w: World, t: Task) returns (w': World, status: Status, ready: CondStatus)
      ensures Handles(w, w', t, status)
      ensures t.enabled ==> status == StatusOther && (ready == True ==> t.key in w'.present)
    {
      var acts: bool, removes: bool, reports: bool := *, *, *;
      w', status, ready := w, StatusOther, *;
      if t.enabled {
        w' := if acts then w.(present := w.present + {t.key}) else w;
        if t.key !in w'.present && ready == True {
          ready := False;
        }
      } else if t.key !in w.present {
        status := if reports then StatusDisabled else StatusOther;
      } else if acts && (t.key == ReleaseKey ==> HookClear(w)) {
        status := if reports then StatusUninstalled else StatusOther;
        w' := if removes then w.(present := w.present - {t.key}, terminating := w.terminating - {t.key})
              else w.(terminating := w.terminating + {t.key});
      }
    }

    /** Any one of the pending components. */
    method HandleNext(xp: Crossplane, ghost stage: Stage, pending: seq<Component>, results: seq<ComponentResult>, ghost from: nat)
      returns (rest: seq<Component>, more: seq<ComponentResult>)
      requires At(Juggle(stage), xp) && pending != [] && from <= |run|
      requires Now().l.todo == multiset(TaskList(pending))
      requires Now().l.remaining == AnyRemaining(results) && Backed(run, from, results)
      modifies this
      ensures Grows(old(run), run) && At(Juggle(stage), xp) && Now().l.config == old(Now().l.config)
      ensures Now().l.todo == multiset(TaskList(rest)) && |rest| < |pending|
      ensures Now().l.remaining == AnyRemaining(more) && Backed(run, from, more)
      ensures multiset(ComponentsOf(more)) + multiset(rest) == multiset(ComponentsOf(results)) + multiset(pending)
    {
      hide Grows, Logged, Previous, PassStep, Step, EnvStep, TaskList, AnyRemaining, ComponentsOf, Backed, Truthful;
      GrowthChains();
      var i: int := *;
      if i < 0 || i >= |pending| {
        i := 0;
      }
      var c := pending[i];
      PickTask(pending, i);
      var r := HandleComponent(xp, stage, c);
      AnyRemainingSnoc(results, r);
      ComponentsOfSnoc(results, r);
      BackedSnoc(old(run), run, from, results, r);
      return pending[..i] + pending[i + 1..], results + [r];
    }

    /** The juggler's Reconcile: every registered component once, in any order. */
    method RunJuggler(xp: Crossplane, ghost stage: Stage, registered: seq<Component>) returns (results: seq<ComponentResult>)
      requires At(Juggle(stage), xp)
      requires Now().l.todo == multiset(TaskList(registered)) && !Now().l.remaining
      modifies this
      ensures Grows(old(run), run) && Valid() && Now().l.xp == xp.View() && Now().l.config == old(Now().l.config)
      ensures Now().pc == AfterJuggle(Now().l, stage) && Previous() == Juggle(stage)
      ensures Now().l.remaining == AnyRemaining(results)
      ensures multiset(ComponentsOf(results)) == multiset(registered)
      ensures Backed(run, |old(run)|, results)
      ensures !failed
    {
      hide Grows, Logged, Previous, PassStep, Step, EnvStep, TaskList, AnyRemaining, ComponentsOf, AfterJuggle, Backed;
      GrowthChains();
      NothingYet(run);
      results := [];
      var pending := registered;
      while pending != []
        invariant Grows(old(run), run) && At(Juggle(stage), xp) && Now().l.config == old(Now().l.config)
        invariant Now().l.todo == multiset(TaskList(pending))
        invariant Now().l.remaining == AnyRemaining(results) && Backed(run, |old(run)|, results)
        invariant multiset(ComponentsOf(results)) + multiset(pending) == multiset(registered)
        decreases |pending|
      {
        pending, results := HandleNext(xp, stage, pending, results, |old(run)|);
      }
      assert pending == [];
      ghost var before := run;
      JuggleEnds(setting, Now(), stage);
      LogCall(Goto(Now(), AfterJuggle(Now().l, stage)), false);
      BackedLater(before, run, |old(run)|, |old(run)|, results);
    }

    // -------------------------------------------------------------- installing

    /** createOrUpdateCrossplaneInstance and the rest of an install pass. */
    method InstallComponents(xp: Crossplane, config: ProviderConfig, rr: ReconcileResult) returns (outcome: Outcome)
      requires At(Register(Install), xp) && Now().l.config == config
      requires rr.conditions == [Verdict(True, "Reconciled")] && rr.requeue == Unset && rr.error == None
      modifies this, rr
      ensures Grows(old(run), run) && At(UpdateStatus, xp) && rr.Shows(outcome)
      ensures (outcome.Installed? || outcome.BuildFailed?) && Fits(outcome, Previous())
      ensures outcome.Installed? ==>
        && Plan(setting.env, xp.spec, config, true).Ok?
        && multiset(Plan(setting.env, xp.spec, config, true).value) <= multiset(ComponentsOf(outcome.results))
      ensures outcome == BuildFailed(true) <==>
        setting.env.podNs != "" && forall v | v in config.versions :: v.version != xp.spec.version
      ensures Witnessed(setting, run, |old(run)|, outcome)
      ensures failed <==> outcome.BuildFailed?
    {
      hide Grows, Logged, Previous, Plan, PassStep, Step, EnvStep, TaskList, ReconcileResult.Shows, ComponentsOf, Fits, Witnessed, Backed;
      PlanLaws.UserErrorExactly(setting.env, xp.spec, config);
      GrowthChains();
      var plan := BuildComponents(setting.env, xp.spec, config, true);
      if plan.Err? {
        MayGiveUp(setting, Now());
        LogCall(Goto(Now(), UpdateStatus), true);
        var userError := plan.error == InvalidUserInput;
        FailBuild(rr, userError);
        NothingWitnessed(setting, run, |old(run)|);
        return BuildFailed(userError);
      }
      var ok, registered := NewJuggler(xp, Install, plan.value);
      if !ok {
        FailBuild(rr, false);
        NothingWitnessed(setting, run, |old(run)|);
        return BuildFailed(false);
      }
      ghost var before := run;
      var results := RunJuggler(xp, Install, registered);
      assert registered == plan.value + registered[|plan.value|..];
      ReportInstalled(rr, results);
      WitnessedInstall(setting, before, run, |old(run)|, results);
      return Installed(results);
    }

    /** The conditions and the verdict of an install pass. */
    method ReportInstalled(rr: ReconcileResult, results: seq<ComponentResult>)
      requires rr.conditions == [Verdict(True, "Reconciled")] && rr.requeue == Unset && rr.error == None
      modifies rr
      ensures rr.Shows(Installed(results)) && Fits(Installed(results), Juggle(Install))
    {
      hide InstallConditions;
      var conds := CollectConditions(results);
      rr.conditions := rr.conditions + conds;
      var allReady := CheckAllReady(conds);
      if !allReady {
        OverriddenFirst(Verdict(True, "Reconciled"), conds, Verdict(False, "ComponentReconcileFailed"));
        rr.OverrideCondition(Verdict(False, "ComponentReconcileFailed"));
      }
      rr.requeue := Backoff;
    }

    method FailBuild(rr: ReconcileResult, userError: bool)
      requires rr.conditions == [Verdict(True, "Reconciled")] && rr.requeue == Unset && rr.error == None
      modifies rr
      ensures rr.Shows(BuildFailed(userError)) && Fits(BuildFailed(userError), Register(Install))
    {
      rr.error := if userError then None else Some("ComponentReconcileFailed");
      OverriddenFirst(Verdict(True, "Reconciled"), [], Verdict(False, "ComponentBuildFailed"));
      assert [Verdict(True, "Reconciled")] + [] == rr.conditions;
      rr.OverrideCondition(Verdict(False, "ComponentBuildFailed"));
    }

    // -------------------------------------------------------------- deleting

    /** deleteComponents: `None` is an error of the juggler's setup. */
    method DeleteComponents(xp: Crossplane, stage: Stage, comps: seq<Component>) returns (results: Option<seq<ComponentResult>>)
      requires At(Register(stage), xp) && stage != Install
      requires Planned(setting, stage, xp.spec, Now().l.config) == Ok(comps)
      modifies this
      ensures Grows(old(run), run) && Valid() && Now().l.xp == xp.View() && Now().l.config == old(Now().l.config)
      ensures Now().pc ==
        if results.None? || AnyRemaining(results.value) then UpdateStatus
        else if stage == Phase1 then ListProviderRevisions else DropComponents
      ensures Previous() == if results.None? then Register(stage) else Juggle(stage)
      ensures failed <==> results.None?
      ensures results.Some? ==> multiset(comps) <= multiset(ComponentsOf(results.value))
    {
      hide Grows, Logged, PassStep, Step, Planned;
      GrowthChains();
      var ok, registered := NewJuggler(xp, stage, comps);
      if !ok {
        return None;
      }
      var r := RunJuggler(xp, stage, registered);
      assert registered == comps + registered[|comps|..];
      return Some(r);
    }

    /** hasProviderRevisions and hasFunctionRevisions: `None` is an error. */
    method HasRevisions(xp: Crossplane, ofProviders: bool) returns (found: Option<bool>)
      requires At(if ofProviders then ListProviderRevisions else ListFunctionRevisions, xp)
      modifies this
      ensures Grows(old(run), run) && Now().l.config == old(Now().l.config)
      ensures At(if found != Some(false) then UpdateStatus
                 else if ofProviders then ListFunctionRevisions else Register(Phase2), xp)
      ensures Previous() == old(Now().pc)
      ensures found.Some? ==> (found.value <==> (if ofProviders then world.providerRevisions else world.functionRevisions) > 0)
      ensures failed <==> found.None?
    {
      hide Grows, Logged;
      GrowthChains();
      Interfere();
      var fails: bool := *;
      var count := if ofProviders then world.providerRevisions else world.functionRevisions;
      if fails {
        LogCall(Goto(Now(), UpdateStatus), true);
        return None;
      }
      if count > 0 {
        LogCall(Goto(Now(), UpdateStatus), false);
        return Some(true);
      }
      if ofProviders {
        LogCall(State(world, ListFunctionRevisions, Now().l.(noProviderRevisions := true)), false);
      } else {
        LogCall(State(world, Register(Phase2), Now().l.(noFunctionRevisions := true)), false);
      }
      return Some(false);
    }

    /** Phase 1 of deleteControlPlaneComponents: packages go first, while Crossplane still runs. */
    method DeletePackages(xp: Crossplane, config: ProviderConfig) returns (r: DeletionResult)
      requires At(Register(Phase1), xp) && Now().l.config == config
      modifies this
      ensures Grows(old(run), run) && At(if r.AllGone? then Register(Phase2) else UpdateStatus, xp) && Now().l.config == config
      ensures DeletionFits(r, Previous()) && RevisionsLeft(r, Previous(), world)
      ensures failed <==> r.Failed?
      ensures r.StillThere? ==> Previous() != Juggle(Phase2) && PackagesCovered(xp.spec, config, r.results)
    {
      hide Grows, Logged, PassStep, Step, AnyRemaining, Phase1List, EnvStep;
      GrowthChains();
      var packages := BuildPhase1Components(xp.spec, config);
      var results := DeleteComponents(xp, Phase1, packages);
      if results.None? {
        return Failed;
      }
      var _, remaining := CollectDeleted(results.value);
      if remaining {
        return StillThere(results.value);
      }
      var found := HasRevisions(xp, true);
      if found != Some(false) {
        return if found.None? then Failed else StillThere(results.value);
      }
      found := HasRevisions(xp, false);
      if found != Some(false) {
        return if found.None? then Failed else StillThere(results.value);
      }
      return AllGone(results.value);
    }

    lemma Phase2ComesSecond()
      requires Valid()
      ensures forall i | 0 <= i < |run| && run[i].pc == Juggle(Phase2) :: Phase1Precedes(run, i)
      ensures Now().pc == DropComponents ==> world.present == {} && Phase1Precedes(run, |run| - 1)
    {
      hide IsRun, LifecycleRuns.PackagesReportedAbsent, LifecycleRuns.SawNone;
      forall i | 0 <= i < |run| && run[i].pc == Juggle(Phase2) ensures Phase1Precedes(run, i) {
        LifecycleRuns.CrossplaneGoesLast(setting, run, i);
      }
      CoreNow();
      if Now().pc == DropComponents {
        LifecycleRuns.PastPhase1Holds(Now());
        LifecycleRuns.RevisionsWereListed(setting, run, |run| - 1);
      }
    }

    /** deleteControlPlaneComponents. */
    method DeleteControlPlaneComponents(xp: Crossplane, config: ProviderConfig) returns (r: DeletionResult)
      requires At(if HasPackages(xp.spec) then Register(Phase1) else Register(Phase2), xp) && Now().l.config == config
      modifies this
      ensures Grows(old(run), run) && At(if r.AllGone? then DropComponents else UpdateStatus, xp)
      ensures forall i | 0 <= i < |run| && run[i].pc == Juggle(Phase2) :: Phase1Precedes(run, i)
      ensures r.AllGone? ==> !AnyRemaining(r.results) && world.present == {} && Phase1Precedes(run, |run| - 1)
      ensures r.AllGone? || (DeletionFits(r, Previous()) && RevisionsLeft(r, Previous(), world))
      ensures failed <==> r.Failed?
      ensures r.AllGone? ==> PlanCovered(setting.env, xp.spec, config, r.results)
      ensures r.StillThere? ==> PendingCovered(setting.env, xp.spec, config, Previous(), r.results)
    {
      hide Phase1Precedes, PackagesCovered, Grows, Logged, Plan, PassStep, Step, AnyRemaining, EnvStep;
      GrowthChains();
      if |Items(xp.spec.providers)| > 0 || |Items(xp.spec.functions)| > 0 {
        r := DeletePackages(xp, config);
        if !r.AllGone? {
          Phase2ComesSecond();
          return;
        }
      }
      var plan := BuildComponents(setting.env, xp.spec, config, false);
      if plan.Err? {
        MayGiveUp(setting, Now());
        LogCall(Goto(Now(), UpdateStatus), true);
        Phase2ComesSecond();
        return Failed;
      }
      var rest := DeleteComponents(xp, Phase2, plan.value);
      if rest.None? {
        Phase2ComesSecond();
        return Failed;
      }
      var _, remaining := CollectDeleted(rest.value);
      Phase2ComesSecond();
      return if remaining then StillThere(rest.value) else AllGone(rest.value);
    }

    /** doDeleteComponents. */
    method DoDeleteComponents(xp: Crossplane, config: ProviderConfig, rr: ReconcileResult) returns (outcome: Outcome)
      requires At(AfterAccess(xp.View()), xp) && Now().l.config == config && xp.deleting
      requires rr.conditions == [Verdict(True, "Reconciled")] && rr.requeue == Unset && rr.error == None
      requires !failed
      modifies this, xp, rr
      ensures Grows(old(run), run) && At(UpdateStatus, xp) && rr.Shows(outcome)
      ensures OfDeletion(outcome)
      ensures outcome.NothingToDelete? <==> ComponentsFinalizer !in old(xp.finalizers)
      ensures outcome.ComponentsDeleted? ==>
        && !AnyRemaining(outcome.results) && world.present == {}
        && ComponentsFinalizer !in xp.finalizers && Persisted(world) == Controlled(xp.finalizers)
      ensures outcome.ComponentsDeleted? || outcome.ComponentsFinalizerFailed? ==>
        PlanCovered(setting.env, old(xp.spec), config, outcome.results)
      ensures outcome.DeletionPending? ==>
        PendingCovered(setting.env, old(xp.spec), config, Previous(), outcome.results)
      ensures old(Previous()) == GetAccessRequest ==> Fits(outcome, Previous())
      ensures outcome.DeletionPending? ==> RevisionsLeft(StillThere(outcome.results), Previous(), world)
      ensures failed <==> CallFailed(outcome)
    {
      hide RevisionsLeft, PlanCovered, PendingCovered, Grows, Logged, Previous, PassStep, Step, AnyRemaining, ReconcileResult.Shows, Fits;
      GrowthChains();
      if ComponentsFinalizer !in xp.finalizers {
        rr.requeue := Reset;
        ShowsNothing(rr, Previous());
        outcome := NothingToDelete;
      } else {
        outcome := DeleteAndRelease(xp, config, rr);
      }
    }

    /** The part of doDeleteComponents behind the check for the finalizer. */
    method DeleteAndRelease(xp: Crossplane, config: ProviderConfig, rr: ReconcileResult) returns (outcome: Outcome)
      requires At(if HasPackages(xp.spec) then Register(Phase1) else Register(Phase2), xp) && Now().l.config == config
      requires rr.conditions == [Verdict(True, "Reconciled")] && rr.requeue == Unset && rr.error == None
      modifies this, xp, rr
      ensures Grows(old(run), run) && At(UpdateStatus, xp) && rr.Shows(outcome)
      ensures OfDeletion(outcome) && !outcome.NothingToDelete? && Fits(outcome, Previous())
      ensures outcome.ComponentsDeleted? ==>
        && !AnyRemaining(outcome.results) && world.present == {}
        && ComponentsFinalizer !in xp.finalizers && Persisted(world) == Controlled(xp.finalizers)
      ensures outcome.ComponentsDeleted? || outcome.ComponentsFinalizerFailed? ==>
        PlanCovered(setting.env, old(xp.spec), config, outcome.results)
      ensures outcome.DeletionPending? ==>
        && PendingCovered(setting.env, old(xp.spec), config, Previous(), outcome.results)
        && RevisionsLeft(StillThere(outcome.results), Previous(), world)
      ensures failed <==> CallFailed(outcome)
    {
      hide Phase1Precedes, RevisionsLeft, PlanCovered, PendingCovered, Grows, Logged, Previous, PassStep, Step, AnyRemaining;
      hide ReconcileResult.Shows, Fits, DeletionFits, Persisted, Controlled, HasPackages;
      GrowthChains();
      var r := DeleteControlPlaneComponents(xp, config);
      if r.StillThere? {
        ReportPending(rr, r.results, Previous());
        return DeletionPending(r.results);
      }
      if r.Failed? {
        ReportFailed(rr, Previous());
        return DeletionFailed;
      }
      var ok := RemoveFinalizer(xp, ComponentsFinalizer, UpdateStatus);
      ReportDeleted(rr, r.results, ok);
      return if ok then ComponentsDeleted(r.results) else ComponentsFinalizerFailed(r.results);
    }

    lemma ShowsNothing(rr: ReconcileResult, last: Pc)
      requires rr.conditions == [Verdict(True, "Reconciled")] && rr.requeue == Reset && rr.error == None
      ensures rr.Shows(NothingToDelete) && (last == GetAccessRequest ==> Fits(NothingToDelete, last))
    {
    }

    method ReportPending(rr: ReconcileResult, results: seq<ComponentResult>, ghost last: Pc)
      requires rr.conditions == [Verdict(True, "Reconciled")] && rr.requeue == Unset && rr.error == None
      requires DeletionFits(StillThere(results), last)
      modifies rr
      ensures rr.Shows(DeletionPending(results)) && Fits(DeletionPending(results), last)
    {
      hide AllConditions;
      var conds, _ := CollectDeleted(results);
      rr.conditions := rr.conditions + conds;
      OverriddenFirst(Verdict(True, "Reconciled"), conds, Verdict(False, "DeletionInProgress"));
      rr.OverrideCondition(Verdict(False, "DeletionInProgress"));
      rr.requeue := Backoff;
    }

    method ReportFailed(rr: ReconcileResult, ghost last: Pc)
      requires rr.conditions == [Verdict(True, "Reconciled")] && rr.requeue == Unset && rr.error == None
      requires DeletionFits(Failed, last)
      modifies rr
      ensures rr.Shows(DeletionFailed) && Fits(DeletionFailed, last)
    {
      rr.error := Some("DeletionComponentCleanupError");
      OverriddenFirst(Verdict(True, "Reconciled"), [], Verdict(False, "DeletionComponentCleanupError"));
      assert [Verdict(True, "Reconciled")] + [] == rr.conditions;
      rr.OverrideCondition(Verdict(False, "DeletionComponentCleanupError"));
    }

    method ReportDeleted(rr: ReconcileResult, results: seq<ComponentResult>, ok: bool)
      requires rr.conditions == [Verdict(True, "Reconciled")] && rr.requeue == Unset && rr.error == None
      requires !AnyRemaining(results)
      modifies rr
      ensures var outcome := if ok then ComponentsDeleted(results) else ComponentsFinalizerFailed(results);
        rr.Shows(outcome) && Fits(outcome, DropComponents)
    {
      hide AllConditions;
      var conds, _ := CollectDeleted(results);
      rr.conditions := rr.conditions + conds;
      if ok {
        rr.requeue := Reset;
      } else {
        rr.error := Some("FinalizerFailed");
      }
    }

    /** A finalizer that could not be written ends the pass; the verdict stays. */
    method FailFinalizer(rr: ReconcileResult, ghost last: Pc)
      requires rr.conditions == [Verdict(True, "Reconciled")] && rr.requeue == Unset && rr.error == None
      requires last in {EnsureComponents, DropLegacyAgain}
      modifies rr
      ensures rr.Shows(FinalizerFailed) && Fits(FinalizerFailed, last)
    {
      rr.error := Some("FinalizerFailed");
    }

    /** doReconcileComponents. */
    method DoReconcileComponents(xp: Crossplane, config: ProviderConfig, rr: ReconcileResult) returns (outcome: Outcome)
      requires At(AfterAccess(xp.View()), xp) && Now().l.config == config
      requires rr.conditions == [Verdict(True, "Reconciled")] && rr.requeue == Unset && rr.error == None
      requires !failed
      modifies this, xp, rr
      ensures Grows(old(run), run) && At(UpdateStatus, xp) && rr.Shows(outcome)
      ensures OfComponents(old(xp.deleting), outcome)
      ensures old(Previous()) == GetAccessRequest ==> Fits(outcome, Previous())
      ensures Witnessed(setting, run, |old(run)|, outcome)
      ensures failed <==> CallFailed(outcome)
    {
      hide Grows, Logged, Previous, PassStep, Step, EnvStep, Fits, ReconcileResult.Shows, Persisted, Controlled;
      hide Installs, Backed;
      if xp.deleting {
        outcome := DoDeleteComponents(xp, config, rr);
      } else {
        outcome := EnsureAndInstall(xp, config, rr);
      }
    }

    /** The part of doReconcileComponents behind the check for deletion. */
    method EnsureAndInstall(xp: Crossplane, config: ProviderConfig, rr: ReconcileResult) returns (outcome: Outcome)
      requires At(EnsureComponents, xp) && Now().l.config == config
      requires rr.conditions == [Verdict(True, "Reconciled")] && rr.requeue == Unset && rr.error == None
      modifies this, xp, rr
      ensures Grows(old(run), run) && At(UpdateStatus, xp) && rr.Shows(outcome)
      ensures (outcome.FinalizerFailed? || outcome.BuildFailed? || outcome.Installed?) && Fits(outcome, Previous())
      ensures Witnessed(setting, run, |old(run)|, outcome)
      ensures failed <==> !outcome.Installed?
    {
      hide Grows, Logged, Previous, PassStep, Step, EnvStep, Fits, ReconcileResult.Shows, Persisted, Controlled;
      hide Installs, Backed;
      GrowthChains();
      var ok := EnsureFinalizer(xp, ComponentsFinalizer, DropLegacyAgain);
      if !ok {
        FailFinalizer(rr, Previous());
        return FinalizerFailed;
      }
      ok := RemoveFinalizer(xp, LegacyFinalizer, Register(Install));
      if !ok {
        FailFinalizer(rr, Previous());
        return FinalizerFailed;
      }
      ghost var before := run;
      outcome := InstallComponents(xp, config, rr);
      WitnessedLater(setting, run, run, |before|, |old(run)|, outcome);
    }

    // -------------------------------------------------------------- the pass

    /** Reads the ProviderConfig and sets up the context: `None` when one of them fails. */
    method GetProviderConfig(xp: Crossplane) returns (found: bool, config: Option<ProviderConfig>)
      requires At(GetConfig, xp)
      modifies this
      ensures Grows(old(run), run)
      ensures At(if config.None? then UpdateStatus else if ReadyForCleanup(xp.View()) then DeleteAccess else EnsureAccess, xp)
      ensures config.Some? ==> found && Now().l.config == config.value
      ensures found ==> world.config.Some?
      ensures Previous() == GetConfig
      ensures failed <==> config.None?
    {
      hide Grows, Logged;
      GrowthChains();
      Interfere();
      var fails: bool, contextFails: bool := *, *;
      found := world.config.Some? && !fails;
      config := if found && !contextFails then world.config else None;
      if config.None? {
        LogCall(Goto(Now(), UpdateStatus), true);
      } else {
        LogCall(State(world, if ReadyForCleanup(xp.Value()) then DeleteAccess else EnsureAccess, Now().l.(config := config.value)), false);
      }
    }

    /** doReconcile. */
    method DoReconcile(xp: Crossplane, rr: ReconcileResult) returns (outcome: Outcome)
      requires At(GetConfig, xp)
      requires rr.conditions == [] && rr.requeue == Unset && rr.error == None
      modifies this, xp, rr
      ensures Grows(old(run), run) && At(UpdateStatus, xp) && rr.Shows(outcome) && Fits(outcome, Previous())
      ensures outcome == NoContext ==> world.config.Some?
      ensures outcome == CleanupPending ==> world.access
      ensures Witnessed(setting, run, |old(run)|, outcome)
      ensures failed <==> CallFailed(outcome)
    {
      hide Grows, Logged, PassStep, Step, EnvStep, AfterAccess, ReadyForCleanup, Fits, Emitted, RequeueSet, ErrorOf;
      hide Installs, Backed, OfComponents;
      GrowthChains();
      var found, config := GetProviderConfig(xp);
      if !found {
        EndEarly(rr, NoConfig, "ProviderConfigNotFound", Previous());
        return NoConfig;
      }
      if config.None? {
        EndEarly(rr, NoContext, "ReconciliationContextFailed", Previous());
        return NoContext;
      }
      if ReadyForCleanup(xp.Value()) {
        rr.AddCondition(False, "DeletionInProgress");
        rr.requeue := Reset;
        outcome := DoCleanupClusterAccess(xp, rr);
        return;
      }
      var granted := SetupClusterAccess(xp);
      if granted.None? {
        EndEarly(rr, AccessFailed, "ClusterAccessFailed", Previous());
        return AccessFailed;
      }
      if !granted.value {
        EndEarly(rr, AccessPending, "ClusterAccessPending", Previous());
        return AccessPending;
      }
      rr.AddCondition(True, "Reconciled");
      ghost var before := run;
      ghost var deleting := xp.deleting;
      outcome := DoReconcileComponents(xp, config.value, rr);
      OfComponentsIs(deleting, outcome);
      WitnessedLater(setting, run, run, |before|, |old(run)|, outcome);
    }

    /** Ends a pass before it gets to the components. */
    method EndEarly(rr: ReconcileResult, outcome: Outcome, reason: string, ghost last: Pc)
      requires rr.conditions == [] && rr.requeue == Unset && rr.error == None
      requires (outcome, reason) in {(NoConfig, "ProviderConfigNotFound"), (NoContext, "ReconciliationContextFailed"),
                                     (AccessFailed, "ClusterAccessFailed"), (AccessPending, "ClusterAccessPending")}
      requires match outcome
        case AccessPending => last == ReconcileAccess
        case AccessFailed => last in {EnsureAccess, DropLegacy, ReconcileAccess, GetCluster, GetAccessRequest}
        case _ => last == GetConfig
      modifies rr
      ensures rr.Shows(outcome) && Fits(outcome, last)
    {
      rr.AddCondition(False, reason);
      if outcome == AccessPending {
        rr.requeue := Backoff;
      } else {
        rr.error := Some(reason);
      }
    }

    /** The status writer: conditions are merged by type into those the object had. */
    method PublishStatus(xp: Crossplane, rr: ReconcileResult, existing: seq<Condition>, ghost outcome: Outcome)
      returns (conds: seq<Condition>, phase: Phase, action: Requeue)
      requires At(UpdateStatus, xp) && rr.Shows(outcome)
      modifies this
      ensures Grows(old(run), run) && |old(run)| < |run| && Valid() && Now().pc == Idle && Now().l == old(Now().l)
      ensures conds == UpdatedStatus(existing, outcome)
      ensures phase == PhaseOf(xp.deleting, conds) && action == RequeueOf(RequeueSet(outcome), Some(conds))
    {
      hide Grows, Logged, PhaseOf, RequeueOf, Emitted, PassStep, Step;
      GrowthChains();
      conds := MergeConditions(existing, rr.conditions);
      phase := ComputePhase(xp.deleting, conds);
      action := SmartRequeueConditional(rr.requeue, Some(conds));
      WriteBack(xp);
    }

    static method MergeConditions(existing: seq<Condition>, emitted: seq<Condition>) returns (conds: seq<Condition>)
      ensures conds == OverriddenAll(existing, emitted)
    {
      conds := existing;
      for i := 0 to |emitted|
        invariant conds == OverriddenAll(existing, emitted[..i])
      {
        assert emitted[..i + 1][..i] == emitted[..i];
        conds := Overridden(conds, emitted[i]);
      }
      assert emitted[..|emitted|] == emitted;
    }

    /** The write of the status, which may fail. */
    method WriteBack(xp: Crossplane)
      requires At(UpdateStatus, xp)
      modifies this
      ensures Grows(old(run), run) && |old(run)| < |run| && Valid() && Now().pc == Idle && Now().l == old(Now().l)
    {
      hide Grows, Logged;
      GrowthChains();
      Interfere();
      var fails: bool := *;
      if fails || world.stored.None? {
        LogCall(Goto(Now(), Idle), true);
      } else {
        world := Write(world, world.stored.value);
        LogCall(State(world, Idle, Now().l), false);
      }
    }

    lemma ShowsIgnored(rr: ReconcileResult, last: Pc)
      requires rr.conditions == [Verdict(False, "ReconciliationIgnored")] && rr.requeue == NoRequeue && rr.error == None
      ensures rr.Shows(Ignored) && (last == HandleOperation ==> Fits(Ignored, last))
    {
    }

    lemma FreshRunsStaySafe()
      requires Valid()
      ensures LifecycleRuns.Fresh(run[0]) ==>
        forall i | 0 <= i < |run| :: LifecycleRuns.FullyGuarded(run[i].w) && !LifecycleRuns.Leaked(run[i].w)
    {
      hide IsRun;
      if LifecycleRuns.Fresh(run[0]) {
        LifecycleRuns.FreshRunIsGuarded(setting, run);
      }
    }

    /** Reconcile: one pass over an object whose status shows the conditions `existing`. `None` is a
        pass that ends before the status update. */
    method Reconcile(existing: seq<Condition>) returns (report: Option<Report>)
      requires Valid() && Now().pc == Idle && UniqueKinds(existing)
      modifies this
      ensures Grows(old(run), run) && Valid() && Now().pc == Idle
      ensures LifecycleRuns.Fresh(run[0]) ==>
        forall i | 0 <= i < |run| :: LifecycleRuns.FullyGuarded(run[i].w) && !LifecycleRuns.Leaked(run[i].w)
      ensures report.Some? ==> ReportedIn(run, |old(run)|, report.value.outcome)
      ensures report.Some? && report.value.phase == Ready && report.value.outcome.Installed? ==>
        PlanSeen(setting, run, |old(run)|)
      ensures report.Some? ==>
        var r := report.value;
        && r.emitted == Emitted(r.outcome) && Count(r.emitted, RECONCILED) == 1
        && r.conditions == UpdatedStatus(existing, r.outcome)
        && UniqueKinds(r.conditions) && Kinds(existing) <= Kinds(r.conditions)
        && (r.phase == Ready ==> ReconciledTrue(r.outcome))
        && r.requeue == RequeueOf(RequeueSet(r.outcome), Some(r.conditions))
        && (r.error.None? && r.requeue == NoRequeue ==> r.outcome == Ignored)
        && (r.phase == Terminating <==> Now().l.xp.deleting)
        && (r.outcome == BuildFailed(true) ==> r.error.None? && r.requeue == Reset)
    {
      hide Grows, Logged, PassStep, Step, EnvStep, Fits, Emitted, ReconciledTrue, UniqueKinds, Kinds, Count, PhaseOf, RequeueOf, OverriddenAll;
      GrowthChains();
      hide LifecycleRuns.Fresh, LifecycleRuns.FullyGuarded, LifecycleRuns.Leaked, Witnessed, PlanSeen;
      var xp := Get();
      if xp == null {
        FreshRunsStaySafe();
        return None;
      }
      var rr := new ReconcileResult();
      var outcome;
      var skip, failed := HandleOperationAnnotation(xp);
      if failed {
        FreshRunsStaySafe();
        return None;
      }
      if skip {
        rr.AddCondition(False, "ReconciliationIgnored");
        rr.requeue := NoRequeue;
        outcome := Ignored;
        ShowsIgnored(rr, Previous());
        NothingWitnessed(setting, run, |old(run)|);
      } else {
        ghost var before := run;
        outcome := DoReconcile(xp, rr);
        WitnessedLater(setting, run, run, |before|, |old(run)|, outcome);
      }
      assert ReportedAt(run, |run| - 1, outcome);
      ghost var before := run;
      var conds, phase, action := PublishStatus(xp, rr, existing, outcome);
      ReportedLater(before, run, |before| - 1, outcome);
      if outcome.Installed? && ReconciledTrue(outcome) {
        PlanWasSeen(setting, before, run, |old(run)|, outcome);
      }
      FreshRunsStaySafe();
      ReportIsSound(existing, outcome, xp.deleting);
      return Some(Report(outcome, rr.conditions, conds, phase, action, rr.error));
    }
  }

  /** At position `i` of a log a teardown of listed packages has got past phase 1: every package and orphan
      was reported absent, both revision lists were read and empty, and nothing the controller manages is
      left but Crossplane. */
  ghost predicate Phase1Precedes(run: seq<State>, i: nat)
    requires i < |run|
  {
    Items(run[i].l.xp.spec.providers) != [] || Items(run[i].l.xp.spec.functions) != [] ==>
      && LifecycleRuns.PackagesReportedAbsent(run[i].l)
      && run[i].l.noProviderRevisions && run[i].l.noFunctionRevisions
      && LifecycleRuns.SawNone(run, i, ListProviderRevisions) && LifecycleRuns.SawNone(run, i, ListFunctionRevisions)
      && run[i].w.present <= {ReleaseKey}
  }

  /** Position `i` of a log is where a pass settled its outcome. */
  ghost predicate ReportedAt(run: seq<State>, i: nat, outcome: Outcome) {
    0 < i < |run| && run[i].pc == UpdateStatus && Fits(outcome, run[i - 1].pc)
  }

  /** Since position `from` a pass settled this outcome. */
  ghost predicate ReportedIn(run: seq<State>, from: nat, outcome: Outcome) {
    exists i :: from <= i && ReportedAt(run, i, outcome)
  }

  /** The outcomes a pass may report when this was its last call before the status update. */
  predicate Fits(outcome: Outcome, last: Pc) {
    match outcome
    case Ignored => last == HandleOperation
    case NoConfig => last == GetConfig
    case NoContext => last == GetConfig
    case CleanupFailed => last == DeleteAccess
    case CleanupPending => last == DeleteAccess
    case CleanupFinalizerFailed => last == DropAccess
    case CleanedUp => last == DropAccess
    case AccessFailed => last in {EnsureAccess, DropLegacy, ReconcileAccess, GetCluster, GetAccessRequest}
    case AccessPending => last == ReconcileAccess
    case FinalizerFailed => last in {EnsureComponents, DropLegacyAgain}
    case BuildFailed(_) => last == Register(Install)
    case Installed(_) => last == Juggle(Install)
    case NothingToDelete => last == GetAccessRequest
    case DeletionFailed => last in {Register(Phase1), Register(Phase2), ListProviderRevisions, ListFunctionRevisions}
    case DeletionPending(results) =>
      last in {ListProviderRevisions, ListFunctionRevisions} || (last in {Juggle(Phase1), Juggle(Phase2)} && AnyRemaining(results))
    case ComponentsDeleted(results) => last == DropComponents && !AnyRemaining(results)
    case ComponentsFinalizerFailed(results) => last == DropComponents && !AnyRemaining(results)
  }

  /** How an unfinished deletion of the components can have ended. */
  predicate DeletionFits(r: DeletionResult, last: Pc) {
    match r
    case Failed => last in {Register(Phase1), Register(Phase2), ListProviderRevisions, ListFunctionRevisions}
    case StillThere(results) =>
      last in {ListProviderRevisions, ListFunctionRevisions} || (last in {Juggle(Phase1), Juggle(Phase2)} && AnyRemaining(results))
    case AllGone(_) => true
  }

  /** How a pass that gets to the components can end. */
  predicate OfComponents(deleting: bool, o: Outcome) {
    if deleting then OfDeletion(o) else o.FinalizerFailed? || o.BuildFailed? || o.Installed?
  }

  lemma OfComponentsIs(deleting: bool, o: Outcome)
    requires OfComponents(deleting, o)
    ensures o != NoContext && o != CleanupPending
  {
  }

  /** How a pass that deletes components can end. */
  predicate OfDeletion(o: Outcome) {
    o.NothingToDelete? || o.DeletionFailed? || o.DeletionPending? || o.ComponentsDeleted? || o.ComponentsFinalizerFailed?
  }

  /** A deletion that stopped at a revision list stopped because of what it found there. */
  predicate RevisionsLeft(r: DeletionResult, last: Pc, w: World) {
    r.StillThere? ==>
      && (last == ListProviderRevisions ==> w.providerRevisions > 0)
      && (last == ListFunctionRevisions ==> w.functionRevisions > 0)
  }

  /** Every package of the spec is among the results. */
  predicate PackagesCovered(spec: Spec, config: ProviderConfig, results: seq<ComponentResult>) {
    multiset(Phase1List(spec, config)) <= multiset(ComponentsOf(results))
  }

  /** Every component of the teardown plan is among the results. */
  predicate PlanCovered(env: Env, spec: Spec, config: ProviderConfig, results: seq<ComponentResult>) {
    && Plan(env, spec, config, false).Ok?
    && multiset(Plan(env, spec, config, false).value) <= multiset(ComponentsOf(results))
  }

  /** A deletion that waits for something reports every component of the phase it has got to. */
  predicate PendingCovered(env: Env, spec: Spec, config: ProviderConfig, last: Pc, results: seq<ComponentResult>) {
    if last == Juggle(Phase2) then PlanCovered(env, spec, config, results) else PackagesCovered(spec, config, results)
  }

  /** How a deletion of the components went. */
  datatype DeletionResult = Failed | StillThere(results: seq<ComponentResult>) | AllGone(results: seq<ComponentResult>)

  /** What a pass leaves behind: what it emitted, the merged status, the phase and the requeue. */
  datatype Report = Report(outcome: Outcome, emitted: seq<Condition>, conditions: seq<Condition>, phase: Phase, requeue: Requeue, error: Option<string>)

  lemma ReportIsSound(existing: seq<Condition>, outcome: Outcome, deleting: bool)
    requires UniqueKinds(existing)
    ensures var conds := UpdatedStatus(existing, outcome);
      && Count(Emitted(outcome), RECONCILED) == 1
      && UniqueKinds(conds) && Kinds(existing) <= Kinds(conds)
      && (PhaseOf(deleting, conds) == Ready ==> ReconciledTrue(outcome))
      && (ErrorOf(outcome).None? && RequeueOf(RequeueSet(outcome), Some(conds)) == NoRequeue ==> outcome == Ignored)
      && (PhaseOf(deleting, conds) == Terminating <==> deleting)
      && (outcome == BuildFailed(true) ==> ErrorOf(outcome).None? && RequeueOf(RequeueSet(outcome), Some(conds)) == Reset)
  {
    hide Overridden, AsMap, Emitted;
    ExactlyOneReconciled(outcome);
    OverridesAreMapUpdates(existing, Emitted(outcome));
    ReadyExactly(existing, outcome);
    PhaseExactly(deleting, UpdatedStatus(existing, outcome));
    if outcome == BuildFailed(true) {
      UserErrorIsRetried(existing);
    }
  }

  function DisabledTasks(items: seq<Key>): seq<Task> {
    seq(|items|, i requires 0 <= i < |items| => Task(items[i], false))
  }

  lemma OrphanTasks(items: seq<Key>, orphans: seq<Component>, all: set<Key>)
    requires multiset(items) == multiset(all) && |orphans| == |items|
    requires forall i | 0 <= i < |items| :: KeyOf(orphans[i]) == items[i] && !orphans[i].enabled
    ensures multiset(TaskList(orphans)) == multiset(set k | k in all :: Task(k, false))
  {
    hide KeyOf;
    assert TaskList(orphans) == DisabledTasks(items);
    KeysToTasks(items, all);
  }

  lemma {:induction false} KeysToTasks(items: seq<Key>, all: set<Key>)
    requires multiset(items) == multiset(all)
    ensures multiset(DisabledTasks(items)) == multiset(set k | k in all :: Task(k, false))
  {
    if items == [] {
      assert all == {};
    } else {
      var n := |items| - 1;
      var k, rest := items[n], all - {items[n]};
      assert items == items[..n] + [k];
      assert k in multiset(all);
      assert multiset(items[..n]) == multiset(all) - multiset{k};
      assert multiset(all) - multiset{k} == multiset(rest);
      KeysToTasks(items[..n], rest);
      assert DisabledTasks(items) == DisabledTasks(items[..n]) + [Task(k, false)];
      assert (set j | j in all :: Task(j, false)) == (set j | j in rest :: Task(j, false)) + {Task(k, false)};
    }
  }

  lemma HandledStep(e: Setting, s: State, w: World, stage: Stage, t: Task, status: Status)
    requires s.pc == Juggle(stage) && t in s.l.todo && Handles(s.w, w, t, status)
    ensures PassStep(e, s, State(w, Juggle(stage), Record(s.l, stage, t, status)))
  {
    hide Handles;
  }

  lemma NothingYet(run: seq<State>)
    ensures !AnyRemaining([]) && ComponentsOf([]) == [] && TaskList([]) == [] && Backed(run, |run|, [])
  {
  }

  lemma ComponentsOfSnoc(results: seq<ComponentResult>, r: ComponentResult)
    ensures ComponentsOf(results + [r]) == ComponentsOf(results) + [r.component]
  {
  }

  lemma AnyRemainingSnoc(results: seq<ComponentResult>, r: ComponentResult)
    ensures AnyRemaining(results + [r]) <==> AnyRemaining(results) || r.status != StatusDisabled
  {
    var longer := results + [r];
    assert longer[|results|] == r;
    assert forall i | 0 <= i < |results| :: longer[i] == results[i];
  }

  // ---------------------------------------------------------------- what the juggler saw

  /** An enabled component is neither disabled nor uninstalled, and ready only when it exists. */
  predicate Truthful(w: World, r: ComponentResult) {
    r.component.enabled ==> r.status == StatusOther && (r.ready == True ==> KeyOf(r.component) in w.present)
  }

  lemma TruthfulResult(w: World, r: ComponentResult)
    requires r.component.enabled ==> r.status == StatusOther && (r.ready == True ==> KeyOf(r.component) in w.present)
    ensures Truthful(w, r)
  {
  }

  /** Since position `from` of the log the object existed at some time. */
  ghost predicate Seen(run: seq<State>, from: nat, k: Key) {
    exists i | from <= i < |run| :: k in run[i].w.present
  }

  /** Since position `from` every enabled component that was called ready existed at some time. */
  ghost predicate Backed(run: seq<State>, from: nat, results: seq<ComponentResult>) {
    forall i | 0 <= i < |results| && results[i].component.enabled ::
      && results[i].status == StatusOther
      && (results[i].ready == True ==> Seen(run, from, KeyOf(results[i].component)))
  }

  lemma SeenLater(run: seq<State>, longer: seq<State>, from: nat, earlier: nat, k: Key)
    requires Grows(run, longer) && earlier <= from && Seen(run, from, k)
    ensures Seen(longer, earlier, k)
  {
    var i :| from <= i < |run| && k in run[i].w.present;
    assert k in longer[i].w.present;
  }

  lemma BackedLater(run: seq<State>, longer: seq<State>, from: nat, earlier: nat, results: seq<ComponentResult>)
    requires Grows(run, longer) && earlier <= from && Backed(run, from, results)
    ensures Backed(longer, earlier, results)
  {
    hide Seen, KeyOf;
    forall i | 0 <= i < |results| && results[i].component.enabled && results[i].ready == True
      ensures Seen(longer, earlier, KeyOf(results[i].component))
    {
      SeenLater(run, longer, from, earlier, KeyOf(results[i].component));
    }
  }

  lemma BackedSnoc(run: seq<State>, longer: seq<State>, from: nat, results: seq<ComponentResult>, r: ComponentResult)
    requires Grows(run, longer) && |run| < |longer| && from <= |run|
    requires Backed(run, from, results) && Truthful(longer[|longer| - 1].w, r)
    ensures Backed(longer, from, results + [r])
  {
    hide KeyOf;
    BackedLater(run, longer, from, from, results);
    assert r.component.enabled && r.ready == True ==> KeyOf(r.component) in longer[|longer| - 1].w.present;
  }

  /** All components of the plan are among the results. */
  ghost predicate InstalledAt(e: Setting, s: State, results: seq<ComponentResult>) {
    && s.pc == Juggle(Install)
    && Plan(e.env, s.l.xp.spec, s.l.config, true).Ok?
    && multiset(Plan(e.env, s.l.xp.spec, s.l.config, true).value) <= multiset(ComponentsOf(results))
  }

  ghost predicate Installs(e: Setting, run: seq<State>, from: nat, results: seq<ComponentResult>) {
    exists i | from <= i < |run| :: InstalledAt(e, run[i], results)
  }

  /** What an install verdict rests on since position `from` of the log. */
  ghost predicate Witnessed(e: Setting, run: seq<State>, from: nat, outcome: Outcome) {
    outcome.Installed? ==> Installs(e, run, from, outcome.results) && Backed(run, from, outcome.results)
  }

  /** Since position `from` a plan was installed each of whose components existed at some time. */
  ghost predicate PlanSeen(e: Setting, run: seq<State>, from: nat) {
    exists i | from <= i < |run| :: PlanSeenAt(e, run, from, run[i])
  }

  ghost predicate PlanSeenAt(e: Setting, run: seq<State>, from: nat, s: State) {
    && s.pc == Juggle(Install)
    && Plan(e.env, s.l.xp.spec, s.l.config, true).Ok?
    && forall c | c in Plan(e.env, s.l.xp.spec, s.l.config, true).value :: Seen(run, from, KeyOf(c))
  }

  lemma NothingWitnessed(e: Setting, run: seq<State>, from: nat)
    ensures forall o: Outcome | !o.Installed? :: Witnessed(e, run, from, o)
  {
  }

  lemma WitnessedInstall(e: Setting, before: seq<State>, run: seq<State>, from: nat, results: seq<ComponentResult>)
    requires before != [] && from < |before| && Grows(before, run)
    requires InstalledAt(e, before[|before| - 1], results) && Backed(run, |before|, results)
    ensures Witnessed(e, run, from, Installed(results))
  {
    hide Backed, InstalledAt;
    assert InstalledAt(e, run[|before| - 1], results);
    GrowthChains();
    BackedLater(run, run, |before|, from, results);
  }

  lemma WitnessedLater(e: Setting, run: seq<State>, longer: seq<State>, from: nat, earlier: nat, outcome: Outcome)
    requires Grows(run, longer) && earlier <= from && Witnessed(e, run, from, outcome)
    ensures Witnessed(e, longer, earlier, outcome)
  {
    hide Backed, InstalledAt;
    if outcome.Installed? {
      BackedLater(run, longer, from, earlier, outcome.results);
      var i :| from <= i < |run| && InstalledAt(e, run[i], outcome.results);
      assert InstalledAt(e, longer[i], outcome.results);
    }
  }

  lemma ComponentOfResult(results: seq<ComponentResult>, c: Component) returns (i: nat)
    requires c in multiset(ComponentsOf(results))
    ensures i < |results| && results[i].component == c
  {
    assert c in ComponentsOf(results);
    i :| i < |ComponentsOf(results)| && ComponentsOf(results)[i] == c;
  }

  /** A True verdict after an install means that every planned component was there. */
  lemma PlanWasSeen(e: Setting, run: seq<State>, longer: seq<State>, from: nat, outcome: Outcome)
    requires Grows(run, longer) && Witnessed(e, run, from, outcome)
    requires outcome.Installed? && ReconciledTrue(outcome)
    ensures PlanSeen(e, longer, from)
  {
    hide Emitted, Plan, ComponentsOf, Seen, KeyOf;
    GrowthChains();
    WitnessedLater(e, run, longer, from, from, outcome);
    ReconciledTrueExactly(outcome);
    var i :| from <= i < |longer| && InstalledAt(e, longer[i], outcome.results);
    var s := longer[i];
    LifecycleSafety.PlanEnabled(e.env, s.l.xp.spec, s.l.config);
    forall c | c in Plan(e.env, s.l.xp.spec, s.l.config, true).value ensures Seen(longer, from, KeyOf(c)) {
      assert c in multiset(Plan(e.env, s.l.xp.spec, s.l.config, true).value);
      var k := ComponentOfResult(outcome.results, c);
      assert Done(outcome.results[k]);
    }
    assert PlanSeenAt(e, longer, from, s);
  }

  lemma ReportedLater(run: seq<State>, longer: seq<State>, i: nat, outcome: Outcome)
    requires Grows(run, longer) && ReportedAt(run, i, outcome)
    ensures ReportedAt(longer, i, outcome)
  {
  }

  lemma PickTask(pending: seq<Component>, i: nat)
    requires i < |pending|
    ensures var c, rest := pending[i], pending[..i] + pending[i + 1..];
      && Task(KeyOf(c), c.enabled) in multiset(TaskList(pending))
      && multiset(TaskList(rest)) == multiset(TaskList(pending)) - multiset{Task(KeyOf(c), c.enabled)}
      && multiset(rest) == multiset(pending) - multiset{c}
  {
    var c := pending[i];
    assert pending == pending[..i] + [c] + pending[i + 1..];
    assert TaskList(pending) == TaskList(pending[..i]) + [Task(KeyOf(c), c.enabled)] + TaskList(pending[i + 1..]);
    assert TaskList(pending[..i] + pending[i + 1..]) == TaskList(pending[..i]) + TaskList(pending[i + 1..]);
  }

  lemma JuggleEnds(e: Setting, s: State, stage: Stage)
    requires s.pc == Juggle(stage) && s.l.todo == multiset{}
    ensures PassStep(e, s, Goto(s, AfterJuggle(s.l, stage)))
  {
  }

  /** Building or setting up may fail. */
  lemma MayGiveUp(e: Setting, s: State)
    requires s.pc.Register?
    ensures PassStep(e, s, Goto(s, UpdateStatus))
  {
  }

  /** The state after an Update of the copy `xp`, successful or not. */
  ghost function AfterUpdate(s: State, xp: Object, ok: bool, next: Pc): State {
    if ok then State(Write(s.w, xp), next, s.l.(xp := xp.(version := s.w.clock + 1)))
    else State(s.w, UpdateStatus, s.l.(xp := xp))
  }

  lemma AfterUpdateHolds(s: State, xp: Object, ok: bool, next: Pc)
    ensures var t := AfterUpdate(s, xp, ok, next);
      && t.pc == (if ok then next else UpdateStatus)
      && t.w == (if ok then Write(s.w, xp) else s.w)
      && t.l == s.l.(xp := if ok then xp.(version := s.w.clock + 1) else xp)
      && (ok ==> Persisted(t.w) == Controlled(xp.finalizers))
      && t.w.present == s.w.present && t.w.access == s.w.access
  {
  }

  ghost predicate Ensures(pc: Pc, f: Finalizer, next: Pc) {
    || (pc == EnsureAccess && f == AccessFinalizer && next == DropLegacy)
    || (pc == EnsureComponents && f == ComponentsFinalizer && next == DropLegacyAgain)
  }

  ghost predicate Drops(pc: Pc, f: Finalizer, next: Pc) {
    || (pc == DropLegacy && f == LegacyFinalizer && next == ReconcileAccess)
    || (pc == DropLegacyAgain && f == LegacyFinalizer && next == Register(Install))
    || (pc == DropComponents && f == ComponentsFinalizer && next == UpdateStatus)
    || (pc == DropAccess && f == AccessFinalizer && next == UpdateStatus)
  }

  lemma ControlledHolds(finalizers: set<Finalizer>, f: Finalizer)
    ensures f in Controlled(finalizers) <==> f in finalizers && !f.Foreign?
  {
  }

  /** No call when the copy has the finalizer already, else an Update. */
  lemma EnsureIsPassStep(e: Setting, s: State, f: Finalizer, next: Pc)
    requires Ensures(s.pc, f, next)
    ensures !f.Foreign? && LifecycleSafety.Active(s.pc)
    ensures if f in s.l.xp.finalizers then PassStep(e, s, Goto(s, next))
            else Updates(s.pc, s.l.xp.finalizers, s.l.xp.finalizers + {f}, next)
  {
  }

  /** No call when the copy lacks the finalizer already, else an Update. */
  lemma DropIsPassStep(e: Setting, s: State, f: Finalizer, next: Pc)
    requires Drops(s.pc, f, next)
    ensures LifecycleSafety.Active(s.pc)
    ensures if f !in s.l.xp.finalizers then PassStep(e, s, Goto(s, next))
            else Updates(s.pc, s.l.xp.finalizers, s.l.xp.finalizers - {f}, next)
  {
  }

  /** The places where a pass writes its copy. */
  ghost predicate Updates(pc: Pc, before: set<Finalizer>, after: set<Finalizer>, next: Pc) {
    || (pc == EnsureAccess && next == DropLegacy && AccessFinalizer !in before && after == before + {AccessFinalizer})
    || (pc == EnsureComponents && next == DropLegacyAgain && ComponentsFinalizer !in before && after == before + {ComponentsFinalizer})
    || (pc == DropLegacy && next == ReconcileAccess && LegacyFinalizer in before && after == before - {LegacyFinalizer})
    || (pc == DropLegacyAgain && next == Register(Install) && LegacyFinalizer in before && after == before - {LegacyFinalizer})
    || (pc == DropComponents && next == UpdateStatus && ComponentsFinalizer in before && after == before - {ComponentsFinalizer})
    || (pc == DropAccess && next == UpdateStatus && AccessFinalizer in before && after == before - {AccessFinalizer})
  }

  lemma UpdateIsPassStep(e: Setting, s: State, s': State, after: set<Finalizer>, next: Pc, ok: bool)
    requires Updates(s.pc, s.l.xp.finalizers, after, next)
    requires s' == AfterUpdate(s, s.l.xp.(finalizers := after), ok, next)
    requires ok ==> s.w.stored.Some? && s.w.stored.value.version == s.l.xp.version
    requires ok && e.strict && s.w.stored.value.deleting ==> after <= s.w.stored.value.finalizers
    ensures PassStep(e, s, s')
  {
    assert Update(e, s, s', after, next);
  }

  /** The log only ever gets longer. */
  ghost predicate Grows(run: seq<State>, longer: seq<State>) {
    run <= longer
  }

  lemma GrowthChains()
    ensures forall a: seq<State> :: Grows(a, a)
    ensures forall a: seq<State>, b: seq<State> {:trigger Grows(a, b)} :: Grows(a, b) ==> |a| <= |b|
    ensures forall a: seq<State>, b: seq<State>, c: seq<State> {:trigger Grows(a, b), Grows(b, c)} ::
      Grows(a, b) && Grows(b, c) ==> Grows(a, c)
  {
  }

  lemma RunExtends(setting: Setting, run: seq<State>, s: State)
    requires IsRun(setting, run) && Step(setting, run[|run| - 1], s)
    ensures IsRun(setting, run + [s])
  {
    hide Step;
    var longer := run + [s];
    forall i | 0 <= i < |longer| - 1 ensures Step(setting, longer[i], longer[i + 1]) {
      if i < |run| - 1 {
        assert longer[i] == run[i] && longer[i + 1] == run[i + 1];
      }
    }
  }
}
