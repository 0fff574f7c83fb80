/** Liveness of deletion over infinite runs: calls may fail and passes may crash for ever, as long as
    each call succeeds again and again; exactly when the controller then gives up its finalizers, and
    from which starts it can. */
module LifecycleLiveness {
  import opened Types
  import opened Components
  import opened Planner
  import opened Lifecycle
  import opened LifecycleSafety
  import opened LifecycleRuns
  import opened LifecycleProgress

  // ---------------------------------------------------------------- fairness

  /** This call is made and could succeed. */
  ghost predicate Attempt(e: Setting, run: nat -> State, i: nat, pc: Pc) {
    run(i).pc == pc && !Released(run(i)) && exists s' :: CallStep(e, run(i), s')
  }

  ghost predicate InJuggler(run: nat -> State, from: nat, to: nat) {
    forall i: nat | from <= i <= to :: run(i).pc.Juggle?
  }

  /** The juggler gets through all components. */
  ghost predicate Juggled(e: Setting, run: nat -> State, from: nat) {
    forall i: nat | from <= i && InJuggler(run, from, i) :: CallStep(e, run(i), run(i + 1))
  }

  /** This call is made and succeeds; setting up the juggler includes the work of the juggler. */
  ghost predicate Success(e: Setting, run: nat -> State, i: nat, pc: Pc) {
    run(i).pc == pc && CallStep(e, run(i), run(i + 1)) && (pc.Register? ==> Juggled(e, run, i + 1))
  }

  ghost predicate AttemptAfter(e: Setting, run: nat -> State, n: nat, pc: Pc) {
    exists i: nat :: i >= n && Attempt(e, run, i, pc)
  }

  ghost predicate SuccessAfter(e: Setting, run: nat -> State, n: nat, pc: Pc) {
    exists i: nat :: i >= n && Success(e, run, i, pc)
  }

  ghost predicate AttemptedForEver(e: Setting, run: nat -> State, pc: Pc) {
    forall n: nat :: AttemptAfter(e, run, n, pc)
  }

  ghost predicate SucceedsForEver(e: Setting, run: nat -> State, pc: Pc) {
    forall n: nat :: SuccessAfter(e, run, n, pc)
  }

  /** A package or revision nobody here manages and no managed package keeps alive goes away. */
  ghost predicate Frees(run: nat -> State, i: nat) {
    !Released(run(i)) && Blockers(run(i).w) > 0 && !HasPackageKey(run(i).w) ==>
      exists j: nat :: j > i && (Released(run(j)) || Blockers(run(j).w) < Blockers(run(i).w))
  }

  /** Until the object is released, nobody edits it or the ProviderConfig, and a call that could succeed
      for ever does so for ever; any call may fail, and any pass may crash, for ever too. */
  ghost predicate FairRun(e: Setting, run: nat -> State) {
    && (forall i: nat :: Released(run(i)) || LenientStep(e, run(i), run(i + 1)))
    && (forall i: nat :: Frees(run, i))
    && (forall pc: Pc :: AttemptedForEver(e, run, pc) ==> SucceedsForEver(e, run, pc))
  }

  lemma FairSteps(e: Setting, run: nat -> State, i: nat)
    requires FairRun(e, run)
    ensures Released(run(i)) || LenientStep(e, run(i), run(i + 1))
    ensures Frees(run, i)
  {
  }

  lemma FairCalls(e: Setting, run: nat -> State, pc: Pc, n: nat) returns (i: nat)
    requires FairRun(e, run) && AttemptedForEver(e, run, pc)
    ensures i >= n && Success(e, run, i, pc)
  {
    hide AttemptedForEver, Success, LenientStep, Frees;
    assert SucceedsForEver(e, run, pc);
    assert SuccessAfter(e, run, n, pc);
    i :| i >= n && Success(e, run, i, pc);
  }

  // ---------------------------------------------------------------- a run that makes no progress

  /** From position `i` on the deletion cooperates and its measure stands still. */
  ghost predicate Stands(e: Setting, run: nat -> State, i: nat, f: nat, n: nat) {
    forall j: nat | j >= i :: StandsAt(e, run(j), f, n)
  }

  predicate StandsAt(e: Setting, s: State, f: nat, n: nat) {
    Cooperative(e, s) && !Released(s) && Finalizers(s.w) == f && Work(s.w) == n
  }

  lemma {:induction false} Lasts(e: Setting, run: nat -> State, i: nat, j: nat)
    requires FairRun(e, run) && Cooperative(e, run(i)) && i <= j
    requires forall k: nat | i <= k <= j :: !Released(run(k))
    ensures Cooperative(e, run(j)) && NotRisen(run(i).w, run(j).w)
  {
    hide FairRun, Cooperative, Released, LenientStep, Finalizers, Rank, Blockers;
    if j > i {
      Lasts(e, run, i, j - 1);
      FairSteps(e, run, j - 1);
      LenientKeeps(e, run(j - 1), run(j));
    }
  }

  /** While the measure stands still, every blocker is kept alive by a managed package. */
  lemma NoLooseBlocker(e: Setting, run: nat -> State, i: nat, f: nat, n: nat)
    requires FairRun(e, run) && Stands(e, run, i, f, n)
    ensures Blockers(run(i).w) > 0 ==> HasPackageKey(run(i).w)
  {
    hide FairRun, Cooperative, Released, HasPackageKey, Finalizers, Rank, Blockers;
    assert StandsAt(e, run(i), f, n);
    FairSteps(e, run, i);
    if Blockers(run(i).w) > 0 && !HasPackageKey(run(i).w) {
      var j: nat :| j > i && (Released(run(j)) || Blockers(run(j).w) < Blockers(run(i).w));
      forall k: nat | i <= k <= j ensures !Released(run(k)) {
        assert StandsAt(e, run(k), f, n);
      }
      Lasts(e, run, i, j);
    }
  }

  /** Past the decision of the pass there are components to delete. */
  predicate HasComponents(s: State) {
    s.pc in {ReconcileAccess, GetCluster, GetAccessRequest} ==> ComponentsFinalizer in s.l.xp.finalizers
  }

  lemma HasComponentsStays(e: Setting, s: State, s': State)
    requires Cooperative(e, s) && HasComponents(s) && LenientStep(e, s, s')
    requires Finalizers(s'.w) == Finalizers(s.w) && Cooperative(e, s')
    ensures HasComponents(s')
  {
    hide Cooperative, PassStep;
    var w :| Benign(s.w, w) && (PassStep(e, s.(w := w), s') || s' == Goto(s.(w := w), Idle));
    BenignKeepsCooperative(e, s, w);
    if PassStep(e, s.(w := w), s') {
      DecidesOnComponents(e, s.(w := w), s');
    }
  }

  lemma DecidesOnComponents(e: Setting, s: State, s': State)
    requires Cooperative(e, s) && HasComponents(s) && PassStep(e, s, s')
    requires Finalizers(s'.w) == Finalizers(s.w) && Cooperative(e, s')
    ensures HasComponents(s')
  {
    hide PlanError, Gate, Coverage, Write, Tasks, Planned, JuggleStep, Handles;
  }

  lemma {:induction false} HasComponentsLasts(e: Setting, run: nat -> State, i: nat, j: nat, f: nat, n: nat)
    requires FairRun(e, run) && Stands(e, run, i, f, n) && i <= j && HasComponents(run(i))
    ensures HasComponents(run(j))
  {
    hide FairRun, Cooperative, Released, LenientStep, HasComponents, Finalizers, Work;
    if j > i {
      HasComponentsLasts(e, run, i, j - 1, f, n);
      assert StandsAt(e, run(j - 1), f, n) && StandsAt(e, run(j), f, n);
      FairSteps(e, run, j - 1);
      HasComponentsStays(e, run(j - 1), run(j));
    }
  }

  /** Every pass ends, so there is always a next one. */
  lemma {:induction false} PassesEnd(e: Setting, run: nat -> State, i: nat, j: nat, f: nat, n: nat) returns (k: nat)
    requires FairRun(e, run) && Stands(e, run, i, f, n) && i <= j
    ensures k >= j && run(k).pc == Idle
    decreases Distance(run(j).pc), |run(j).l.todo|
  {
    hide FairRun, Cooperative, Released, LenientStep, Finalizers, Work;
    if run(j).pc == Idle {
      return j;
    }
    assert StandsAt(e, run(j), f, n);
    FairSteps(e, run, j);
    CallEnds(e, run(j), run(j + 1));
    if run(j + 1).pc == Idle {
      return j + 1;
    }
    k := PassesEnd(e, run, i, j + 1, f, n);
  }

  // ---------------------------------------------------------------- one call leads to the next

  /** A call of a pass with at most this distance from its end. */
  predicate Near(s: State, d: nat) {
    0 < Distance(s.pc) <= d && !s.pc.Juggle?
  }

  /** The calls at this distance. */
  function CallsAt(d: nat): seq<Pc> {
    match d
    case 14 => [HandleOperation]
    case 13 => [GetConfig]
    case 12 => [EnsureAccess]
    case 11 => [DropLegacy]
    case 10 => [ReconcileAccess]
    case 9 => [GetCluster]
    case 8 => [GetAccessRequest]
    case 7 => [Register(Phase1)]
    case 5 => [ListProviderRevisions]
    case 4 => [ListFunctionRevisions]
    case 3 => [Register(Phase2)]
    case 2 => [DeleteAccess]
    case 1 => [DropComponents, DropAccess]
    case _ => []
  }

  /** The measure stands still, and a pass that began since. */
  ghost predicate Settled(e: Setting, run: nat -> State, i: nat, f: nat, n: nat) {
    FairRun(e, run) && Stands(e, run, i, f, n) && run(i).pc == Idle
  }

  lemma CallIsOnTheWay(e: Setting, run: nat -> State, i: nat, j: nat, f: nat, n: nat)
    requires Settled(e, run, i, f, n) && i <= j
    requires run(j).pc != Idle && run(j).pc != UpdateStatus && !run(j).pc.Juggle?
    ensures OnTheWay(e, run(j), f, n)
  {
    hide FairRun, Cooperative, Released, HasPackageKey, Finalizers, Work, Blockers;
    HasComponentsLasts(e, run, i, j, f, n);
    forall k: nat | k >= j ensures StandsAt(e, run(k), f, n) {
    }
    NoLooseBlocker(e, run, j, f, n);
    assert StandsAt(e, run(j), f, n);
  }

  /** After a success the pass is closer to its end, and not yet there. */
  lemma SuccessLeadsOn(e: Setting, run: nat -> State, i: nat, j: nat, f: nat, n: nat)
    requires Settled(e, run, i, f, n) && i <= j
    requires OnTheWay(e, run(j), f, n) && run(j).pc != UpdateStatus && CallStep(e, run(j), run(j + 1))
    ensures OnTheWay(e, run(j + 1), f, n) && Untouched(run(j + 1))
    ensures Distance(run(j + 1).pc) < Distance(run(j).pc)
      || (run(j).pc.Juggle? && run(j + 1).pc == run(j).pc && |run(j + 1).l.todo| < |run(j).l.todo|)
    ensures Distance(run(j + 1).pc) > 0
  {
    hide FairRun, Cooperative, Released, PassStep, Succeeds, Untouched, Work, Finalizers, CallStep;
    assert StandsAt(e, run(j + 1), f, n);
    CallStepMoves(e, run(j), run(j + 1), f, n);
    OnTheWayHasDistance(e, run(j + 1), f, n);
  }

  lemma CallStepMoves(e: Setting, s: State, s': State, f: nat, n: nat)
    requires OnTheWay(e, s, f, n) && s.pc != UpdateStatus && CallStep(e, s, s')
    ensures Released(s') || OnTheWay(e, s', f, n)
    ensures Distance(s'.pc) < Distance(s.pc) || (s.pc.Juggle? && s'.pc == s.pc && |s'.l.todo| < |s.l.todo|)
  {
    hide OnTheWay, PassStep, Succeeds;
    var w :| Benign(s.w, w) && PassStep(e, s.(w := w), s') && Succeeds(s.(w := w), s');
    BenignKeepsOnTheWay(e, s, w, f, n);
    CallMoves(e, s.(w := w), s', f, n);
  }

  lemma OnTheWayHasDistance(e: Setting, s: State, f: nat, n: nat)
    requires OnTheWay(e, s, f, n) && !Below(s.w, f, n)
    ensures Untouched(s) && Distance(s.pc) > 0
  {
    hide Finalizers, Work;
    NotInstalling(e, s);
  }

  /** The juggler's work leads to a call behind it. */
  lemma {:induction false} JugglerLeadsOn(e: Setting, run: nat -> State, i: nat, from: nat, j: nat, f: nat, n: nat) returns (k: nat)
    requires Settled(e, run, i, f, n) && i <= from <= j
    requires Juggled(e, run, from) && InJuggler(run, from, j) && OnTheWay(e, run(j), f, n)
    ensures k > j && Near(run(k), Distance(run(j).pc) - 1)
    decreases Distance(run(j).pc), |run(j).l.todo|
  {
    hide Settled, OnTheWay, CallStep, Untouched, Distance;
    assert run(j).pc.Juggle?;
    assert CallStep(e, run(j), run(j + 1));
    SuccessLeadsOn(e, run, i, j, f, n);
    if run(j + 1).pc.Juggle? {
      k := JugglerLeadsOn(e, run, i, from, j + 1, f, n);
    } else {
      k := j + 1;
    }
  }

  /** A success leads to a later call of the pass. */
  lemma LeadsCloser(e: Setting, run: nat -> State, i: nat, j: nat, pc: Pc, f: nat, n: nat) returns (k: nat)
    requires Settled(e, run, i, f, n) && i <= j && Distance(pc) > 0 && !pc.Juggle? && Success(e, run, j, pc)
    ensures k > j && Near(run(k), Distance(pc) - 1)
  {
    hide FairRun, Stands, OnTheWay, CallStep, Untouched, Distance, Juggled;
    PcIsCall(pc);
    CallIsOnTheWay(e, run, i, j, f, n);
    SuccessLeadsOn(e, run, i, j, f, n);
    k := j + 1;
    if run(j + 1).pc.Juggle? {
      JuggleComesFromRegister(e, run, j);
      k := JugglerLeadsOn(e, run, i, j + 1, j + 1, f, n);
    }
  }

  /** So a call that is made for ever leads, again and again, closer to the end of a pass; when no later
      call is made, it is not made for ever. */
  lemma Leaves(e: Setting, run: nat -> State, i: nat, m: nat, pc: Pc, f: nat, n: nat) returns (x: nat)
    requires Settled(e, run, i, f, n) && i <= m && Distance(pc) > 0 && !pc.Juggle?
    requires forall j: nat | j >= m :: !Near(run(j), Distance(pc) - 1)
    ensures x >= m && forall j: nat | j >= x :: run(j).pc != pc
  {
    hide FairRun, Stands, OnTheWay, CallStep, Untouched, AttemptedForEver, Distance, Juggled;
    if y: nat :| !VisitedAfter(run, y, pc) {
      return if y >= m then y else m;
    }
    MadeForEver(e, run, i, m, pc, f, n);
    var j := FairCalls(e, run, pc, m);
    var k := LeadsCloser(e, run, i, j, pc, f, n);
    x := m;
    assert false;
  }

  lemma PcIsCall(pc: Pc)
    requires Distance(pc) > 0
    ensures pc != Idle && pc != UpdateStatus
  {
  }

  lemma JuggleComesFromRegister(e: Setting, run: nat -> State, j: nat)
    requires CallStep(e, run(j), run(j + 1)) && run(j + 1).pc.Juggle? && !run(j).pc.Juggle?
    ensures run(j).pc.Register?
  {
    hide Succeeds, Write, Tasks, Planned;
  }

  ghost predicate VisitedAfter(run: nat -> State, n: nat, pc: Pc) {
    exists j: nat :: j >= n && run(j).pc == pc
  }

  lemma MadeForEver(e: Setting, run: nat -> State, i: nat, m: nat, pc: Pc, f: nat, n: nat)
    requires Settled(e, run, i, f, n) && i <= m
    requires forall y: nat :: VisitedAfter(run, y, pc)
    ensures AttemptedForEver(e, run, pc)
  {
    hide FairRun, Cooperative, Released, CallStep, Finalizers, Work;
    forall y: nat ensures AttemptAfter(e, run, y, pc) {
      var z := if y >= m then y else m;
      assert VisitedAfter(run, z, pc);
      var j: nat :| j >= z && run(j).pc == pc;
      assert StandsAt(e, run(j), f, n);
      var _, s' := SomeCallSucceeds(e, run(j));
      assert Attempt(e, run, j, pc);
    }
  }

  /** So from some point on no call at all is made, from the last one of a pass up to the first. */
  lemma {:induction false} NoMoreCalls(e: Setting, run: nat -> State, i: nat, d: nat, f: nat, n: nat) returns (x: nat)
    requires Settled(e, run, i, f, n)
    ensures x >= i && forall j: nat | j >= x :: !Near(run(j), d)
  {
    hide Settled, CallsAt;
    if d == 0 {
      return i;
    }
    var m := NoMoreCalls(e, run, i, d - 1, f, n);
    AtThisDistance(d);
    x := m;
    var k := 0;
    while k < |CallsAt(d)|
      invariant k <= |CallsAt(d)| && x >= m
      invariant forall j: nat, c | j >= x && 0 <= c < k :: run(j).pc != CallsAt(d)[c]
    {
      var y := Leaves(e, run, i, m, CallsAt(d)[k], f, n);
      x := if x >= y then x else y;
      k := k + 1;
    }
  }

  lemma AtThisDistance(d: nat)
    requires d > 0
    ensures forall k | 0 <= k < |CallsAt(d)| :: Distance(CallsAt(d)[k]) == d && !CallsAt(d)[k].Juggle?
    ensures forall pc: Pc :: Distance(pc) == d && !pc.Juggle? ==> pc in CallsAt(d)
  {
  }

  /** But passes begin for ever. */
  lemma NeverStands(e: Setting, run: nat -> State, i: nat, f: nat, n: nat)
    requires FairRun(e, run)
    ensures !Stands(e, run, i, f, n)
  {
    hide FairRun, StandsAt, CallStep, AttemptedForEver;
    if Stands(e, run, i, f, n) {
      var k := PassesEnd(e, run, i, i, f, n);
      var x := NoMoreCalls(e, run, k, 14, f, n);
      forall y: nat ensures VisitedAfter(run, y, Idle) {
        var j := PassesEnd(e, run, i, if y >= i then y else i, f, n);
      }
      MadeForEver(e, run, k, x, Idle, f, n);
      var j := FairCalls(e, run, Idle, x);
      PassBegins(e, run(j), run(j + 1));
    }
  }

  lemma PassBegins(e: Setting, s: State, s': State)
    requires s.pc == Idle && CallStep(e, s, s')
    ensures Near(s', 14)
  {
  }

  // ---------------------------------------------------------------- deletion terminates

  /** Deletion terminates: in every fair run that comes to cooperate, however many calls fail, the
      controller gives up its last finalizer. */
  lemma {:induction false} DeletionTerminates(e: Setting, run: nat -> State, i: nat) returns (k: nat)
    requires FairRun(e, run) && Cooperative(e, run(i))
    ensures k >= i && Released(run(k))
    decreases Finalizers(run(i).w), Work(run(i).w)
  {
    hide FairRun, Cooperative, Released;
    if j: nat :| j >= i && Released(run(j)) {
      return j;
    }
    if j: nat :| j >= i && Below(run(j).w, Finalizers(run(i).w), Work(run(i).w)) {
      Lasts(e, run, i, j);
      k := DeletionTerminates(e, run, j);
      return;
    }
    forall j: nat | j >= i ensures StandsAt(e, run(j), Finalizers(run(i).w), Work(run(i).w)) {
      Lasts(e, run, i, j);
    }
    NeverStands(e, run, i, Finalizers(run(i).w), Work(run(i).w));
    k := i;
    assert false;
  }

  // ---------------------------------------------------------------- exactly when it does

  /** Nobody changed the ProviderConfig, the spec or the operation annotation, but the controller may
      have removed the reconcile annotation. */
  predicate SameInputs(w0: World, w: World) {
    && w.config == w0.config
    && (w.stored.Some? ==>
          && w0.stored.Some? && w.stored.value.spec == w0.stored.value.spec
          && (w.stored.value.operation == w0.stored.value.operation || w0.stored.value.operation == ReconcileOperation))
  }

  /** The copy a pass begins with has them too. */
  predicate InputsAt(w0: World, s: State)
    requires w0.stored.Some?
  {
    && SameInputs(w0, s.w)
    && (s.pc == HandleOperation ==>
          s.l.xp.operation == w0.stored.value.operation || w0.stored.value.operation == ReconcileOperation)
  }

  lemma PassKeepsInputs(e: Setting, w0: World, s: State, s': State)
    requires w0.stored.Some? && InputsAt(w0, s) && Core(s) && PassStep(e, s, s')
    ensures InputsAt(w0, s')
  {
    hide CopyFacts, Coverage, Gate, Planned, Tasks;
  }

  /** The states of a run, with what the clusters did before each call as a step of its own. */
  lemma {:induction false} Unrolled(e: Setting, run: nat -> State, n: nat) returns (steps: seq<State>)
    requires Start(run(0)) && run(0).w.stored.Some? && forall i: nat | i < n :: LenientStep(e, run(i), run(i + 1))
    ensures IsRun(e, steps) && steps[0] == run(0) && steps[|steps| - 1] == run(n)
    ensures forall k | 0 <= k < |steps| :: InputsAt(run(0).w, steps[k])
  {
    hide PassStep, Core;
    if n == 0 {
      return [run(0)];
    }
    var before := Unrolled(e, run, n - 1);
    var s, s' := run(n - 1), run(n);
    var w :| Benign(s.w, w) && (PassStep(e, s.(w := w), s') || s' == Goto(s.(w := w), Idle));
    CoreAlongRun(e, before, |before| - 1);
    BenignKeepsCore(s, w);
    assert ClustersMove(s.w, w);
    steps := before + [s.(w := w), s'];
    if PassStep(e, s.(w := w), s') {
      PassKeepsInputs(e, run(0).w, s.(w := w), s');
    }
    forall k | 0 <= k < |steps| - 1 ensures Step(e, steps[k], steps[k + 1]) {
      if k < |before| - 1 {
        assert steps[k] == before[k] && steps[k + 1] == before[k + 1];
      }
    }
  }

  /** What holds the deletion up at the start of a run nobody interferes with, holds it up throughout. */
  lemma BlockedStays(e: Setting, run: nat -> State, n: nat)
    requires Start(run(0)) && forall i: nat | i < n :: LenientStep(e, run(i), run(i + 1))
    requires run(0).w.stored.Some? && run(0).w.stored.value.deleting && !Released(run(0)) && !Unblocked(e, run(0).w)
    ensures !Released(run(n))
  {
    hide LenientStep, Start, PlanError, Step;
    var steps := Unrolled(e, run, n);
    var w0 := run(0).w;
    if w0.config.None? {
      assert forall k | 0 <= k < |steps| :: InputsAt(w0, steps[k]) ==> steps[k].w.config.None?;
    } else if w0.stored.value.operation == IgnoreOperation {
      assert forall k | 0 <= k < |steps| :: Ignored(steps[k].w);
    } else if e.strict && AccessFinalizer !in Persisted(w0) {
      assert Stuck(e, w0);
    } else {
      assert NeverPlannable(e, steps);
    }
    assert BlockedThroughout(e, steps);
    BlockedNeverReleases(e, steps, |steps| - 1);
  }

  /** Exactly when a deletion terminates, for every fair run nobody interferes with: there must be a
      ProviderConfig, no ignore annotation, a teardown that can be planned if there is one to be done,
      and the access finalizer if the server refuses it now. */
  lemma DeletionTerminatesExactly(e: Setting, run: nat -> State)
    requires FairRun(e, run) && Start(run(0)) && !Released(run(0))
    requires run(0).w.stored.Some? && run(0).w.stored.value.deleting
    ensures (exists k: nat :: Released(run(k))) <==> Unblocked(e, run(0).w)
  {
    hide FairRun, Released, Unblocked, LenientStep;
    if Unblocked(e, run(0).w) {
      StartCooperates(e, run(0));
      var k := DeletionTerminates(e, run, 0);
    } else {
      forall k: nat ensures !Released(run(k)) {
        StaysUnreleased(e, run, k);
      }
    }
  }

  lemma StartCooperates(e: Setting, s: State)
    requires Start(s) && Unblocked(e, s.w) && s.w.stored.value.deleting
    ensures Cooperative(e, s)
  {
    hide Unblocked;
  }

  lemma {:induction false} StaysUnreleased(e: Setting, run: nat -> State, k: nat)
    requires FairRun(e, run) && Start(run(0)) && !Released(run(0))
    requires run(0).w.stored.Some? && run(0).w.stored.value.deleting && !Unblocked(e, run(0).w)
    ensures forall i: nat | i <= k :: !Released(run(i))
  {
    hide FairRun, Released, Unblocked, LenientStep;
    if k > 0 {
      StaysUnreleased(e, run, k - 1);
      forall i: nat | i < k ensures LenientStep(e, run(i), run(i + 1)) {
        FairSteps(e, run, i);
      }
      BlockedStays(e, run, k);
    }
  }

  // ---------------------------------------------------------------- there are fair runs

  lemma CallReaches(e: Setting, s: State, s': State)
    requires CallStep(e, s, s')
    ensures Reaches(e, s, s')
  {
    hide Reaches, PassStep, Succeeds;
    var w :| Benign(s.w, w) && PassStep(e, s.(w := w), s') && Succeeds(s.(w := w), s');
    assert ClustersMove(s.w, w);
    ReachesSelf(e, s);
    Then(e, s, s, s.(w := w));
    Then(e, s, s.(w := w), s');
  }

  /** One successful call, while loose blockers go. */
  ghost predicate GoodStep(e: Setting, s: State, s': State) {
    CallStep(e, s, s') && LenientStep(e, s, s') && (Blockers(s.w) > 0 && !HasPackageKey(s.w) ==> Blockers(s'.w) < Blockers(s.w))
  }

  lemma SomeGoodStep(e: Setting, s: State) returns (s': State)
    requires Cooperative(e, s) && !Released(s)
    ensures GoodStep(e, s, s')
  {
    hide Cooperative, CallStep, LenientStep, PassStep, Succeeds, Rank, Finalizers;
    var w;
    w, s' := SomeCallSucceeds(e, s);
    BenignKeepsCooperative(e, s, w);
    PassKeepsCooperative(e, s.(w := w), s');
  }

  /** One good call, as long as the object is not released and one is possible. */
  ghost function Next(e: Setting, s: State): State {
    if !Released(s) && exists s' :: GoodStep(e, s, s') then
      var s' :| GoodStep(e, s, s'); s'
    else s
  }

  ghost function Follow(e: Setting, s: State, i: nat): State {
    if i == 0 then s else Next(e, Follow(e, s, i - 1))
  }

  lemma {:induction false} FollowCooperates(e: Setting, s: State, i: nat)
    requires Cooperative(e, s)
    ensures var here := Follow(e, s, i);
      && (Released(here) || Cooperative(e, here)) && Core(here) && Reaches(e, s, here)
      && (Released(here) || GoodStep(e, here, Follow(e, s, i + 1)))
  {
    hide Cooperative, Released, CallStep, LenientStep, Reaches, Core, Blockers, HasPackageKey;
    var here := Follow(e, s, i);
    if i == 0 {
      ReachesSelf(e, s);
      CooperativeHasCore(e, s);
    } else {
      var before := Follow(e, s, i - 1);
      FollowCooperates(e, s, i - 1);
      if !Released(before) {
        LenientKeeps(e, before, here);
        LenientKeepsCore(e, before, here);
        CallReaches(e, before, here);
        ThenReaches(e, s, before, here);
      }
    }
    if !Released(here) {
      var s' := SomeGoodStep(e, here);
    }
  }

  lemma CooperativeHasCore(e: Setting, s: State)
    requires Cooperative(e, s)
    ensures Core(s)
  {
    hide Core;
  }

  lemma LenientKeepsCore(e: Setting, s: State, s': State)
    requires Core(s) && LenientStep(e, s, s')
    ensures Core(s')
  {
    hide Core, PassStep;
    var w :| Benign(s.w, w) && (PassStep(e, s.(w := w), s') || s' == Goto(s.(w := w), Idle));
    BenignKeepsCore(s, w);
    StepKeepsCore(e, s.(w := w), s');
  }

  lemma JugglerIsUnreleased(s: State)
    requires Core(s) && s.pc.Juggle?
    ensures !Released(s)
  {
    hide Coverage, Gate;
    assert AccessFinalizer in Controlled(s.l.xp.finalizers);
  }

  /** From every state of a cooperating deletion there is a fair run. */
  lemma FairRunExists(e: Setting, s: State) returns (run: nat -> State)
    requires Cooperative(e, s)
    ensures run(0) == s && FairRun(e, run)
    ensures forall i: nat :: Reaches(e, s, run(i))
  {
    hide Cooperative, Released, CallStep, LenientStep, Reaches, Core, Blockers, HasPackageKey, InJuggler;
    run := (i: nat) => Follow(e, s, i);
    forall i: nat
      ensures Released(run(i)) || LenientStep(e, run(i), run(i + 1))
      ensures Frees(run, i) && Reaches(e, s, run(i))
    {
      FollowCooperates(e, s, i);
      assert !Released(run(i)) ==> GoodStep(e, run(i), run(i + 1));
    }
    forall pc: Pc | AttemptedForEver(e, run, pc) ensures SucceedsForEver(e, run, pc) {
      forall n: nat ensures SuccessAfter(e, run, n, pc) {
        assert AttemptAfter(e, run, n, pc);
        var i: nat :| i >= n && Attempt(e, run, i, pc);
        FollowCooperates(e, s, i);
        FollowJuggles(e, s, run, i + 1);
        assert Success(e, run, i, pc);
      }
    }
  }

  lemma FollowJuggles(e: Setting, s: State, run: nat -> State, from: nat)
    requires Cooperative(e, s) && run == ((i: nat) => Follow(e, s, i))
    ensures Juggled(e, run, from)
  {
    hide Cooperative, Released, CallStep, LenientStep, Reaches, Core, Blockers, HasPackageKey;
    forall i: nat | from <= i && InJuggler(run, from, i) ensures CallStep(e, run(i), run(i + 1)) {
      FollowCooperates(e, s, i);
      JugglerIsUnreleased(run(i));
    }
  }

  // ---------------------------------------------------------------- exactly when release is possible

  ghost predicate CanBeReleased(e: Setting, s: State) {
    exists t :: Reaches(e, s, t) && Persisted(t.w) == {}
  }

  ghost predicate CanDisappear(e: Setting, s: State) {
    exists t :: Reaches(e, s, t) && t.w.stored.None?
  }

  /** An object with the components finalizer and a chance to get the access finalizer is deleted, its
      spec is emptied, and a run that cooperates from there releases it. */
  lemma WithComponentsReleases(e: Setting, s: State) returns (t: State)
    requires Start(s) && !Stuck(e, s.w)
    requires ComponentsFinalizer in Persisted(s.w) && e.env.podNs != ""
    ensures Reaches(e, s, t) && Persisted(t.w) == {}
  {
    hide Reaches;
    var a := AccessIsEnsured(e, s);
    var b := Goto(a, Idle);
    Then(e, s, a, b);
    var c := b.(w := Write(b.w, b.w.stored.value.(deleting := true)));
    assert UserDeletes(b.w, c.w);
    Then(e, s, b, c);
    assert AccessFinalizer in Persisted(b.w) && AccessFinalizer in b.w.stored.value.finalizers;
    var d := c.(w := Write(c.w, c.w.stored.value.(operation := NoOperation, spec := Spec("", None, None))));
    assert UserEdits(c.w, d.w);
    Then(e, s, c, d);
    var m := d.(w := d.w.(config := Some(ProviderConfig([], [], [], [], [], None))));
    assert ClustersMove(d.w, m.w);
    Then(e, s, d, m);
    assert AccessFinalizer in Persisted(m.w);
    assert Cooperative(e, m);
    var run := FairRunExists(e, m);
    var k := DeletionTerminates(e, run, 0);
    t := run(k);
    ThenReaches(e, s, m, t);
  }

  /** Exactly which objects some run releases, and makes disappear: all but those deleted before they
      got the access finalizer, under a server that then refuses it, and those with components while
      the controller does not know its own namespace. */
  lemma ReleasableExactly(e: Setting, s: State)
    requires Start(s)
    ensures CanBeReleased(e, s) <==> CanDisappear(e, s)
    ensures CanBeReleased(e, s) <==>
      || Persisted(s.w) == {}
      || (&& (e.strict && s.w.stored.value.deleting ==> AccessFinalizer in Persisted(s.w))
          && (e.env.podNs == "" ==> ComponentsFinalizer !in Persisted(s.w)))
  {
    hide Reaches, Start;
    if Persisted(s.w) != {} && (Stuck(e, s.w) || (e.env.podNs == "" && ComponentsFinalizer in Persisted(s.w))) {
      forall t | Reaches(e, s, t) ensures Persisted(t.w) != {} {
        NeverReleased(e, s, t);
      }
    } else {
      var t := s;
      if Persisted(s.w) == {} {
        ReachesSelf(e, s);
      } else if ComponentsFinalizer !in Persisted(s.w) {
        t := WithoutComponentsReleases(e, s);
      } else {
        t := WithComponentsReleases(e, s);
      }
      var u := UnguardedDisappears(e, t);
      ThenReaches(e, s, t, u);
    }
  }

  lemma NeverReleased(e: Setting, s: State, t: State)
    requires Start(s) && Reaches(e, s, t)
    requires Stuck(e, s.w) || (e.env.podNs == "" && ComponentsFinalizer in Persisted(s.w))
    ensures Persisted(t.w) != {}
  {
    hide Step;
    var run :| IsRun(e, run) && run[0] == s && run[|run| - 1] == t;
    if Stuck(e, s.w) {
      StuckRunsStayStuck(e, run, |run| - 1);
    } else {
      UnplannableRuns(e, run, |run| - 1);
    }
  }
}
