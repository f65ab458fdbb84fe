/** What every run of reconciles, failing ones included, keeps and reaches. */
module ReconcileTheorems {
  import opened Common
  import opened Reconcile

  /** Facts that hold in every reachable state, whatever fails. */
  ghost predicate Inv(w: World) {
    && w.generations == w.loop
    && (w.loop.Some? ==> w.obj.finalizer && w.obj.phase != Gone)
    && (w.obj.phase == Deleting ==> w.obj.finalizer)
    && (w.obj.status.gvkr ==> w.obj.status.original.Some?)
  }

  lemma InitialInv(name: string, spec: Spec, annotations: Annotations, replicas: int)
    ensures var w := Initial(name, spec, annotations, replicas);
            && Inv(w) && !w.obj.finalizer && w.obj.status.original == None
            && w.hpas == {} && w.loop == None && w.calls == []
  {
  }

  // ---- What each part leaves alone -----------------------------------------

  /** Same object apart from the status. */
  predicate SameObject(a: ScaledObject, b: ScaledObject) {
    a == b.(status := a.status)
  }

  /** Nothing but the HPAs, the recorded HPA name and the log of calls differs. */
  ghost predicate OnlyHpaMoved(v: World, w: World) {
    && v.generations == w.generations && v.loop == w.loop && v.replicas == w.replicas
    && SameObject(v.obj, w.obj) && v.obj.status == w.obj.status.(hpaName := v.obj.status.hpaName)
  }

  lemma CreateFrame(w: World, o: Outcomes)
    ensures OnlyHpaMoved(CreateAndDeploy(w, o).w, w)
  {
  }

  lemma RenameFrame(w: World, o: Outcomes, name: string)
    ensures OnlyHpaMoved(CreateAndDeploy(Delete(w, o, name).w, o).w, w)
    ensures OnlyHpaMoved(Delete(w, o, name).w, w)
  {
    CreateFrame(Delete(w, o, name).w, o);
  }

  lemma EnsureHpaFrame(w: World, o: Outcomes)
    ensures OnlyHpaMoved(EnsureHpaExists(w, o).w, w)
  {
    var name := NameOnEnsure(w.obj);
    CreateFrame(w, o);
    RenameFrame(w, o, name);
    assert OnlyHpaMoved(StoreHpaName(w, o, name).w, w);
  }

  /** What is recorded of the scale target changes once at most, to what is observed. */
  ghost predicate OnlyRecords(v: World, w: World) {
    && v.replicas == w.replicas
    && (v.obj.status.original == w.obj.status.original
        || (w.obj.status.original.None? && v.obj.status.original == Some(w.replicas)))
    && (v.obj.status.gvkr ==> w.obj.status.gvkr || v.obj.status.original.Some?)
    && (w.generations == w.loop ==> v.generations == v.loop)
  }

  lemma CheckTargetFrame(w: World, o: Outcomes)
    ensures var v := CheckTarget(w, o).w;
            && v == w.(obj := v.obj) && SameObject(v.obj, w.obj)
            && v.obj.status == w.obj.status.(gvkr := v.obj.status.gvkr, original := v.obj.status.original)
            && OnlyRecords(v, w)
  {
  }

  lemma ScaleFrame(w: World, o: Outcomes)
    ensures var v := Scale(w, o).w;
            && OnlyRecords(v, w) && SameObject(v.obj, w.obj)
            && v.obj.status.paused == w.obj.status.paused && v.obj.status.initialized == w.obj.status.initialized
  {
    CheckTargetFrame(w, o);
    EnsureHpaFrame(CheckTarget(w, o).w, o);
  }

  lemma EnterPauseFrame(w: World, o: Outcomes)
    ensures var v := EnterPause(w, o).w;
            && v.replicas == w.replicas && SameObject(v.obj, w.obj)
            && v.obj.status == w.obj.status.(paused := v.obj.status.paused)
            && (w.generations == w.loop ==> v.generations == v.loop)
            && (v.loop == w.loop || v.loop == None)
  {
  }

  lemma PrepareFrame(w: World, o: Outcomes)
    ensures var p := Prepare(w, o);
            && p.w == w.(obj := p.w.obj)
            && p.w.obj == w.obj.(finalizer := p.w.obj.finalizer, status := p.w.obj.status)
            && p.w.obj.status ==
              w.obj.status.(initialized := p.w.obj.status.initialized, paused := p.w.obj.status.paused)
            && (w.obj.finalizer ==> p.w.obj.finalizer)
            && (w.obj.status.initialized ==> p.w.obj.status == w.obj.status)
            && (p.ok ==> p.w.obj.finalizer && p.w.obj.status.initialized)
            && (p.ok <==> (w.obj.finalizer || o.addFinalizer) && (w.obj.status.initialized || o.initConditions))
            && (p.ok && !w.obj.status.initialized ==> !p.w.obj.status.paused)
  {
  }

  lemma ReconcileObjectFrame(w: World, o: Outcomes)
    ensures OnlyRecords(ReconcileObject(w, o).w, w) && SameObject(ReconcileObject(w, o).w.obj, w.obj)
  {
    ScaleFrame(w, o);
    EnterPauseFrame(w, o);
  }

  /** What a reconcile of a present object leaves alone. */
  lemma PresentFrame(w: World, o: Outcomes)
    requires w.obj.phase == Present
    ensures var v := ReconcileStep(w, o).w;
            && OnlyRecords(v, w) && v.obj == w.obj.(finalizer := v.obj.finalizer, status := v.obj.status)
            && (w.obj.finalizer ==> v.obj.finalizer)
            && (v.obj.finalizer || v.loop == w.loop)
  {
    PrepareFrame(w, o);
    ReconcileObjectFrame(Prepare(w, o).w, o);
  }

  lemma ReconcileKeepsInv(w: World, o: Outcomes)
    requires Inv(w)
    ensures Inv(ReconcileStep(w, o).w)
  {
    if w.obj.phase == Present {
      PresentFrame(w, o);
    }
  }

  lemma {:induction false} RunKeepsInv(w: World, steps: seq<Step>)
    requires Inv(w)
    ensures Inv(Run(w, steps))
  {
    if steps != [] {
      var init := steps[..|steps| - 1];
      RunKeepsInv(w, init);
      if steps[|steps| - 1].Reconciles? {
        ReconcileKeepsInv(Run(w, init), steps[|steps| - 1].o);
      }
    }
  }

  /** In every reachable state a running loop implies the finalizer, and a recorded target an original count. */
  lemma LoopImpliesFinalizer(name: string, spec: Spec, annotations: Annotations, replicas: int, steps: seq<Step>)
    ensures var w := Run(Initial(name, spec, annotations, replicas), steps);
            && (w.loop.Some? ==> w.obj.finalizer)
            && (w.obj.status.gvkr ==> w.obj.status.original.Some?)
  {
    InitialInv(name, spec, annotations, replicas);
    RunKeepsInv(Initial(name, spec, annotations, replicas), steps);
  }

  // ---- The original replica count -----------------------------------------

  lemma ReconcileKeepsOriginal(w: World, o: Outcomes)
    requires w.obj.status.original.Some?
    ensures ReconcileStep(w, o).w.obj.status.original == w.obj.status.original
  {
    if w.obj.phase == Present {
      PresentFrame(w, o);
    }
  }

  /** Once recorded the original count never changes, over any run. */
  lemma {:induction false} OriginalNeverChanges(w: World, steps: seq<Step>)
    requires w.obj.status.original.Some?
    ensures Run(w, steps).obj.status.original == w.obj.status.original
  {
    if steps != [] {
      var init := steps[..|steps| - 1];
      OriginalNeverChanges(w, init);
      if steps[|steps| - 1].Reconciles? {
        ReconcileKeepsOriginal(Run(w, init), steps[|steps| - 1].o);
      }
    }
  }

  /** It is recorded as the replica count observed at that moment. */
  lemma OriginalIsFirstObserved(w: World, o: Outcomes)
    requires w.obj.status.original.None?
    ensures var after := ReconcileStep(w, o).w.obj.status.original; after.Some? ==> after.value == w.replicas
  {
    if w.obj.phase == Present {
      PresentFrame(w, o);
    }
  }

  /** Once the loop is stopped, the finalizer sets the recorded count exactly if the option is on, a target is recorded
      and both scale calls succeed; otherwise it leaves the replicas alone. */
  lemma FinalizeExact(w: World, o: Outcomes)
    requires Inv(w) && w.obj.phase == Deleting && o.getObject
    ensures var d := ReconcileStep(w, o);
            && (d.ok <==> o.stopLoop && o.removeFinalizer)
            && (d.w.replicas == if o.stopLoop && w.obj.spec.restoreOriginal && w.obj.status.gvkr
                                   && o.getScale && o.scaleUpdate
                                then w.obj.status.original.value else w.replicas)
  {
  }

  /** From the first recorded count on, through any run, the finalizer restores it. */
  lemma FinalizeRestoresFirstObserved(w: World, first: Outcomes, steps: seq<Step>, o: Outcomes)
    requires Inv(w) && w.obj.status.original.None? && ReconcileStep(w, first).w.obj.status.original.Some?
    requires var d := Run(ReconcileStep(w, first).w, steps);
             && d.obj.phase == Deleting && d.obj.spec.restoreOriginal && d.obj.status.gvkr
             && o.getObject && o.stopLoop && o.getScale && o.scaleUpdate
    ensures var d := Run(ReconcileStep(w, first).w, steps);
            && d.obj.status.original == Some(w.replicas)
            && ReconcileStep(d, o).w.replicas == w.replicas
            && ReconcileStep(d, o).w.loop == None
  {
    OriginalIsFirstObserved(w, first);
    var v := ReconcileStep(w, first).w;
    ReconcileKeepsInv(w, first);
    OriginalNeverChanges(v, steps);
    RunKeepsInv(v, steps);
    FinalizeExact(Run(v, steps), o);
  }

  /** Whenever the finalizer is about to dereference the original count, it is there. */
  lemma DereferenceSafe(name: string, spec: Spec, annotations: Annotations, replicas: int, steps: seq<Step>)
    ensures var w := Run(Initial(name, spec, annotations, replicas), steps);
            w.obj.phase == Deleting && w.obj.spec.restoreOriginal && w.obj.status.gvkr ==> w.obj.status.original.Some?
  {
    LoopImpliesFinalizer(name, spec, annotations, replicas, steps);
  }

  /** The object goes away exactly when the loop was stopped and the finalizer removed; no loop outlives it. */
  lemma GoneOnlyAfterStop(w: World, o: Outcomes)
    requires Inv(w) && w.obj.phase == Deleting && o.getObject
    ensures var v := ReconcileStep(w, o).w;
            && (v.obj.phase == Gone <==> o.stopLoop && o.removeFinalizer)
            && (v.obj.phase == Gone ==> !v.obj.finalizer && v.loop == None && v.generations == None)
            && (v.obj.phase != Gone ==> v.obj.finalizer)
  {
  }

  /** An object that is gone, or marked as deleted without the finalizer, is left alone. */
  lemma NothingToFinalize(w: World, o: Outcomes)
    requires w.obj.phase == Gone || (w.obj.phase == Deleting && !w.obj.finalizer && o.getObject)
    ensures ReconcileStep(w, o) == Done(w, true)
  {
  }

  /** Deleting an object with the finalizer only marks it. */
  lemma DeletionWaitsForFinalizer(w: World)
    requires w.obj.phase == Present
    ensures Apply(w, MarkDeleted).obj.phase == (if w.obj.finalizer then Deleting else Gone)
  {
  }

  // ---- At most one HPA -----------------------------------------------------

  /** Every HPA the object owns is the one its status names. */
  ghost predicate Tracked(w: World) {
    forall h :: h in w.hpas ==> h == w.obj.status.hpaName && h != ""
  }

  lemma TrackedMeansOne(w: World)
    requires Tracked(w)
    ensures |w.hpas| <= 1
  {
    if w.hpas != {} {
      var h :| h in w.hpas;
      assert w.hpas == {h};
    }
  }

  /** The reconcile reaches the creation of an HPA. */
  predicate ReachesCreate(w: World, o: Outcomes) {
    var name := NameOnEnsure(w.obj);
    o.getHpa && o.buildHpa && (name !in w.hpas || (IsHpaRenamed(w.obj, name) && o.deleteHpa))
  }

  /** The HPA is created, its name is not stored, and the status names another one. */
  predicate LosesTrack(w: World, o: Outcomes) {
    ReachesCreate(w, o) && o.createHpa && !o.storeName && w.obj.status.hpaName != DesiredName(w.obj)
  }

  /** Ensuring the HPA loses track of it exactly in that case. */
  lemma EnsureHpaTracksExactly(w: World, o: Outcomes)
    requires Tracked(w)
    ensures Tracked(EnsureHpaExists(w, o).w) <==> !LosesTrack(w, o)
  {
    var name, desired := NameOnEnsure(w.obj), DesiredName(w.obj);
    if LosesTrack(w, o) {
      assert desired in EnsureHpaExists(w, o).w.hpas;
    }
  }

  lemma ScaleTracks(w: World, o: Outcomes)
    requires Tracked(w) && (o.createHpa ==> o.storeName)
    ensures Tracked(Scale(w, o).w)
  {
    CheckTargetFrame(w, o);
    EnsureHpaTracksExactly(CheckTarget(w, o).w, o);
  }

  lemma EnterPauseTracks(w: World, o: Outcomes)
    requires Tracked(w)
    ensures Tracked(EnterPause(w, o).w)
  {
  }

  lemma ReconcileTracks(w: World, o: Outcomes)
    requires Tracked(w) && (o.createHpa ==> o.storeName)
    ensures Tracked(ReconcileStep(w, o).w)
  {
    if w.obj.phase == Present {
      var p := Prepare(w, o);
      PrepareFrame(w, o);
      ScaleTracks(p.w, o);
      EnterPauseTracks(p.w, o);
    }
  }

  /** Name writes after a successful creation succeed. */
  ghost predicate NamesStored(steps: seq<Step>) {
    forall i :: 0 <= i < |steps| && steps[i].Reconciles? ==> (steps[i].o.createHpa ==> steps[i].o.storeName)
  }

  lemma {:induction false} RunTracks(w: World, steps: seq<Step>)
    requires Tracked(w) && NamesStored(steps)
    ensures Tracked(Run(w, steps))
  {
    if steps != [] {
      var init, last := steps[..|steps| - 1], steps[|steps| - 1];
      RunTracks(w, init);
      if last.Reconciles? {
        ReconcileTracks(Run(w, init), last.o);
      }
    }
  }

  /** Over any run the object never owns more than one HPA, provided created names get stored. */
  lemma NeverTwoHpas(name: string, spec: Spec, annotations: Annotations, replicas: int, steps: seq<Step>)
    requires NamesStored(steps)
    ensures |Run(Initial(name, spec, annotations, replicas), steps).hpas| <= 1
  {
    RunTracks(Initial(name, spec, annotations, replicas), steps);
    TrackedMeansOne(Run(Initial(name, spec, annotations, replicas), steps));
  }

  const ALL_WELL := Outcomes(true, true, true, true, true, true, true, false, true, true, true,
                             true, true, true, true, true, true, true, true, true, true, true)

  const NAME_LOST := ALL_WELL.(storeName := false)

  function Plain(hpaName: string): Spec {
    Spec(hpaName, true, true, false)
  }

  const UNPAUSED := Annotations(false, false)
  const PAUSED := Annotations(true, false)

  /** The proviso is needed: one lost name write, then a rename, and the object owns two HPAs. */
  lemma LostNameGivesTwo(name: string, replicas: int, a: string, b: string)
    requires a != "" && b != "" && a != b
    ensures var w0 := Initial(name, Plain(a), UNPAUSED, replicas);
            var w := Run(w0, [Reconciles(NAME_LOST), EditSpec(Plain(b)), Reconciles(ALL_WELL)]);
            && w.hpas == {a, b} && w.obj.status.hpaName == b
            && w.obj.phase == Present && w.obj.annotations == UNPAUSED
  {
    var w0 := Initial(name, Plain(a), UNPAUSED, replicas);
    var s1, s2, s3 := Reconciles(NAME_LOST), EditSpec(Plain(b)), Reconciles(ALL_WELL);
    RunThree(w0, s1, s2, s3);
    var w1 := Apply(w0, s1);
    assert w1.hpas == {a} && w1.obj.status.hpaName == "" && w1.obj.finalizer && w1.obj.status.initialized;
    assert w1.obj.phase == Present && w1.obj.annotations == UNPAUSED;
    var w3 := Apply(Apply(w1, s2), s3);
    assert w3.hpas == {a, b};
  }

  /** The desired HPA exists, but the status leads to another name. */
  ghost predicate Misled(w: World) {
    DesiredName(w.obj) in w.hpas && NameOnEnsure(w.obj) != DesiredName(w.obj)
  }

  /** No reconcile of such a present, unpaused object can succeed. */
  ghost predicate Stuck(w: World) {
    w.obj.phase == Present && !w.obj.annotations.paused && Misled(w)
  }

  lemma MisledEnsure(w: World, o: Outcomes)
    requires Misled(w)
    ensures !EnsureHpaExists(w, o).ok && Misled(EnsureHpaExists(w, o).w)
  {
    RenamedMeansNotDesired(w.obj, NameOnEnsure(w.obj));
  }

  lemma MisledScale(w: World, o: Outcomes)
    requires Misled(w)
    ensures !Scale(w, o).ok && Misled(Scale(w, o).w)
  {
    var c := CheckTarget(w, o).w;
    CheckTargetFrame(w, o);
    assert Misled(c);
    MisledEnsure(c, o);
  }

  lemma StuckReconcile(w: World, o: Outcomes)
    requires Stuck(w)
    ensures !ReconcileStep(w, o).ok && Stuck(ReconcileStep(w, o).w)
  {
    var p := Prepare(w, o).w;
    PrepareFrame(w, o);
    assert Misled(p);
    MisledScale(p, o);
    ScaleFrame(p, o);
  }

  /** Steps that leave the spec, the annotations and the HPAs to the reconciler. */
  predicate LeftAlone(step: Step) {
    step.Reconciles? || step.ReplicasMove? || step.Restart?
  }

  /** Left alone, it stays stuck through any run, whatever the calls do, and every reconcile fails. */
  lemma {:induction false} StuckForever(w: World, steps: seq<Step>, o: Outcomes)
    requires Stuck(w) && forall i :: 0 <= i < |steps| ==> LeftAlone(steps[i])
    ensures Stuck(Run(w, steps)) && !ReconcileStep(Run(w, steps), o).ok
  {
    if steps != [] {
      var last := steps[|steps| - 1];
      StuckForever(w, steps[..|steps| - 1], if last.Reconciles? then last.o else o);
      if last.Reconciles? {
        StuckReconcile(Run(w, steps[..|steps| - 1]), last.o);
      }
    }
    StuckReconcile(Run(w, steps), o);
  }

  lemma {:induction false} RunConcat(w: World, a: seq<Step>, b: seq<Step>)
    ensures Run(w, a + b) == Run(Run(w, a), b)
  {
    if b == [] {
      assert a + b == a;
    } else {
      var init, last := b[..|b| - 1], b[|b| - 1];
      assert (a + b)[..|a + b| - 1] == a + init;
      RunConcat(w, a, init);
    }
  }

  lemma RunThree(w: World, s1: Step, s2: Step, s3: Step)
    ensures Run(w, [s1, s2, s3]) == Apply(Apply(Apply(w, s1), s2), s3)
  {
    assert [s1, s2, s3][..2] == [s1, s2] && [s1, s2][..1] == [s1] && [s1][..0] == [];
    assert Run(w, []) == w;
    assert Run(w, [s1]) == Apply(w, s1);
    assert Run(w, [s1, s2]) == Apply(Apply(w, s1), s2);
  }

  /** The run that loses the name inside a rename. */
  function LostRename(b: string): seq<Step> {
    [Reconciles(ALL_WELL), EditSpec(Plain(b)), Reconciles(NAME_LOST)]
  }

  lemma LostRenameReachesStuck(name: string, replicas: int, a: string, b: string)
    requires a != "" && b != "" && a != b
    ensures Stuck(Run(Initial(name, Plain(a), UNPAUSED, replicas), LostRename(b)))
  {
    var w0 := Initial(name, Plain(a), UNPAUSED, replicas);
    RunThree(w0, Reconciles(ALL_WELL), EditSpec(Plain(b)), Reconciles(NAME_LOST));
    var w1 := Apply(w0, Reconciles(ALL_WELL));
    assert w1.hpas == {a} && w1.obj.status.hpaName == a && w1.obj.finalizer && w1.obj.status.initialized;
    assert w1.obj.phase == Present && w1.obj.annotations == UNPAUSED;
    var w3 := Apply(Apply(w1, EditSpec(Plain(b))), Reconciles(NAME_LOST));
    assert w3.hpas == {b} && w3.obj.status.hpaName == a;
  }

  /** A rename whose name write is lost gets stuck for good: left alone, every later reconcile fails. */
  lemma LostRenameSticks(name: string, replicas: int, a: string, b: string, more: seq<Step>, o: Outcomes)
    requires a != "" && b != "" && a != b && forall i :: 0 <= i < |more| ==> LeftAlone(more[i])
    ensures !ReconcileStep(Run(Initial(name, Plain(a), UNPAUSED, replicas), LostRename(b) + more), o).ok
  {
    var w0 := Initial(name, Plain(a), UNPAUSED, replicas);
    LostRenameReachesStuck(name, replicas, a, b);
    RunConcat(w0, LostRename(b), more);
    StuckForever(Run(w0, LostRename(b)), more, o);
  }

  /** So does an object with two HPAs whose spec goes back to the name that was lost first. */
  lemma RenameBackSticks(name: string, replicas: int, a: string, b: string, more: seq<Step>, o: Outcomes)
    requires a != "" && b != "" && a != b && forall i :: 0 <= i < |more| ==> LeftAlone(more[i])
    ensures var w0 := Initial(name, Plain(a), UNPAUSED, replicas);
            var lost := [Reconciles(NAME_LOST), EditSpec(Plain(b)), Reconciles(ALL_WELL)];
            !ReconcileStep(Run(w0, lost + ([EditSpec(Plain(a))] + more)), o).ok
  {
    var w0 := Initial(name, Plain(a), UNPAUSED, replicas);
    var lost := [Reconciles(NAME_LOST), EditSpec(Plain(b)), Reconciles(ALL_WELL)];
    var back := EditSpec(Plain(a));
    LostNameGivesTwo(name, replicas, a, b);
    var w3 := Run(w0, lost);
    var w4 := Apply(w3, back);
    assert Stuck(w4);
    RunConcat(w0, lost, [back] + more);
    RunConcat(w3, [back], more);
    assert [back][..0] == [] && Run(w3, []) == w3 && Run(w3, [back]) == w4;
    StuckForever(w4, more, o);
  }

  // ---- What an error-free reconcile reaches --------------------------------

  /** The object is served: the desired HPA exists, is named by the status, and a loop runs for this generation. */
  ghost predicate Served(w: World) {
    && w.obj.phase == Present && w.obj.finalizer && w.obj.status.initialized
    && Serving(w)
  }

  /** The cluster's side of it. */
  ghost predicate Serving(w: World) {
    Recorded(w) && w.loop == Some(w.obj.generation) && w.generations == w.loop
  }

  lemma RenamedMeansNotDesired(obj: ScaledObject, found: string)
    ensures IsHpaRenamed(obj, found) <==> found != DesiredName(obj)
  {
  }

  /** The desired HPA exists and is the one recorded. */
  ghost predicate Recorded(w: World) {
    DesiredName(w.obj) in w.hpas && w.obj.status.hpaName == DesiredName(w.obj)
  }

  lemma CreateReaches(w: World, o: Outcomes)
    ensures CreateAndDeploy(w, o).ok ==> Recorded(CreateAndDeploy(w, o).w)
  {
  }

  lemma EnsureHpaReaches(w: World, o: Outcomes)
    ensures EnsureHpaExists(w, o).ok ==> Recorded(EnsureHpaExists(w, o).w)
  {
    var name := NameOnEnsure(w.obj);
    RenamedMeansNotDesired(w.obj, name);
    CreateReaches(w, o);
    CreateReaches(Delete(w, o, name).w, o);
  }

  lemma ScaleReaches(w: World, o: Outcomes)
    requires w.generations == w.loop
    ensures var d := Scale(w, o);
            d.ok ==> && Serving(d.w)
                     && d.w.obj.phase == w.obj.phase && d.w.obj.finalizer == w.obj.finalizer
                     && d.w.obj.status.initialized == w.obj.status.initialized
  {
    var c := CheckTarget(w, o);
    CheckTargetFrame(w, o);
    EnsureHpaReaches(c.w, o);
    EnsureHpaFrame(c.w, o);
  }

  /** Every error-free reconcile of a present, unpaused object ends with it served. */
  lemma ErrorFreeServes(w: World, o: Outcomes)
    requires Inv(w) && w.obj.phase == Present && !w.obj.annotations.paused && ReconcileStep(w, o).ok
    ensures Served(ReconcileStep(w, o).w)
  {
    PrepareFrame(w, o);
    ScaleReaches(Prepare(w, o).w, o);
  }

  /** If every call succeeds and the spec is valid, the reconcile is error-free exactly when the object is not
      misled. */
  lemma AllWellExact(w: World, differs: bool, known: bool)
    requires w.obj.phase == Present && !w.obj.annotations.paused && w.obj.spec.targetNamed && w.obj.spec.valid
    ensures ReconcileStep(w, ALL_WELL.(targetDiffers := differs, scalableKnown := known)).ok <==> !Misled(w)
  {
    var o := ALL_WELL.(targetDiffers := differs, scalableKnown := known);
    var p := Prepare(w, o);
    PrepareFrame(w, o);
    var c := CheckTarget(p.w, o);
    CheckTargetFrame(p.w, o);
    RenamedMeansNotDesired(c.w.obj, NameOnEnsure(c.w.obj));
  }

  /** An object whose HPAs are tracked is not misled, so nothing gets stuck while created names are stored. */
  lemma TrackedNotMisled(w: World)
    requires Tracked(w)
    ensures !Misled(w)
  {
  }

  /** A second reconcile of a served object, however its calls turn out, attempts nothing and changes nothing of it. */
  lemma SecondReconcileIdle(w: World, o: Outcomes)
    requires Served(w) && !w.obj.annotations.paused
    ensures var v := ReconcileStep(w, o).w;
            && v.calls == w.calls && v.hpas == w.hpas && v.loop == w.loop && v.generations == w.generations && Served(v)
  {
    assert Prepare(w, o) == Done(w, true);
    IdleScale(w, o);
  }

  lemma IdleScale(w: World, o: Outcomes)
    requires Served(w)
    ensures var v := Scale(w, o).w;
            && v.calls == w.calls && v.hpas == w.hpas && v.loop == w.loop && v.generations == w.generations && Served(v)
  {
    var c := CheckTarget(w, o).w;
    CheckTargetFrame(w, o);
    assert Served(c);
    RenamedMeansNotDesired(c.obj, DesiredName(c.obj));
    assert EnsureHpaExists(c, o).w == c;
  }

  // ---- Exactly when, and what, a reconcile does ----------------------------

  /** The finalizer and the initial conditions are in place. */
  predicate Prepared(w: World, o: Outcomes) {
    o.getObject && (w.obj.finalizer || o.addFinalizer) && (w.obj.status.initialized || o.initConditions)
  }

  /** The scale target is checked and, where something about it is not recorded yet, recorded. */
  predicate TargetChecked(w: World, o: Outcomes) {
    var unrecorded := o.targetDiffers || !w.obj.status.gvkr || w.obj.status.original.None?;
    && w.obj.spec.targetNamed && o.addLabel && o.parseTarget
    && (o.getScale || (o.scalableKnown && !unrecorded)) && (o.targetStatus || !unrecorded)
  }

  /** The reconcile comes as far as the HPA. */
  predicate ReachesHpa(w: World, o: Outcomes) {
    Prepared(w, o) && TargetChecked(w, o) && w.obj.spec.valid && o.triggerStatus
  }

  /** The HPA that the status leads to, by the object's fields. */
  predicate LeadsTo(w: World, name: string) {
    if w.obj.status.hpaName != "" then name == w.obj.status.hpaName
    else name == if w.obj.spec.hpaName != "" then w.obj.spec.hpaName else "keda-hpa-" + w.obj.name
  }

  predicate Desires(w: World, name: string) {
    name == if w.obj.spec.hpaName != "" then w.obj.spec.hpaName else "keda-hpa-" + w.obj.name
  }

  lemma NamesExact(w: World, led: string, desired: string)
    requires LeadsTo(w, led) && Desires(w, desired)
    ensures NameOnEnsure(w.obj) == led && DesiredName(w.obj) == desired
    ensures IsHpaRenamed(w.obj, led) <==> led != desired
  {
  }

  /** The HPAs afterwards: the one led to goes if it is not the desired one, and the desired one comes if the one led to
      is missing or gone. */
  function HpasAfter(hpas: set<string>, led: string, desired: string, o: Outcomes): set<string> {
    if led == desired && led in hpas then hpas else
      var kept := if led in hpas && o.deleteHpa then hpas - {led} else hpas;
      if (led !in hpas || o.deleteHpa) && o.buildHpa && o.createHpa then kept + {desired} else kept
  }

  /** The calls on the HPA all succeed; a second HPA of the desired name is refused. */
  predicate HpaOk(w: World, led: string, desired: string, o: Outcomes) {
    && o.getHpa && o.buildHpa
    && (if led == desired && led in w.hpas then o.updateHpa && (w.obj.status.hpaName == led || o.storeName)
        else o.createHpa && o.storeName && desired !in w.hpas && (led !in w.hpas || o.deleteHpa))
  }

  lemma EnsureHpaExact(w: World, o: Outcomes, led: string, desired: string)
    requires LeadsTo(w, led) && Desires(w, desired)
    ensures var e := EnsureHpaExists(w, o);
            && (e.ok <==> HpaOk(w, led, desired, o))
            && (e.ok ==> (e.created <==> !(led == desired && led in w.hpas)))
            && e.w.hpas == if o.getHpa then HpasAfter(w.hpas, led, desired, o) else w.hpas
  {
    NamesExact(w, led, desired);
  }

  lemma CheckTargetExact(w: World, o: Outcomes)
    requires w.obj.spec.targetNamed && o.addLabel
    ensures var c := CheckTarget(w, o);
            && (c.ok <==> TargetChecked(w, o))
            && (c.ok ==> c.w.obj.status.gvkr && c.w.obj.status.original.Some?)
            && (!c.ok ==> c.w == w)
  {
  }

  /** Checking the target changes nothing that the rest depends on. */
  lemma CheckTargetKeeps(w: World, o: Outcomes, led: string, desired: string)
    requires LeadsTo(w, led) && Desires(w, desired)
    ensures var v := CheckTarget(w, o).w;
            && LeadsTo(v, led) && Desires(v, desired) && v.hpas == w.hpas
            && (HpaOk(v, led, desired, o) <==> HpaOk(w, led, desired, o))
            && v.generations == w.generations && v.obj.generation == w.obj.generation && v.obj.spec == w.obj.spec
  {
    CheckTargetFrame(w, o);
  }

  /** A loop is needed: an HPA gets created, or none runs for this generation. */
  predicate LoopNeeded(w: World, led: string, desired: string) {
    !(led == desired && led in w.hpas) || w.generations != Some(w.obj.generation)
  }

  lemma StartExact(w: World, o: Outcomes, led: string, desired: string)
    requires LeadsTo(w, led) && Desires(w, desired) && EnsureHpaExists(w, o).ok
    ensures StartLoopIfNeeded(EnsureHpaExists(w, o), o).ok <==> o.startLoop || !LoopNeeded(w, led, desired)
  {
    EnsureHpaExact(w, o, led, desired);
    EnsureHpaFrame(w, o);
  }

  lemma ScaleSucceeds(w: World, o: Outcomes, led: string, desired: string)
    requires LeadsTo(w, led) && Desires(w, desired)
    ensures Scale(w, o).ok <==>
            && TargetChecked(w, o) && w.obj.spec.valid && o.triggerStatus && HpaOk(w, led, desired, o)
            && (o.startLoop || !LoopNeeded(w, led, desired))
  {
    if w.obj.spec.targetNamed && o.addLabel {
      var v := CheckTarget(w, o).w;
      CheckTargetExact(w, o);
      CheckTargetKeeps(w, o, led, desired);
      EnsureHpaExact(v, o, led, desired);
      if EnsureHpaExists(v, o).ok {
        StartExact(v, o, led, desired);
      }
    }
  }

  lemma StartKeepsHpas(e: Ensured, o: Outcomes)
    ensures StartLoopIfNeeded(e, o).w.hpas == e.w.hpas && StartLoopIfNeeded(e, o).w.obj == e.w.obj
  {
  }

  lemma ScaleHpas(w: World, o: Outcomes, led: string, desired: string)
    requires LeadsTo(w, led) && Desires(w, desired)
    ensures Scale(w, o).w.hpas == if TargetChecked(w, o) && w.obj.spec.valid && o.triggerStatus && o.getHpa
                                  then HpasAfter(w.hpas, led, desired, o) else w.hpas
  {
    if w.obj.spec.targetNamed && o.addLabel {
      var v := CheckTarget(w, o).w;
      CheckTargetExact(w, o);
      CheckTargetKeeps(w, o, led, desired);
      EnsureHpaExact(v, o, led, desired);
      StartKeepsHpas(EnsureHpaExists(v, o), o);
    }
  }

  lemma ScaleRecords(w: World, o: Outcomes)
    ensures var v := Scale(w, o).w;
            if TargetChecked(w, o) then v.obj.status.gvkr && v.obj.status.original.Some? else v == w
  {
    if w.obj.spec.targetNamed && o.addLabel {
      CheckTargetExact(w, o);
      EnsureHpaFrame(CheckTarget(w, o).w, o);
      StartKeepsHpas(EnsureHpaExists(CheckTarget(w, o).w, o), o);
    }
  }

  /** Preparing changes nothing that the rest depends on. */
  lemma PrepareKeeps(w: World, o: Outcomes, led: string, desired: string)
    requires LeadsTo(w, led) && Desires(w, desired)
    ensures var v := Prepare(w, o).w;
            && LeadsTo(v, led) && Desires(v, desired) && v.hpas == w.hpas
            && (TargetChecked(v, o) <==> TargetChecked(w, o))
            && (HpaOk(v, led, desired, o) <==> HpaOk(w, led, desired, o))
            && (LoopNeeded(v, led, desired) <==> LoopNeeded(w, led, desired)) && v.obj.spec == w.obj.spec
  {
    PrepareFrame(w, o);
  }

  /** Exactly when a reconcile of a present, unpaused object succeeds. */
  lemma ReconcileSucceedsExactly(w: World, o: Outcomes, led: string, desired: string)
    requires w.obj.phase == Present && !w.obj.annotations.paused && LeadsTo(w, led) && Desires(w, desired)
    ensures ReconcileStep(w, o).ok <==>
            && ReachesHpa(w, o) && HpaOk(w, led, desired, o) && (o.startLoop || !LoopNeeded(w, led, desired))
            && o.finalStatus
  {
    PrepareFrame(w, o);
    PrepareKeeps(w, o, led, desired);
    ScaleSucceeds(Prepare(w, o).w, o, led, desired);
  }

  /** Which HPAs it leaves. */
  lemma ReconcileHpasExactly(w: World, o: Outcomes, led: string, desired: string)
    requires w.obj.phase == Present && !w.obj.annotations.paused && LeadsTo(w, led) && Desires(w, desired)
    ensures ReconcileStep(w, o).w.hpas
         == if ReachesHpa(w, o) && o.getHpa then HpasAfter(w.hpas, led, desired, o) else w.hpas
  {
    PrepareFrame(w, o);
    PrepareKeeps(w, o, led, desired);
    ScaleHpas(Prepare(w, o).w, o, led, desired);
  }

  /** When it records the scale target and the original count; up to there nothing is attempted. */
  lemma ReconcileRecordsExactly(w: World, o: Outcomes)
    requires w.obj.phase == Present && !w.obj.annotations.paused
    ensures var v := ReconcileStep(w, o).w;
            && (if Prepared(w, o) && TargetChecked(w, o) then v.obj.status.gvkr && v.obj.status.original.Some?
                else && v.obj.status.gvkr == w.obj.status.gvkr && v.obj.status.original == w.obj.status.original
                     && v.loop == w.loop && v.calls == w.calls)
            && (!o.getObject ==> v == w)
  {
    PrepareFrame(w, o);
    ScaleRecords(Prepare(w, o).w, o);
  }

  /** Exactly when a reconcile of a present, annotated object succeeds. */
  lemma PausedReconcileExact(w: World, o: Outcomes, led: string)
    requires w.obj.phase == Present && w.obj.annotations.paused && LeadsTo(w, led)
    ensures ReconcileStep(w, o).ok <==>
            && Prepared(w, o) && o.finalStatus
            && ((w.obj.status.initialized && w.obj.status.paused)
                || (o.pauseStatus && o.stopLoop && o.getHpa && (led !in w.hpas || o.deleteHpa)))
  {
    PrepareFrame(w, o);
  }

  lemma ErrorFreeLoop(w: World, o: Outcomes)
    requires Inv(w) && w.obj.phase == Present && !w.obj.annotations.paused && ReconcileStep(w, o).ok
    ensures ReconcileStep(w, o).w.loop == Some(w.obj.generation)
  {
    ErrorFreeServes(w, o);
    PresentFrame(w, o);
  }

  /** A change of the spec gives an unpaused object a loop for the new generation. */
  lemma EditRestartsLoop(w: World, spec: Spec, o: Outcomes)
    requires Inv(w) && w.obj.phase == Present && !w.obj.annotations.paused
    requires ReconcileStep(Apply(w, EditSpec(spec)), o).ok
    ensures ReconcileStep(Apply(w, EditSpec(spec)), o).w.loop == Some(w.obj.generation + 1)
  {
    var u := Apply(w, EditSpec(spec));
    assert Inv(u) && u.obj.generation == w.obj.generation + 1;
    ErrorFreeLoop(u, o);
  }

  // ---- Pausing -------------------------------------------------------------

  ghost predicate Quiet(w: World) {
    w.loop == None && w.hpas == {}
  }

  /** The entering reconcile gets as far as stopping the loop. */
  predicate EntersPause(w: World, o: Outcomes) {
    && w.obj.phase == Present && o.getObject && w.obj.annotations.paused
    && (w.obj.finalizer || o.addFinalizer) && (w.obj.status.initialized || o.initConditions)
    && !(w.obj.status.initialized && w.obj.status.paused) && o.pauseStatus
  }

  /** Deleting the HPA that the status leads to leaves none. */
  predicate DeletesAll(w: World, o: Outcomes) {
    w.hpas == {} || (w.hpas == {NameOnEnsure(w.obj)} && o.getHpa && o.deleteHpa)
  }

  lemma EnterPauseQuiets(w: World, o: Outcomes)
    ensures Quiet(EnterPause(w, o).w) <==> Quiet(w) || (o.pauseStatus && o.stopLoop && DeletesAll(w, o))
  {
    var name := NameOnEnsure(w.obj);
    assert w.hpas - {name} == {} <==> w.hpas == {} || w.hpas == {name};
  }

  /** A reconcile of an annotated object leaves no HPA and no loop exactly when there was none, or it entered the
      pause now, the loop stopped, and the object owned no HPA or only the one its status leads to, which was found
      and deleted. */
  lemma PauseQuietsExactly(w: World, o: Outcomes)
    requires w.obj.phase == Present && w.obj.annotations.paused
    ensures Quiet(ReconcileStep(w, o).w) <==> Quiet(w) || (EntersPause(w, o) && o.stopLoop && DeletesAll(w, o))
  {
    var p := Prepare(w, o);
    PrepareFrame(w, o);
    EnterPauseQuiets(p.w, o);
  }

  lemma EnteredAndQuiet(w: World, o: Outcomes)
    requires EntersPause(w, o) && o.stopLoop && DeletesAll(w, o)
    ensures PausedAndQuiet(ReconcileStep(w, o).w)
  {
    PauseQuietsExactly(w, o);
    PrepareFrame(w, o);
    EnterPauseFrame(Prepare(w, o).w, o);
  }

  /** While created names are stored, the object owns no HPA but the one its status leads to. */
  lemma TrackedDeletesAll(w: World, o: Outcomes)
    requires Tracked(w) && o.getHpa && o.deleteHpa
    ensures DeletesAll(w, o)
  {
    if w.hpas != {} {
      var h :| h in w.hpas;
      assert w.hpas == {h};
    }
  }

  /** Steps that leave the paused annotation in place. */
  predicate StaysPaused(step: Step) {
    step.Annotate? ==> step.annotations.paused
  }

  ghost predicate PausedAndQuiet(w: World) {
    w.obj.annotations.paused && w.obj.status.paused && w.obj.status.initialized && Quiet(w)
  }

  lemma PausedQuietStep(w: World, step: Step)
    requires PausedAndQuiet(w) && StaysPaused(step)
    ensures PausedAndQuiet(Apply(w, step))
  {
  }

  /** Once quiet, the object stays without HPA and loop through every run until the annotation is removed. */
  lemma {:induction false} PauseHolds(w: World, steps: seq<Step>)
    requires PausedAndQuiet(w) && forall i :: 0 <= i < |steps| ==> StaysPaused(steps[i])
    ensures PausedAndQuiet(Run(w, steps))
  {
    if steps != [] {
      PauseHolds(w, steps[..|steps| - 1]);
      PausedQuietStep(Run(w, steps[..|steps| - 1]), steps[|steps| - 1]);
    }
  }

  /** The pause round trip: enter the pause, anything while paused, annotation removed, a reconcile whose loop request
      may fail, then an error-free reconcile: the HPA of the now desired name and the loop are back. Unless the name
      of a created HPA is lost, no error stands in the way of that reconcile. */
  lemma PauseRoundTrip(w: World, enter: Outcomes, during: seq<Step>, after: Annotations, first: Outcomes,
                       second: Outcomes)
    requires Inv(w) && EntersPause(w, enter) && enter.stopLoop && DeletesAll(w, enter)
    requires forall i :: 0 <= i < |during| ==> StaysPaused(during[i])
    requires !after.paused
    ensures var p := Run(ReconcileStep(w, enter).w, during);
            var u := Apply(p, Annotate(after));
            var v := ReconcileStep(u, first).w;
            && Quiet(p)
            && (p.obj.phase == Present && ReconcileStep(v, second).ok ==> Served(ReconcileStep(v, second).w))
            && ((first.createHpa ==> first.storeName) ==> !Misled(v))
  {
    var q := ReconcileStep(w, enter).w;
    EnteredAndQuiet(w, enter);
    PauseHolds(q, during);
    ReconcileKeepsInv(w, enter);
    RunKeepsInv(q, during);
    var p := Run(q, during);
    var u := Apply(p, Annotate(after));
    assert Inv(u);
    ReconcileKeepsInv(u, first);
    var v := ReconcileStep(u, first).w;
    if p.obj.phase == Present && ReconcileStep(v, second).ok {
      PresentFrame(u, first);
      ErrorFreeServes(v, second);
    }
    if first.createHpa ==> first.storeName {
      ReconcileTracks(u, first);
      TrackedNotMisled(v);
    }
  }

  /** An error-free reconcile leaves the Paused condition as the annotations say. */
  lemma ConditionFollowsAnnotations(w: World, o: Outcomes)
    requires w.obj.phase == Present && ReconcileStep(w, o).ok
    ensures ReconcileStep(w, o).w.obj.status.paused <==> w.obj.annotations.paused || w.obj.annotations.pausedOneWay
  {
    PrepareFrame(w, o);
    assert NextPaused(Prepare(w, o).w.obj) == NextPaused(w.obj);
  }

  /** An error-free reconcile without any pause annotation clears the condition, so the next pause is entered as soon as
      its own status write goes through. */
  lemma UnpauseRearms(w: World, o: Outcomes, again: Annotations, enter: Outcomes)
    requires Inv(w) && w.obj.phase == Present && w.obj.annotations == Annotations(false, false) &&
             ReconcileStep(w, o).ok
    requires again.paused
    ensures var u := Apply(ReconcileStep(w, o).w, Annotate(again));
            EntersPause(u, enter) <==> enter.getObject && enter.pauseStatus
  {
    ErrorFreeServes(w, o);
    ConditionFollowsAnnotations(w, o);
  }

  /** The Paused condition is already true when the annotation is seen. */
  ghost predicate TakenForPaused(w: World) {
    w.obj.phase == Present && w.obj.annotations.paused && w.obj.status.paused && w.obj.status.initialized
  }

  lemma TakenForPausedIdles(w: World, o: Outcomes)
    requires TakenForPaused(w)
    ensures var v := ReconcileStep(w, o).w;
            TakenForPaused(v) && v.hpas == w.hpas && v.loop == w.loop && v.calls == w.calls
  {
  }

  /** Then nothing is stopped or deleted, ever. */
  lemma {:induction false} PausedConditionSkipsStop(w: World, os: seq<Outcomes>)
    requires TakenForPaused(w)
    ensures var v := Run(w, seq(|os|, i requires 0 <= i < |os| => Reconciles(os[i])));
            TakenForPaused(v) && v.hpas == w.hpas && v.loop == w.loop && v.calls == w.calls
  {
    var steps := seq(|os|, i requires 0 <= i < |os| => Reconciles(os[i]));
    if os != [] {
      var rest := os[..|os| - 1];
      PausedConditionSkipsStop(w, rest);
      assert steps[..|steps| - 1] == seq(|rest|, i requires 0 <= i < |rest| => Reconciles(rest[i]));
      TakenForPausedIdles(Run(w, steps[..|steps| - 1]), os[|os| - 1]);
    }
  }

  /** From scratch, through any run in which created names are stored: if the pause is then entered and its calls go
      through, no HPA and no loop exist until the annotation is removed. */
  lemma PauseFromScratch(name: string, spec: Spec, annotations: Annotations, replicas: int, before: seq<Step>,
                         enter: Outcomes, during: seq<Step>)
    requires NamesStored(before) && forall i :: 0 <= i < |during| ==> StaysPaused(during[i])
    requires EntersPause(Run(Initial(name, spec, annotations, replicas), before), enter)
    requires enter.stopLoop && enter.getHpa && enter.deleteHpa
    ensures var w := Run(Initial(name, spec, annotations, replicas), before);
            Quiet(Run(ReconcileStep(w, enter).w, during))
  {
    var w := Run(Initial(name, spec, annotations, replicas), before);
    RunTracks(Initial(name, spec, annotations, replicas), before);
    TrackedDeletesAll(w, enter);
    EnteredAndQuiet(w, enter);
    PauseHolds(ReconcileStep(w, enter).w, during);
  }

  /** The paused annotation set on a served object, one entering reconcile, then any number of reconciles. */
  function PausedAfter(w: World, enter: Outcomes, os: seq<Outcomes>): World {
    var entered := ReconcileStep(Apply(w, Annotate(PAUSED)), enter).w;
    Run(entered, seq(|os|, i requires 0 <= i < |os| => Reconciles(os[i])))
  }

  /** If stopping the loop fails on the entering reconcile, loop and HPA stay for good. */
  lemma FailedStopDefeatsPause(w: World, enter: Outcomes, os: seq<Outcomes>)
    requires Served(w) && !w.obj.status.paused && enter.getObject && enter.pauseStatus && !enter.stopLoop
    ensures PausedAfter(w, enter, os).loop == w.loop && PausedAfter(w, enter, os).hpas == w.hpas
  {
    PausedConditionSkipsStop(ReconcileStep(Apply(w, Annotate(PAUSED)), enter).w, os);
  }

  /** If finding or deleting the HPA fails, the HPA stays for good. */
  lemma FailedDeleteDefeatsPause(w: World, enter: Outcomes, os: seq<Outcomes>)
    requires Served(w) && !w.obj.status.paused && enter.getObject && enter.pauseStatus && enter.stopLoop
    requires !enter.getHpa || !enter.deleteHpa
    ensures PausedAfter(w, enter, os).loop == None && PausedAfter(w, enter, os).hpas == w.hpas
  {
    PausedConditionSkipsStop(ReconcileStep(Apply(w, Annotate(PAUSED)), enter).w, os);
  }

  /** If the first condition write fails, nothing is stopped, the closing write still persists the condition, and loop
      and HPA stay for good. */
  lemma FailedConditionDefeatsPause(w: World, enter: Outcomes, os: seq<Outcomes>)
    requires Served(w) && !w.obj.status.paused && enter.getObject && !enter.pauseStatus && enter.finalStatus
    ensures PausedAfter(w, enter, os).loop == w.loop && PausedAfter(w, enter, os).hpas == w.hpas
  {
    PausedConditionSkipsStop(ReconcileStep(Apply(w, Annotate(PAUSED)), enter).w, os);
  }

  /** An HPA whose name was lost survives a pause in which no call fails, and every reconcile after it. */
  lemma LostNameSurvivesPause(name: string, replicas: int, a: string, b: string, os: seq<Outcomes>)
    requires a != "" && b != "" && a != b
    ensures var w0 := Initial(name, Plain(a), UNPAUSED, replicas);
            var w3 := Run(w0, [Reconciles(NAME_LOST), EditSpec(Plain(b)), Annotate(PAUSED)]);
            var entered := ReconcileStep(w3, ALL_WELL);
            && EntersPause(w3, ALL_WELL) && entered.ok
            && Run(entered.w, seq(|os|, i requires 0 <= i < |os| => Reconciles(os[i]))).hpas == {a}
  {
    var w0 := Initial(name, Plain(a), UNPAUSED, replicas);
    var s1, s2, s3 := Reconciles(NAME_LOST), EditSpec(Plain(b)), Annotate(PAUSED);
    RunThree(w0, s1, s2, s3);
    var w1 := Apply(w0, s1);
    assert w1.hpas == {a} && w1.obj.status.hpaName == "" && w1.obj.finalizer && w1.obj.status.initialized;
    assert w1.obj.phase == Present && !w1.obj.status.paused;
    var w3 := Apply(Apply(w1, s2), s3);
    var w4 := ReconcileStep(w3, ALL_WELL).w;
    assert w4.hpas == {a} && w4.obj.status.paused && w4.obj.status.initialized && w4.obj.annotations.paused;
    PausedConditionSkipsStop(w4, os);
  }

  /** A one-way pause followed by a full pause ends that way: the HPA and the loop keep running. */
  lemma OneWayPauseDefeatsPause(w: World, o: Outcomes, os: seq<Outcomes>)
    requires Inv(w) && w.obj.phase == Present && w.obj.annotations == Annotations(false, true) && ReconcileStep(w, o).ok
    ensures var u := Apply(ReconcileStep(w, o).w, Annotate(Annotations(true, true)));
            var v := Run(u, seq(|os|, i requires 0 <= i < |os| => Reconciles(os[i])));
            v.obj.annotations.paused && v.loop == Some(u.obj.generation) && DesiredName(u.obj) in v.hpas
  {
    ErrorFreeServes(w, o);
    var u := Apply(ReconcileStep(w, o).w, Annotate(Annotations(true, true)));
    assert u.obj.status.paused;
    PausedConditionSkipsStop(u, os);
  }
}
