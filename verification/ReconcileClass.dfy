/**
 The reconciler as it runs: cluster state, persisted status, generation entry and
 scale loop are fields that each method changes in place. Every method is proved
 against the function of the same name on `World` values, so the theorems about
 runs are theorems about these methods.
 */
module ReconcileClass {
  import opened Common
  import opened Reconcile
  import R = Reconcile
  import opened ReconcileTheorems

  lemma UnpausedResults(w: World, o: Outcomes)
    requires Inv(w) && w.obj.phase == Present && !w.obj.annotations.paused
    ensures var d := ReconcileStep(w, o);
            && (d.ok ==> Served(d.w))
            && (Served(w) ==> Served(d.w) && d.w.calls == w.calls && d.w.hpas == w.hpas)
            && (Stuck(w) ==> !d.ok && Stuck(d.w))
  {
    if ReconcileStep(w, o).ok {
      ErrorFreeServes(w, o);
    }
    if Served(w) {
      SecondReconcileIdle(w, o);
    }
    if Stuck(w) {
      StuckReconcile(w, o);
    }
  }

  class ScaledObjectReconciler {
    var obj: ScaledObject
    var hpas: set<string>
    var replicas: int
    var generations: Option<int>
    var loop: Option<int>
    var calls: seq<Call>

    ghost function State(): World
      reads this
    {
      World(obj, hpas, replicas, generations, loop, calls)
    }

    constructor (name: string, spec: Spec, annotations: Annotations, count: int)
      ensures State() == Initial(name, spec, annotations, count)
    {
      obj := ScaledObject(name, spec, annotations, 1, Present, false, NO_STATUS);
      hpas, replicas, generations, loop, calls := {}, count, None, None, [];
    }

    method EnsureFinalizer(o: Outcomes) returns (ok: bool)
      modifies this`obj
      ensures Done(State(), ok) == R.EnsureFinalizer(old(State()), o)
      ensures ok <==> obj.finalizer
    {
      ok := true;
      if !obj.finalizer {
        ok := o.addFinalizer;
        if ok {
          obj := obj.(finalizer := true);
        }
      }
    }

    method InitConditions(o: Outcomes) returns (ok: bool)
      modifies this`obj
      ensures Done(State(), ok) == R.InitConditions(old(State()), o)
    {
      ok := true;
      if !obj.status.initialized {
        ok := o.initConditions;
        if ok {
          obj := obj.(status := obj.status.(initialized := true, paused := false));
        }
      }
    }

    method StopScaleLoop(o: Outcomes) returns (ok: bool)
      modifies this`loop, this`generations, this`calls
      ensures Done(State(), ok) == R.StopScaleLoop(old(State()), o)
      ensures calls == old(calls) + [StopLoop] && (if ok then loop == None else loop == old(loop))
    {
      calls := calls + [StopLoop];
      ok := o.stopLoop;
      if ok {
        loop := None;
        generations := None;
      }
    }

    method RequestScaleLoop(o: Outcomes) returns (ok: bool)
      modifies this`loop, this`generations, this`calls
      ensures Done(State(), ok) == R.RequestScaleLoop(old(State()), o)
      ensures calls == old(calls) + [StartLoop(obj.generation)]
      ensures if ok then loop == Some(obj.generation) else loop == old(loop)
    {
      calls := calls + [StartLoop(obj.generation)];
      ok := o.startLoop;
      if ok {
        loop := Some(obj.generation);
        generations := Some(obj.generation);
      }
    }

    method CheckTarget(o: Outcomes) returns (ok: bool)
      modifies this`obj
      ensures Done(State(), ok) == R.CheckTarget(old(State()), o)
    {
      if !o.parseTarget {
        return false;
      }
      var wantUpdate := o.targetDiffers || !obj.status.gvkr || obj.status.original.None?;
      if (!o.scalableKnown || wantUpdate) && !o.getScale {
        return false;
      }
      ok := true;
      if wantUpdate {
        var status := obj.status;
        if o.targetDiffers || !obj.status.gvkr {
          status := status.(gvkr := true);
        }
        if obj.status.original.None? {
          status := status.(original := Some(replicas));
        }
        ok := o.targetStatus;
        if ok {
          obj := obj.(status := status);
        }
      }
    }

    method StoreHpaName(o: Outcomes, name: string) returns (ok: bool)
      modifies this`obj
      ensures Done(State(), ok) == R.StoreHpaName(old(State()), o, name)
    {
      ok := o.storeName;
      if ok {
        obj := obj.(status := obj.status.(hpaName := name));
      }
    }

    /** Success means present and recorded; a failure that leaves an HPA behind is one whose name was not stored. */
    method CreateAndDeploy(o: Outcomes) returns (ok: bool)
      modifies this`obj, this`hpas, this`calls
      ensures Done(State(), ok) == R.CreateAndDeploy(old(State()), o)
      ensures ok ==> DesiredName(obj) in hpas && obj.status.hpaName == DesiredName(obj)
      ensures !ok ==> obj == old(obj) && (hpas == old(hpas) || (!o.storeName && hpas == old(hpas) + {DesiredName(obj)}))
      ensures DesiredName(obj) in old(hpas) ==> !ok
      ensures calls == if o.buildHpa then old(calls) + [CreateHPA(DesiredName(obj))] else old(calls)
    {
      var name := DesiredName(obj);
      if !o.buildHpa {
        return false;
      }
      calls := calls + [CreateHPA(name)];
      if !o.createHpa || name in hpas {
        return false;
      }
      hpas := hpas + {name};
      ok := StoreHpaName(o, name);
    }

    method Delete(o: Outcomes, name: string) returns (ok: bool)
      modifies this`hpas, this`calls
      ensures Done(State(), ok) == R.Delete(old(State()), o, name)
      ensures calls == old(calls) + [DeleteHPA(name)] && hpas == if ok then old(hpas) - {name} else old(hpas)
    {
      calls := calls + [DeleteHPA(name)];
      ok := o.deleteHpa;
      if ok {
        hpas := hpas - {name};
      }
    }

    /** Also keeps track of the HPA, except in the one case where the name of a created HPA is lost. */
    method EnsureHpaExists(o: Outcomes) returns (ok: bool, created: bool)
      modifies this`obj, this`hpas, this`calls
      ensures Ensured(State(), ok, created) == R.EnsureHpaExists(old(State()), o)
      ensures old(Tracked(State())) ==> (Tracked(State()) <==> !LosesTrack(old(State()), o))
    {
      ghost var was := State();
      ok, created := EnsureHpa(o);
      if Tracked(was) {
        EnsureHpaTracksExactly(was, o);
      }
    }

    method EnsureHpa(o: Outcomes) returns (ok: bool, created: bool)
      modifies this`obj, this`hpas, this`calls
      ensures Ensured(State(), ok, created) == R.EnsureHpaExists(old(State()), o)
    {
      var name := NameOnEnsure(obj);
      ok, created := false, false;
      if !o.getHpa {
        return;
      }
      if name !in hpas {
        ok := CreateAndDeploy(o);
        created := ok;
        return;
      }
      if IsHpaRenamed(obj, name) {
        ok := Delete(o, name);
        if ok {
          ok := CreateAndDeploy(o);
          created := ok;
        }
        return;
      }
      ok := o.buildHpa && o.updateHpa;
      if ok && obj.status.hpaName != name {
        ok := StoreHpaName(o, name);
      }
    }

    /** Success means that the HPA looked up is gone; none remains exactly when there was no other. */
    method EnsureHpaDeleted(o: Outcomes) returns (ok: bool)
      modifies this`hpas, this`calls
      ensures Done(State(), ok) == R.EnsureHpaDeleted(old(State()), o)
      ensures ok <==> o.getHpa && NameOnEnsure(obj) !in hpas
      ensures hpas == {} <==> DeletesAll(old(State()), o)
    {
      var name := NameOnEnsure(obj);
      if !o.getHpa {
        return false;
      }
      ok := true;
      if name in hpas {
        ok := Delete(o, name);
        assert old(hpas) - {name} == {} <==> old(hpas) == {name};
      }
    }

    /** Success means that the object is being served. */
    method Scale(o: Outcomes) returns (ok: bool)
      modifies this`obj, this`hpas, this`loop, this`generations, this`calls
      ensures Done(State(), ok) == R.Scale(old(State()), o)
      ensures ok && old(generations == loop) ==> Serving(State())
      ensures old(Misled(State())) ==> !ok && Misled(State())
    {
      ghost var was := State();
      ok := ScaleBody(o);
      if was.generations == was.loop {
        ScaleReaches(was, o);
      }
      if Misled(was) {
        MisledScale(was, o);
      }
    }

    method ScaleBody(o: Outcomes) returns (ok: bool)
      modifies this`obj, this`hpas, this`loop, this`generations, this`calls
      ensures Done(State(), ok) == R.Scale(old(State()), o)
    {
      if !obj.spec.targetNamed || !o.addLabel {
        return false;
      }
      var valid := obj.spec.valid;
      ok := CheckTarget(o);
      if !ok || !valid || !o.triggerStatus {
        return false;
      }
      var created;
      ok, created := EnsureHpaExists(o);
      if !ok {
        return;
      }
      if created || generations != Some(obj.generation) {
        ok := RequestScaleLoop(o);
      }
    }

    /** Nothing is left running exactly when nothing was, or every call went through and there was no unnamed HPA. */
    method EnterPause(o: Outcomes) returns (ok: bool)
      modifies this`obj, this`hpas, this`loop, this`generations, this`calls
      ensures Done(State(), ok) == R.EnterPause(old(State()), o)
      ensures Quiet(State()) <==> old(Quiet(State())) || (o.pauseStatus && o.stopLoop && DeletesAll(old(State()), o))
    {
      EnterPauseQuiets(State(), o);
      if !o.pauseStatus {
        return false;
      }
      obj := obj.(status := obj.status.(paused := true));
      ok := StopScaleLoop(o);
      if ok {
        ok := EnsureHpaDeleted(o);
      }
    }

    method ReconcileScaledObject(o: Outcomes) returns (ok: bool)
      modifies this`obj, this`hpas, this`loop, this`generations, this`calls
      ensures Done(State(), ok) == ReconcileObject(old(State()), o)
    {
      if !obj.annotations.paused {
        ok := Scale(o);
      } else if obj.status.paused {
        ok := true;
      } else {
        ok := EnterPause(o);
      }
    }

    /** The unguarded dereference of the original count is safe in every state of a run. */
    method FinalizeScaledObject(o: Outcomes) returns (ok: bool)
      requires Inv(State())
      modifies this`obj, this`replicas, this`loop, this`generations, this`calls
      ensures Done(State(), ok) == Finalize(old(State()), o)
      ensures replicas == if old(obj).finalizer && o.stopLoop && old(obj).spec.restoreOriginal && old(obj).status.gvkr
                             && o.getScale && o.scaleUpdate
                          then old(obj).status.original.value else old(replicas)
    {
      if !obj.finalizer {
        return true;
      }
      ok := StopScaleLoop(o);
      if !ok {
        return;
      }
      if obj.spec.restoreOriginal && obj.status.gvkr && o.getScale {
        var original := obj.status.original.value;
        if o.scaleUpdate {
          replicas := original;
        }
      }
      ok := o.removeFinalizer;
      if ok {
        obj := obj.(finalizer := false, phase := Gone);
      }
    }

    /** One reconcile, from the outside: what every run keeps, what success means, and when nothing is left running. */
    method Reconcile(o: Outcomes) returns (ok: bool)
      requires Inv(State())
      modifies this
      ensures Done(State(), ok) == ReconcileStep(old(State()), o)
      ensures Inv(State())
      ensures old(Tracked(State())) && (o.createHpa ==> o.storeName) ==> Tracked(State())
      ensures ok && old(obj.phase == Present && !obj.annotations.paused) ==> Served(State())
      ensures old(Served(State()) && !obj.annotations.paused) ==>
              Served(State()) && calls == old(calls) && hpas == old(hpas)
      ensures old(Stuck(State())) ==> !ok && Stuck(State())
      ensures old(obj.phase == Present && obj.annotations.paused) ==>
                (Quiet(State()) <==>
                 old(Quiet(State())) || (EntersPause(old(State()), o) && o.stopLoop && DeletesAll(old(State()), o)))
    {
      ghost var was := State();
      ok := ReconcileBody(o);
      ReconcileKeepsInv(was, o);
      if Tracked(was) && (o.createHpa ==> o.storeName) {
        ReconcileTracks(was, o);
      }
      if was.obj.phase == Present && was.obj.annotations.paused {
        PauseQuietsExactly(was, o);
      }
      if was.obj.phase == Present && !was.obj.annotations.paused {
        UnpausedResults(was, o);
      }
    }

    method ReconcileBody(o: Outcomes) returns (ok: bool)
      requires Inv(State())
      modifies this
      ensures Done(State(), ok) == ReconcileStep(old(State()), o)
    {
      if obj.phase == Gone {
        return true;
      }
      if !o.getObject {
        return false;
      }
      if obj.phase == Deleting {
        ok := FinalizeScaledObject(o);
        return;
      }
      ok := ReconcilePresent(o);
    }

    method ReconcilePresent(o: Outcomes) returns (ok: bool)
      requires obj.phase == Present && o.getObject
      modifies this`obj, this`hpas, this`loop, this`generations, this`calls
      ensures Done(State(), ok) == ReconcileStep(old(State()), o)
    {
      ok := EnsureFinalizer(o);
      if !ok {
        return;
      }
      ok := InitConditions(o);
      if !ok {
        return;
      }
      var paused := NextPaused(obj);
      ok := ReconcileScaledObject(o);
      if o.finalStatus {
        obj := obj.(status := obj.status.(paused := paused));
      } else {
        ok := false;
      }
    }
  }

  /** However often the reconciler runs, whatever fails between, the object never owns a second HPA. */
  method ReconcileRepeatedly(r: ScaledObjectReconciler, os: seq<Outcomes>)
    requires Inv(r.State()) && Tracked(r.State())
    requires forall i :: 0 <= i < |os| && os[i].createHpa ==> os[i].storeName
    modifies r
    ensures r.State() == Run(old(r.State()), seq(|os|, i requires 0 <= i < |os| => Reconciles(os[i])))
    ensures Inv(r.State()) && |r.hpas| <= 1
  {
    ghost var steps := seq(|os|, i requires 0 <= i < |os| => Reconciles(os[i]));
    var i := 0;
    while i < |os|
      invariant 0 <= i <= |os|
      invariant Inv(r.State()) && Tracked(r.State())
      invariant r.State() == Run(old(r.State()), steps[..i])
    {
      var _ := r.Reconcile(os[i]);
      assert steps[..i + 1][..i] == steps[..i];
      i := i + 1;
    }
    assert steps[..|os|] == steps;
    TrackedMeansOne(r.State());
  }
}
