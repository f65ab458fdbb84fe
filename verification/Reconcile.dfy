/**
 The ScaledObject reconcile protocol: one object, the HPAs it owns, its persisted
 status, the in-memory generation entry, the running scale loop and the finalizer.
 Every API call may fail; a call that fails changes nothing. An `Outcomes` value
 says how each call site of one reconcile turns out.
 */
module Reconcile {
  import opened Common

  /** What the user controls. `hpaName` is empty when not configured. */
  datatype Spec = Spec(hpaName: string, targetNamed: bool, valid: bool, restoreOriginal: bool)

  /** `paused`: the "paused" annotation without "paused-replicas"; `pausedOneWay`: paused-scale-in or
      paused-scale-out. */
  datatype Annotations = Annotations(paused: bool, pausedOneWay: bool)

  /** The persisted status: `paused` is the Paused condition, `gvkr` whether a scale target is recorded. */
  datatype Status = Status(initialized: bool, paused: bool, hpaName: string, gvkr: bool, original: Option<int>)

  datatype Phase = Present | Deleting | Gone

  datatype ScaledObject = ScaledObject(
    name: string, spec: Spec, annotations: Annotations, generation: int, phase: Phase, finalizer: bool, status: Status)

  datatype Call = CreateHPA(name: string) | DeleteHPA(name: string) | StartLoop(generation: int) | StopLoop

  /** `calls` logs the attempts to create, delete, start and stop. */
  datatype World = World(
    obj: ScaledObject, hpas: set<string>, replicas: int, generations: Option<int>, loop: Option<int>, calls: seq<Call>)

  /** How each call of one reconcile turns out; `targetDiffers` and `scalableKnown` are what it would read. */
  datatype Outcomes = Outcomes(
    getObject: bool, addFinalizer: bool, initConditions: bool, pauseStatus: bool, stopLoop: bool,
    addLabel: bool, parseTarget: bool, targetDiffers: bool, scalableKnown: bool, getScale: bool, targetStatus: bool,
    triggerStatus: bool, getHpa: bool, buildHpa: bool, createHpa: bool, storeName: bool, deleteHpa: bool,
    updateHpa: bool,
    startLoop: bool, finalStatus: bool, scaleUpdate: bool, removeFinalizer: bool)

  datatype Done = Done(w: World, ok: bool)

  function DefaultHpaName(obj: ScaledObject): string {
    "keda-hpa-" + obj.name
  }

  /** `getHPAName`. */
  function DesiredName(obj: ScaledObject): (r: string)
    ensures r != ""
  {
    if obj.spec.hpaName != "" then obj.spec.hpaName else DefaultHpaName(obj)
  }

  /** `getHPANameOnEnsure`. */
  function NameOnEnsure(obj: ScaledObject): (r: string)
    ensures r != ""
  {
    if obj.status.hpaName != "" then obj.status.hpaName else DesiredName(obj)
  }

  /** `isHpaRenamed`. */
  predicate IsHpaRenamed(obj: ScaledObject, found: string) {
    if obj.spec.hpaName != "" then obj.spec.hpaName != found else found != DefaultHpaName(obj)
  }

  function WithStatus(w: World, status: Status): World {
    w.(obj := w.obj.(status := status))
  }

  function Log(w: World, c: Call): World {
    w.(calls := w.calls + [c])
  }

  function EnsureFinalizer(w: World, o: Outcomes): Done {
    if w.obj.finalizer then Done(w, true)
    else if o.addFinalizer then Done(w.(obj := w.obj.(finalizer := true)), true)
    else Done(w, false)
  }

  function InitConditions(w: World, o: Outcomes): Done {
    if w.obj.status.initialized then Done(w, true)
    else if o.initConditions then Done(WithStatus(w, w.obj.status.(initialized := true, paused := false)), true)
    else Done(w, false)
  }

  function StopScaleLoop(w: World, o: Outcomes): Done {
    if o.stopLoop then Done(Log(w, StopLoop).(loop := None, generations := None), true)
    else Done(Log(w, StopLoop), false)
  }

  function RequestScaleLoop(w: World, o: Outcomes): Done {
    var g := w.obj.generation;
    if o.startLoop then Done(Log(w, StartLoop(g)).(loop := Some(g), generations := Some(g)), true)
    else Done(Log(w, StartLoop(g)), false)
  }

  predicate WantsTargetStatus(w: World, o: Outcomes) {
    o.targetDiffers || !w.obj.status.gvkr || w.obj.status.original.None?
  }

  /** `checkTargetResourceIsScalable`. */
  function CheckTarget(w: World, o: Outcomes): Done {
    if !o.parseTarget then Done(w, false)
    else if (!o.scalableKnown || WantsTargetStatus(w, o)) && !o.getScale then Done(w, false)
    else if !WantsTargetStatus(w, o) then Done(w, true)
    else if !o.targetStatus then Done(w, false)
    else
      var s := w.obj.status;
      // an unrecorded target always differs, so a target is recorded from here on
      Done(WithStatus(w, s.(gvkr := true,
                            original := if s.original.None? then Some(w.replicas) else s.original)), true)
  }

  /** `storeHpaNameInStatus`. */
  function StoreHpaName(w: World, o: Outcomes, name: string): Done {
    if o.storeName then Done(WithStatus(w, w.obj.status.(hpaName := name)), true) else Done(w, false)
  }

  /** `createAndDeployNewHPA`; the cluster refuses a second HPA of the same name. */
  function CreateAndDeploy(w: World, o: Outcomes): Done {
    var name := DesiredName(w.obj);
    if !o.buildHpa then Done(w, false)
    else if !o.createHpa || name in w.hpas then Done(Log(w, CreateHPA(name)), false)
    else StoreHpaName(Log(w, CreateHPA(name)).(hpas := w.hpas + {name}), o, name)
  }

  /** `deleteHPA`. */
  function Delete(w: World, o: Outcomes, name: string): Done {
    if o.deleteHpa then Done(Log(w, DeleteHPA(name)).(hpas := w.hpas - {name}), true)
    else Done(Log(w, DeleteHPA(name)), false)
  }

  datatype Ensured = Ensured(w: World, ok: bool, created: bool)

  /** `ensureHPAForScaledObjectExists`. */
  function EnsureHpaExists(w: World, o: Outcomes): Ensured {
    var name := NameOnEnsure(w.obj);
    if !o.getHpa then Ensured(w, false, false)
    else if name !in w.hpas then
      var c := CreateAndDeploy(w, o);
      Ensured(c.w, c.ok, c.ok)
    else if IsHpaRenamed(w.obj, name) then
      var d := Delete(w, o, name);
      if !d.ok then Ensured(d.w, false, false) else
        var c := CreateAndDeploy(d.w, o);
        Ensured(c.w, c.ok, c.ok)
    else if !o.buildHpa || !o.updateHpa then Ensured(w, false, false)
    else if w.obj.status.hpaName != name then
      var s := StoreHpaName(w, o, name);
      Ensured(s.w, s.ok, false)
    else Ensured(w, true, false)
  }

  /** `ensureHPAForScaledObjectIsDeleted`. */
  function EnsureHpaDeleted(w: World, o: Outcomes): Done {
    var name := NameOnEnsure(w.obj);
    if !o.getHpa then Done(w, false)
    else if name !in w.hpas then Done(w, true)
    else Delete(w, o, name)
  }

  /** `scaledObjectGenerationChanged`. */
  predicate GenerationChanged(w: World) {
    w.generations != Some(w.obj.generation)
  }

  /** The end of `reconcileScaledObject`: start a loop for a new HPA or a new generation. */
  function StartLoopIfNeeded(e: Ensured, o: Outcomes): Done {
    if e.created || GenerationChanged(e.w) then RequestScaleLoop(e.w, o) else Done(e.w, true)
  }

  /** Everything after the pause switch. */
  function Scale(w: World, o: Outcomes): Done {
    if !w.obj.spec.targetNamed || !o.addLabel then Done(w, false) else
      var c := CheckTarget(w, o);
      if !c.ok || !w.obj.spec.valid || !o.triggerStatus then Done(c.w, false) else
        var e := EnsureHpaExists(c.w, o);
        if !e.ok then Done(e.w, false) else StartLoopIfNeeded(e, o)
  }

  /** The entering reconcile of a pause: the condition is persisted before anything is stopped. */
  function EnterPause(w: World, o: Outcomes): Done {
    if !o.pauseStatus then Done(w, false) else
      var s := StopScaleLoop(WithStatus(w, w.obj.status.(paused := true)), o);
      if !s.ok then s else EnsureHpaDeleted(s.w, o)
  }

  /** `reconcileScaledObject`. */
  function ReconcileObject(w: World, o: Outcomes): Done {
    if !w.obj.annotations.paused then Scale(w, o)
    else if w.obj.status.paused then Done(w, true)
    else EnterPause(w, o)
  }

  /** The Paused condition that `reconcileScaledObject` leaves to be written. */
  predicate NextPaused(obj: ScaledObject) {
    obj.annotations.paused || obj.annotations.pausedOneWay
  }

  /** The closing `SetStatusConditions`. */
  function WriteConditions(d: Done, paused: bool, o: Outcomes): Done {
    if o.finalStatus then Done(WithStatus(d.w, d.w.obj.status.(paused := paused)), d.ok) else Done(d.w, false)
  }

  /** The finalizer dereferences `OriginalReplicaCount` on this path. */
  predicate RestoresReplicas(w: World, o: Outcomes) {
    w.obj.spec.restoreOriginal && w.obj.status.gvkr && o.getScale
  }

  function Restore(w: World, o: Outcomes): World {
    if RestoresReplicas(w, o) && o.scaleUpdate && w.obj.status.original.Some?
    then w.(replicas := w.obj.status.original.value) else w
  }

  /** `finalizeScaledObject`. */
  function Finalize(w: World, o: Outcomes): Done {
    if !w.obj.finalizer then Done(w, true) else
      var s := StopScaleLoop(w, o);
      if !s.ok then s else
        var r := Restore(s.w, o);
        if !o.removeFinalizer then Done(r, false)
        else Done(r.(obj := r.obj.(finalizer := false, phase := Gone)), true)
  }

  /** The finalizer and the initial conditions come first. */
  function Prepare(w: World, o: Outcomes): Done {
    var f := EnsureFinalizer(w, o);
    if !f.ok then f else InitConditions(f.w, o)
  }

  /** `Reconcile`. */
  function ReconcileStep(w: World, o: Outcomes): Done {
    if w.obj.phase == Gone then Done(w, true)
    else if !o.getObject then Done(w, false)
    else if w.obj.phase == Deleting then Finalize(w, o)
    else
      var p := Prepare(w, o);
      if !p.ok then p else WriteConditions(ReconcileObject(p.w, o), NextPaused(p.w.obj), o)
  }

  // ---- Steps and runs ------------------------------------------------------

  datatype Step =
    | Reconciles(o: Outcomes)
    | EditSpec(spec: Spec)
    | Annotate(annotations: Annotations)
    | HpaVanishes(name: string)
    | ReplicasMove(replicas: int)
    | MarkDeleted
    | Restart

  function Apply(w: World, step: Step): World {
    match step
    case Reconciles(o) => ReconcileStep(w, o).w
    case EditSpec(spec) => w.(obj := w.obj.(spec := spec, generation := w.obj.generation + 1))
    case Annotate(a) => w.(obj := w.obj.(annotations := a))
    case HpaVanishes(name) => w.(hpas := w.hpas - {name})
    case ReplicasMove(r) => w.(replicas := r)
    case MarkDeleted =>
      if w.obj.phase == Gone then w
      else if w.obj.finalizer then w.(obj := w.obj.(phase := Deleting))
      else w.(obj := w.obj.(phase := Gone))
    case Restart => w.(generations := None, loop := None)
  }

  function Run(w: World, steps: seq<Step>): World {
    if steps == [] then w else Apply(Run(w, steps[..|steps| - 1]), steps[|steps| - 1])
  }

  const NO_STATUS := Status(false, false, "", false, None)

  /** A freshly created object. */
  function Initial(name: string, spec: Spec, annotations: Annotations, replicas: int): World {
    World(ScaledObject(name, spec, annotations, 1, Present, false, NO_STATUS), {}, replicas, None, None, [])
  }
}
