/** An instance of an application layer: the modules it manages, in the order they were added,
    the models they make visible, and the events it fires around its activation. */
module LayerInstanceModel {

  import opened Wrappers

  /** findModule throws IllegalArgumentException("No such module:" + name). */
  datatype LayerError = NoSuchModule(moduleName: string)

  /** A module instance, identified by its own identity and the name of its model. */
  datatype ModuleInstance = ModuleInstance(id: nat, name: string)

  datatype Visibility = ModuleVisibility | LayerVisibility | ApplicationVisibility

  /** The five kinds of model a module makes visible (visibleObjects, visibleTransients,
      visibleEntities, visibleValues, visibleServices). */
  datatype ModelKind = Objects | Transients | Entities | Values | Services

  /** A model a module makes visible: a model (or service reference) and the module it lives in. */
  datatype VisibleModel = VisibleModel(model: string, owner: nat)

  /** What a module answers when asked which models of a kind it makes visible; a module's own
      visibility rules are not part of this model. */
  type ModuleVisibleFn = (ModuleInstance, ModelKind, Visibility) -> seq<VisibleModel>

  /** The events the layer fires to its activation listeners, and the delegated (de)activation
      of its activators and modules, in the order they happen. */
  datatype LayerEvent =
    | Activating | Activated | Passivating | Passivated
    | DelegatedActivation | DelegatedPassivation

  /** The visible models of `modules`, module after module, each module's in its own order; there
      are as many as the modules make visible together. */
  function Flatten(modules: seq<ModuleInstance>, visible: ModuleVisibleFn, kind: ModelKind, visibility: Visibility): (r: seq<VisibleModel>)
    ensures |r| == TotalVisible(modules, visible, kind, visibility)
  {
    if modules == [] then []
    else visible(modules[0], kind, visibility) + Flatten(modules[1..], visible, kind, visibility)
  }

  /** Adding a module at the end adds its visible models at the end. */
  lemma {:induction false} FlattenAppend(modules: seq<ModuleInstance>, m: ModuleInstance, visible: ModuleVisibleFn,
                                         kind: ModelKind, visibility: Visibility)
    ensures Flatten(modules + [m], visible, kind, visibility) == Flatten(modules, visible, kind, visibility) + visible(m, kind, visibility)
  {
    if modules != [] {
      assert (modules + [m])[1..] == modules[1..] + [m];
      FlattenAppend(modules[1..], m, visible, kind, visibility);
    } else {
      assert [m][1..] == [];
    }
  }

  /** A model is visible in the layer exactly when some module makes it visible. */
  lemma {:induction false} FlattenMembership(modules: seq<ModuleInstance>, visible: ModuleVisibleFn,
                                             kind: ModelKind, visibility: Visibility, x: VisibleModel)
    ensures x in Flatten(modules, visible, kind, visibility) <==>
            exists i :: 0 <= i < |modules| && x in visible(modules[i], kind, visibility)
  {
    if modules != [] {
      FlattenMembership(modules[1..], visible, kind, visibility, x);
      if x in visible(modules[0], kind, visibility) {
        assert 0 < |modules|;
      } else if exists i :: 0 <= i < |modules| && x in visible(modules[i], kind, visibility) {
        var i :| 0 <= i < |modules| && x in visible(modules[i], kind, visibility);
        assert modules[1..][i - 1] == modules[i];
      }
    }
  }

  /** How many models the modules make visible in all. */
  function TotalVisible(modules: seq<ModuleInstance>, visible: ModuleVisibleFn, kind: ModelKind, visibility: Visibility): nat
  {
    if modules == [] then 0
    else |visible(modules[0], kind, visibility)| + TotalVisible(modules[1..], visible, kind, visibility)
  }

  /** Whether `modules[i]` is the first module named `moduleName`. */
  predicate FirstNamed(modules: seq<ModuleInstance>, i: nat, moduleName: string) {
    i < |modules| && modules[i].name == moduleName
    && forall j :: 0 <= j < i ==> modules[j].name != moduleName
  }

  class LayerInstance {
    const name: string
    var moduleInstances: seq<ModuleInstance>
    var events: seq<LayerEvent>

    constructor (name: string)
      ensures this.name == name && moduleInstances == [] && events == []
    {
      this.name := name;
      moduleInstances := [];
      events := [];
    }

    /** addModule: the module goes at the end; the modules before it are unchanged. */
    method AddModule(m: ModuleInstance)
      modifies this`moduleInstances
      ensures moduleInstances == old(moduleInstances) + [m]
    {
      moduleInstances := moduleInstances + [m];
    }

    /** modules(): a new list holding every module in the order added; since sequences are
        values, what the caller does with it cannot change the layer. */
    method Modules() returns (result: seq<ModuleInstance>)
      ensures |result| == |moduleInstances|
      ensures forall i :: 0 <= i < |result| ==> result[i] == moduleInstances[i]
    {
      result := [];
      for i := 0 to |moduleInstances|
        invariant |result| == i
        invariant forall j :: 0 <= j < i ==> result[j] == moduleInstances[j]
      {
        result := result + [moduleInstances[i]];
      }
    }

    /** visibleObjects, visibleTransients, visibleEntities, visibleValues and visibleServices:
        every module's visible models of `kind`, module by module; a model is visible in the layer
        exactly when one of its modules makes it visible. */
    function Visible(visible: ModuleVisibleFn, kind: ModelKind, visibility: Visibility): (r: seq<VisibleModel>)
      reads this
      ensures r == Flatten(moduleInstances, visible, kind, visibility)
      ensures forall x :: x in r <==>
        exists i :: 0 <= i < |moduleInstances| && x in visible(moduleInstances[i], kind, visibility)
    {
      assert forall x :: x in Flatten(moduleInstances, visible, kind, visibility) <==>
        exists i :: 0 <= i < |moduleInstances| && x in visible(moduleInstances[i], kind, visibility) by {
        forall x
          ensures x in Flatten(moduleInstances, visible, kind, visibility) <==>
            exists i :: 0 <= i < |moduleInstances| && x in visible(moduleInstances[i], kind, visibility)
        {
          FlattenMembership(moduleInstances, visible, kind, visibility, x);
        }
      }
      Flatten(moduleInstances, visible, kind, visibility)
    }

    /** findModule: the first module, in the order added, whose model has the given name, or
        IllegalArgumentException when none has. */
    method FindModule(moduleName: string) returns (r: Result<ModuleInstance, LayerError>)
      ensures r.Ok? <==> exists i :: 0 <= i < |moduleInstances| && moduleInstances[i].name == moduleName
      ensures r.Ok? ==> exists i :: 0 <= i < |moduleInstances| && FirstNamed(moduleInstances, i, moduleName) && r.value == moduleInstances[i]
      ensures r.Err? ==> r.error == NoSuchModule(moduleName)
    {
      for i := 0 to |moduleInstances|
        invariant forall j :: 0 <= j < i ==> moduleInstances[j].name != moduleName
      {
        if moduleInstances[i].name == moduleName {
          assert FirstNamed(moduleInstances, i, moduleName);
          return Ok(moduleInstances[i]);
        }
      }
      return Err(NoSuchModule(moduleName));
    }

    /** activate: ACTIVATING is fired before the delegated activation, ACTIVATED after it; when
        the delegated activation fails its exception propagates and ACTIVATED is not fired. */
    method Activate(delegateSucceeds: bool) returns (ok: bool)
      modifies this`events
      ensures ok == delegateSucceeds
      ensures events == old(events) + [Activating, DelegatedActivation] + (if ok then [Activated] else [])
    {
      events := events + [Activating, DelegatedActivation];
      ok := delegateSucceeds;
      if ok {
        events := events + [Activated];
      }
    }

    /** passivate: PASSIVATING before the delegated passivation, PASSIVATED after it. */
    method Passivate(delegateSucceeds: bool) returns (ok: bool)
      modifies this`events
      ensures ok == delegateSucceeds
      ensures events == old(events) + [Passivating, DelegatedPassivation] + (if ok then [Passivated] else [])
    {
      events := events + [Passivating, DelegatedPassivation];
      ok := delegateSucceeds;
      if ok {
        events := events + [Passivated];
      }
    }
  }
}
