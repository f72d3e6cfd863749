/** The documented lifecycle of a UnitOfWork: every operation on entities goes through one; it
    records their changes in an identity map and sends them to the entity store on complete()
    or apply(), or drops them on discard(). It can be paused and resumed, and notifies its
    registered callbacks when it is completed or discarded. Store failures are outcomes the
    store chooses, given to complete() and apply() as a parameter. */
module UnitOfWorkModel {

  import opened Wrappers

  type MixinType = string
  type Identity = string
  type PropertyName = string

  /** A registered UnitOfWorkCallback, identified by a handle. */
  type CallbackId = nat

  /** What identifies an entity: its type and its identity. */
  datatype EntityReference = EntityReference(entityType: MixinType, identity: Identity)

  datatype EntityStatus = New | Loaded | Updated | Removed

  /** The state of one entity as the unit of work tracks it. */
  datatype EntityState = EntityState(status: EntityStatus, properties: map<PropertyName, string>)

  /** An entity as handed to callers: its reference and the unit of work it belongs to. */
  datatype Entity = Entity(reference: EntityReference, unitOfWork: nat)

  datatype UnitOfWorkError =
    | EntityTypeNotFound            // no EntityComposite implements the type
    | AmbiguousType                 // several EntityComposites implement the type
    | NoSuchEntity                  // the store has no such entity
    | Lifecycle                     // the entity could not be removed
    | EntityStateFailure            // a removed entity was modified
    | ConcurrentEntityModification  // entities were modified by others
    | UnitOfWorkCompletion          // the changes could not be applied
    | IllegalState                  // the unit of work is no longer open

  datatype Outcome = Pass | Fail(error: UnitOfWorkError)

  /** How the entity store answers a batch of changes. */
  datatype StoreReply = Accepted | ConcurrentModification | CompletionFailure

  /** The entities the store holds: their property values. */
  type StoredEntities = map<EntityReference, map<PropertyName, string>>

  /** The entity store the unit of work sends its changes to. */
  class EntityStore {
    var entities: StoredEntities

    constructor (entities: StoredEntities)
      ensures this.entities == entities
    {
      this.entities := entities;
    }
  }

  /** The IdentityGenerator of a module, shared by every unit of work of that module:
      `generate(n)` is the n-th identity it hands out, and `next` how many it has handed out. */
  class IdentityGenerator {
    const generate: nat -> Identity
    var next: nat

    constructor (generate: nat -> Identity)
      ensures this.generate == generate && next == 0
    {
      this.generate := generate;
      next := 0;
    }

    /** Hands out the next identity. */
    method NextIdentity() returns (identity: Identity)
      modifies this`next
      ensures identity == generate(old(next)) && next == old(next) + 1
    {
      identity := generate(next);
      next := next + 1;
    }
  }

  // ---------------------------------------------------------------------------------------
  // The batch sent to the store.

  /** Whether the store must write this state: it is new or has been changed. */
  predicate IsChanged(s: EntityState) {
    s.status == New || s.status == Updated
  }

  /** The store after the changes of `identityMap` have been applied: new and updated entities
      are written, removed ones are deleted, everything else is left as it was. */
  function Flushed(store: StoredEntities, identityMap: map<EntityReference, EntityState>): StoredEntities
  {
    map ref | ref in store.Keys + identityMap.Keys
                && !(ref in identityMap && identityMap[ref].status == Removed)
                && (ref in store || IsChanged(identityMap[ref]))
      :: if ref in identityMap && IsChanged(identityMap[ref]) then identityMap[ref].properties else store[ref]
  }

  /** What a flush does to each entity. */
  lemma FlushedEffect(store: StoredEntities, identityMap: map<EntityReference, EntityState>, ref: EntityReference)
    ensures ref in identityMap && IsChanged(identityMap[ref]) ==>
              ref in Flushed(store, identityMap) && Flushed(store, identityMap)[ref] == identityMap[ref].properties
    ensures ref in identityMap && identityMap[ref].status == Removed ==> ref !in Flushed(store, identityMap)
    ensures (ref !in identityMap || identityMap[ref].status == Loaded) ==>
              (ref in Flushed(store, identityMap) <==> ref in store)
              && (ref in store ==> Flushed(store, identityMap)[ref] == store[ref])
  {
  }

  /** The identity map after apply(): removed entities are gone, the others are loaded again
      with the values just stored. */
  function Applied(identityMap: map<EntityReference, EntityState>): map<EntityReference, EntityState>
  {
    map ref | ref in identityMap && identityMap[ref].status != Removed
      :: EntityState(Loaded, identityMap[ref].properties)
  }

  /** An identity map with nothing new, changed or removed leaves the store as it is. */
  lemma NothingToFlush(store: StoredEntities, identityMap: map<EntityReference, EntityState>)
    requires forall ref :: ref in identityMap ==> identityMap[ref].status == Loaded
    ensures Flushed(store, identityMap) == store
  {
    assert Flushed(store, identityMap).Keys == store.Keys;
  }

  /** After apply(), flushing the untouched identity map again changes nothing: a later
      complete() only sends what changed after apply(). */
  lemma AppliedChangesAreNotResent(store: StoredEntities, identityMap: map<EntityReference, EntityState>)
    ensures Flushed(Flushed(store, identityMap), Applied(identityMap)) == Flushed(store, identityMap)
  {
    NothingToFlush(Flushed(store, identityMap), Applied(identityMap));
  }

  /** The unit of work's view after apply() agrees with the store: every entity it still
      tracks is stored with exactly the values it holds. */
  lemma AppliedAgreesWithStore(store: StoredEntities, identityMap: map<EntityReference, EntityState>, ref: EntityReference)
    requires ref in Applied(identityMap)
    requires ref in store || IsChanged(identityMap[ref])
    requires identityMap[ref].status == Loaded ==> store[ref] == identityMap[ref].properties
    ensures ref in Flushed(store, identityMap)
    ensures Flushed(store, identityMap)[ref] == Applied(identityMap)[ref].properties
  {
    FlushedEffect(store, identityMap, ref);
  }

  // ---------------------------------------------------------------------------------------
  // The unit of work.

  class UnitOfWork {
    /** Distinguishes this unit of work from others, so that its entities can be told apart. */
    const id: nat
    const store: EntityStore
    /** How many EntityComposites implement each mixin type, as the module's visibility rules
        resolve it. */
    const composites: map<MixinType, nat>
    /** The IdentityGenerator of the module, shared with its other units of work. */
    const generator: IdentityGenerator

    var open: bool
    var paused: bool
    var identityMap: map<EntityReference, EntityState>
    var callbacks: set<CallbackId>
    /** The callbacks invoked so far, by complete() or discard(). */
    var notified: set<CallbackId>

    /** A closed unit of work holds no entity state any more and is not paused: a paused unit
        of work is one that is still open but not the current one. */
    ghost predicate Valid()
      reads this
    {
      !open ==> identityMap == map[] && !paused
    }

    /** Created open, not paused, with no entities and no callbacks. */
    constructor (id: nat, store: EntityStore, composites: map<MixinType, nat>, generator: IdentityGenerator)
      ensures Valid()
      ensures this.id == id && this.store == store && this.composites == composites
      ensures this.generator == generator
      ensures open && !paused && identityMap == map[] && callbacks == {} && notified == {}
    {
      this.id := id;
      this.store := store;
      this.composites := composites;
      this.generator := generator;
      open := true;
      paused := false;
      identityMap := map[];
      callbacks := {};
      notified := {};
    }

    /** isOpen(): true until complete() or discard() has succeeded. Its contract only restates
        what Valid() gives a closed unit of work (no entity, not paused); that it stays true
        until then is carried by Complete and Discard, the only methods whose frame includes
        `open` (see StaysOpenUntilDiscarded). */
    predicate IsOpen(): (r: bool)
      reads this
      requires Valid()
      ensures !r ==> identityMap == map[] && !paused
    {
      open
    }

    /** isPaused(): true between pause() and resume(); only an open unit of work is paused. When
        it changes is carried by the contracts of Pause, Resume, Complete and Discard. */
    predicate IsPaused(): (r: bool)
      reads this
      requires Valid()
      ensures r ==> open
    {
      paused
    }

    /** Whether some EntityComposite implements `entityType`. */
    predicate TypeKnown(entityType: MixinType)
      reads this
    {
      entityType in composites && composites[entityType] > 0
    }

    /** The type check of newEntity: exactly one EntityComposite must implement the type. */
    function ResolveForCreation(entityType: MixinType): (r: Outcome)
      reads this
      ensures r == Pass <==> entityType in composites && composites[entityType] == 1
      ensures r == Fail(EntityTypeNotFound) <==> !TypeKnown(entityType)
      ensures r == Fail(AmbiguousType) <==> TypeKnown(entityType) && composites[entityType] > 1
    {
      if !TypeKnown(entityType) then Fail(EntityTypeNotFound)
      else if composites[entityType] > 1 then Fail(AmbiguousType)
      else Pass
    }

    /** newEntity(type, identity): a new entity with exactly the supplied identity. */
    method NewEntityWithIdentity(entityType: MixinType, identity: Identity) returns (r: Result<Entity, UnitOfWorkError>)
      requires Valid()
      modifies this`identityMap
      ensures Valid()
      ensures !old(open) ==> r == Err(IllegalState)
      ensures old(open) && ResolveForCreation(entityType).Fail? ==> r == Err(ResolveForCreation(entityType).error)
      ensures r.Err? ==> identityMap == old(identityMap)
      ensures r.Ok? <==> old(open) && ResolveForCreation(entityType) == Pass
      ensures r.Ok? ==>
        var ref := EntityReference(entityType, identity);
        r.value == Entity(ref, id) && identityMap == old(identityMap)[ref := EntityState(New, map[])]
    {
      if !open {
        return Err(IllegalState);
      }
      var resolved := ResolveForCreation(entityType);
      if resolved.Fail? {
        return Err(resolved.error);
      }
      var ref := EntityReference(entityType, identity);
      identityMap := identityMap[ref := EntityState(New, map[])];
      r := Ok(Entity(ref, id));
    }

    /** newEntity(type): a new entity whose identity the IdentityGenerator hands out. */
    method NewEntity(entityType: MixinType) returns (r: Result<Entity, UnitOfWorkError>)
      requires Valid()
      modifies this`identityMap, generator`next
      ensures Valid()
      ensures r.Err? ==> identityMap == old(identityMap) && generator.next == old(generator.next)
      ensures r.Ok? <==> old(open) && ResolveForCreation(entityType) == Pass
      ensures !old(open) ==> r == Err(IllegalState)
      ensures old(open) && ResolveForCreation(entityType).Fail? ==> r == Err(ResolveForCreation(entityType).error)
      ensures r.Ok? ==>
        var ref := EntityReference(entityType, generator.generate(old(generator.next)));
        r.value == Entity(ref, id) && generator.next == old(generator.next) + 1
        && identityMap == old(identityMap)[ref := EntityState(New, map[])]
    {
      if !open {
        return Err(IllegalState);
      }
      var resolved := ResolveForCreation(entityType);
      if resolved.Fail? {
        return Err(resolved.error);
      }
      var identity := generator.NextIdentity();
      r := NewEntityWithIdentity(entityType, identity);
    }

    /** get(type, identity): the entity this unit of work already tracks, or else the one the
        store holds, loaded into the identity map; NoSuchEntityException when neither has it. */
    method Get(entityType: MixinType, identity: Identity) returns (r: Result<Entity, UnitOfWorkError>)
      requires Valid()
      modifies this`identityMap
      ensures Valid()
      ensures var ref := EntityReference(entityType, identity);
        && (!old(open) ==> r == Err(IllegalState))
        && (old(open) && !TypeKnown(entityType) ==> r == Err(EntityTypeNotFound))
        && (r.Err? ==> identityMap == old(identityMap))
        && (r.Ok? ==> r.value == Entity(ref, id) && ref in identityMap && identityMap[ref].status != Removed)
        && (old(open) && TypeKnown(entityType) ==>
              if ref in old(identityMap) && old(identityMap)[ref].status != Removed then
                r.Ok? && identityMap == old(identityMap)
              else if ref in old(identityMap) || ref !in store.entities then
                r == Err(NoSuchEntity)
              else
                r.Ok? && identityMap == old(identityMap)[ref := EntityState(Loaded, store.entities[ref])])
    {
      if !open {
        return Err(IllegalState);
      }
      if !TypeKnown(entityType) {
        return Err(EntityTypeNotFound);
      }
      var ref := EntityReference(entityType, identity);
      if ref in identityMap {
        if identityMap[ref].status == Removed {
          return Err(NoSuchEntity);
        }
        return Ok(Entity(ref, id));
      }
      if ref !in store.entities {
        return Err(NoSuchEntity);
      }
      identityMap := identityMap[ref := EntityState(Loaded, store.entities[ref])];
      r := Ok(Entity(ref, id));
    }

    /** get(entity): an entity of this unit of work for an entity of another one, found the
        same way get(type, identity) finds it. */
    method GetEntity(entity: Entity) returns (r: Result<Entity, UnitOfWorkError>)
      requires Valid()
      modifies this`identityMap
      ensures Valid()
      ensures var ref := entity.reference;
        && (!old(open) ==> r == Err(IllegalState))
        && (old(open) && !TypeKnown(ref.entityType) ==> r == Err(EntityTypeNotFound))
        && (r.Err? ==> identityMap == old(identityMap))
        && (r.Ok? ==> r.value == Entity(ref, id) && ref in identityMap && identityMap[ref].status != Removed)
        && (old(open) && TypeKnown(ref.entityType) ==>
              if ref in old(identityMap) && old(identityMap)[ref].status != Removed then
                r.Ok? && identityMap == old(identityMap)
              else if ref in old(identityMap) || ref !in store.entities then
                r == Err(NoSuchEntity)
              else
                r.Ok? && identityMap == old(identityMap)[ref := EntityState(Loaded, store.entities[ref])])
    {
      r := Get(entity.reference.entityType, entity.reference.identity);
    }

    /** Records a change made to an entity of this unit of work: a loaded entity becomes updated;
        a removed one cannot be changed. */
    method SetProperty(entity: Entity, name: PropertyName, value: string) returns (r: Outcome)
      requires Valid()
      modifies this`identityMap
      ensures Valid()
      ensures var ref := entity.reference;
        && (r.Fail? ==> identityMap == old(identityMap))
        && (!old(open) ==> r == Fail(IllegalState))
        && (old(open) && (entity.unitOfWork != id || ref !in old(identityMap)) ==> r == Fail(NoSuchEntity))
        && (old(open) && entity.unitOfWork == id && ref in old(identityMap) ==>
              var before := old(identityMap)[ref];
              if before.status == Removed then r == Fail(EntityStateFailure)
              else r == Pass && identityMap == old(identityMap)[ref := EntityState(
                     if before.status == Loaded then Updated else before.status,
                     before.properties[name := value])])
    {
      var ref := entity.reference;
      if !open {
        return Fail(IllegalState);
      }
      if entity.unitOfWork != id || ref !in identityMap {
        return Fail(NoSuchEntity);
      }
      var before := identityMap[ref];
      if before.status == Removed {
        return Fail(EntityStateFailure);
      }
      var status := if before.status == Loaded then Updated else before.status;
      identityMap := identityMap[ref := EntityState(status, before.properties[name := value])];
      r := Pass;
    }

    /** remove(entity): marks an entity of this unit of work removed; LifecycleException when it
        is not one this unit of work tracks, or was removed already. */
    method Remove(entity: Entity) returns (r: Outcome)
      requires Valid()
      modifies this`identityMap
      ensures Valid()
      ensures var ref := entity.reference;
        && (r.Fail? ==> identityMap == old(identityMap))
        && (!old(open) ==> r == Fail(IllegalState))
        && (r == Pass <==> old(open) && entity.unitOfWork == id && ref in old(identityMap)
                           && old(identityMap)[ref].status != Removed)
        && (r == Pass ==> identityMap == old(identityMap)[ref := EntityState(Removed, old(identityMap)[ref].properties)])
        && (old(open) && r.Fail? ==> r == Fail(Lifecycle))
    {
      var ref := entity.reference;
      if !open {
        return Fail(IllegalState);
      }
      if entity.unitOfWork != id || ref !in identityMap || identityMap[ref].status == Removed {
        return Fail(Lifecycle);
      }
      identityMap := identityMap[ref := EntityState(Removed, identityMap[ref].properties)];
      r := Pass;
    }

    /** complete(): sends every change to the store and closes, notifying the callbacks. When the
        store reports others' modifications or cannot apply the changes, nothing changes: the
        unit of work stays open and the completion can be retried. */
    method Complete(reply: StoreReply) returns (r: Outcome)
      requires Valid()
      modifies this, store
      ensures Valid()
      ensures callbacks == old(callbacks)
      ensures !old(open) ==> r == Fail(IllegalState)
      ensures old(open) && reply == ConcurrentModification ==> r == Fail(ConcurrentEntityModification)
      ensures old(open) && reply == CompletionFailure ==> r == Fail(UnitOfWorkCompletion)
      ensures r == Pass <==> old(open) && reply == Accepted
      ensures r.Fail? ==>
        open == old(open) && paused == old(paused) && identityMap == old(identityMap)
        && notified == old(notified) && store.entities == old(store.entities)
      ensures r == Pass ==>
        !open && !paused && identityMap == map[] && notified == old(notified) + old(callbacks)
        && store.entities == Flushed(old(store.entities), old(identityMap))
    {
      if !open {
        return Fail(IllegalState);
      }
      match reply
      case ConcurrentModification =>
        return Fail(ConcurrentEntityModification);
      case CompletionFailure =>
        return Fail(UnitOfWorkCompletion);
      case Accepted =>
        store.entities := Flushed(store.entities, identityMap);
        notified := notified + callbacks;
        identityMap := map[];
        open := false;
        paused := false;
        r := Pass;
    }

    /** apply(): sends every change to the store like complete(), but the unit of work stays
        open and valid, tracking its entities as loaded. Callbacks are not invoked. */
    method Apply(reply: StoreReply) returns (r: Outcome)
      requires Valid()
      modifies this`identityMap, store
      ensures Valid()
      ensures !old(open) ==> r == Fail(IllegalState)
      ensures old(open) && reply == ConcurrentModification ==> r == Fail(ConcurrentEntityModification)
      ensures old(open) && reply == CompletionFailure ==> r == Fail(UnitOfWorkCompletion)
      ensures r == Pass <==> old(open) && reply == Accepted
      ensures r.Fail? ==> identityMap == old(identityMap) && store.entities == old(store.entities)
      ensures r == Pass ==>
        open && identityMap == Applied(old(identityMap))
        && store.entities == Flushed(old(store.entities), old(identityMap))
    {
      if !open {
        return Fail(IllegalState);
      }
      match reply
      case ConcurrentModification =>
        return Fail(ConcurrentEntityModification);
      case CompletionFailure =>
        return Fail(UnitOfWorkCompletion);
      case Accepted =>
        store.entities := Flushed(store.entities, identityMap);
        identityMap := Applied(identityMap);
        r := Pass;
    }

    /** discard(): drops every change without touching the store, closes and notifies the
        callbacks. */
    method Discard() returns (r: Outcome)
      requires Valid()
      modifies this
      ensures Valid()
      ensures callbacks == old(callbacks)
      ensures r == Pass <==> old(open)
      ensures r.Fail? ==> r == Fail(IllegalState) && identityMap == old(identityMap) && notified == old(notified)
      ensures r == Pass ==> !open && !paused && identityMap == map[] && notified == old(notified) + old(callbacks)
      ensures !open
    {
      if !open {
        return Fail(IllegalState);
      }
      notified := notified + callbacks;
      identityMap := map[];
      open := false;
      paused := false;
      r := Pass;
    }

    /** pause(): an open unit of work that is not paused becomes paused; pausing one that is
        closed or paused already is an IllegalStateException. */
    method Pause() returns (r: Outcome)
      requires Valid()
      modifies this`paused
      ensures Valid()
      ensures r == Pass <==> old(open) && !old(paused)
      ensures r == Pass ==> paused
      ensures r.Fail? ==> r == Fail(IllegalState) && paused == old(paused)
    {
      if !open || paused {
        return Fail(IllegalState);
      }
      paused := true;
      r := Pass;
    }

    /** resume(): a paused unit of work is no longer paused; resuming one that is not paused is
        an IllegalStateException. */
    method Resume() returns (r: Outcome)
      requires Valid()
      modifies this`paused
      ensures Valid()
      ensures r == Pass <==> old(paused)
      ensures r == Pass ==> !paused
      ensures r.Fail? ==> r == Fail(IllegalState) && paused == old(paused)
    {
      if !paused {
        return Fail(IllegalState);
      }
      paused := false;
      r := Pass;
    }

    /** addUnitOfWorkCallback: the callback will be invoked on completion or discard; a closed
        unit of work accepts no callback. */
    method AddUnitOfWorkCallback(callback: CallbackId) returns (r: Outcome)
      requires Valid()
      modifies this`callbacks
      ensures Valid()
      ensures r == Pass <==> old(open)
      ensures r == Pass ==> callbacks == old(callbacks) + {callback}
      ensures r.Fail? ==> r == Fail(IllegalState) && callbacks == old(callbacks)
    {
      if !open {
        return Fail(IllegalState);
      }
      callbacks := callbacks + {callback};
      r := Pass;
    }

    /** removeUnitOfWorkCallback: the callback will no longer be invoked; on a closed unit of
        work this is an IllegalStateException. */
    method RemoveUnitOfWorkCallback(callback: CallbackId) returns (r: Outcome)
      requires Valid()
      modifies this`callbacks
      ensures Valid()
      ensures r == Pass <==> old(open)
      ensures r == Pass ==> callbacks == old(callbacks) - {callback}
      ensures r.Fail? ==> r == Fail(IllegalState) && callbacks == old(callbacks)
    {
      if !open {
        return Fail(IllegalState);
      }
      callbacks := callbacks - {callback};
      r := Pass;
    }
  }

  /** What a caller can rely on from these contracts alone: a completion that fails because of
      others' modifications leaves the unit of work open, so it can be retried; once completed,
      the entity is found by a new unit of work with the values that were set. */
  method CompleteRetryAndReload(identities: nat -> Identity)
  {
    var generator := new IdentityGenerator(identities);
    var store := new EntityStore(map[]);
    var uow := new UnitOfWork(1, store, map["Person" := 1], generator);
    var created := uow.NewEntityWithIdentity("Person", "alice");
    assert created.Ok?;
    var changed := uow.SetProperty(created.value, "name", "Alice");
    assert changed == Pass;

    var failed := uow.Complete(ConcurrentModification);
    assert failed == Fail(ConcurrentEntityModification) && uow.IsOpen();
    var completed := uow.Complete(Accepted);
    assert completed == Pass && !uow.IsOpen();

    var ref := EntityReference("Person", "alice");
    FlushedEffect(map[], map[ref := EntityState(New, map["name" := "Alice"])], ref);
    var next := new UnitOfWork(2, store, map["Person" := 1], generator);
    var found := next.Get("Person", "alice");
    assert found == Ok(Entity(ref, 2));
    assert next.identityMap[ref].properties == map["name" := "Alice"];
  }

  /** isOpen() stays true through get, a change, apply and pause, and only discard makes it
      false; a second discard then fails. */
  method StaysOpenUntilDiscarded(identities: nat -> Identity)
  {
    var generator := new IdentityGenerator(identities);
    var ref := EntityReference("Person", "alice");
    var store := new EntityStore(map[ref := map["name" := "Alice"]]);
    var uow := new UnitOfWork(1, store, map["Person" := 1], generator);
    var found := uow.Get("Person", "alice");
    assert found == Ok(Entity(ref, 1)) && uow.IsOpen();
    var changed := uow.SetProperty(found.value, "name", "Alicia");
    assert changed == Pass && uow.IsOpen();
    var applied := uow.Apply(Accepted);
    assert applied == Pass && uow.IsOpen();
    var paused := uow.Pause();
    assert paused == Pass && uow.IsOpen();
    var discarded := uow.Discard();
    assert discarded == Pass && !uow.IsOpen() && !uow.IsPaused();
    var again := uow.Discard();
    assert again == Fail(IllegalState);
  }

  /** Pausing or resuming twice fails the second time; a paused unit of work stays open. */
  method PauseAndResumeTwice(identities: nat -> Identity)
  {
    var generator := new IdentityGenerator(identities);
    var store := new EntityStore(map[]);
    var uow := new UnitOfWork(1, store, map["Person" := 1], generator);
    var paused := uow.Pause();
    var pausedAgain := uow.Pause();
    assert paused == Pass && pausedAgain == Fail(IllegalState) && uow.IsPaused() && uow.IsOpen();
    var resumed := uow.Resume();
    var resumedAgain := uow.Resume();
    assert resumed == Pass && resumedAgain == Fail(IllegalState) && !uow.IsPaused();
  }

  /** An entity of a finished unit of work is found again through get(entity) by a new one, as
      long as the store holds it. */
  method RebindStoredEntity(identities: nat -> Identity)
  {
    var generator := new IdentityGenerator(identities);
    var ref := EntityReference("Person", "alice");
    var store := new EntityStore(map[ref := map["name" := "Alice"]]);
    var uow := new UnitOfWork(3, store, map["Person" := 1], generator);
    var rebound := uow.GetEntity(Entity(ref, 1));
    assert rebound == Ok(Entity(ref, 3));
    assert uow.identityMap[ref] == EntityState(Loaded, map["name" := "Alice"]);
  }

  /** Two units of work of one module share its IdentityGenerator, so an entity created in the
      second never takes the identity of one created in the first. */
  method SharedGeneratorGivesFreshIdentities(identities: nat -> Identity)
    requires forall i: nat, j: nat :: identities(i) == identities(j) ==> i == j
  {
    var generator := new IdentityGenerator(identities);
    var store := new EntityStore(map[]);
    var first := new UnitOfWork(1, store, map["Person" := 1], generator);
    var second := new UnitOfWork(2, store, map["Person" := 1], generator);
    var a := first.NewEntity("Person");
    var b := second.NewEntity("Person");
    assert a.Ok? && b.Ok?;
    assert a.value.reference.identity == identities(0);
    assert b.value.reference.identity == identities(1);
    assert a.value.reference != b.value.reference;
  }
}

