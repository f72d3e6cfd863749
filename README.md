# Qi4j units of work, RDF entity parsing, layers and value state, in Dafny

This project models five small, sequential pieces of the Qi4j (later Apache Polygene)
composite-oriented framework and proves what their code and documentation promise:

- **UnitOfWork** (`unit_of_work.dfy`, module `UnitOfWorkModel`): the lifecycle the
  `UnitOfWork` interface documents. A class with an open and a paused flag, an identity map
  from entity reference (type, identity) to entity state, the entity store it sends changes to,
  and the set of registered callbacks. `complete`, `apply`, `discard`, `pause`, `resume`,
  `get` (both forms), `newEntity` (both forms), `remove` and callback registration are methods.
  What the store answers to a batch of changes (accepted, concurrent modification, failure) is a
  parameter of `complete` and `apply`, so every outcome is covered.
- **EntityParserMixin.parse** (`entity_parser.dfy`, module `EntityParser`): the loop that sorts
  RDF statements into a class name, an identity and a property map (last value wins), the early
  return when class name or identity is missing, and the single store update: fetch the state,
  set every property, prepare with one updated state, commit. The store is a map, the URI
  converters are opaque functions, and the calls made on the store are returned as a trace.
- **LayerInstance** (`layer_instance.dfy`, module `LayerInstanceModel`): the ordered module
  list (`addModule`, `modules`, `findModule`), the `visibleX` flattening in module order, and the
  event order of `activate`/`passivate`.
- **ValueStateModel** (`value_state_model.dfy`, module `ValueStateModel`): the short-circuiting
  visit of the four sub-models between `visitEnter` and `visitLeave`, and the association
  lookups delegated to the matching sub-model.
- **CompositeMethodConstrainsDetailDescriptor** (`constraints_detail.dfy`, module
  `ConstraintsDetail`): the null-checked constructor and the append-only constraint list.

Java's `null` is `None` of an `Option`; exceptions are error values of a `Result`/`Outcome`
datatype.

Choices where the sources leave the behaviour open:

- `UnitOfWork.java` is an interface, and its comments leave most behaviour open. The following
  are this model's own choices:
  - operations on a unit of work that is no longer open fail with `IllegalState` and change
    nothing. This covers creating, getting, changing and removing entities, complete, apply,
    discard, pause, resume and callback registration; isOpen and isPaused still answer;
  - a removed entity is not found by `get`;
  - `newEntity` overwrites any state the identity map had for that reference. A store that
    already holds the identity is left to reject the batch on completion.
- `get` asks the store only about references the unit of work does not track yet, and returns
  a tracked one directly. This departs from the comment on `get`, which says it checks with the
  store that the entity exists. Read literally, that comment would make an entity created in
  this unit of work, which the store does not hold yet, impossible to get.
- A type that no EntityComposite implements gives EntityTypeNotFound, in `newEntity` as in
  `get`. The `@throws` lines of `newEntity` describe this case under NoSuchEntityException. They
  also list EntityTypeNotFoundException, without a description, and only that one appears in
  the method's `throws` clause. The model uses the declared one.
- A paused unit of work is still open and usable by direct reference; it is only no longer the
  current one. `pause` on a unit of work that is closed or already paused, and `resume` on one
  that is not paused, fail with `IllegalState`. Completing or discarding a paused unit of work
  closes it, and a closed unit of work is not paused.
- Callbacks are a set. The comments say that registered callbacks are invoked on completion or
  discard. They say nothing about order or duplicates.
- The entity store of the unit of work is a plain field rather than ghost state, since the
  outcome of `get` depends on what the store holds.
- In `parse`, the statement's object is seen through both of its renderings. `toString()` feeds
  the class name and `stringValue()` feeds the identity and the property values, as in the code.
  The type test comes before the identity test, so a predicate that is both counts as a type.

## Model

| member | source | states |
|---|---|---|
| `UnitOfWorkModel.UnitOfWork.constructor` | api/src/main/java/org/qi4j/api/unitofwork/UnitOfWork.java:193-208 | a new unit of work is open, not paused, with an empty identity map and no callbacks |
| `UnitOfWorkModel.UnitOfWork.IsOpen` | api/src/main/java/org/qi4j/api/unitofwork/UnitOfWork.java:193-199 | a unit of work that is not open (completed or discarded) tracks no entity and is not paused |
| `UnitOfWorkModel.UnitOfWork.IsPaused` | api/src/main/java/org/qi4j/api/unitofwork/UnitOfWork.java:201-208 | only an open unit of work can be paused |
| `UnitOfWorkModel.UnitOfWork.ResolveForCreation` | api/src/main/java/org/qi4j/api/unitofwork/UnitOfWork.java:66-98 | creation succeeds exactly when one EntityComposite implements the type; none gives EntityTypeNotFound, several give AmbiguousType |
| `UnitOfWorkModel.UnitOfWork.NewEntityWithIdentity` | api/src/main/java/org/qi4j/api/unitofwork/UnitOfWork.java:84-98 | on success the entity has exactly the supplied identity, belongs to this unit of work and is tracked as new; every failure leaves the identity map unchanged |
| `UnitOfWorkModel.IdentityGenerator.NextIdentity` | api/src/main/java/org/qi4j/api/unitofwork/UnitOfWork.java:72 | the module's generator hands out its identities in turn, each exactly once: the n-th call returns the n-th identity |
| `UnitOfWorkModel.UnitOfWork.NewEntity` | api/src/main/java/org/qi4j/api/unitofwork/UnitOfWork.java:66-82 | on success the identity is the next one the module's IdentityGenerator hands out, and that generator, shared by every unit of work of the module, advances by one; failures consume no identity |
| `UnitOfWorkModel.UnitOfWork.Get` | api/src/main/java/org/qi4j/api/unitofwork/UnitOfWork.java:131-142 | an unknown type gives EntityTypeNotFound; an entity neither tracked nor in the store gives NoSuchEntity with nothing changed; a stored one is loaded with the store's values |
| `UnitOfWorkModel.UnitOfWork.GetEntity` | api/src/main/java/org/qi4j/api/unitofwork/UnitOfWork.java:144-154 | an entity of another unit of work yields one with the same reference that belongs to this unit of work and is tracked by it; this succeeds exactly when the type is known and the entity is tracked and not removed, or untracked and in the store, and otherwise fails as `get(type, identity)` does |
| `UnitOfWorkModel.UnitOfWork.SetProperty` | api/src/main/java/org/qi4j/api/unitofwork/UnitOfWork.java:22-28 | a change to an entity is recorded in the identity map, turning loaded into updated; a removed or foreign entity cannot be changed |
| `UnitOfWorkModel.UnitOfWork.Remove` | api/src/main/java/org/qi4j/api/unitofwork/UnitOfWork.java:156-163 | on an open unit of work, a tracked, not yet removed entity of this unit of work is marked removed, and any other entity gives LifecycleException; on a closed one the result is IllegalState; every failure changes nothing |
| `UnitOfWorkModel.UnitOfWork.Complete` | api/src/main/java/org/qi4j/api/unitofwork/UnitOfWork.java:165-174 | when the store accepts, the changes are flushed to it, the unit of work closes (and is no longer paused) and every registered callback is invoked; a conflict gives ConcurrentEntityModification, another failure gives UnitOfWorkCompletion, and either leaves everything unchanged and still open |
| `UnitOfWorkModel.UnitOfWork.Apply` | api/src/main/java/org/qi4j/api/unitofwork/UnitOfWork.java:176-185 | the changes are flushed as by complete, but the unit of work stays open, tracks its entities as loaded, and invokes no callback |
| `UnitOfWorkModel.UnitOfWork.Discard` | api/src/main/java/org/qi4j/api/unitofwork/UnitOfWork.java:187-199 | afterwards the unit of work is closed and not paused; on an open one the store is untouched, the changes are dropped and the callbacks are invoked, and on a closed one the result is IllegalState |
| `UnitOfWorkModel.UnitOfWork.Pause` | api/src/main/java/org/qi4j/api/unitofwork/UnitOfWork.java:201-218 | an open unit of work that is not paused becomes paused; otherwise the result is IllegalState and nothing changes |
| `UnitOfWorkModel.UnitOfWork.Resume` | api/src/main/java/org/qi4j/api/unitofwork/UnitOfWork.java:220-223 | a paused unit of work is no longer paused; otherwise the result is IllegalState, so a second resume fails |
| `UnitOfWorkModel.UnitOfWork.AddUnitOfWorkCallback` | api/src/main/java/org/qi4j/api/unitofwork/UnitOfWork.java:225-231 | on an open unit of work the callback is registered, so the next successful complete or discard invokes it; a closed one gives IllegalState and keeps its callbacks |
| `UnitOfWorkModel.UnitOfWork.RemoveUnitOfWorkCallback` | api/src/main/java/org/qi4j/api/unitofwork/UnitOfWork.java:233 | on an open unit of work the callback is no longer registered and will not be invoked; a closed one gives IllegalState and keeps its callbacks |
| `UnitOfWorkModel.FlushedEffect` | api/src/main/java/org/qi4j/api/unitofwork/UnitOfWork.java:165-174 | after a flush the store holds each new or updated entity with its tracked values, holds no removed entity, and keeps every other entity as it was |
| `UnitOfWorkModel.NothingToFlush` | api/src/main/java/org/qi4j/api/unitofwork/UnitOfWork.java:176-185 | an identity map with nothing new, updated or removed leaves the store unchanged |
| `UnitOfWorkModel.AppliedChangesAreNotResent` | api/src/main/java/org/qi4j/api/unitofwork/UnitOfWork.java:176-185 | after apply, flushing again without new changes leaves the store as apply left it |
| `UnitOfWorkModel.AppliedAgreesWithStore` | api/src/main/java/org/qi4j/api/unitofwork/UnitOfWork.java:176-185 | after apply, every entity still tracked is stored with exactly the values the unit of work holds for it |
| `EntityParser.ClassNameIsLastType` | rdf/src/main/java/org/qi4j/library/rdf/entity/EntityParserMixin.java:64-67 | the class name is absent exactly when no statement has the type predicate, and otherwise comes from the last such statement |
| `EntityParser.IdIsLastIdentity` | rdf/src/main/java/org/qi4j/library/rdf/entity/EntityParserMixin.java:68-71 | the identity is absent exactly when no statement has the identity predicate, and otherwise is the value of the last such statement |
| `EntityParser.PropertyIsLastDefinition` | rdf/src/main/java/org/qi4j/library/rdf/entity/EntityParserMixin.java:64-76 | a name is in the property map exactly when a statement that is neither a type nor an identity statement maps to it, and its value is that of the last such statement |
| `EntityParser.CollectStatements` | rdf/src/main/java/org/qi4j/library/rdf/entity/EntityParserMixin.java:59-77 | the classification loop leaves exactly the class name, identity and property map the statements define |
| `EntityParser.SetProperties` | rdf/src/main/java/org/qi4j/library/rdf/entity/EntityParserMixin.java:89-93 | the fetched state ends up with every collected property written over it, and exactly one set-property call is made per property, with its final value |
| `EntityParser.Parse` | rdf/src/main/java/org/qi4j/library/rdf/entity/EntityParserMixin.java:57-96 | without a class name or identity the parse stops with no store call; otherwise the state of (id, class name) is fetched, all collected properties are set on it, and one prepare with no new states, that single updated state and no removals is followed by a commit |
| `LayerInstanceModel.LayerInstance.constructor` | core/runtime/src/main/java/org/qi4j/runtime/structure/LayerInstance.java:42-55 | a new layer has no modules and has fired no events |
| `LayerInstanceModel.LayerInstance.AddModule` | core/runtime/src/main/java/org/qi4j/runtime/structure/LayerInstance.java:57-61 | the module is appended at the end and the modules before it are unchanged |
| `LayerInstanceModel.LayerInstance.Modules` | core/runtime/src/main/java/org/qi4j/runtime/structure/LayerInstance.java:83-91 | the result lists every module in the order added, as a separate value |
| `LayerInstanceModel.Flatten` | core/runtime/src/main/java/org/qi4j/runtime/structure/LayerInstance.java:98-156 | the models the modules make visible, module after module; there are as many as the modules make visible together |
| `LayerInstanceModel.LayerInstance.Visible` | core/runtime/src/main/java/org/qi4j/runtime/structure/LayerInstance.java:98-156 | visibleObjects, visibleTransients, visibleEntities, visibleValues and visibleServices: the flattening of the layer's modules, so a model is visible in the layer exactly when one of its modules makes it visible |
| `LayerInstanceModel.LayerInstance.FindModule` | core/runtime/src/main/java/org/qi4j/runtime/structure/LayerInstance.java:158-169 | the result is the first module, in the order added, with the given name; when no module has that name the result is IllegalArgumentException |
| `LayerInstanceModel.FlattenAppend` | core/runtime/src/main/java/org/qi4j/runtime/structure/LayerInstance.java:98-156 | a module added at the end contributes its visible models at the end of the layer's |
| `LayerInstanceModel.FlattenMembership` | core/runtime/src/main/java/org/qi4j/runtime/structure/LayerInstance.java:98-156 | a model is visible in the layer exactly when some module of the layer makes it visible |
| `LayerInstanceModel.LayerInstance.Activate` | core/runtime/src/main/java/org/qi4j/runtime/structure/LayerInstance.java:171-177 | ACTIVATING is fired before the delegated activation and ACTIVATED after it, and only if it succeeded |
| `LayerInstanceModel.LayerInstance.Passivate` | core/runtime/src/main/java/org/qi4j/runtime/structure/LayerInstance.java:179-185 | PASSIVATING is fired before the delegated passivation and PASSIVATED after it, and only if it succeeded |
| `ValueStateModel.AcceptVisitor` | core/runtime/src/main/java/org/qi4j/runtime/value/ValueStateModel.java:113-131 | a visit starts with visitEnter, ends with visitLeave, and returns visitLeave's answer |
| `ValueStateModel.AcceptVisitsReachedPrefix` | core/runtime/src/main/java/org/qi4j/runtime/value/ValueStateModel.java:117-128 | between enter and leave, the visit calls accept on the reached sub-models, in the order properties, associations, many-associations, named-associations |
| `ValueStateModel.AcceptDescendsIffReached` | core/runtime/src/main/java/org/qi4j/runtime/value/ValueStateModel.java:117-128 | a sub-model is visited exactly when the visitor entered and every earlier sub-model's accept returned true |
| `ValueStateModel.NoDescentWithoutEnter` | core/runtime/src/main/java/org/qi4j/runtime/value/ValueStateModel.java:117 | when visitEnter returns false, no sub-model is visited |
| `ValueStateModel.NamedAnswerIsIgnored` | core/runtime/src/main/java/org/qi4j/runtime/value/ValueStateModel.java:125 | the named-associations accept result changes neither the calls made nor the result |
| `ValueStateModel.GetByName` | core/runtime/src/main/java/org/qi4j/runtime/value/ValueStateModel.java:59-93 | a lookup by name of each kind of association is answered by the sub-model of that kind |
| `ValueStateModel.GetByQualifiedName` | core/runtime/src/main/java/org/qi4j/runtime/value/ValueStateModel.java:59-93 | a lookup by qualified name of each kind of association is answered by the sub-model of that kind |
| `ValueStateModel.Associations` | core/runtime/src/main/java/org/qi4j/runtime/value/ValueStateModel.java:95-111 | the associations of each kind are those of the sub-model of that kind |
| `ValueStateModel.LookupsUseOnlyTheirSubModel` | core/runtime/src/main/java/org/qi4j/runtime/value/ValueStateModel.java:59-111 | each lookup of a kind of association is answered by that kind's sub-model alone, whatever the other two hold |
| `ConstraintsDetail.NewDetailDescriptor` | swing/visualizer/src/main/java/org/qi4j/library/swing/visualizer/model/CompositeMethodConstrainsDetailDescriptor.java:35-42 | a null descriptor is rejected with IllegalArgumentException; otherwise the new instance holds the descriptor and an empty constraint list |
| `ConstraintsDetail.CompositeMethodConstrainsDetailDescriptor.constructor` | swing/visualizer/src/main/java/org/qi4j/library/swing/visualizer/model/CompositeMethodConstrainsDetailDescriptor.java:40-42 | the instance keeps the given descriptor, which is set, and starts with no constraints |
| `ConstraintsDetail.CompositeMethodConstrainsDetailDescriptor.Descriptor` | swing/visualizer/src/main/java/org/qi4j/library/swing/visualizer/model/CompositeMethodConstrainsDetailDescriptor.java:44-51 | the result is the descriptor given at construction, and is never null |
| `ConstraintsDetail.CompositeMethodConstrainsDetailDescriptor.Constraints` | swing/visualizer/src/main/java/org/qi4j/library/swing/visualizer/model/CompositeMethodConstrainsDetailDescriptor.java:57-60 | the constraints are exactly the non-null arguments of addConstraint, in the order of the calls |
| `ConstraintsDetail.CompositeMethodConstrainsDetailDescriptor.AddConstraint` | swing/visualizer/src/main/java/org/qi4j/library/swing/visualizer/model/CompositeMethodConstrainsDetailDescriptor.java:62-66 | a null argument is rejected and the list is unchanged; any other is appended at the end, leaving the earlier ones as they were |
| `ConstraintsDetail.NonNullAppend` | swing/visualizer/src/main/java/org/qi4j/library/swing/visualizer/model/CompositeMethodConstrainsDetailDescriptor.java:62-66 | one more call adds its argument at the end of the kept constraints when it is not null, and nothing when it is |
| `ConstraintsDetail.NonNullMembership` | swing/visualizer/src/main/java/org/qi4j/library/swing/visualizer/model/CompositeMethodConstrainsDetailDescriptor.java:57-66 | a constraint is in the list exactly when it was passed to addConstraint |

## Left out

- `unitOfWorkFactory()`, `usecase()` and `metaInfo()`: accessors of collaborators the
  interface does not describe.
- `newEntityBuilder` (both forms): the EntityBuilder API is not part of this model.
- Lifecycle hooks: the LifecycleException that `newEntity` documents comes from them, and they
  are not part of this model. In `remove` the exception only covers entities that cannot be
  removed.
- The process-wide stack of current units of work, which `pause` and `resume` manipulate,
  belongs to the UnitOfWorkFactory. It is not part of this model.
- The order in which callbacks run, callback vetoes and exception aggregation, and refreshing
  version tokens on `apply`: the interface's comments do not state them.
- Version tokens and the store's own conflict detection: the store's answer is a parameter.
- `UnitOfWorkModel.UnitOfWork.Get`: does not ask the store about a reference the unit of work
  already tracks. So an entity the store has dropped since it was loaded is still returned.
  The reason is given under the choices above.
- `UnitOfWorkModel.UnitOfWork.GetEntity`: like `Get`, returns a tracked entity without asking
  the store. It also does not claim that only EntityTypeNotFound can
  occur. It follows the lookup path of `get(type, identity)`, so an entity that is removed here,
  or that the store does not hold and this unit of work does not track, gives NoSuchEntity.
- In `parse`, the EntityStore's own prepare and commit can fail, and the store internals are
  not part of this model, so a fetched state is always committed.
- `toString`, `metaInfo`, `name`, `model`, `applicationInstance`, `usedLayersInstance` and listener registration of `LayerInstance`, and the
  listener registration inside `addModule`: listener-support internals.
- The activators and module activation behind `activate`/`passivate`: only whether the
  delegated step succeeds is modelled.
- What a module makes visible, and how an association sub-model answers a lookup: both are
  opaque functions.
- `ValueStateModel.AcceptVisitor`: does not model exceptions. `accept` is declared to throw
  whatever the visitor throws. An exception from `visitEnter` or from a sub-model's `accept`
  ends the visit without `visitLeave`. The model gives every answer as a boolean, so its visits
  always end with `visitLeave`.
- Units of work are told apart by the number each is created with, not by object identity as in
  Java. An entity records the number of the unit of work it belongs to. So the refusal of a
  foreign entity in `setProperty` and `remove` relies on every unit of work having a number of
  its own; two units of work created with the same number accept each other's entities.
- Java object identity and aliasing: modules, descriptors and callbacks are values or handles,
  and every result is a value. So `modules()` returning a separate list holds by value
  semantics. Two results are live views in Java, and the model gives a snapshot of each at the
  time of the call:
  - the `visibleX` iterables, which reflect modules added later;
  - `constraints()`, which returns the internal list itself.
