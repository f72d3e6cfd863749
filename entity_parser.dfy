/** The RDF entity parser: reads the statements describing one entity, collects its class name,
    its identity and its property values, and writes the properties into the entity store. */
module EntityParser {

  import opened Wrappers

  type Uri = string

  /** An RDF value (a URI or a literal), seen through its two renderings: `text` is what its
      toString() yields, `lexical` what its stringValue() yields. */
  datatype RdfValue = RdfValue(text: string, lexical: string)

  /** One RDF statement about the entity: a predicate URI and its object. */
  datatype Statement = Statement(predicateUri: Uri, value: RdfValue)

  /** The vocabulary the parser recognises, with the conversions it relies on. The conversions
      belong to other classes and are opaque here. */
  datatype Vocabulary = Vocabulary(
    typePredicate: Uri,                 // Rdfs.TYPE
    identityPredicate: Uri,             // the URI of the `identity` property of Identity
    toClassName: string -> string,      // ClassUtil.toClassName
    toQualifiedName: string -> string)  // AbstractPropertyInstance.toQualifiedName

  /** The identity of an entity in the store: its identity string and its class name. */
  datatype QualifiedIdentity = QualifiedIdentity(identity: string, typeName: string)

  /** What the store holds: the property values of every stored entity. */
  type Properties = map<string, string>
  type Store = map<QualifiedIdentity, Properties>

  /** The calls the parser makes on the entity store, in the order it makes them. */
  datatype StoreCall =
    | GetEntityState(qid: QualifiedIdentity)
    | SetProperty(name: string, value: string)
    | Prepare(newStates: seq<QualifiedIdentity>, updatedStates: set<QualifiedIdentity>, removedStates: seq<QualifiedIdentity>)
    | Commit

  /** How a parse ends: nothing to store (class name or identity missing), the store did not
      know the entity (its EntityNotFoundException propagates), or the update was committed. */
  datatype ParseOutcome =
    | Skipped
    | EntityNotFound(qid: QualifiedIdentity)
    | Committed(qid: QualifiedIdentity)

  // ---------------------------------------------------------------------------------------
  // Statement classification and the collecting fold that specifies the first loop.

  predicate IsType(voc: Vocabulary, s: Statement) {
    s.predicateUri == voc.typePredicate
  }

  /** The type test comes first: a statement is an identity statement only if it is not a type one. */
  predicate IsIdentity(voc: Vocabulary, s: Statement) {
    !IsType(voc, s) && s.predicateUri == voc.identityPredicate
  }

  predicate IsProperty(voc: Vocabulary, s: Statement) {
    !IsType(voc, s) && !IsIdentity(voc, s)
  }

  /** The property name a property statement is stored under. */
  function NameOf(voc: Vocabulary, s: Statement): string {
    voc.toQualifiedName(s.predicateUri)
  }

  predicate Defines(voc: Vocabulary, s: Statement, name: string) {
    IsProperty(voc, s) && NameOf(voc, s) == name
  }

  /** The three locals of the first loop. */
  datatype Collected = Collected(className: Option<string>, id: Option<string>, properties: Properties)

  /** One iteration of the first loop. */
  function Step(voc: Vocabulary, c: Collected, s: Statement): Collected {
    if IsType(voc, s) then c.(className := Some(voc.toClassName(s.value.text)))
    else if IsIdentity(voc, s) then c.(id := Some(s.value.lexical))
    else c.(properties := c.properties[NameOf(voc, s) := s.value.lexical])
  }

  /** The locals after the first loop has run over all of `graph`. */
  function CollectAll(voc: Vocabulary, graph: seq<Statement>): Collected
    decreases |graph|
  {
    if graph == [] then Collected(None, None, map[])
    else Step(voc, CollectAll(voc, graph[..|graph| - 1]), graph[|graph| - 1])
  }

  // ---------------------------------------------------------------------------------------
  // What the fold means, stated without the fold.

  /** The class name is that of the last type statement, and there is none without one. */
  lemma {:induction false} ClassNameIsLastType(voc: Vocabulary, graph: seq<Statement>)
    ensures CollectAll(voc, graph).className.None? <==> forall i :: 0 <= i < |graph| ==> !IsType(voc, graph[i])
    ensures CollectAll(voc, graph).className.Some? ==>
      exists i :: 0 <= i < |graph| && IsType(voc, graph[i])
        && CollectAll(voc, graph).className.value == voc.toClassName(graph[i].value.text)
        && forall j :: i < j < |graph| ==> !IsType(voc, graph[j])
    decreases |graph|
  {
    if graph != [] {
      var n := |graph| - 1;
      var prefix := graph[..n];
      ClassNameIsLastType(voc, prefix);
      assert forall i :: 0 <= i < n ==> graph[i] == prefix[i];
      assert CollectAll(voc, graph) == Step(voc, CollectAll(voc, prefix), graph[n]);
      if IsType(voc, graph[n]) {
        assert CollectAll(voc, graph).className == Some(voc.toClassName(graph[n].value.text));
      } else {
        assert CollectAll(voc, graph).className == CollectAll(voc, prefix).className;
      }
      if !IsType(voc, graph[n]) && CollectAll(voc, prefix).className.Some? {
        var i :| 0 <= i < |prefix| && IsType(voc, prefix[i])
          && CollectAll(voc, prefix).className.value == voc.toClassName(prefix[i].value.text)
          && forall j :: i < j < |prefix| ==> !IsType(voc, prefix[j]);
        assert forall j :: i < j < |graph| ==> !IsType(voc, graph[j]);
      }
    }
  }

  /** The identity is that of the last identity statement, and there is none without one. */
  lemma {:induction false} IdIsLastIdentity(voc: Vocabulary, graph: seq<Statement>)
    ensures CollectAll(voc, graph).id.None? <==> forall i :: 0 <= i < |graph| ==> !IsIdentity(voc, graph[i])
    ensures CollectAll(voc, graph).id.Some? ==>
      exists i :: 0 <= i < |graph| && IsIdentity(voc, graph[i])
        && CollectAll(voc, graph).id.value == graph[i].value.lexical
        && forall j :: i < j < |graph| ==> !IsIdentity(voc, graph[j])
    decreases |graph|
  {
    if graph != [] {
      var n := |graph| - 1;
      var prefix := graph[..n];
      IdIsLastIdentity(voc, prefix);
      assert forall i :: 0 <= i < n ==> graph[i] == prefix[i];
      assert CollectAll(voc, graph) == Step(voc, CollectAll(voc, prefix), graph[n]);
      if IsIdentity(voc, graph[n]) {
        assert CollectAll(voc, graph).id == Some(graph[n].value.lexical);
      } else {
        assert CollectAll(voc, graph).id == CollectAll(voc, prefix).id;
      }
      if !IsIdentity(voc, graph[n]) && CollectAll(voc, prefix).id.Some? {
        var i :| 0 <= i < |prefix| && IsIdentity(voc, prefix[i])
          && CollectAll(voc, prefix).id.value == prefix[i].value.lexical
          && forall j :: i < j < |prefix| ==> !IsIdentity(voc, prefix[j]);
        assert forall j :: i < j < |graph| ==> !IsIdentity(voc, graph[j]);
      }
    }
  }

  /** A name is in the property map exactly when some property statement defines it, and its
      value is that of the last such statement; type and identity statements never contribute. */
  lemma {:induction false} PropertyIsLastDefinition(voc: Vocabulary, graph: seq<Statement>, name: string)
    ensures name in CollectAll(voc, graph).properties <==> exists i :: 0 <= i < |graph| && Defines(voc, graph[i], name)
    ensures name in CollectAll(voc, graph).properties ==>
      exists i :: 0 <= i < |graph| && Defines(voc, graph[i], name)
        && CollectAll(voc, graph).properties[name] == graph[i].value.lexical
        && forall j :: i < j < |graph| ==> !Defines(voc, graph[j], name)
    decreases |graph|
  {
    if graph != [] {
      var n := |graph| - 1;
      var prefix := graph[..n];
      PropertyIsLastDefinition(voc, prefix, name);
      assert forall i :: 0 <= i < n ==> graph[i] == prefix[i];
      if !Defines(voc, graph[n], name) {
        if name in CollectAll(voc, prefix).properties {
          var i :| 0 <= i < |prefix| && Defines(voc, prefix[i], name)
            && CollectAll(voc, prefix).properties[name] == prefix[i].value.lexical
            && forall j :: i < j < |prefix| ==> !Defines(voc, prefix[j], name);
          assert forall j :: i < j < |graph| ==> !Defines(voc, graph[j], name);
        }
      }
    }
  }

  // ---------------------------------------------------------------------------------------
  // The store update.

  /** `base` with every entry of `updates` written over it. */
  function Overlay(base: Properties, updates: Properties): Properties
  {
    map k | k in base.Keys + updates.Keys :: if k in updates then updates[k] else base[k]
  }

  /** The calls of a committed parse: fetch the state, set every collected property once with
      its final value, then one prepare with no new states, the entity as the only updated state
      and no removals, followed by a commit. */
  ghost predicate CommitProtocol(calls: seq<StoreCall>, qid: QualifiedIdentity, properties: Properties) {
    var n := |calls|;
    n == |properties.Keys| + 3
    && calls[0] == GetEntityState(qid)
    && SetsEach(calls[1..n - 2], properties)
    && calls[n - 2] == Prepare([], {qid}, [])
    && calls[n - 1] == Commit
  }

  /** `calls` sets every entry of `properties` with its value, and nothing else. */
  ghost predicate SetsEach(calls: seq<StoreCall>, properties: Properties) {
    (forall j :: 0 <= j < |calls| ==>
       (calls[j].SetProperty? && calls[j].name in properties && calls[j].value == properties[calls[j].name]))
    && (forall k :: k in properties ==> exists j :: 0 <= j < |calls| && calls[j] == SetProperty(k, properties[k]))
  }

  /** The first loop of parse: classifies every statement, the last one of each kind winning. */
  method CollectStatements(voc: Vocabulary, graph: seq<Statement>)
    returns (className: Option<string>, id: Option<string>, propertyValues: Properties)
    ensures Collected(className, id, propertyValues) == CollectAll(voc, graph)
  {
    className, id, propertyValues := None, None, map[];
    for i := 0 to |graph|
      invariant Collected(className, id, propertyValues) == CollectAll(voc, graph[..i])
    {
      assert graph[..i + 1][..i] == graph[..i];
      var statement := graph[i];
      if statement.predicateUri == voc.typePredicate {
        className := Some(voc.toClassName(statement.value.text));
      } else if statement.predicateUri == voc.identityPredicate {
        id := Some(statement.value.lexical);
      } else {
        propertyValues := propertyValues[voc.toQualifiedName(statement.predicateUri) := statement.value.lexical];
      }
    }
    assert graph[..|graph|] == graph;
  }

  /** Writing one more entry over an overlay is the overlay of the extended updates. */
  lemma OverlayExtend(base: Properties, updates: Properties, name: string, value: string)
    ensures Overlay(base, updates)[name := value] == Overlay(base, updates[name := value])
  {
  }

  /** Adding a fresh key to a map grows its key set by one. */
  lemma KeysGrow(m: Properties, name: string, value: string)
    requires name !in m
    ensures |m[name := value].Keys| == |m.Keys| + 1
  {
    assert m[name := value].Keys == m.Keys + {name};
  }

  /** One more set-property call for a name not yet set extends what the calls set. */
  lemma SetsEachExtend(calls: seq<StoreCall>, applied: Properties, name: string, value: string)
    requires SetsEach(calls, applied) && name !in applied
    ensures SetsEach(calls + [SetProperty(name, value)], applied[name := value])
  {
    var extended := calls + [SetProperty(name, value)];
    var grown := applied[name := value];
    forall k | k in grown
      ensures exists j :: 0 <= j < |extended| && extended[j] == SetProperty(k, grown[k])
    {
      if k == name {
        assert extended[|calls|] == SetProperty(k, value);
      } else {
        var j :| 0 <= j < |calls| && calls[j] == SetProperty(k, applied[k]);
        assert extended[j] == SetProperty(k, grown[k]);
      }
    }
  }

  /** Taking one more key out of the pending set adds its entry to what has been applied. */
  lemma ApplyOneMore(propertyValues: Properties, pending: set<string>, name: string)
    requires name in pending && pending <= propertyValues.Keys
    ensures propertyValues - (pending - {name}) == (propertyValues - pending)[name := propertyValues[name]]
    ensures name !in propertyValues - pending
  {
  }

  /** What the second loop keeps: the properties no longer pending have been written over the
      fetched state, and `calls` set each of them once. */
  ghost predicate SettingInvariant(base: Properties, propertyValues: Properties, pending: set<string>,
                                   entityState: Properties, calls: seq<StoreCall>)
  {
    pending <= propertyValues.Keys
    && entityState == Overlay(base, propertyValues - pending)
    && |calls| == |(propertyValues - pending).Keys|
    && SetsEach(calls, propertyValues - pending)
  }

  /** Setting one more pending property keeps the invariant of the second loop. */
  lemma SettingStep(base: Properties, propertyValues: Properties, pending: set<string>,
                    entityState: Properties, calls: seq<StoreCall>, name: string)
    requires SettingInvariant(base, propertyValues, pending, entityState, calls)
    requires name in pending
    ensures SettingInvariant(base, propertyValues, pending - {name},
                             entityState[name := propertyValues[name]],
                             calls + [SetProperty(name, propertyValues[name])])
  {
    var value := propertyValues[name];
    var applied := propertyValues - pending;
    ApplyOneMore(propertyValues, pending, name);
    OverlayExtend(base, applied, name, value);
    KeysGrow(applied, name, value);
    SetsEachExtend(calls, applied, name, value);
  }

  /** Before the second loop nothing has been set; after it, everything has. */
  lemma SettingBounds(base: Properties, propertyValues: Properties, entityState: Properties, calls: seq<StoreCall>)
    ensures SettingInvariant(base, propertyValues, propertyValues.Keys, base, [])
    ensures SettingInvariant(base, propertyValues, {}, entityState, calls) ==>
              entityState == Overlay(base, propertyValues)
              && |calls| == |propertyValues.Keys| && SetsEach(calls, propertyValues)
  {
    assert propertyValues - propertyValues.Keys == map[];
    assert Overlay(base, map[]) == base;
    assert propertyValues - {} == propertyValues;
  }

  /** The second loop of parse: sets every collected property on the fetched state, one call per
      property, in the (unspecified) iteration order of the map. */
  method SetProperties(base: Properties, propertyValues: Properties)
    returns (entityState: Properties, calls: seq<StoreCall>)
    ensures entityState == Overlay(base, propertyValues)
    ensures |calls| == |propertyValues.Keys| && SetsEach(calls, propertyValues)
  {
    entityState, calls := base, [];
    var pending := propertyValues.Keys;
    SettingBounds(base, propertyValues, base, []);
    while pending != {}
      invariant SettingInvariant(base, propertyValues, pending, entityState, calls)
      decreases pending
    {
      var name :| name in pending;
      SettingStep(base, propertyValues, pending, entityState, calls, name);
      entityState := entityState[name := propertyValues[name]];
      calls := calls + [SetProperty(name, propertyValues[name])];
      pending := pending - {name};
    }
    SettingBounds(base, propertyValues, entityState, calls);
  }

  /** EntityParserMixin.parse: collects the statements of `graph`, then either stops without
      touching the store or writes every collected property into the entity's stored state and
      commits that single updated state. */
  method Parse(voc: Vocabulary, graph: seq<Statement>, store: Store)
    returns (outcome: ParseOutcome, calls: seq<StoreCall>, newStore: Store)
    ensures var c := CollectAll(voc, graph);
      && (outcome.Skipped? <==> c.className.None? || c.id.None?)
      && (outcome.Skipped? ==> calls == [] && newStore == store)
      && (!outcome.Skipped? ==> outcome.qid == QualifiedIdentity(c.id.value, c.className.value))
      && (outcome.EntityNotFound? ==> outcome.qid !in store && calls == [GetEntityState(outcome.qid)] && newStore == store)
      && (outcome.Committed? ==>
            outcome.qid in store
            && newStore == store[outcome.qid := Overlay(store[outcome.qid], c.properties)]
            && CommitProtocol(calls, outcome.qid, c.properties))
  {
    var className, id, propertyValues := CollectStatements(voc, graph);
    if className.None? || id.None? {
      return Skipped, [], store;
    }

    var qid := QualifiedIdentity(id.value, className.value);
    if qid !in store {
      return EntityNotFound(qid), [GetEntityState(qid)], store;
    }
    var entityState, setCalls := SetProperties(store[qid], propertyValues);
    calls := [GetEntityState(qid)] + setCalls + [Prepare([], {qid}, []), Commit];
    assert calls[1..|calls| - 2] == setCalls;
    newStore := store[qid := entityState];
    outcome := Committed(qid);
  }
}
