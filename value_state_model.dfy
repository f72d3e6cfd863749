/** The state model of a value composite: its properties and its three kinds of associations,
    the lookups it delegates to the association sub-models, and the hierarchical visit of all
    four sub-models. */
module ValueStateModel {

  import opened Wrappers

  /** A qualified name: the type that declares the state and the name within it. */
  datatype QualifiedName = QualifiedName(typeName: string, name: string)

  /** What an association lookup finds. */
  datatype AssociationDescriptor = AssociationDescriptor(qualifiedName: QualifiedName)

  /** An association sub-model, seen only through the answers it gives; how it finds them is
      not part of this model. */
  datatype AssociationsModel = AssociationsModel(
    byName: string -> Option<AssociationDescriptor>,
    byQualifiedName: QualifiedName -> Option<AssociationDescriptor>,
    all: seq<AssociationDescriptor>)

  /** The three association sub-models of a value's state. */
  datatype ValueState = ValueState(
    associationsModel: AssociationsModel,
    manyAssociationsModel: AssociationsModel,
    namedAssociationsModel: AssociationsModel)

  // ---------------------------------------------------------------------------------------
  // Lookups: each kind of association is answered by its own sub-model.

  datatype AssociationKind = Plain | Many | Named

  /** The sub-model that holds the associations of `kind`. */
  function SubModel(s: ValueState, kind: AssociationKind): AssociationsModel {
    match kind
    case Plain => s.associationsModel
    case Many => s.manyAssociationsModel
    case Named => s.namedAssociationsModel
  }

  /** getAssociationByName, getManyAssociationByName and getNamedAssociationByName: the answer
      is the one the sub-model of that kind gives. */
  function GetByName(s: ValueState, kind: AssociationKind, name: string): (r: Option<AssociationDescriptor>)
    ensures r == SubModel(s, kind).byName(name)
  {
    match kind
    case Plain => s.associationsModel.byName(name)
    case Many => s.manyAssociationsModel.byName(name)
    case Named => s.namedAssociationsModel.byName(name)
  }

  /** getAssociationByQualifiedName and its many and named counterparts. */
  function GetByQualifiedName(s: ValueState, kind: AssociationKind, name: QualifiedName): (r: Option<AssociationDescriptor>)
    ensures r == SubModel(s, kind).byQualifiedName(name)
  {
    match kind
    case Plain => s.associationsModel.byQualifiedName(name)
    case Many => s.manyAssociationsModel.byQualifiedName(name)
    case Named => s.namedAssociationsModel.byQualifiedName(name)
  }

  /** associations(), manyAssociations() and namedAssociations(). */
  function Associations(s: ValueState, kind: AssociationKind): (r: seq<AssociationDescriptor>)
    ensures r == SubModel(s, kind).all
  {
    match kind
    case Plain => s.associationsModel.all
    case Many => s.manyAssociationsModel.all
    case Named => s.namedAssociationsModel.all
  }

  /** Two states whose sub-models of one kind give the same answers give the same answers to
      every lookup of that kind, whatever their other two sub-models are. */
  lemma LookupsUseOnlyTheirSubModel(s: ValueState, t: ValueState, kind: AssociationKind, name: string, qualified: QualifiedName)
    requires SubModel(s, kind).byName(name) == SubModel(t, kind).byName(name)
    requires SubModel(s, kind).byQualifiedName(qualified) == SubModel(t, kind).byQualifiedName(qualified)
    requires SubModel(s, kind).all == SubModel(t, kind).all
    ensures GetByName(s, kind, name) == GetByName(t, kind, name)
    ensures GetByQualifiedName(s, kind, qualified) == GetByQualifiedName(t, kind, qualified)
    ensures Associations(s, kind) == Associations(t, kind)
  {
  }

  // ---------------------------------------------------------------------------------------
  // The hierarchical visit.

  /** The four sub-models a visit descends into. */
  datatype Part = Properties | PlainAssociations | ManyAssociations | NamedAssociations

  /** The order in which the visit descends into the sub-models. */
  const VisitOrder: seq<Part> := [Properties, PlainAssociations, ManyAssociations, NamedAssociations]

  /** What the visitor and the sub-models answer; their internals are not part of this model:
      `enter` is visitEnter's answer, `descend(p)` the answer of sub-model p's accept, `leave`
      visitLeave's answer. */
  datatype Answers = Answers(enter: bool, descend: Part -> bool, leave: bool)

  /** One call made during a visit. */
  datatype Call = VisitEnter | Accept(part: Part) | VisitLeave

  /** The calls made by a visit, in order, and what accept returns. */
  datatype Visit = Visit(calls: seq<Call>, result: bool)

  /** ValueStateModel.accept: enter; if the visitor enters, descend into the sub-models in order
      for as long as each one's accept answers true; then leave, whose answer is the result. */
  function AcceptVisitor(a: Answers): (v: Visit)
    ensures |v.calls| >= 2 && v.calls[0] == VisitEnter && v.calls[|v.calls| - 1] == VisitLeave
    ensures v.result == a.leave
  {
    var descended :=
      if !a.enter then []
      else if !a.descend(Properties) then [Accept(Properties)]
      else if !a.descend(PlainAssociations) then [Accept(Properties), Accept(PlainAssociations)]
      else if !a.descend(ManyAssociations) then [Accept(Properties), Accept(PlainAssociations), Accept(ManyAssociations)]
      else [Accept(Properties), Accept(PlainAssociations), Accept(ManyAssociations), Accept(NamedAssociations)];
    Visit([VisitEnter] + descended + [VisitLeave], a.leave)
  }

  /** The reference description of a visit: part k of VisitOrder is visited exactly when the
      visitor entered and every part before it answered true. */
  predicate Reached(a: Answers, k: nat)
    requires k <= |VisitOrder|
  {
    a.enter && forall j :: 0 <= j < k ==> a.descend(VisitOrder[j])
  }

  /** How many sub-models a visit descends into, counted from the reference description. */
  function Descended(a: Answers): (n: nat)
    ensures n <= |VisitOrder|
    ensures forall k :: 0 <= k < n ==> Reached(a, k)
    ensures n < |VisitOrder| ==> !Reached(a, n)
  {
    if !Reached(a, 0) then 0
    else if !Reached(a, 1) then 1
    else if !Reached(a, 2) then 2
    else if !Reached(a, 3) then 3
    else 4
  }

  /** A visit makes exactly the calls of the reference description: enter, the reached
      sub-models in VisitOrder, leave. */
  lemma AcceptVisitsReachedPrefix(a: Answers)
    ensures AcceptVisitor(a).calls == [VisitEnter] + Accepts(VisitOrder[..Descended(a)]) + [VisitLeave]
  {
    var n := Descended(a);
    var descended := Accepts(VisitOrder[..n]);
    if n >= 1 { assert a.enter; }
    if n >= 2 { assert a.descend(VisitOrder[0]); }
    if n >= 3 { assert a.descend(VisitOrder[1]); }
    if n == 4 { assert a.descend(VisitOrder[2]); }
    if n < 4 {
      assert !Reached(a, n);
      if n >= 1 { assert !a.descend(VisitOrder[n - 1]); }
    }
    assert descended == seq(n, i requires 0 <= i < n => Accept(VisitOrder[i]));
  }

  /** The accept calls of a sequence of parts. */
  function Accepts(parts: seq<Part>): (calls: seq<Call>)
    ensures |calls| == |parts|
    ensures forall i :: 0 <= i < |parts| ==> calls[i] == Accept(parts[i])
  {
    if parts == [] then [] else [Accept(parts[0])] + Accepts(parts[1..])
  }

  /** A sub-model is descended into exactly when it is reached. */
  lemma {:induction false} AcceptDescendsIffReached(a: Answers, k: nat)
    requires k < |VisitOrder|
    ensures Accept(VisitOrder[k]) in AcceptVisitor(a).calls <==> Reached(a, k)
  {
    AcceptVisitsReachedPrefix(a);
    var calls := AcceptVisitor(a).calls;
    var n := Descended(a);
    if Reached(a, k) {
      assert k < n;
      assert calls[k + 1] == Accept(VisitOrder[k]);
    } else {
      assert n <= k;
      forall i | 0 <= i < |calls| ensures calls[i] != Accept(VisitOrder[k]) {
        if 1 <= i <= n {
          assert calls[i] == Accept(VisitOrder[i - 1]);
        }
      }
    }
  }

  /** If the visitor does not enter, no sub-model is visited: the visit is enter then leave. */
  lemma NoDescentWithoutEnter(a: Answers)
    requires !a.enter
    ensures AcceptVisitor(a).calls == [VisitEnter, VisitLeave]
  {
  }

  /** What the named-associations sub-model answers changes neither the calls nor the result. */
  lemma NamedAnswerIsIgnored(a: Answers, b: Answers)
    requires a.enter == b.enter && a.leave == b.leave
    requires forall p :: p != NamedAssociations ==> a.descend(p) == b.descend(p)
    ensures AcceptVisitor(a) == AcceptVisitor(b)
  {
    assert a.descend(Properties) == b.descend(Properties);
    assert a.descend(PlainAssociations) == b.descend(PlainAssociations);
    assert a.descend(ManyAssociations) == b.descend(ManyAssociations);
  }
}
