/** The detail descriptor of a composite method's constraints, as shown by the visualizer: the
    method's constraints descriptor and the list of constraint descriptors added to it. Java's
    null is modelled as None. */
module ConstraintsDetail {

  import opened Wrappers

  /** validateNotNull throws IllegalArgumentException naming the rejected argument. */
  datatype Rejection = IllegalArgument(argumentName: string)

  datatype Outcome = Pass | Fail(rejection: Rejection)

  /** A method's constraints descriptor and one constraint descriptor; both are opaque here. */
  datatype MethodConstraintsDescriptor = MethodConstraintsDescriptor(methodName: string)
  datatype ConstraintDescriptor = ConstraintDescriptor(annotationType: string)

  /** The non-null arguments among `requested`, in order. */
  function NonNull(requested: seq<Option<ConstraintDescriptor>>): seq<ConstraintDescriptor> {
    if requested == [] then []
    else (if requested[0].Some? then [requested[0].value] else []) + NonNull(requested[1..])
  }

  /** A later argument ends up after the earlier ones, and a null one is dropped. */
  lemma {:induction false} NonNullAppend(requested: seq<Option<ConstraintDescriptor>>, c: Option<ConstraintDescriptor>)
    ensures NonNull(requested + [c]) == NonNull(requested) + (if c.Some? then [c.value] else [])
  {
    var last := if c.Some? then [c.value] else [];
    if requested == [] {
      assert requested + [c] == [c];
      assert [c][1..] == [];
      assert NonNull([c]) == last + NonNull([]);
    } else {
      var head := if requested[0].Some? then [requested[0].value] else [];
      var rest := requested[1..];
      assert (requested + [c])[0] == requested[0];
      assert (requested + [c])[1..] == rest + [c];
      assert NonNull(requested + [c]) == head + NonNull(rest + [c]);
      NonNullAppend(rest, c);
      assert NonNull(requested) == head + NonNull(rest);
      assert head + (NonNull(rest) + last) == (head + NonNull(rest)) + last;
    }
  }

  /** A descriptor is kept exactly when it was passed, non-null, to some call. */
  lemma {:induction false} NonNullMembership(requested: seq<Option<ConstraintDescriptor>>, d: ConstraintDescriptor)
    ensures d in NonNull(requested) <==> Some(d) in requested
  {
    if requested != [] {
      NonNullMembership(requested[1..], d);
      assert requested == [requested[0]] + requested[1..];
    }
  }

  class CompositeMethodConstrainsDetailDescriptor {
    /** The Java field is a reference and so could be null; the constructor's check keeps it set. */
    const descriptor: Option<MethodConstraintsDescriptor>
    var constraints: seq<ConstraintDescriptor>
    /** Every argument addConstraint was called with, null ones included. */
    ghost var requested: seq<Option<ConstraintDescriptor>>

    /** The descriptor is set, and the constraint list holds exactly the non-null arguments of
        addConstraint, in order. */
    ghost predicate Valid()
      reads this
    {
      descriptor.Some? && constraints == NonNull(requested)
    }

    /** The constructor once its argument has passed the null check. */
    constructor (aDescriptor: MethodConstraintsDescriptor)
      ensures Valid() && descriptor == Some(aDescriptor) && constraints == [] && requested == []
    {
      descriptor := Some(aDescriptor);
      constraints := [];
      requested := [];
    }

    /** descriptor(): the constructor's argument, which is never null. */
    function Descriptor(): (d: MethodConstraintsDescriptor)
      reads this
      requires Valid()
      ensures descriptor == Some(d)
    {
      descriptor.value
    }

    /** constraints(): the constraints added so far, in the order added. */
    function Constraints(): (cs: seq<ConstraintDescriptor>)
      reads this
      requires Valid()
      ensures cs == NonNull(requested)
    {
      constraints
    }

    /** addConstraint: a null argument is rejected and changes nothing; any other is appended. */
    method AddConstraint(aDescriptor: Option<ConstraintDescriptor>) returns (r: Outcome)
      requires Valid()
      modifies this
      ensures Valid()
      ensures requested == old(requested) + [aDescriptor]
      ensures aDescriptor.None? ==> r == Fail(IllegalArgument("aDescriptor")) && constraints == old(constraints)
      ensures aDescriptor.Some? ==> r == Pass && constraints == old(constraints) + [aDescriptor.value]
    {
      NonNullAppend(requested, aDescriptor);
      requested := requested + [aDescriptor];
      if aDescriptor.None? {
        return Fail(IllegalArgument("aDescriptor"));
      }
      constraints := constraints + [aDescriptor.value];
      r := Pass;
    }
  }

  /** new CompositeMethodConstrainsDetailDescriptor(aDescriptor): a null descriptor is rejected
      with IllegalArgumentException; otherwise the new instance holds it and no constraints. */
  method NewDetailDescriptor(aDescriptor: Option<MethodConstraintsDescriptor>)
    returns (r: Option<CompositeMethodConstrainsDetailDescriptor>, rejection: Option<Rejection>)
    ensures aDescriptor.None? <==> r.None?
    ensures aDescriptor.None? ==> rejection == Some(IllegalArgument("aDescriptor"))
    ensures aDescriptor.Some? ==>
      rejection.None? && fresh(r.value) && r.value.Valid()
      && r.value.descriptor == aDescriptor && r.value.Descriptor() == aDescriptor.value
      && r.value.constraints == []
  {
    if aDescriptor.None? {
      return None, Some(IllegalArgument("aDescriptor"));
    }
    var d := new CompositeMethodConstrainsDetailDescriptor(aDescriptor.value);
    return Some(d), None;
  }
}
