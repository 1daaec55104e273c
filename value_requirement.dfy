/** A value requirement: the name of a value wanted from the engine and the
    specification of the target it is wanted for. Both are required. The
    requirement writes itself into a message as a "valueName" string field
    followed by the target specification's own fields, and reads itself
    back from the first "valueName" field. How a target specification is
    written, read and hashed belongs to its own type, which this model does
    not contain; those three are parameters. */
module ValueRequirement {
  import opened Common

  /** The target specification: the kind of target and its identifier. */
  datatype TargetSpecification = TargetSpecification(targetType: string, uniqueId: Option<string>)

  datatype Requirement = Requirement(valueName: string, targetSpecification: TargetSpecification)

  /** A field of a message: a string, or a value of some other kind. */
  datatype FieldValue = StringValue(s: string) | OtherValue(tag: string)

  datatype MessageField = MessageField(name: string, value: FieldValue)

  const ValueNameFieldName: string := "valueName"

  /** The constructor's checks: value name first, then the specification. */
  function Create(valueName: Option<string>, targetSpecification: Option<TargetSpecification>): (r: Result<Requirement>)
    ensures r.Ok? <==> valueName.Some? && targetSpecification.Some?
    ensures valueName.None? ==> r == Err("Value name")
    ensures valueName.Some? && targetSpecification.None? ==> r == Err("Computation target specification")
    ensures r.Ok? ==> r.value.valueName == valueName.value && r.value.targetSpecification == targetSpecification.value
  {
    if valueName.None? then Err("Value name")
    else if targetSpecification.None? then Err("Computation target specification")
    else Ok(Requirement(valueName.value, targetSpecification.value))
  }

  /** What `equals` may be handed. */
  datatype Object = NullObject | RequirementObject(requirement: Requirement) | OtherObject

  /** Equal names and equal specifications; never equal to null or to
      another type. */
  function Equals(r: Requirement, obj: Object): (b: bool)
    ensures b <==> obj == RequirementObject(r)
  {
    match obj
    case NullObject => false
    case OtherObject => false
    case RequirementObject(other) =>
      r.valueName == other.valueName && r.targetSpecification == other.targetSpecification
  }

  /** 31 * (31 * 1 + hash(name)) + hash(specification), in 32-bit
      arithmetic. */
  function HashCode(r: Requirement, specificationHash: TargetSpecification -> bv32): (h: bv32)
    ensures h == Combine(31 + StringHash(r.valueName), specificationHash(r.targetSpecification))
  {
    Combine(Combine(1, StringHash(r.valueName)), specificationHash(r.targetSpecification))
  }

  /** A mutable message that fields are appended to. */
  class MutableMessage {
    var fields: seq<MessageField>

    constructor ()
      ensures fields == []
    {
      fields := [];
    }

    method Add(name: string, value: FieldValue)
      modifies this
      ensures fields == old(fields) + [MessageField(name, value)]
    {
      fields := fields + [MessageField(name, value)];
    }

    /** What the target specification does when it writes itself: its own
        fields appended in order. */
    method AddAll(more: seq<MessageField>)
      modifies this
      ensures fields == old(fields) + more
    {
      fields := fields + more;
    }
  }

  /** The fields a requirement appends to a message. */
  function Encoding(r: Requirement, specificationFields: TargetSpecification -> seq<MessageField>): seq<MessageField> {
    [MessageField(ValueNameFieldName, StringValue(r.valueName))] + specificationFields(r.targetSpecification)
  }

  /** Appends the value name, then the specification's fields. */
  method ToFudgeMsg(r: Requirement, msg: MutableMessage, specificationFields: TargetSpecification -> seq<MessageField>)
    modifies msg
    ensures msg.fields == old(msg.fields) + Encoding(r, specificationFields)
  {
    msg.Add(ValueNameFieldName, StringValue(r.valueName));
    msg.AddAll(specificationFields(r.targetSpecification));
  }

  /** The first string field of the name; null when the first field of
      that name is not a string, or when there is none. */
  function GetString(fields: seq<MessageField>, name: string): (r: Option<string>)
    ensures r.Some? ==> exists i :: 0 <= i < |fields| && fields[i] == MessageField(name, StringValue(r.value))
                          && forall j :: 0 <= j < i ==> fields[j].name != name
    ensures (forall i :: 0 <= i < |fields| ==> fields[i].name != name) ==> r.None?
    ensures forall i :: 0 <= i < |fields| && fields[i].name == name && (forall j :: 0 <= j < i ==> fields[j].name != name)
                        ==> r == (if fields[i].value.StringValue? then Some(fields[i].value.s) else None)
  {
    if fields == [] then None
    else if fields[0].name == name then
      (if fields[0].value.StringValue? then Some(fields[0].value.s) else None)
    else
      var rest := GetString(fields[1..], name);
      assert forall i :: 0 < i < |fields| ==> fields[i] == fields[1..][i - 1];
      rest
  }

  /** Reads the value name and the specification back and builds the
      requirement, with the constructor's checks. */
  function FromFudgeMsg(fields: seq<MessageField>, readSpecification: seq<MessageField> -> Option<TargetSpecification>): (r: Result<Requirement>)
    ensures r.Ok? <==> GetString(fields, ValueNameFieldName).Some? && readSpecification(fields).Some?
    ensures GetString(fields, ValueNameFieldName).None? ==> r == Err("Value name")
    ensures (GetString(fields, ValueNameFieldName).Some? && readSpecification(fields).None?)
              ==> r == Err("Computation target specification")
    ensures r.Ok? ==> GetString(fields, ValueNameFieldName) == Some(r.value.valueName)
    ensures r.Ok? ==> readSpecification(fields) == Some(r.value.targetSpecification)
  {
    Create(GetString(fields, ValueNameFieldName), readSpecification(fields))
  }

  // ---------------------------------------------------------------------
  // Properties

  /** Equal requirements hash equally. */
  lemma EqualsConsistentWithHashCode(r: Requirement, s: Requirement, specificationHash: TargetSpecification -> bv32)
    requires Equals(r, RequirementObject(s))
    ensures HashCode(r, specificationHash) == HashCode(s, specificationHash)
  {
  }

  /** Equality is symmetric. */
  lemma EqualsSymmetric(r: Requirement, s: Requirement)
    ensures Equals(r, RequirementObject(s)) == Equals(s, RequirementObject(r))
  {
  }

  /** Written into a message without a "valueName" field of its own, a
      requirement's name reads back; with a specification that reads back
      too, the whole requirement does. */
  lemma RoundTrip(r: Requirement, prefix: seq<MessageField>,
                  specificationFields: TargetSpecification -> seq<MessageField>,
                  readSpecification: seq<MessageField> -> Option<TargetSpecification>)
    requires forall i :: 0 <= i < |prefix| ==> prefix[i].name != ValueNameFieldName
    ensures GetString(prefix + Encoding(r, specificationFields), ValueNameFieldName) == Some(r.valueName)
    ensures readSpecification(prefix + Encoding(r, specificationFields)) == Some(r.targetSpecification) ==>
              FromFudgeMsg(prefix + Encoding(r, specificationFields), readSpecification) == Ok(r)
  {
    var e := Encoding(r, specificationFields);
    GetStringSkips(prefix, e, ValueNameFieldName);
    assert e[0] == MessageField(ValueNameFieldName, StringValue(r.valueName));
  }

  /** Fields of other names in front do not change what GetString finds. */
  lemma {:induction false} GetStringSkips(p: seq<MessageField>, q: seq<MessageField>, name: string)
    requires forall i :: 0 <= i < |p| ==> p[i].name != name
    ensures GetString(p + q, name) == GetString(q, name)
  {
    if p != [] {
      assert (p + q)[1..] == p[1..] + q;
      assert (p + q)[0] == p[0];
      GetStringSkips(p[1..], q, name);
    } else {
      assert p + q == q;
    }
  }

  /** Only the first "valueName" field counts: a message that already held
      one reads back that earlier name. */
  lemma EarlierNameWins(r: Requirement, prefix: seq<MessageField>, earlier: string,
                        specificationFields: TargetSpecification -> seq<MessageField>)
    requires prefix != [] && prefix[0] == MessageField(ValueNameFieldName, StringValue(earlier))
    ensures GetString(prefix + Encoding(r, specificationFields), ValueNameFieldName) == Some(earlier)
  {
    var m := prefix + Encoding(r, specificationFields);
    assert m[0] == prefix[0];
  }
}
