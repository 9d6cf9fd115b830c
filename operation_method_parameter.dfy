/** Actuator `OperationMethodParameter`: whether an operation method's parameter is mandatory. */
module OperationMethodParameters {
  import opened Wrappers
  import opened Strings

  /** `javax.annotation.meta.When`. */
  datatype When = ALWAYS | UNKNOWN | MAYBE | NEVER

  /**
   * The annotation facts `isMandatory` reads: whether `@Nullable` is present, and the
   * merged `@Nonnull` with its `when`, if present.
   */
  datatype Annotations = Annotations(nullable: bool, nonnull: Option<When>)

  datatype OperationMethodParameter = OperationMethodParameter(name: string, typeName: string, annotations: Annotations)

  /** `Jsr305.isMandatory`: no `@Nonnull`, or one whose `when` is ALWAYS. */
  predicate Jsr305Mandatory(annotations: Annotations)
  {
    annotations.nonnull.None? || annotations.nonnull.value == ALWAYS
  }

  /** `isMandatory`, for a class path with or without JSR-305. */
  function IsMandatory(p: OperationMethodParameter, jsr305Present: bool): (mandatory: bool)
    ensures p.annotations.nullable ==> !mandatory
    ensures !p.annotations.nullable && !jsr305Present ==> mandatory
  {
    if p.annotations.nullable then false
    else if jsr305Present then Jsr305Mandatory(p.annotations)
    else true
  }

  /**
   * With JSR-305 present, a parameter is optional iff it is `@Nullable` or carries `@Nonnull`
   * with a `when` other than ALWAYS.
   */
  lemma OptionalWithJsr305(p: OperationMethodParameter)
    ensures !IsMandatory(p, true)
            <==> p.annotations.nullable || (p.annotations.nonnull.Some? && p.annotations.nonnull.value != ALWAYS)
  {
  }

  /** JSR-305 on the class path only ever makes parameters optional, never mandatory. */
  lemma Jsr305OnlyRelaxes(p: OperationMethodParameter)
    ensures IsMandatory(p, true) ==> IsMandatory(p, false)
  {
  }

  /** `toString`: the name, " of type ", and the type's name. */
  function ToString(p: OperationMethodParameter): (s: string)
    ensures |s| == |p.name| + |" of type "| + |p.typeName|
    ensures StartsWith(s, p.name) && EndsWith(s, p.typeName)
    ensures s[|p.name|..|p.name| + 9] == " of type "
  {
    p.name + " of type " + p.typeName
  }

  /** Two parameters with the same name print alike only if their types have the same name. */
  lemma ToStringDeterminesType(p: OperationMethodParameter, q: OperationMethodParameter)
    requires p.name == q.name && ToString(p) == ToString(q)
    ensures p.typeName == q.typeName
  {
    assert p.typeName == ToString(p)[|p.name| + 9..];
    assert q.typeName == ToString(q)[|q.name| + 9..];
  }
}
