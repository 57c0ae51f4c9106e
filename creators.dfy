/** The Creator entity (backend/.../v1/creator/Creator.java): an identifier
    generated by the store and a name that bean validation requires to be
    non-null and non-empty, and that the table's unique column requires to be
    distinct across rows. */
module Creators {
  import opened Wrappers
  import opened Uuids

  /** `id` is `None` until the store assigns one; `name` is `None` for a Java
      `null`. */
  datatype Creator = Creator(id: Option<Uuid>, name: Option<string>)

  /** The two bean-validation constraints on `name`: `@NotNull`, `@NotEmpty`. */
  datatype Constraint = NotNull | NotEmpty

  /** The set of constraints `validator.validate(c)` reports as violated. */
  function Violations(c: Creator): (v: set<Constraint>)
    ensures NotNull in v <==> c.name.None?
    ensures NotEmpty in v <==> c.name.None? || c.name.value == ""
  {
    match c.name
    case None => {NotNull, NotEmpty}
    case Some(n) => if n == "" then {NotEmpty} else {}
  }

  /** A Creator that passes bean validation. */
  predicate IsValid(c: Creator) {
    c.name.Some? && c.name.value != ""
  }

  lemma ValidIffNoViolations(c: Creator)
    ensures IsValid(c) <==> Violations(c) == {}
  {
    if !IsValid(c) {
      assert NotEmpty in Violations(c);
    }
  }

  /** The name-only constructor `new Creator(name)`. Lombok's `@NonNull`
      forbids a null name, which `string` already excludes. */
  function NewNamed(name: string): (c: Creator)
    ensures c.name == Some(name) && c.id.None?
  {
    Creator(None, Some(name))
  }

  /** Validating a named Creator reports one violation for the empty name and
      none otherwise; a null name violates both constraints. */
  lemma ViolationCounts(name: string)
    ensures name == "" ==> |Violations(NewNamed(name))| == 1
    ensures name != "" ==> |Violations(NewNamed(name))| == 0
    ensures |Violations(Creator(None, None))| == 2
  {
    assert Violations(Creator(None, None)) == {NotNull, NotEmpty};
  }
}
