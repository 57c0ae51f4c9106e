/** `CreatorRepository`, a Spring Data `JpaRepository<Creator, UUID>`, as an
    in-memory table: an ordered sequence of rows (the order `findAll` returns,
    which is insertion order) and the id generator's next value. */
module Repository {
  import opened Wrappers
  import opened Uuids
  import opened Creators
  import opened CreatorTable

  /** Why `save` refused a Creator: bean validation failed (a
      `ConstraintViolationException`), or the name is already used by another
      row (the unique column's `DataIntegrityViolationException`). */
  datatype SaveError = ConstraintViolation(violations: set<Constraint>) | UniqueViolation

  class CreatorRepository {
    var rows: seq<Creator>
    /** The id the generator hands out next; every stored id is below it. */
    var nextId: Uuid

    ghost predicate Valid()
      reads this
    {
      WellFormed(rows) && forall i :: 0 <= i < |rows| ==> rows[i].id.Some? && rows[i].id.value < nextId
    }

    constructor ()
      ensures Valid() && rows == []
    {
      rows := [];
      nextId := 0;
    }

    /** `findAll`: every row, in insertion order. */
    method FindAll() returns (r: seq<Creator>)
      requires Valid()
      ensures r == rows
      ensures WellFormed(r)
    {
      r := rows;
    }

    /** `findById`: the row with that id, or empty. */
    method FindById(id: Uuid) returns (r: Option<Creator>)
      requires Valid()
      ensures r == Lookup(rows, id)
      ensures r.Some? <==> Contains(rows, id)
      ensures r.Some? ==> r.value in rows && r.value.id == Some(id)
    {
      r := Lookup(rows, id);
    }

    /** `save`: a Creator whose id names a stored row overwrites that row in
        place; a Creator without an id is inserted at the end under a freshly
        generated id. A Creator that fails validation, or whose name another
        row already has, is refused and the table is left as it was. For a
        Creator carrying an id the table does not hold, only the table
        invariant, an unchanged table on failure and a stored result on
        success are promised. */
    method Save(c: Creator) returns (r: Result<Creator, SaveError>)
      requires Valid()
      modifies this
      ensures Valid()
      ensures r.Failure? ==> rows == old(rows) && nextId == old(nextId)
      ensures r.Success? ==> r.value.id.Some? && r.value.name == c.name
      ensures r.Success? ==> Lookup(rows, r.value.id.value) == Some(r.value)
      ensures c.id.Some? && Contains(old(rows), c.id.value) ==>
        && (!IsValid(c) ==> r == Failure(ConstraintViolation(Violations(c))))
        && (r.Failure? <==> !IsValid(c) || NameClash(old(rows), c.name, c.id))
        && (r.Success? ==> r.value == c && rows == old(rows)[IndexOf(old(rows), c.id.value).value := c]
                           && nextId == old(nextId))
      ensures c.id.None? ==>
        && (!IsValid(c) ==> r == Failure(ConstraintViolation(Violations(c))))
        && (r.Failure? <==> !IsValid(c) || NameClash(old(rows), c.name, None))
        && (r.Success? ==> r.value == Creator(Some(old(nextId)), c.name) && !Contains(old(rows), old(nextId))
                           && rows == old(rows) + [r.value] && nextId == old(nextId) + 1)
    {
      if !IsValid(c) {
        return Failure(ConstraintViolation(Violations(c)));
      }
      var target := if c.id.Some? then IndexOf(rows, c.id.value) else None;
      if target.Some? {
        if NameClash(rows, c.name, c.id) {
          return Failure(UniqueViolation);
        }
        ReplaceWellFormed(rows, target.value, c);
        LookupAfterReplace(rows, target.value, c, c.id.value);
        rows := rows[target.value := c];
        r := Success(c);
      } else {
        if NameClash(rows, c.name, None) {
          return Failure(UniqueViolation);
        }
        var saved := Creator(Some(nextId), c.name);
        AppendWellFormed(rows, saved);
        LookupAfterAppend(rows, saved);
        rows := rows + [saved];
        nextId := nextId + 1;
        r := Success(saved);
      }
    }

    /** `deleteById`: removes the row with that id; an absent id changes
        nothing. */
    method DeleteById(id: Uuid)
      requires Valid()
      modifies this
      ensures Valid()
      ensures rows == RemoveId(old(rows), id) && nextId == old(nextId)
      ensures !Contains(rows, id)
    {
      RemoveWellFormed(rows, id);
      LookupAfterRemove(rows, id, id);
      rows := RemoveId(rows, id);
    }

    /** `delete(entity)`: removes the row with the entity's id; an entity
        without an id, or one not stored, changes nothing. */
    method Delete(c: Creator)
      requires Valid()
      modifies this
      ensures Valid()
      ensures c.id.None? ==> rows == old(rows)
      ensures c.id.Some? ==> rows == RemoveId(old(rows), c.id.value)
      ensures nextId == old(nextId)
    {
      if c.id.Some? {
        DeleteById(c.id.value);
      }
    }
  }
}
