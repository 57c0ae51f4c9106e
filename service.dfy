/** `CreatorServiceImpl`: the Creator operations over the repository, with
    absence from the table reported as a `ResourceNotFoundException` outcome
    instead of a thrown exception. */
module Service {
  import opened Wrappers
  import opened Uuids
  import opened Creators
  import opened CreatorTable
  import opened Repository
  import opened ResourceNotFound

  /** Why `updateCreator` failed: the id is not stored, or `save` refused the
      updated Creator. */
  datatype UpdateError = Missing(notFound: ResourceNotFoundException) | Rejected(cause: SaveError)

  class CreatorService {
    const repository: CreatorRepository

    ghost predicate Valid()
      reads this, repository
    {
      repository.Valid()
    }

    constructor (repository: CreatorRepository)
      requires repository.Valid()
      ensures this.repository == repository && Valid()
    {
      this.repository := repository;
    }

    /** `getAll`: a copy of every stored Creator, in the table's order; never
        fails, and is empty for an empty table. */
    method GetAll() returns (r: seq<Creator>)
      requires Valid()
      ensures r == repository.rows
      ensures repository.rows == [] ==> r == []
    {
      r := repository.FindAll();
    }

    /** `getOne`: the stored Creator with that id, or not-found for that id. */
    method GetOne(id: Uuid) returns (r: Result<Creator, ResourceNotFoundException>)
      requires Valid()
      ensures r.Success? <==> Contains(repository.rows, id)
      ensures r.Success? ==> r.value in repository.rows && r.value.id == Some(id)
      ensures r.Success? ==> Lookup(repository.rows, id) == Some(r.value)
      ensures r.Failure? ==> r.error == ResourceNotFoundException(id)
    {
      var found := repository.FindById(id);
      match found
      case Some(c) => r := Success(c);
      case None => r := Failure(ResourceNotFoundException(id));
    }

    /** `addCreator`: whatever `save` produces for the request body. A body
        without an id is inserted under a fresh id; a body whose id names a
        stored row overwrites that row. */
    method AddCreator(c: Creator) returns (r: Result<Creator, SaveError>)
      requires Valid()
      modifies repository
      ensures Valid()
      ensures r.Failure? ==> repository.rows == old(repository.rows) && repository.nextId == old(repository.nextId)
      ensures r.Success? ==> r.value.id.Some? && r.value.name == c.name
      ensures r.Success? ==> Lookup(repository.rows, r.value.id.value) == Some(r.value)
      ensures c.id.None? ==>
        && (!IsValid(c) ==> r == Failure(ConstraintViolation(Violations(c))))
        && (r.Failure? <==> !IsValid(c) || NameClash(old(repository.rows), c.name, None))
        && (r.Success? ==> !Contains(old(repository.rows), r.value.id.value)
                           && repository.rows == old(repository.rows) + [r.value])
      ensures c.id.Some? && Contains(old(repository.rows), c.id.value) ==>
        && (!IsValid(c) ==> r == Failure(ConstraintViolation(Violations(c))))
        && (r.Failure? <==> !IsValid(c) || NameClash(old(repository.rows), c.name, c.id))
        && (r.Success? ==> r.value == c
                           && repository.rows == old(repository.rows)[IndexOf(old(repository.rows), c.id.value).value := c])
    {
      r := repository.Save(c);
    }

    /** `updateCreator(id, payload)`: not-found when `id` is not stored;
        otherwise the payload with its id forced to `id` is saved over that
        row and returned. No other row changes. */
    method UpdateCreator(id: Uuid, payload: Creator) returns (r: Result<Creator, UpdateError>)
      requires Valid()
      modifies repository
      ensures Valid()
      ensures r.Success? ==> r.value == payload.(id := Some(id))
      ensures r.Failure? ==> repository.rows == old(repository.rows) && repository.nextId == old(repository.nextId)
      ensures !Contains(old(repository.rows), id) ==> r == Failure(Missing(ResourceNotFoundException(id)))
      ensures Contains(old(repository.rows), id) ==>
        && (r.Failure? <==> !IsValid(payload) || NameClash(old(repository.rows), payload.name, Some(id)))
        && (!IsValid(payload) ==> r == Failure(Rejected(ConstraintViolation(Violations(payload)))))
        && (r.Failure? ==> r.error.Rejected?)
        && (r.Success? ==> repository.rows == old(repository.rows)[IndexOf(old(repository.rows), id).value := r.value])
      ensures r.Success? ==> Lookup(repository.rows, id) == Some(r.value)
      ensures r.Success? ==> forall other :: other != id ==> Lookup(repository.rows, other) == Lookup(old(repository.rows), other)
    {
      var found := repository.FindById(id);
      if found.None? {
        return Failure(Missing(ResourceNotFoundException(id)));
      }
      ghost var before := repository.rows;
      var c := payload.(id := Some(id));
      var saved := repository.Save(c);
      if saved.Failure? {
        return Failure(Rejected(saved.error));
      }
      var k := IndexOf(before, id).value;
      forall other | other != id
        ensures Lookup(repository.rows, other) == Lookup(before, other)
      {
        LookupAfterReplace(before, k, c, other);
      }
      LookupAfterReplace(before, k, c, id);
      r := Success(c);
    }

    /** `deleteCreator(id)`: looks the Creator up first, so an absent id is
        not-found and changes nothing; otherwise exactly that row is removed. */
    method DeleteCreator(id: Uuid) returns (r: Outcome<ResourceNotFoundException>)
      requires Valid()
      modifies repository
      ensures Valid()
      ensures r.Fail? <==> !Contains(old(repository.rows), id)
      ensures r.Fail? ==> r.error == ResourceNotFoundException(id) && repository.rows == old(repository.rows) && repository.nextId == old(repository.nextId)
      ensures r.Pass? ==> repository.rows == RemoveId(old(repository.rows), id)
      ensures !Contains(repository.rows, id)
      ensures forall other :: other != id ==> Lookup(repository.rows, other) == Lookup(old(repository.rows), other)
    {
      var found := GetOne(id);
      if found.Failure? {
        return Fail(found.error);
      }
      ghost var before := repository.rows;
      repository.Delete(found.value);
      forall other | other != id
        ensures Lookup(repository.rows, other) == Lookup(before, other)
      {
        LookupAfterRemove(before, id, other);
      }
      r := Pass;
    }
  }
}
