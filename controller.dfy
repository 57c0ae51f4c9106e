/** `CreatorController`: the five routes under `/api/v1/creator`. Each calls
    the service and wraps its outcome in an envelope whose status is the HTTP
    status of the response. A not-found outcome is answered by the exception
    handler (`HandleNotFoundException`); a refused `save` has no handler in
    this backend and escapes as `Unhandled`. */
module Controller {
  import opened Wrappers
  import opened Uuids
  import opened Creators
  import opened CreatorTable
  import opened Repository
  import opened ResourceNotFound
  import opened Http
  import opened Responses
  import opened ExceptionHandler
  import opened Service

  /** What a route produces: an HTTP response (a success, or the handler's
      404), or a refused `save` that no handler of this backend answers. */
  datatype Answer<T> = Answered(entity: ResponseEntity<T>) | Unhandled(cause: SaveError)

  class CreatorController {
    const service: CreatorService

    ghost predicate Valid()
      reads this, service, service.repository
    {
      service.Valid()
    }

    constructor (service: CreatorService)
      requires service.Valid()
      ensures this.service == service && Valid()
    {
      this.service := service;
    }

    /** GET /creator: 200 with the whole table as data, possibly empty. */
    method GetAllCreators() returns (r: ResponseEntity<seq<Creator>>)
      requires Valid()
      ensures r.Consistent() && r.status == HttpStatus.Ok
      ensures r.body.data == Some(service.repository.rows) && r.body.error.None?
    {
      var creators := service.GetAll();
      r := SuccessEntity(HttpStatus.Ok, Some(creators));
    }

    /** GET /creator/{id}: 200 with the stored Creator, or the 404 envelope. */
    method GetOneCreator(id: Uuid, now: Timestamp) returns (r: ResponseEntity<Creator>)
      requires Valid()
      ensures r.Consistent()
      ensures Contains(service.repository.rows, id) ==>
        r.status == HttpStatus.Ok && r.body.error.None? && r.body.data == Lookup(service.repository.rows, id)
      ensures !Contains(service.repository.rows, id) ==>
        r == HandleNotFoundException(ResourceNotFoundException(id), now)
    {
      var outcome := service.GetOne(id);
      match outcome
      case Success(c) => r := SuccessEntity(HttpStatus.Ok, Some(c));
      case Failure(e) => r := HandleNotFoundException(e, now);
    }

    /** POST /creator: 201 with the saved Creator. A body without an id is
        stored under a fresh generated id; a body whose id names a stored row
        overwrites that row. */
    method AddNewCreator(c: Creator) returns (r: Answer<Creator>)
      requires Valid()
      modifies service.repository
      ensures Valid()
      ensures r.Unhandled? ==> service.repository.rows == old(service.repository.rows)
      ensures r.Answered? ==>
        && r.entity.Consistent() && r.entity.status == HttpStatus.Created && r.entity.body.error.None?
        && r.entity.body.data.Some? && r.entity.body.data.value.id.Some?
        && r.entity.body.data.value.name == c.name
        && Lookup(service.repository.rows, r.entity.body.data.value.id.value) == r.entity.body.data
      ensures c.id.None? ==>
        && (!IsValid(c) ==> r == Unhandled(ConstraintViolation(Violations(c))))
        && (r.Unhandled? <==> !IsValid(c) || NameClash(old(service.repository.rows), c.name, None))
        && (r.Answered? ==> !Contains(old(service.repository.rows), r.entity.body.data.value.id.value)
                            && service.repository.rows == old(service.repository.rows) + [r.entity.body.data.value])
      ensures c.id.Some? && Contains(old(service.repository.rows), c.id.value) ==>
        && (!IsValid(c) ==> r == Unhandled(ConstraintViolation(Violations(c))))
        && (r.Unhandled? <==> !IsValid(c) || NameClash(old(service.repository.rows), c.name, c.id))
        && (r.Answered? ==> r.entity.body.data == Some(c)
                            && service.repository.rows == old(service.repository.rows)[IndexOf(old(service.repository.rows), c.id.value).value := c])
    {
      var saved := service.AddCreator(c);
      match saved
      case Success(v) => r := Answered(SuccessEntity(HttpStatus.Created, Some(v)));
      case Failure(e) => r := Unhandled(e);
    }

    /** PUT /creator/{id}: 200 with the updated Creator, whose id is the path
        id whatever the body said, stored in that row's place with every
        other row untouched; or the 404 envelope. */
    method UpdateCreator(id: Uuid, c: Creator, now: Timestamp) returns (r: Answer<Creator>)
      requires Valid()
      modifies service.repository
      ensures Valid()
      ensures r.Answered? ==> r.entity.Consistent()
      ensures !Contains(old(service.repository.rows), id) ==>
        r == Answered(HandleNotFoundException(ResourceNotFoundException(id), now))
      ensures Contains(old(service.repository.rows), id) ==>
        && (!IsValid(c) ==> r == Unhandled(ConstraintViolation(Violations(c))))
        && (r.Unhandled? <==> !IsValid(c) || NameClash(old(service.repository.rows), c.name, Some(id)))
        && (r.Answered? ==> r.entity.status == HttpStatus.Ok && r.entity.body.error.None?
                            && r.entity.body.data == Some(c.(id := Some(id)))
                            && service.repository.rows
                               == old(service.repository.rows)[IndexOf(old(service.repository.rows), id).value := c.(id := Some(id))]
                            && Lookup(service.repository.rows, id) == r.entity.body.data)
      ensures r.Answered? && r.entity.body.data.Some? ==> r.entity.body.data.value.id == Some(id)
      ensures r.Answered? && r.entity.status == HttpStatus.Ok ==>
        forall other :: other != id ==> Lookup(service.repository.rows, other) == Lookup(old(service.repository.rows), other)
      ensures (r.Unhandled? || r.entity.status == HttpStatus.NotFound) ==>
        service.repository.rows == old(service.repository.rows)
    {
      var updated := service.UpdateCreator(id, c);
      match updated
      case Success(v) => r := Answered(SuccessEntity(HttpStatus.Ok, Some(v)));
      case Failure(Missing(e)) => r := Answered(HandleNotFoundException(e, now));
      case Failure(Rejected(e)) => r := Unhandled(e);
    }

    /** DELETE /creator/{id}: 200 with no data once the row is gone, or the
        404 envelope. */
    method DeleteCreator(id: Uuid, now: Timestamp) returns (r: ResponseEntity<()>)
      requires Valid()
      modifies service.repository
      ensures Valid()
      ensures r.Consistent()
      ensures Contains(old(service.repository.rows), id) ==>
        && r.status == HttpStatus.Ok && r.body.data.None? && r.body.error.None?
        && service.repository.rows == RemoveId(old(service.repository.rows), id)
      ensures !Contains(old(service.repository.rows), id) ==>
        r == HandleNotFoundException(ResourceNotFoundException(id), now)
        && service.repository.rows == old(service.repository.rows)
      ensures !Contains(service.repository.rows, id)
    {
      var outcome := service.DeleteCreator(id);
      match outcome
      case Pass => r := SuccessEntity(HttpStatus.Ok, None);
      case Fail(e) => r := HandleNotFoundException(e, now);
    }
  }
}
