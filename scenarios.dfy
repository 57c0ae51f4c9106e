/** The behaviour the backend's tests exercise, replayed against the model:
    what a client can conclude from the contracts alone. */
module Scenarios {
  import opened Wrappers
  import opened Uuids
  import opened Creators
  import opened CreatorTable
  import opened Repository
  import opened ResourceNotFound
  import opened Http
  import opened Responses
  import opened ExceptionHandler
  import opened Service
  import opened Controller

  /** DELETE then GET of the same id: the GET answers 404 and its details
      name that id. */
  method DeleteThenGet(controller: CreatorController, id: Uuid, now: Timestamp)
    returns (deleted: ResponseEntity<()>, fetched: ResponseEntity<Creator>)
    requires controller.Valid()
    modifies controller.service.repository
    ensures controller.Valid()
    ensures fetched == HandleNotFoundException(ResourceNotFoundException(id), now)
    ensures fetched.status == HttpStatus.NotFound && fetched.body.statusCode == 404
    ensures ParseMessage(fetched.body.error.value.details) == Some(id)
  {
    deleted := controller.DeleteCreator(id, now);
    fetched := controller.GetOneCreator(id, now);
    NotFoundDetailsNameId<Creator>(ResourceNotFoundException(id), now);
  }

  /** Two Creators saved into an empty table come back in insertion order;
      deleting the first leaves exactly the second, and the first is then
      not found. */
  method SeedListDelete(now: Timestamp) {
    var repository := new CreatorRepository();
    var service := new CreatorService(repository);
    var controller := new CreatorController(service);

    var addA := controller.AddNewCreator(NewNamed("Test Creator Name 01"));
    assert addA.Answered?;
    var a := addA.entity.body.data.value;
    var addB := controller.AddNewCreator(NewNamed("Test Creator Name 02"));
    assert !NameClash([a], Some("Test Creator Name 02"), None);
    assert addB.Answered?;
    var b := addB.entity.body.data.value;
    assert repository.rows == [a, b];

    var all := controller.GetAllCreators();
    assert all.status.Value() == 200 && all.body.data == Some([a, b]);

    var del := controller.DeleteCreator(a.id.value, now);
    assert repository.rows == RemoveId([a, b], a.id.value);
    assert IdsUnique([a, b]);
    RemoveIdAt([a, b], 0);
    assert [a, b][..0] + [a, b][1..] == [b];
    var rest := controller.GetAllCreators();
    assert rest.body.data == Some([b]);

    var gone := controller.GetOneCreator(a.id.value, now);
    assert gone.status.Value() == 404 && gone.body.data.None?;
  }

  /** Saving an empty name into the table is refused with exactly one
      violation, and the table stays empty. */
  method EmptyNameRefused() {
    var repository := new CreatorRepository();
    var saved := repository.Save(NewNamed(""));
    ViolationCounts("");
    assert saved.Failure? && |saved.error.violations| == 1;
    assert repository.rows == [];
  }

  /** PUT with a body carrying some other id still answers with the path id. */
  method UpdateForcesPathId(controller: CreatorController, id: Uuid, elsewhere: Uuid, now: Timestamp)
    requires controller.Valid() && Contains(controller.service.repository.rows, id)
    modifies controller.service.repository
  {
    var r := controller.UpdateCreator(id, Creator(Some(elsewhere), Some("Test Updated Name 01")), now);
    if r.Answered? {
      assert r.entity.status.Value() == 200;
      assert r.entity.body.data.value.id == Some(id);
    }
  }
}
