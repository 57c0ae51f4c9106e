# MyMiniaturesVault backend — Creator CRUD slice in Dafny

This project models the Creator part of the MyMiniaturesVault backend: the
`Creator` entity and its validation rules, the `CreatorRepository` table,
the `CreatorServiceImpl` operations, the not-found exception, the uniform
response envelope (`ApiResponse`, `ErrorDetails`), the exception handler
and the five routes of `CreatorController`.

Layout (one module per source component):

- `wrappers.dfy` — `Option`, `Result`, `Outcome`, standing in for `null`, `Optional` and thrown exceptions.
- `uuids.dfy` — identifiers and their text (used inside the not-found message), with a parse-back round trip.
- `creators.dfy` — the `Creator` value, its bean-validation constraints and the name-only constructor.
- `table.dfy` — the table as an ordered `seq<Creator>`: lookup and removal by id, the table invariant (ids present and unique, names valid and unique), and lemmas about them.
- `repository.dfy` — class `CreatorRepository` over that sequence: `findAll`, `findById`, `save`, `delete`, `deleteById`.
- `resource_not_found.dfy`, `http.dfy`, `responses.dfy`, `exception_handler.dfy` — the not-found outcome and its message, status codes, the envelope and the 404 mapping.
- `service.dfy` — class `CreatorService` holding the repository.
- `controller.dfy` — class `CreatorController` holding the service.
- `scenarios.dfy` — client methods that replay the tests' scenarios from the contracts alone.

Modelling decisions:

- The store is a class whose `rows` field is the table in `findAll` order, which is insertion order. An update keeps a row's position. A second field `nextId` is the id generator: every stored id is below it, so a generated id is always fresh.
- `save` first applies bean validation and then the unique-name column. When a Creator's id names a stored row, `save` overwrites that row in place. A Creator without an id is appended under a generated id. For a Creator that carries an id the table does not hold, the code leaves the outcome to the persistence provider's merge; the contract then promises only the table invariant, an unchanged table on failure, and that a successful result is stored and found by its id.
- `addCreator` passes the request body straight to `save` (CreatorServiceImpl.java:56-60). A body whose id names a stored row therefore overwrites that row.
- A thrown `ResourceNotFoundException` becomes a `Failure` or `Fail` value. The controller methods include the exception handler's step, so a not-found outcome comes back as the 404 entity that `ApiExceptionHandler` builds.
- A refused `save` (empty, null or duplicate name) has no handler in this backend. The controller's POST and PUT routes return an `Answer`: `Answered(entity)` for every response the backend builds, the handler's 404 included, or `Unhandled(SaveError)` for a refused save.
- The envelope invariant is the code's: an envelope never carries both data and error; DELETE's success envelope carries neither (`createSuccessResponse(OK, null)`, CreatorController.java:107).
- `updateCreator` returns the payload with its id forced to the path id, not the value `save` returns. The whole payload is saved over the row (not only its name).

## Model

| member | source | states |
|---|---|---|
| Creators.Violations | backend/src/main/java/net/fribbtastic/MyMiniaturesVault/backend/v1/creator/Creator.java:26-29 | `@NotNull` is violated exactly when the name is null; `@NotEmpty` exactly when it is null or empty |
| Creators.ValidIffNoViolations | backend/src/main/java/net/fribbtastic/MyMiniaturesVault/backend/v1/creator/Creator.java:26-27 | a Creator passes validation iff its name is non-null and non-empty |
| Creators.NewNamed | backend/src/main/java/net/fribbtastic/MyMiniaturesVault/backend/v1/creator/Creator.java:31-33 | the name-only constructor sets the name and leaves the id unset, for the store to generate |
| Creators.ViolationCounts | backend/src/test/java/net/fribbtastic/MyMiniaturesVault/backend/v1/creator/CreatorTest.java:31-49 | validating `new Creator("")` reports exactly one violation, a non-empty name none, a null name two |
| CreatorTable.IndexOf | backend/src/main/java/net/fribbtastic/MyMiniaturesVault/backend/v1/creator/CreatorRepository.java:10 | finds the first row with the id; none exactly when no row has it |
| CreatorTable.Lookup | backend/src/main/java/net/fribbtastic/MyMiniaturesVault/backend/v1/creator/CreatorRepository.java:10 | `findById`: present exactly when some row has the id, and then a row of the table with that id |
| CreatorTable.RemoveId | backend/src/main/java/net/fribbtastic/MyMiniaturesVault/backend/v1/creator/CreatorRepository.java:10 | removal by id keeps exactly the rows with other ids; an absent id changes nothing |
| CreatorTable.LookupFindsRow | backend/src/test/java/net/fribbtastic/MyMiniaturesVault/backend/v1/creator/CreatorJPATest.java:76-85 | in a table with unique ids, a stored row's own id finds that row |
| CreatorTable.RemoveIdAt | backend/src/test/java/net/fribbtastic/MyMiniaturesVault/backend/v1/creator/CreatorJPATest.java:111-126 | with unique ids, deleting the id of row k removes exactly position k and keeps the other rows in order |
| CreatorTable.LookupAfterRemove | backend/src/test/java/net/fribbtastic/MyMiniaturesVault/backend/v1/creator/CreatorJPATest.java:111-126 | after deleting an id, `findById` of it is empty and every other id finds what it found before |
| CreatorTable.AppendWellFormed | backend/src/main/java/net/fribbtastic/MyMiniaturesVault/backend/v1/creator/Creator.java:22-29 | inserting a row with a fresh id and a valid, unused name keeps ids unique and present and names valid and unique |
| CreatorTable.ReplaceWellFormed | backend/src/main/java/net/fribbtastic/MyMiniaturesVault/backend/v1/creator/Creator.java:22-29 | overwriting a row with a valid name no other row has, under the same id, keeps the table invariant |
| CreatorTable.RemoveWellFormed | backend/src/main/java/net/fribbtastic/MyMiniaturesVault/backend/v1/creator/Creator.java:22-29 | deleting a row keeps the table invariant |
| CreatorTable.LookupAfterAppend | backend/src/test/java/net/fribbtastic/MyMiniaturesVault/backend/v1/creator/CreatorJPATest.java:76-85 | after a row is inserted, its id finds it |
| CreatorTable.LookupAfterReplace | backend/src/test/java/net/fribbtastic/MyMiniaturesVault/backend/v1/creator/CreatorJPATest.java:89-107 | after a row is overwritten, its id finds the new row and other ids are unaffected |
| Repository.CreatorRepository.constructor | backend/src/main/java/net/fribbtastic/MyMiniaturesVault/backend/v1/creator/CreatorRepository.java:10 | a new table is empty and satisfies the table invariant |
| Repository.CreatorRepository.FindAll | backend/src/test/java/net/fribbtastic/MyMiniaturesVault/backend/v1/creator/CreatorJPATest.java:58-72 | `findAll` returns the rows in insertion order; they satisfy the invariant |
| Repository.CreatorRepository.FindById | backend/src/test/java/net/fribbtastic/MyMiniaturesVault/backend/v1/creator/CreatorJPATest.java:76-85 | `findById` returns the stored row with that id, or empty exactly when none has it |
| Repository.CreatorRepository.Save | backend/src/test/java/net/fribbtastic/MyMiniaturesVault/backend/v1/creator/CreatorJPATest.java:39-107 | the invariant is kept; a failure leaves the table unchanged; a success carries an id and the given name and is found by that id. For a Creator without an id or with a stored id: an invalid name fails with its violations, and it fails exactly when the name is invalid or another row has it; a stored id overwrites that row in place; no id appends the row under a fresh generated id |
| Repository.CreatorRepository.DeleteById | backend/src/test/java/net/fribbtastic/MyMiniaturesVault/backend/v1/creator/CreatorJPATest.java:111-126 | removes the row with that id and nothing else; afterwards no row has the id |
| Repository.CreatorRepository.Delete | backend/src/main/java/net/fribbtastic/MyMiniaturesVault/backend/v1/creator/CreatorServiceImpl.java:90 | removes the row with the entity's id; an entity without an id changes nothing |
| ResourceNotFound.ResourceNotFoundException.Message | backend/src/main/java/net/fribbtastic/MyMiniaturesVault/backend/exceptions/ResourceNotFoundException.java:14-16 | the message is `Resource with the id '` + the id's text + `' could not be found`, the id verbatim between the quotes |
| ResourceNotFound.ResourceNotFoundException.Status | backend/src/main/java/net/fribbtastic/MyMiniaturesVault/backend/exceptions/ResourceNotFoundException.java:11 | the exception is tied to status 404 |
| ResourceNotFound.ParseMessage | backend/src/main/java/net/fribbtastic/MyMiniaturesVault/backend/exceptions/ResourceNotFoundException.java:15 | only a text longer than the fixed words can name an id |
| ResourceNotFound.ParseMessageOfMessage | backend/src/main/java/net/fribbtastic/MyMiniaturesVault/backend/exceptions/ResourceNotFoundException.java:15 | reading a not-found message back gives its id |
| ResourceNotFound.MessageIdentifiesId | backend/src/test/java/net/fribbtastic/MyMiniaturesVault/backend/v1/creator/CreatorServiceTest.java:96-159 | two not-found messages are equal exactly when their ids are, whichever operation raised them |
| Uuids.UuidText | backend/src/main/java/net/fribbtastic/MyMiniaturesVault/backend/exceptions/ResourceNotFoundException.java:15 | an id's text, as formatted into the message, is a non-empty string of hexadecimal digits |
| Uuids.ParseUuidText | backend/src/main/java/net/fribbtastic/MyMiniaturesVault/backend/exceptions/ResourceNotFoundException.java:15 | an id's text reads back to the id |
| Uuids.UuidTextInjective | backend/src/main/java/net/fribbtastic/MyMiniaturesVault/backend/exceptions/ResourceNotFoundException.java:15 | distinct ids have distinct texts |
| Http.HttpStatus.Value | backend/src/main/java/net/fribbtastic/MyMiniaturesVault/backend/responses/ApiResponse.java:47 | OK is 200, CREATED is 201, NOT_FOUND is 404, and no other status has those codes |
| Responses.NewErrorDetails | backend/src/main/java/net/fribbtastic/MyMiniaturesVault/backend/responses/ErrorDetails.java:44-48 | message, details and type are stored as given; the timestamp is the clock reading taken once, and is non-empty |
| Responses.CreateSuccessResponse | backend/src/main/java/net/fribbtastic/MyMiniaturesVault/backend/responses/ApiResponse.java:45-51 | status code is the status's value, data as given, no error; never both |
| Responses.CreateFailureResponse | backend/src/main/java/net/fribbtastic/MyMiniaturesVault/backend/responses/ApiResponse.java:62-68 | status code is the status's value, no data, error built from the message, the exception's message and its simple name |
| Responses.SuccessEntity | backend/src/main/java/net/fribbtastic/MyMiniaturesVault/backend/v1/creator/CreatorController.java:38-40 | a success entity's envelope status equals its HTTP status and carries the data and no error |
| ExceptionHandler.AsThrowable | backend/src/main/java/net/fribbtastic/MyMiniaturesVault/backend/exceptions/ApiExceptionHandler.java:25 | the exception as seen by the envelope: its message and the name `ResourceNotFoundException` |
| ExceptionHandler.HandleNotFoundException | backend/src/main/java/net/fribbtastic/MyMiniaturesVault/backend/exceptions/ApiExceptionHandler.java:22-27 | HTTP 404 and envelope 404, no data, error message "Resource not found", details the exception's message, type "ResourceNotFoundException", the given timestamp |
| ExceptionHandler.NotFoundDetailsNameId | backend/src/test/java/net/fribbtastic/MyMiniaturesVault/backend/v1/creator/CreatorControllerTest.java:139-144 | the 404 envelope's details read back to the missing id |
| Service.CreatorService.GetAll | backend/src/main/java/net/fribbtastic/MyMiniaturesVault/backend/v1/creator/CreatorServiceImpl.java:30-34 | returns exactly the table's rows in order, empty for an empty table, changing nothing |
| Service.CreatorService.GetOne | backend/src/main/java/net/fribbtastic/MyMiniaturesVault/backend/v1/creator/CreatorServiceImpl.java:43-47 | succeeds exactly when the id is stored, with the row that has it; otherwise not-found for that id |
| Service.CreatorService.AddCreator | backend/src/main/java/net/fribbtastic/MyMiniaturesVault/backend/v1/creator/CreatorServiceImpl.java:56-60 | returns what `save` returns: a body without an id grows the table by exactly the saved row, which carries a fresh id and the given name and is found by it; a body whose id is stored overwrites that row and is returned as given; in both cases it fails exactly when the name is invalid or held by another row, and a failure leaves the table unchanged |
| Service.CreatorService.UpdateCreator | backend/src/main/java/net/fribbtastic/MyMiniaturesVault/backend/v1/creator/CreatorServiceImpl.java:70-79 | an absent id is not-found and changes nothing; otherwise the result is the payload with the path id, stored in that row's place, other ids unaffected; a refused save changes nothing |
| Service.CreatorService.DeleteCreator | backend/src/main/java/net/fribbtastic/MyMiniaturesVault/backend/v1/creator/CreatorServiceImpl.java:87-91 | not-found exactly when the id is absent, then nothing changes; otherwise exactly that row is removed; afterwards no row has the id and other ids are unaffected |
| Service.CreatorService.constructor | backend/src/main/java/net/fribbtastic/MyMiniaturesVault/backend/v1/creator/CreatorServiceImpl.java:21-22 | the service holds the given repository and keeps its invariant |
| Controller.CreatorController.constructor | backend/src/main/java/net/fribbtastic/MyMiniaturesVault/backend/v1/creator/CreatorController.java:25-26 | the controller holds the given service and keeps its invariant |
| Controller.CreatorController.GetAllCreators | backend/src/main/java/net/fribbtastic/MyMiniaturesVault/backend/v1/creator/CreatorController.java:32-41 | 200, envelope status 200, data the whole table (possibly empty), no error |
| Controller.CreatorController.GetOneCreator | backend/src/main/java/net/fribbtastic/MyMiniaturesVault/backend/v1/creator/CreatorController.java:49-58 | 200 with the stored Creator, or the handler's 404 entity for that id; envelope status equals HTTP status |
| Controller.CreatorController.AddNewCreator | backend/src/main/java/net/fribbtastic/MyMiniaturesVault/backend/v1/creator/CreatorController.java:66-75 | 201 with the saved Creator, found by its id; a body without an id is appended under a fresh id, a body whose id is stored overwrites that row; an invalid or duplicate name is unhandled and changes nothing |
| Controller.CreatorController.UpdateCreator | backend/src/main/java/net/fribbtastic/MyMiniaturesVault/backend/v1/creator/CreatorController.java:84-93 | 200 with the payload under the path id, stored in that row's place with every other id unaffected; or the 404 entity for an absent id with nothing changed; an invalid or duplicate name is unhandled and changes nothing |
| Controller.CreatorController.DeleteCreator | backend/src/main/java/net/fribbtastic/MyMiniaturesVault/backend/v1/creator/CreatorController.java:101-110 | 200 with no data and no error once the row is removed, or the 404 entity with nothing changed |
| Scenarios.DeleteThenGet | backend/src/test/java/net/fribbtastic/MyMiniaturesVault/backend/v1/creator/CreatorControllerIntegrationTest.java:169-205 | DELETE then GET of the same id answers 404, and the details name that id |

## Left out

- Identifiers: a UUID is modelled as an unbounded natural number and its text as the lower-case hexadecimal numeral. The 128-bit width and the 8-4-4-4-12 layout of `UUID.toString()` are not modelled.
- Id generation: random UUIDs are modelled by a counter that always yields an id not yet used.
- Persistence timing: JPA writes and checks constraints at flush; only CreatorJPATest.java:52 calls `saveAndFlush`. The model checks them at `save`. Transactions, concurrent requests and other database behaviour are not modelled.
- Repository.CreatorRepository.Save: for a Creator carrying an id the table does not hold, what happens is not promised. Older Hibernate versions insert it, Hibernate 6.6 and later throw an optimistic-locking failure; the contract promises only the invariant, an unchanged table on failure, and a stored result on success.
- Repository.CreatorRepository.Save: JPA's persist sets the generated id on the argument object in place, and CreatorJPATest.java:81, 94 and 123 read it back through `this.creator.getId()`. The model returns the saved value and leaves its argument untouched, so that aliasing is not modelled.
- Service.CreatorService.AddCreator: a body carrying an id the table does not hold inherits the same open case from `save`.
- Controller.CreatorController.AddNewCreator: a body carrying an id the table does not hold inherits the same open case from `save`.
- Repository.CreatorRepository.DeleteById: an absent id is a no-op, as in Spring Data 3. Older Spring Data versions threw instead, which is not modelled.
- Service.CreatorService.UpdateCreator: `creator.setId(id)` changes the caller's object in place. The model makes a functional update of the payload value, so aliasing of that object is not modelled.
- Refused saves at the HTTP level: the generic framework error response for an empty, null or duplicate name is not modelled; the controller returns `Unhandled(SaveError)` instead.
- The clock: `ZonedDateTime.now()` and its ISO-8601 formatting become a non-empty `Timestamp` parameter.
- JSON serialisation: Jackson's omission of null fields is represented by `None`; the HTTP transport, path-variable parsing and request-body parsing are not modelled.
- The Lombok builder and all-arguments constructor are the datatype constructor `Creator(id, name)`; the no-argument constructor is `Creator(None, None)`.
- `CreatorService` is an interface only; its signatures are those of `CreatorServiceImpl`.
- Spring wiring, `BackendApplication`, `IndexController`, logging and the Angular frontend are framework glue or UI and are not modelled.
