/** `ResourceNotFoundException`: the service's "no Creator with this id"
    outcome, its message, and the 404 status it is annotated with. */
module ResourceNotFound {
  import opened Wrappers
  import opened Uuids
  import opened Http

  const MessagePrefix: string := "Resource with the id '"
  const MessageSuffix: string := "' could not be found"

  /** The exception's simple class name, which error envelopes report. */
  const SimpleName: string := "ResourceNotFoundException"

  datatype ResourceNotFoundException = ResourceNotFoundException(id: Uuid) {

    /** `getMessage()`: the id's text between fixed words. */
    function Message(): (m: string)
      ensures |m| == |MessagePrefix| + |UuidText(id)| + |MessageSuffix|
      ensures m[..|MessagePrefix|] == MessagePrefix
      ensures m[|MessagePrefix|..|MessagePrefix| + |UuidText(id)|] == UuidText(id)
      ensures m[|MessagePrefix| + |UuidText(id)|..] == MessageSuffix
    {
      MessagePrefix + UuidText(id) + MessageSuffix
    }

    /** The status of the `@ResponseStatus` annotation on the class. */
    function Status(): (s: HttpStatus)
      ensures s.Value() == 404
    {
      HttpStatus.NotFound
    }
  }

  /** Recovers the id from a not-found message; `None` for any other text. */
  function ParseMessage(m: string): (r: Option<Uuid>)
    ensures r.Some? ==> |m| > |MessagePrefix| + |MessageSuffix|
  {
    if |m| >= |MessagePrefix| + |MessageSuffix|
       && m[..|MessagePrefix|] == MessagePrefix
       && m[|m| - |MessageSuffix|..] == MessageSuffix
    then ParseUuid(m[|MessagePrefix| .. |m| - |MessageSuffix|])
    else None
  }

  /** The message names its id: reading it back gives that id. */
  lemma ParseMessageOfMessage(e: ResourceNotFoundException)
    ensures ParseMessage(e.Message()) == Some(e.id)
  {
    var m := e.Message();
    var t := UuidText(e.id);
    assert m[|MessagePrefix| .. |m| - |MessageSuffix|] == t;
    ParseUuidText(e.id);
  }

  /** Two missing ids give the same message exactly when they are the same
      id, whichever operation reported them. */
  lemma MessageIdentifiesId(e1: ResourceNotFoundException, e2: ResourceNotFoundException)
    ensures e1.Message() == e2.Message() <==> e1.id == e2.id
  {
    if e1.Message() == e2.Message() {
      ParseMessageOfMessage(e1);
      ParseMessageOfMessage(e2);
    }
  }
}
