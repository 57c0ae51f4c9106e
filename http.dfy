/** The HTTP statuses the backend answers with (`org.springframework.http.HttpStatus`). */
module Http {

  datatype HttpStatus = Ok | Created | NotFound {

    /** `value()`: 200 OK (RFC 9110, section 15.3.1), 201 Created (section
        15.3.2), 404 Not Found (section 15.5.5). */
    function Value(): (code: int)
      ensures Ok? <==> code == 200
      ensures Created? <==> code == 201
      ensures NotFound? <==> code == 404
    {
      match this
      case Ok => 200
      case Created => 201
      case NotFound => 404
    }
  }
}
