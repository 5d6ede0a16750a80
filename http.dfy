/** The HTTP statuses the handlers answer with. */
module Http {
  datatype Status = OK | Created | BadRequest | Unauthorized | NotFound | InternalServerError
  {
    function Code(): (n: int)
      ensures 200 <= n < 600
      ensures n < 300 <==> this == OK || this == Created
    {
      match this
      case OK => 200
      case Created => 201
      case BadRequest => 400
      case Unauthorized => 401
      case NotFound => 404
      case InternalServerError => 500
    }
  }
}
