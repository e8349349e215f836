/** Small shared vocabulary: optional values, document ids and the HTTP statuses the
    handlers answer with. */
module Common {

  datatype Option<+T> = None | Some(value: T)

  /** Users and listings are referred to by their document ids. */
  type UserId = string
  type ListingId = string

  /** The response statuses used by the Express handlers of the chat, notification and
      favourites APIs. */
  datatype Status = Ok200 | Created201 | BadRequest400 | Forbidden403 | NotFound404 | Internal500
}
