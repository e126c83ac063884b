/**
 * Values shared by every part of the conversation store: the index record,
 * the transcript message, the outcome of a request handler, and the
 * JavaScript notion of a "truthy" optional string.
 */
module ChatTypes {

  datatype Option<T> = None | Some(value: T)

  /** The outcome of a route handler: a success value, a 400 or a 404, each
      with the message the handler puts in its JSON body. */
  datatype Reply<T> = Ok(value: T) | BadRequest(error: string) | NotFound(error: string)

  /** One record of the shared index `conversations.json`. */
  datatype Meta = Meta(id: string, title: string, createdAt: string, updatedAt: string)

  /** One entry of a transcript `<id>.json`, and one element of a chat request. */
  datatype Message = Message(role: string, content: string)

  /** A request field read from a JSON body: absent (`undefined`) or a string.
      JavaScript treats it as true exactly when it is present and non-empty. */
  predicate Truthy(field: Option<string>)
  {
    field.Some? && field.value != ""
  }
}
