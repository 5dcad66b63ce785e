/** The logical request/response model the server core consumes and produces.
    The byte-level codec is not part of this model. */
module Protocol {
  import opened Wrappers

  /** A Java `byte`: a signed 8-bit value. */
  newtype JByte = b: int | -128 <= b < 128

  type Bytes = seq<JByte>

  /** The command tag of a request. `Other` stands for any tag other than the
      four the server serves; it carries the name the tag prints as. */
  datatype Command = Get | Put | Remove | Clear | Other(name: string)

  /** Outcome tags of store operations, surfaced in responses. */
  datatype Status = Added | Replaced | Gotten | Removed | NotFound | Cleared

  /** A decoded request; an absent key, payload or ttl is `None` (Java null). */
  datatype Request = Request(command: Command, key: Option<string>, data: Option<Bytes>, ttl: Option<int>)

  /** A response; `data` is present only for GOTTEN. */
  datatype Response = Response(status: Status, data: Option<Bytes>)

  /** The name an enum constant prints as. */
  function CommandName(c: Command): string {
    match c
    case Get => "GET"
    case Put => "PUT"
    case Remove => "REMOVE"
    case Clear => "CLEAR"
    case Other(name) => name
  }

  /** `Response.empty(status)`: a response without a payload. */
  function EmptyResponse(status: Status): Response {
    Response(status, None)
  }
}
