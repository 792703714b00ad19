/** The program's outside world, reduced to values: HTTP requests it sends,
    the responses it can get back, and the file-system and XML-parser answers
    it consumes. Each collaborator is a total function supplied by the caller;
    `None` stands for "the call raised an exception". */
module Net {
  import opened Wrappers

  newtype Byte = b: int | 0 <= b < 256

  type Bytes = seq<Byte>

  datatype Verb = Get | Head

  /** One HTTP request as the program issues it. `userAgent` is `None` when
      the program leaves the client library's default header in place. */
  datatype Request = Request(verb: Verb, url: string, userAgent: Option<string>, timeoutSeconds: nat)

  datatype Response = Response(status: int, content: Bytes)

  /** The HTTP client: `None` when the call raised (connection refused,
      timeout, malformed URL, ...). */
  type Client = Request -> Option<Response>

  /** Reading a whole local file in binary mode: `None` when `open`/`read` raised. */
  type FileReader = string -> Option<Bytes>

  /** `os.path.exists`. */
  type PathExists = string -> bool

  /** The XML parser, reduced to what the program takes from it: the text of
      every `<loc>` element in document order, or `None` when parsing raised. */
  type LocParser = Bytes -> Option<seq<string>>

  /** The status codes for which the client's `raise_for_status` raises:
      client errors (4xx) and server errors (5xx). */
  predicate IsErrorStatus(status: int) {
    400 <= status < 600
  }
}
