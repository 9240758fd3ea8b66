/**
 * The request and response shapes the handlers of upstream/upstream.go see,
 * with the library parsers they call given as functions.
 */
module Http {
  import opened Wrappers

  /** A `time.Duration`: a signed count of nanoseconds. */
  type Duration = int
  /** A point in time, in nanoseconds since a fixed epoch. */
  type Instant = int

  const StatusOK: int := 200
  const StatusNotFound: int := 404

  /** A seeded record: `resource{Id, Name}`. */
  datatype Resource = Resource(id: int, name: string)

  /**
   * What a handler reads from a request: the headers, the router's path
   * parameters, and the `limit` query argument as `GetUintOrZero` returns it
   * (zero when it is missing or not an unsigned integer). Header names are
   * keys in their canonical form (`X-Delay`, `X-Delay-Percent`, ...), the
   * form fasthttp normalizes every received header name to.
   */
  datatype Request = Request(headers: map<string, string>, params: map<string, string>, limitArg: nat)

  /** `Request.Header.Peek(name)`: the header's value, or the empty string when it is absent. */
  function Peek(req: Request, name: string): string {
    if name in req.headers then req.headers[name] else ""
  }

  /** `Params.ByName(name)`: the path parameter, or the empty string when the route has none of that name. */
  function ByName(req: Request, name: string): string {
    if name in req.params then req.params[name] else ""
  }

  /**
   * The library parsers the handlers call, each `None` on error:
   * `time.ParseDuration`, `time.Parse(time.RFC3339, _)`,
   * `strconv.ParseInt(_, 10, 0)` (which `strconv.Atoi` is as well) and the
   * byte-size parser `bytes.Parse`.
   */
  datatype Parsers = Parsers(
    parseDuration: string -> Option<Duration>,
    parseRFC3339: string -> Option<Instant>,
    parseInt: string -> Option<int>,
    parseBytes: string -> Option<int>)

  /**
   * The Go parsers all reject the empty string: `time.ParseDuration("")`,
   * `time.Parse(time.RFC3339, "")`, `strconv.ParseInt("", 10, 0)` and
   * `bytes.Parse("")` each return an error. An absent header or path
   * parameter reads as "", so under this predicate it never parses.
   */
  predicate RejectsEmpty(p: Parsers) {
    && p.parseDuration("") == None
    && p.parseRFC3339("") == None
    && p.parseInt("") == None
    && p.parseBytes("") == None
  }

  /** The content type a handler sets; `DefaultType` when it sets none. */
  datatype ContentType = DefaultType | ApplicationJson

  /**
   * What a handler writes: nothing, text, or a value `encoding/json`
   * marshals (a resource, or a map of resources keyed by integers).
   */
  datatype Body = NoBody | Text(text: string) | ResourceJson(resource: Resource) | ResourceMapJson(entries: map<int, Resource>)

  /**
   * The observable outcome of one request: status, content type, body, and
   * the durations passed to `time.Sleep`, in order.
   */
  datatype Response = Response(status: int, contentType: ContentType, body: Body, sleeps: seq<Duration>)
}
