/**
 * The request pipelines of upstream/upstream.go that are not about the
 * resource store: `jsonHandler` (delay, slowdown, then a JSON time object),
 * `sizeHandler` (size, delay, then that many random letters) and
 * `fixedDelayResponse` (sleep for the duration in the path). Each stage that
 * fails ends the request with nothing written; sleeps already taken stay.
 */
module Handlers {
  import opened Wrappers
  import opened Http
  import opened Letters
  import opened Delay

  /** The body `jsonHandler` writes around the time text: well-formed, or missing the key's opening quote for kind "invalid". */
  function JsonBody(kind: string, now: string): string {
    if kind == "invalid" then "{time\": \"" + now + "\"}" else "{\"time\": \"" + now + "\"}"
  }

  const TimeOpen: string := "{\"time\": \""
  const TimeClose: string := "\"}"

  /**
   * A reader of the well-formed shape `{"time": "<t>"}`: the text between
   * the opening and the closing part, or `None` when the body is not of that
   * shape.
   */
  function TimeField(body: string): Option<string> {
    if |body| >= |TimeOpen| + |TimeClose|
       && body[..|TimeOpen|] == TimeOpen
       && body[|body| - |TimeClose|..] == TimeClose
    then Some(body[|TimeOpen|..|body| - |TimeClose|])
    else None
  }

  /**
   * Every body of kind other than "invalid" reads back as its time text;
   * the "invalid" body never has the well-formed shape.
   */
  lemma JsonBodyTimeField(kind: string, now: string)
    ensures TimeField(JsonBody(kind, now)) == if kind == "invalid" then None else Some(now)
  {
    var body := JsonBody(kind, now);
    if kind == "invalid" {
      assert body[1] == 't' != TimeOpen[1];
    } else {
      assert body == TimeOpen + now + TimeClose;
      assert body[..|TimeOpen|] == TimeOpen;
      assert body[|body| - |TimeClose|..] == TimeClose;
      assert body[|TimeOpen|..|body| - |TimeClose|] == now;
    }
  }

  /** What the reader accepts is exactly a well-formed body: the reader inverts `JsonBody`. */
  lemma TimeFieldInverts(body: string, t: string)
    requires TimeField(body) == Some(t)
    ensures body == JsonBody("valid", t)
  {
    assert body == body[..|TimeOpen|] + body[|TimeOpen|..|body| - |TimeClose|] + body[|body| - |TimeClose|..];
  }

  /**
   * `jsonHandler`: `applyDelay`, then `applySlowdown`, then the time object;
   * `now` is the text of `time.Now().String()`.
   */
  function JsonHandler(req: Request, r: int, start: Instant, now: string, p: Parsers): (resp: Response)
    requires 0 <= r < DrawBound
    ensures resp.status == StatusOK && resp.contentType == DefaultType
    ensures resp.body != NoBody <==> ApplyDelay(req, r, p).Success? && ApplySlowdown(req, start, p).Success?
    ensures resp.body != NoBody ==> resp.body == Text(JsonBody(ByName(req, "type"), now))
    ensures ApplyDelay(req, r, p).Failure? ==> resp.sleeps == []
    ensures ApplyDelay(req, r, p).Success? ==>
      resp.sleeps == SleepsOf(ApplyDelay(req, r, p)) + SleepsOf(ApplySlowdown(req, start, p))
  {
    var delay := ApplyDelay(req, r, p);
    if delay.Failure? then Response(StatusOK, DefaultType, NoBody, [])
    else
      var slowdown := ApplySlowdown(req, start, p);
      var sleeps := SleepsOf(delay) + SleepsOf(slowdown);
      if slowdown.Failure? then Response(StatusOK, DefaultType, NoBody, sleeps)
      else Response(StatusOK, DefaultType, Text(JsonBody(ByName(req, "type"), now)), sleeps)
  }

  /**
   * A `jsonHandler` response is readable as `{"time": ...}` exactly when both
   * delay stages succeeded and the kind is not "invalid".
   */
  lemma JsonHandlerReadable(req: Request, r: int, start: Instant, now: string, p: Parsers)
    requires 0 <= r < DrawBound
    ensures var resp := JsonHandler(req, r, start, now, p);
      (resp.body.Text? && TimeField(resp.body.text) == Some(now)) <==>
      ApplyDelay(req, r, p).Success? && ApplySlowdown(req, start, p).Success? && ByName(req, "type") != "invalid"
  {
    JsonBodyTimeField(ByName(req, "type"), now);
  }

  /** How a handler invocation ends: it returns a response, or it panics after the sleeps listed. */
  datatype Handled = Returned(response: Response) | Panicked(sleepsBefore: seq<Duration>)

  /** The `size` parameter parsed by `bytes.Parse`. */
  function RequestedSize(req: Request, p: Parsers): Option<int> {
    p.parseBytes(ByName(req, "size"))
  }

  /**
   * `sizeHandler`: the size is parsed first (nothing happens if it does not
   * parse, not even the delay), then `applyDelay`, then `size` random letters
   * from a fresh source. A negative size makes `make([]byte, n)` panic.
   */
  function SizeHandler(req: Request, r: int, p: Parsers, source: seq<Int63>): (out: Handled)
    requires 0 <= r < DrawBound && 1 <= |source|
    requires RequestedSize(req, p).Some? && RequestedSize(req, p).value >= 0 ==>
      RequestedSize(req, p).value <= |AcceptedOf(source)|
    ensures RequestedSize(req, p).None? ==> out == Returned(Response(StatusOK, DefaultType, NoBody, []))
    ensures RequestedSize(req, p).Some? && ApplyDelay(req, r, p).Failure? ==>
      out == Returned(Response(StatusOK, DefaultType, NoBody, []))
    ensures out.Panicked? <==> RequestedSize(req, p).Some? && RequestedSize(req, p).value < 0 && ApplyDelay(req, r, p).Success?
    ensures out.Panicked? ==> out.sleepsBefore == SleepsOf(ApplyDelay(req, r, p))
    ensures RequestedSize(req, p).Some? && RequestedSize(req, p).value >= 0 && ApplyDelay(req, r, p).Success? ==>
      out == Returned(Response(StatusOK, DefaultType, Text(RandomLetters(RequestedSize(req, p).value, source)),
                               SleepsOf(ApplyDelay(req, r, p))))
    ensures out.Returned? && out.response.body != NoBody ==>
      && RequestedSize(req, p).Some? && ApplyDelay(req, r, p).Success?
      && out.response.sleeps == SleepsOf(ApplyDelay(req, r, p))
      && out.response.body == Text(RandomLetters(RequestedSize(req, p).value, source))
      && |out.response.body.text| == RequestedSize(req, p).value
      && forall i :: 0 <= i < |out.response.body.text| ==> out.response.body.text[i] in LetterBytes
  {
    match RequestedSize(req, p)
    case None => Returned(Response(StatusOK, DefaultType, NoBody, []))
    case Some(size) =>
      var delay := ApplyDelay(req, r, p);
      if delay.Failure? then Returned(Response(StatusOK, DefaultType, NoBody, []))
      else if size < 0 then Panicked(SleepsOf(delay))
      else
        RandomLettersInAlphabet(size, source);
        Returned(Response(StatusOK, DefaultType, Text(RandomLetters(size, source)), SleepsOf(delay)))
  }

  /**
   * `fixedDelayResponse`: sleeps for the `delay` path parameter when it parses
   * as a duration, and writes nothing either way.
   */
  function FixedDelayResponse(req: Request, p: Parsers): (resp: Response)
    ensures resp.status == StatusOK && resp.contentType == DefaultType && resp.body == NoBody
    ensures |resp.sleeps| <= 1
    ensures resp.sleeps != [] <==> p.parseDuration(ByName(req, "delay")).Some?
    ensures resp.sleeps != [] ==> Some(resp.sleeps[0]) == p.parseDuration(ByName(req, "delay"))
  {
    match p.parseDuration(ByName(req, "delay"))
    case None => Response(StatusOK, DefaultType, NoBody, [])
    case Some(duration) => Response(StatusOK, DefaultType, NoBody, [duration])
  }

  /**
   * A route parameter that is missing reads as "", which no parser accepts:
   * `fixedDelayResponse` then does not sleep, and `sizeHandler` stops before
   * its delay.
   */
  lemma MissingParameters(req: Request, r: int, p: Parsers, source: seq<Int63>)
    requires RejectsEmpty(p) && 0 <= r < DrawBound && 1 <= |source|
    ensures "delay" !in req.params ==> FixedDelayResponse(req, p).sleeps == []
    ensures "size" !in req.params ==> SizeHandler(req, r, p, source) == Returned(Response(StatusOK, DefaultType, NoBody, []))
  {
  }
}
