/**
 * The two header-driven delay stages of upstream/upstream.go, `applyDelay`
 * and `applySlowdown`. Each returns what it would sleep for (`Some(d)`), that
 * it does nothing (`None`), or the parse error it returns instead of sleeping.
 * The random draw, the server start time and the parsers are inputs.
 */
module Delay {
  import opened Wrappers
  import opened Http

  const XDelay: string := "X-Delay"
  const XDelayPercent: string := "X-Delay-Percent"
  const XSlowdown: string := "X-Slowdown"
  const XSlowdownFrom: string := "X-Slowdown-From"

  /** The percentage used when `X-Delay-Percent` is absent or does not parse. */
  const DefaultPercent: int := 100
  /** `rand.Int63n(100)` draws from `0 .. DrawBound - 1`. */
  const DrawBound: int := 100

  /** The error each stage returns, naming the header value that did not parse. */
  datatype ParseError = InvalidDuration(text: string) | InvalidTimestamp(text: string)

  type Stage = Result<Option<Duration>, ParseError>

  /** The sleeps a stage performs: one when it decided to sleep, none otherwise. */
  function SleepsOf(stage: Stage): (sleeps: seq<Duration>)
    ensures |sleeps| <= 1
    ensures sleeps != [] <==> stage.Success? && stage.value.Some?
  {
    if stage.Success? && stage.value.Some? then [stage.value.value] else []
  }

  /** The `X-Delay-Percent` threshold: the header parsed as an integer, unclamped, or 100. */
  function DelayPercent(req: Request, p: Parsers): int {
    match p.parseInt(Peek(req, XDelayPercent))
    case Some(percent) => percent
    case None => DefaultPercent
  }

  /**
   * `applyDelay` with the random draw `r` (`rand.Int63n(100)`) as input: an
   * empty `X-Delay` does nothing, an unparsable one is an error, otherwise
   * the parsed duration is slept iff the percent exceeds the draw.
   */
  function ApplyDelay(req: Request, r: int, p: Parsers): (res: Stage)
    requires 0 <= r < DrawBound
    ensures Peek(req, XDelay) == "" ==> res == Success(None)
    ensures res.Failure? <==> Peek(req, XDelay) != "" && p.parseDuration(Peek(req, XDelay)).None?
    ensures res.Failure? ==> res.error == InvalidDuration(Peek(req, XDelay))
    ensures SleepsOf(res) != [] <==>
      Peek(req, XDelay) != "" && p.parseDuration(Peek(req, XDelay)).Some? && DelayPercent(req, p) > r
    ensures SleepsOf(res) != [] ==> Some(SleepsOf(res)[0]) == p.parseDuration(Peek(req, XDelay))
    ensures res.Success? && Peek(req, XDelay) != "" && DelayPercent(req, p) >= DrawBound ==> SleepsOf(res) != []
    ensures DelayPercent(req, p) <= 0 ==> SleepsOf(res) == []
  {
    var delay := Peek(req, XDelay);
    if delay == "" then Success(None)
    else
      match p.parseDuration(delay)
      case None => Failure(InvalidDuration(delay))
      case Some(duration) =>
        if DelayPercent(req, p) > r then Success(Some(duration)) else Success(None)
  }

  /**
   * Without an `X-Delay-Percent` header the percent is 100, so a parsable
   * `X-Delay` is slept on every draw; without an `X-Delay` header nothing
   * happens.
   */
  lemma AbsentPercentAlwaysSleeps(req: Request, r: int, p: Parsers)
    requires RejectsEmpty(p) && 0 <= r < DrawBound
    requires XDelayPercent !in req.headers
    ensures DelayPercent(req, p) == DefaultPercent
    ensures Peek(req, XDelay) != "" && p.parseDuration(Peek(req, XDelay)).Some? ==>
      ApplyDelay(req, r, p) == Success(p.parseDuration(Peek(req, XDelay)))
    ensures XDelay !in req.headers ==> ApplyDelay(req, r, p) == Success(None)
  {
  }

  /** `percent` limited to `0 .. 100`: how many draws in `0 .. 99` lie below it. */
  function Clamp(percent: int): (c: int)
    ensures 0 <= c <= DrawBound
    ensures c == percent || (percent < 0 && c == 0) || (percent > DrawBound && c == DrawBound)
  {
    if percent < 0 then 0 else if percent > DrawBound then DrawBound else percent
  }

  /** The draws in `0 .. k - 1` for which `ApplyDelay` sleeps. */
  function SleepingDraws(req: Request, p: Parsers, k: nat): set<int>
    requires k <= DrawBound
  {
    set r | 0 <= r < k && SleepsOf(ApplyDelay(req, r, p)) != []
  }

  /**
   * Of the 100 equally likely draws, exactly `Clamp(percent)` make a
   * parsable `X-Delay` sleep: the delay is applied with probability
   * `percent / 100`, always at 100 or more and never at 0 or less.
   */
  lemma {:induction false} SleepingDrawCount(req: Request, p: Parsers)
    requires Peek(req, XDelay) != "" && p.parseDuration(Peek(req, XDelay)).Some?
    ensures |SleepingDraws(req, p, DrawBound)| == Clamp(DelayPercent(req, p))
  {
    SleepingDrawsBelow(req, p, DrawBound);
  }

  /** Below any bound `k`, the sleeping draws are exactly those under the percent. */
  lemma {:induction false} SleepingDrawsBelow(req: Request, p: Parsers, k: nat)
    requires k <= DrawBound
    requires Peek(req, XDelay) != "" && p.parseDuration(Peek(req, XDelay)).Some?
    ensures |SleepingDraws(req, p, k)| == if DelayPercent(req, p) < 0 then 0
      else if DelayPercent(req, p) < k then DelayPercent(req, p) else k
  {
    if k > 0 {
      SleepingDrawsBelow(req, p, k - 1);
      var r := k - 1;
      if SleepsOf(ApplyDelay(req, r, p)) != [] {
        assert SleepingDraws(req, p, k) == SleepingDraws(req, p, k - 1) + {r};
      } else {
        assert SleepingDraws(req, p, k) == SleepingDraws(req, p, k - 1);
      }
    } else {
      assert SleepingDraws(req, p, k) == {};
    }
  }

  /** The server start time at which `applySlowdown` sleeps: strictly after the `from` instant. */
  predicate After(start: Instant, from: Instant) {
    start > from
  }

  /**
   * `applySlowdown` with the server start time as input: it acts only when
   * both `X-Slowdown` and `X-Slowdown-From` are non-empty; it parses the
   * timestamp first and the duration second, failing on the first that does
   * not parse; it sleeps iff the server started after the timestamp.
   */
  function ApplySlowdown(req: Request, start: Instant, p: Parsers): (res: Stage)
    ensures Peek(req, XSlowdown) == "" || Peek(req, XSlowdownFrom) == "" ==> res == Success(None)
    ensures Peek(req, XSlowdown) != "" && Peek(req, XSlowdownFrom) != "" && p.parseRFC3339(Peek(req, XSlowdownFrom)).None?
      ==> res == Failure(InvalidTimestamp(Peek(req, XSlowdownFrom)))
    ensures Peek(req, XSlowdown) != "" && Peek(req, XSlowdownFrom) != "" && p.parseRFC3339(Peek(req, XSlowdownFrom)).Some?
      && p.parseDuration(Peek(req, XSlowdown)).None?
      ==> res == Failure(InvalidDuration(Peek(req, XSlowdown)))
    ensures res.Failure? <==>
      && Peek(req, XSlowdown) != "" && Peek(req, XSlowdownFrom) != ""
      && (p.parseRFC3339(Peek(req, XSlowdownFrom)).None? || p.parseDuration(Peek(req, XSlowdown)).None?)
    ensures SleepsOf(res) != [] <==>
      && Peek(req, XSlowdown) != "" && Peek(req, XSlowdownFrom) != ""
      && p.parseRFC3339(Peek(req, XSlowdownFrom)).Some? && p.parseDuration(Peek(req, XSlowdown)).Some?
      && After(start, p.parseRFC3339(Peek(req, XSlowdownFrom)).value)
    ensures SleepsOf(res) != [] ==> Some(SleepsOf(res)[0]) == p.parseDuration(Peek(req, XSlowdown))
  {
    var delayHeader := Peek(req, XSlowdown);
    var fromTimeHeader := Peek(req, XSlowdownFrom);
    if delayHeader == "" then Success(None)
    else if fromTimeHeader == "" then Success(None)
    else
      match p.parseRFC3339(fromTimeHeader)
      case None => Failure(InvalidTimestamp(fromTimeHeader))
      case Some(from) =>
        match p.parseDuration(delayHeader)
        case None => Failure(InvalidDuration(delayHeader))
        case Some(delay) => if After(start, from) then Success(Some(delay)) else Success(None)
  }

  /**
   * The slowdown window only opens: a server that started later than one
   * that slows down slows down too, by the same duration, and the outcome
   * of the stage never depends on the start time except through that test.
   */
  lemma SlowdownMonotone(req: Request, p: Parsers, s1: Instant, s2: Instant)
    requires s1 <= s2
    ensures SleepsOf(ApplySlowdown(req, s1, p)) != [] ==> SleepsOf(ApplySlowdown(req, s2, p)) == SleepsOf(ApplySlowdown(req, s1, p))
    ensures ApplySlowdown(req, s1, p).Failure? <==> ApplySlowdown(req, s2, p).Failure?
  {
  }
}
