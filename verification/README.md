# go-bench-suite upstream: a Dafny model

This project models the request-handling core of the mock "upstream" HTTP
server in `upstream/upstream.go`. That core has four parts.

- **The random letter generator.** `randStringBytesMaskImprSrc` and
  `randStringBytesMaskImpr` fill a byte buffer from its last position down to
  its first. Each letter comes from a 6-bit group of a 63-bit random draw. A
  group of 52 or more is rejected.
- **The resource store.** `seedResources` fills the process-wide map with
  100 resources, each with a ten-letter name. `resourceIndexHandler` returns
  the first `min(limit, len)` keys. `resourceShowHandler` looks up one id.
- **The delay stages.** `applyDelay` sleeps for `X-Delay` with probability
  `X-Delay-Percent`. `applySlowdown` sleeps for `X-Slowdown` when the server
  started after `X-Slowdown-From`.
- **The other handlers.** `jsonHandler`, `sizeHandler` and
  `fixedDelayResponse` chain the stages above.

These inputs of the Go code become explicit parameters:

- the random draws: a sequence of `Int63` values, and the `rand.Int63n(100)`
  draw `r`;
- the server start time, and the text of `time.Now()`;
- the header and path-parameter values;
- the parsers the code calls: `time.ParseDuration`, RFC 3339 parsing,
  `strconv`, and `bytes.Parse` (a `Parsers` record of functions).

A handler's result is a `Response` record. It holds the status, the content
type, the body and the list of durations passed to `time.Sleep`. A stage that
fails ends the handler with nothing written. A sleep taken before that point
stays in the list.

Modules, one per file:

- `Wrappers`: `Option` and `Result`.
- `Http`: requests, responses and parser parameters.
- `Letters`: the generator.
- `Delay`: `applyDelay` and `applySlowdown`.
- `Resources`: the store and its two handlers.
- `Handlers`: `jsonHandler`, `sizeHandler` and `fixedDelayResponse`.

The generator is imperative. It is a `method` with an array and a loop, proved
equal to the function `RandomLetters`. `RandomLetters` reads the letters off
the stream of accepted groups. `seedResources` is a method of the class
`ResourceStore` that reassigns its map field. `resourceIndexHandler` keeps its
loop.

The 404 response of `resourceShowHandler` keeps the content type
`application/json`, which the handler sets first and never changes
(`ResourceShowHandler`'s first ensures).

An absent header or path parameter reads as the empty string. The Go parsers
all reject the empty string, and the predicate `RejectsEmpty` states that
fact about the parser parameters. The lemmas that speak about absent inputs
assume it.

## Model

| member | source | states |
|---|---|---|
| Letters.RandStringBytesMaskImprSrc | upstream/upstream.go:296-312 | The string built in the array equals `RandomLetters(n, source)`. The method takes at least one draw, even for `n == 0`. The draws it takes supply at least `n` accepted groups. All draws but the last supply fewer than `n`, so it never reads a draw it does not need. |
| Letters.RandStringBytesMaskImpr | upstream/upstream.go:277-293 | Over the global source's upcoming draws, the result is the same string that `randStringBytesMaskImprSrc` produces. |
| Letters.RandomLetters | upstream/upstream.go:296-312 | The output has exactly `n` characters. Position `i` holds the letter of the `(n-1-i)`-th accepted group. |
| Letters.RandomLettersInAlphabet | upstream/upstream.go:303-305 | Every output character is one of the 52 letters of `letterBytes`. |
| Letters.GroupsOf | upstream/upstream.go:20-22 | A cache yields `m` groups, each below 64: the mask and shift. |
| Letters.Accepted | upstream/upstream.go:303-306 | The accepted groups are no more than the groups read, and every one is below 52, so it indexes `letterBytes`. |
| Letters.AcceptedAppend | upstream/upstream.go:303-306 | Rejection distributes over concatenation: the accepted groups of `a + b` are those of `a` followed by those of `b`. |
| Letters.GroupStreamAppend | upstream/upstream.go:299-302 | The groups of two runs of draws are the groups of the first run followed by those of the second. |
| Letters.RandomLettersGrow | upstream/upstream.go:299-306 | Writing from the end: one more letter of output puts the next accepted group's letter at the front. |
| Letters.RandomLettersPrefix | upstream/upstream.go:299-302 | The output depends only on the first draws that supply `n` accepted groups. Later draws change nothing. |
| Delay.ApplyDelay | upstream/upstream.go:154-180 | An empty `X-Delay` is a no-op. An unparsable one is the only error. Otherwise it sleeps for exactly the parsed duration iff the percent (default 100 when unparsable) exceeds the draw. So it always sleeps at percent 100 or more and never at 0 or less. |
| Delay.SleepingDrawCount | upstream/upstream.go:167-177 | Of the 100 possible draws, exactly `clamp(percent, 0, 100)` lead to a sleep. This is the delay probability. |
| Delay.SleepingDrawsBelow | upstream/upstream.go:173-177 | Below any bound `k`, the sleeping draws are exactly those under the percent. This is the counting step behind `SleepingDrawCount`. |
| Delay.Clamp | upstream/upstream.go:167-177 | The effective percentage lies in `0 .. 100`. It equals the header's value when that is in range. |
| Delay.SleepsOf | upstream/upstream.go:175-177 | A stage sleeps at most once, and exactly when it decided to sleep. |
| Delay.ApplySlowdown | upstream/upstream.go:186-212 | It does nothing unless both headers are non-empty. The timestamp is parsed before the duration, and each failure is reported with the text that failed. It fails iff both headers are non-empty and one of them does not parse. It sleeps the parsed duration iff both parse and the start time is strictly after `from`. |
| Delay.AbsentPercentAlwaysSleeps | upstream/upstream.go:154-177 | Without an `X-Delay-Percent` header the percent is 100, so a parsable `X-Delay` is slept on every draw. Without an `X-Delay` header nothing happens. |
| Delay.SlowdownMonotone | upstream/upstream.go:207-209 | The window only opens: a later start time sleeps whenever an earlier one does, for the same duration. Errors do not depend on the start time. |
| Resources.SeededResources | upstream/upstream.go:92-97 | The seeded map has exactly the keys `0 .. 99` and 100 entries. Entry `i` has id `i` and a ten-letter name made of alphabet letters. |
| Resources.SeededNamesInAlphabet | upstream/upstream.go:95 | Every seeded name consists of letters of `letterBytes`. |
| Resources.ResourceStore.SeedResources | upstream/upstream.go:92-97 | After seeding, the store's map is `SeededResources(sources)`. Entry `i` is built from the generator's output on the `i`-th fresh source. |
| Resources.ResourceStore.constructor | upstream/upstream.go:48 | The store starts as an empty map. |
| Resources.Min | upstream/upstream.go:99-104 | The result is a lower bound of both arguments and equals one of them. |
| Resources.EffectiveLimit | upstream/upstream.go:113-116 | A zero `limit` (missing or not a number) becomes 10. Any other value is kept. The result is positive. |
| Resources.DenseMapSize | upstream/upstream.go:117-120 | A map whose keys are exactly `0 .. k-1` has `k` entries. |
| Resources.IndexPage | upstream/upstream.go:117-120 | The page has exactly the keys `0 .. min(limit, len(resources))-1`, that many entries, and under each key what the store holds there, with the zero resource for a missing key. |
| Resources.ResourceIndexHandler | upstream/upstream.go:106-127 | The content type is always JSON. A delay error writes nothing. Otherwise the body is `IndexPage(resources, limit)`, with `limit` 10 when the argument is zero: exactly the keys `0 .. min(limit, len(resources))-1`, each mapped to what the store holds at that key. |
| Resources.ResourceShowHandler | upstream/upstream.go:129-152 | A delay error or an unparsable id writes nothing. A parsed id missing from the store gives 404 with "Not Found". A present id gives 200 with that resource. The content type is JSON throughout. |
| Resources.ShowSeeded | upstream/upstream.go:136-145 | On the seeded store, an id is found iff it lies in `0 .. 99`. The found resource carries that id and a ten-letter name. |
| Resources.IndexSeeded | upstream/upstream.go:113-120 | On the seeded store the index page has `min(limit, 100)` entries, and the entry under key `i` is the resource seeded at `i`: id `i` and the name drawn from the `i`-th source. |
| Handlers.JsonHandler | upstream/upstream.go:243-261 | It runs delay, then slowdown. A body is written iff both succeed, and it is the time object for the path's `type`. The slowdown's sleep follows the delay's sleep. A failed delay means the slowdown is never evaluated. |
| Handlers.JsonBodyTimeField | upstream/upstream.go:253-258 | Every kind except "invalid" yields a body that reads back as `{"time": "<now>"}` with exactly that time. The "invalid" body never has that shape. |
| Handlers.TimeFieldInverts | upstream/upstream.go:257 | Any body the reader accepts is exactly a well-formed `jsonHandler` body for the time it read. |
| Handlers.JsonHandlerReadable | upstream/upstream.go:243-261 | The response is readable as a time object iff both stages succeed and the kind is not "invalid". |
| Handlers.SizeHandler | upstream/upstream.go:216-229 | An unparsable size ends the handler before the delay is evaluated. A delay error writes nothing. A negative size panics after the delay's sleep. A non-negative size with a successful delay returns status 200 with the delay's sleeps and the body `RandomLetters(size, source)`: exactly `size` alphabet letters. |
| Handlers.MissingParameters | upstream/upstream.go:216-241 | A missing `delay` parameter means `fixedDelayResponse` does not sleep. A missing `size` parameter means `sizeHandler` writes nothing and never reaches its delay. |
| Handlers.FixedDelayResponse | upstream/upstream.go:231-241 | It writes nothing. It sleeps once, for exactly the parsed duration, iff the `delay` path parameter parses. |

## Left out

- `Serve`, `ServeTLS` and `registerRoutes` (routing, listening, TLS and logging) are not part of this model. The command-line entry point in `cmd/upstream.go` is not part of it either.
- `xmlHandler` and `soapHandler` write a constant or nothing, and are not modelled.
- Sleeping, the clock and the process start time are not modelled as effects. A sleep is a recorded duration, and the start time and `time.Now()` are parameters.
- The parsers `time.ParseDuration`, RFC 3339 parsing, `strconv.Atoi`, `strconv.ParseInt`, `GetUintOrZero` and `bytes.Parse` are parameters (`Parsers`, and `Request.limitArg` for the already-parsed `limit`). Their own grammars are not modelled.
- JSON encoding by `encoding/json` is not modelled. A body holds the resource or the map that would be marshalled (`ResourceJson`, `ResourceMapJson`), not its bytes.
- `time.Now().String()` is an opaque string parameter, so its format is not modelled.
- `rand.NewSource(time.Now().UnixNano())` is not modelled. Each fresh source is a given sequence of draws. Sources seeded within the same nanosecond, which would repeat a name, are not excluded or detected.
- The statistical quality of the generator and the uniformity of `rand.Int63n` are not modelled. `SleepingDrawCount` counts draws rather than stating a probability.
- Letters.RandStringBytesMaskImprSrc: the random source is a finite sequence that must supply `n` accepted groups. The real source never runs out, so this precondition only bounds how far ahead the model looks.
- Letters.RandStringBytesMaskImpr: the shared global source is modelled by the draws it returns during this call. Its locking and sharing with other goroutines are not modelled.
- Handlers.SizeHandler: `size` is an unbounded integer. The conversion `int(size)` from `int64` and allocation failures for huge sizes are not modelled.
- Header names are matched exactly. fasthttp compares header names without regard to case. The model takes `Request.headers` keyed by the canonical names (`X-Delay` and so on), so it does not model case-insensitive header matching.
- Concurrency between requests is not modelled. The store is only read after seeding.
