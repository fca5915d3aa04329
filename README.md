# Matrix live feed: broadcast hub and display rules

A Dafny model of the core of `server.js` of the matrix-live-feed server: an
in-memory hub of server-sent-event subscribers (WHATWG HTML Living Standard,
section 9.2, "Server-sent events") fed by an ingest endpoint, and the rules
the embedded page uses to show each message.

Node runs one handler at a time, so every request handler and every timer
tick is one atomic operation on explicit state:

- `Broadcast` — the `clients` set as a class `Hub` over `Client` objects,
  each with its output stream (`sink`, a sequence of frames) and its
  heartbeat slot `hb` (unset, running, cleared). `Subscribe` is `GET /events`,
  `Close` the request's `close` event, `Heartbeat` one firing of a client's
  interval, `Ingest` is `POST /ingest` and `Health` is `GET /health`. Ghost
  counters record subscribes and effective closes; the hub invariant `Valid`
  says a client is registered exactly when its heartbeat runs and that the
  registered count is subscribes minus effective closes. Frames are the
  datatype `Ping(timestamp) | Message(payload)`.
- `JsValue` — tagged JavaScript values (undefined, null, booleans, integers,
  strings, arrays, objects) with truthiness, `Object.keys(v).length` and
  `String(v)`.
- `IngestBody` — the normalization of the ingest body into the payload.
- `Display` — the text the page's `onmessage` handler shows for one event.
- `Typewriter` — `typeIn`, as a class for one call's counter, element
  content and interval.
- `Decay` — `ageLastLines`, as an in-place method on the array of the lines'
  class lists, specified by the function `Aged`.

`Broadcast.HelloExample` and `Broadcast.TwoSubscribersExample` are clients
of the hub whose assertions state, for short sequences of subscriptions,
messages, heartbeats and closes, what each stream and the health count hold
at each point, from the contracts alone.

On these points the code behaves in ways a reader might not expect:

- A non-empty string body is not wrapped into `{text: ...}`: a string has
  its indices as own keys, so the guard passes it through unchanged
  (`IngestBody.NonEmptyStringPassesThrough`), and the page then shows its
  JSON serialization (`Display.StringBodyShownSerialized`).
- The empty object is truthy with no keys, so it is broadcast as
  `{text: "[object Object]"}` (`IngestBody.TruthyFallbacks`).
- There is no handling of failed writes or slow consumers: `res.write`'s
  result is ignored and a client leaves only on its `close` event.
- `Ingest` reports the size of the registry, which is the number of streams
  written.

## Model

| member | source | states |
|---|---|---|
| `Broadcast.Hub.constructor` | server.js:12 | the registry starts empty, with no subscribes and no closes |
| `Broadcast.Client.constructor` | server.js:121 | a new client has an empty stream and an unset heartbeat slot |
| `Broadcast.Hub.Subscribe` | server.js:121-123 | a fresh client is added with a running heartbeat and an empty stream; the count rises by one; its frame writes only the hub and the new client, so every existing client's stream and timer are unchanged; the invariant (count = subscribes − effective closes) is kept |
| `Broadcast.Hub.Close` | server.js:124 | the client's interval is cleared and it leaves the registry; the count drops by one exactly when it was registered; closing an already-removed client changes neither membership nor its timer; its stream is untouched |
| `Broadcast.Hub.Heartbeat` | server.js:123 | a tick appends exactly one ping with the given timestamp to that client's stream only, and only while its interval runs; after close a tick writes nothing |
| `Broadcast.Hub.Ingest` | server.js:128-132 | every registered client's stream gets exactly one more frame, a message carrying the normalized body; departed clients' streams, membership and timers are unchanged; the result equals the registry size |
| `Broadcast.Hub.Health` | server.js:135 | reports the number of registered clients, which equals subscribes minus effective closes |
| `JsValue.Truthy` | server.js:129 | the falsy values are exactly undefined, null, `false`, `0` and `""` (the tests `req.body && …` and `req.body \|\| ""`) |
| `JsValue.ObjectKeysLength` | server.js:129 | `Object.keys` throws exactly on null and undefined; a string has as many own keys as characters, an object as many as fields |
| `JsValue.NatToDecimal` | server.js:129 | `String` of a natural number is a non-empty numeral of digits, with no leading zero except for 0 itself, whose decimal value is the number (as `String` writes it for n ≤ 2^53) |
| `JsValue.IntToDecimal` | server.js:129 | `String` of an integer is its numeral, with a leading `-` followed by the numeral of the magnitude when negative |
| `JsValue.ToJsString` | server.js:129 | `String(v)`: a string converts to itself, a non-negative number to the numeral denoting it (as `String` writes it up to 2^53), the empty array to `""` |
| `JsValue.JoinElements` | server.js:129 | the array conversion of `String`: no elements give `""`, one string element gives that string, a lone null or undefined element gives `""` |
| `IngestBody.TextPayload` | server.js:129 | `{text: s}` is an object whose only key is `text`, holding the string s, and it has an own key |
| `IngestBody.HasOwnKeys` | server.js:129 | the guard `body && Object.keys(body).length` holds exactly for a non-empty string, a non-empty array and an object with a field |
| `IngestBody.OrEmpty` | server.js:129 | `body \|\| ""` is the body when it is truthy, and converts to `""` otherwise |
| `IngestBody.Normalize` | server.js:129 | a body with an own key passes through unchanged; any other body becomes a single-field object whose only key is `text`, holding `String(body \|\| "")`; the payload always has an own key |
| `IngestBody.FalsyBodyGivesEmptyText` | server.js:129 | an absent or falsy body gives `{text: ""}` |
| `IngestBody.NormalizeIdempotent` | server.js:129 | normalizing a payload again gives the same payload |
| `IngestBody.TruthyFallbacks` | server.js:129 | the truthy bodies that fall back are exactly `true`, a non-zero number, `[]` and `{}`, giving `"true"`, the numeral, `""` and `"[object Object]"` |
| `IngestBody.NonEmptyStringPassesThrough` | server.js:129 | a non-empty string body is broadcast as itself, not as `{text: s}` |
| `IngestBody.TextObjectPassesThrough` | server.js:129 | a body `{text: s}` is broadcast unchanged |
| `Display.TextProperty` | server.js:95 | reading `d.text` throws exactly on null and undefined; it gives the field of an object that has one and undefined on every other value |
| `Display.DisplayText` | server.js:93-96 | a string `text` field of the parsed data is shown; parsed data without one (and not null) is shown re-serialized; when parsing fails, or the data is null so reading `text` throws, the raw data is shown |
| `Display.FallbackShowsItsText` | server.js:93-96 | a fallback payload `{text: s}` is shown as exactly `s` |
| `Display.BroadcastPayloadShown` | server.js:93-96 | a broadcast payload, parsed back, shows the fallback text, the body's string `text`, or the re-serialized body, and never the raw data |
| `Display.FalsyBodyShownEmpty` | server.js:93-96 | an absent or falsy ingest body is shown as an empty line |
| `Display.StringBodyShownSerialized` | server.js:93-96 | a non-empty string body is shown as its serialization, not as the string |
| `Typewriter.Revealed` | server.js:74 | `text.slice(0, k)` is a prefix of the text of length min(k, length) |
| `Typewriter.RevealedGrows` | server.js:74 | each tick's content extends the previous one |
| `Typewriter.RevealedComplete` | server.js:74-76 | once k reaches the text length the whole text is shown |
| `Typewriter.Typer.constructor` | server.js:71-72 | typing starts at counter 0 with empty content and a live interval |
| `Typewriter.Typer.Tick` | server.js:73-77 | a live tick advances the counter by one and shows `text.slice(0, i)`; the interval stops on the tick where i reaches the length; a cleared interval does nothing; content only grows and stays a prefix |
| `Typewriter.TickCounts` | server.js:73-76 | the interval clears itself after exactly `length` ticks, and after one tick for an empty text |
| `Decay.DecayFor` | server.js:83-85 | every class chosen is one of the three decay classes |
| `Decay.DecaySet` | server.js:83-85 | the classes added to a line are among the three decay classes |
| `Decay.DecaySetSize` | server.js:83-85 | a line older than 30 gets exactly one decay class, a younger one none |
| `Decay.Restyled` | server.js:81-85 | one line's remove-then-add; its classes are stated by `Decay.RestyledClasses` |
| `Decay.RestyledClasses` | server.js:81-85 | `Restyled`, one line's remove-then-add, leaves exactly the decay class its age picks and keeps every other class |
| `Decay.Aged` | server.js:80-85 | the feed after `ageLastLines` has as many lines as before; what each line holds is stated by `Decay.AgedInWindow` and `Decay.AgedOutsideWindow` |
| `Decay.WindowStart` | server.js:80 | the window holds the last min(n, 200) lines |
| `Decay.AgedInWindow` | server.js:80-86 | a line in the window ends with exactly one decay class: decay3 past age 120, decay2 in 61..120, decay1 in 31..60, none up to 30; its other classes are kept |
| `Decay.AgedOutsideWindow` | server.js:80 | lines older than the window are untouched |
| `Decay.RestyledIdempotent` | server.js:81-85 | restyling one line twice at the same age is restyling it once |
| `Decay.AgedIdempotent` | server.js:79-86 | running `ageLastLines` twice gives the same feed as once |
| `Decay.AgeLastLines` | server.js:79-86 | the in-place passes (remove, then the countdown over `step`) leave the feed equal to `Aged` of the old feed |

## Left out

- Express setup, middleware (CORS, compression, JSON and urlencoded parsers), response headers, `flushHeaders`, `app.listen` and the port setting (server.js:1-9, 115-120, 137-138): framework and I/O plumbing. The body is taken as already parsed.
- Real timers and `Date.now()`: ticks are explicit operations and the timestamp is a parameter. The typewriter's period `Math.max(1, 1000/cps)` is floating point and is not modelled; `HEARTBEAT_MS` is a constant only.
- `JSON.parse` and `JSON.stringify`: library calls. The page handler is given the parse outcome and the serializer as parameters; that parsing a message's data gives back the broadcast payload is assumed by the lemmas that pass it in, not proved.
- The wire text of frames: frames are a datatype. The source text of the two writes contains doubled escapes (`\\n`, `` \` ``) whose literal bytes are ambiguous; the model takes them as the intended `event:ping` / `data:<timestamp>` and `data: <JSON>` lines ending in a blank line.
- Write failures, slow consumers and disconnect on error: the code ignores `res.write`'s result and has none of these.
- JsValue.IntToDecimal: integers of magnitude 10^21 or more are written in full, whereas `String` writes them in exponent form (`1e+21`); above 2^53 the model writes the exact integer, whereas `String` writes the shortest digits that round back to the same double (`String(2**60)` is `"1152921504606847000"`); and `Num` holds integers, such as 2^53 + 1, that no double equals.
- JsValue.NatToDecimal: above 2^53 it gives the exact numeral of n, whereas `String` writes the shortest round-trip digits of the nearest double; exact only for n ≤ 2^53.
- JsValue.ToJsString: a number converts to its exact numeral, which is what `String` writes only for |n| ≤ 2^53 (see `JsValue.IntToDecimal` above); only a numeric ingest body reaches this conversion.
- JsValue.ObjectKeysLength: a string's key count is its number of Unicode scalar values (Dafny's `string`), whereas `Object.keys` gives one key per UTF-16 code unit, so a string with characters outside the Basic Multilingual Plane has fewer keys here than in JavaScript; the guard at server.js:129 only tests whether the count is positive, which both agree on.
- Typewriter.Revealed: text is counted in Unicode scalar values (Dafny's `string`), not in UTF-16 code units as `text.length` and `text.slice` count them, so a character outside the Basic Multilingual Plane is one step here and two in the page, and the state in which a lone surrogate is shown cannot arise.
- Typewriter.Typer.Tick: counts characters as Unicode scalar values rather than UTF-16 code units, for the reason above.
- Typewriter.TickCounts: the tick count is the number of Unicode scalar values, not of UTF-16 code units, for the reason above.
- Elapsed time: the heartbeat period is not tied to a clock, so "a subscriber connected for 15000 ms receives a ping" is not stated; what is stated is that each tick of a live interval writes one ping and nothing else.
- Interleavings: handlers are atomic, as Node runs them one at a time.
- Numbers are integers: NaN, -0, fractions and their `String` forms are not modelled. Object property order is not kept (objects are maps).
- DOM rendering: `scrollIntoView`, `insertBefore`, query-string theming (server.js:62-65), the error banner (server.js:103-107) and the static markup (server.js:17-60). A line's class list is a set, so the order of class tokens is not kept.
- The page session itself (`new EventSource`, creating each line and calling `typeIn` and `ageLastLines` from `onmessage`, server.js:90-101) is not composed into one operation; its three parts are modelled separately.
