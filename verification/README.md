# zerolog message formatter, in Dafny

This project models the formatter core of the `zerolog` Go package (zero-os/0-log). The package prints one record per `Log(level, message)` call in the format the 0-Core log monitor reads. The model covers four things:

- **Dispatch.** Levels 1 (stdout) and 2 (stderr) take string-like messages. Level 10 takes a `MsgStatistics` record. Level 20 takes any JSON-serializable value. Every other level is refused with `ErrLevelNotValid`.
- **Coercion.** Each level has its coercer: `msgString`, `msgStatistics` and `msgJSON`. The statistics record has its own validation (`MsgStatistics.Validate`, `AggregationType.Validate`). Tags are rendered by `MetricTags.String` and `tagValString`.
- **Framing.** `printLog` and `isMultiline` produce `L::msg\n` for a single-line message and `L:::\nmsg\n:::\n` for a message that holds a line break.
- **Errors.** The package's five error sentinels.

Modules, one per stage of the pipeline:

- `Values` (`values.dfy`): levels, the error sentinels, the statistics record, and `Value`. `Value` is the dynamically typed message. It is a closed datatype that stands in for Go's runtime interface probing. It distinguishes nil, an exact `string`, an exact `[]byte`, a `MsgStatistics`, and any other type. For any other type it records an opaque identity of the Go value and what probing can see: a `String()` result, a `MarshalText()` outcome, and the underlying string of a string-kinded type. The identity lets the library routines below give different results for different values with the same methods, such as the ints 1 and 2, or a struct and `+Inf`.
- `Coerce` (`coerce.dfy`): the coercers, the validation and the tag rendering. It also has a parser for statistics lines, which is the inverse of the formatter.
- `Framing` (`framing.dfy`): `printLog`, `isMultiline`, and `Unframe`. `Unframe` reads back one record whose end is known; it is the single-record inverse of `printLog`.
- `Logger` (`logger.dfy`): `Log` and the package's test expectations.
- `Text` (`text.dfy`) and `Wrappers` (`wrappers.dfy`): decimal rendering and parsing, search, join and split, and the `Option`/`Result`/`Outcome` types.

Three library routines are not modelled. They are passed to the model as the fields of a `Runtime` value:

- `fmt`'s `%f` rendering of a float64;
- `json.Marshal` (`None` when it returns an error);
- `fmt.Sprint`.

Writing to `os.Stdout` becomes a returned value. `Log` returns a `LogResult` that holds the text written and the error returned.

In these corner cases the model follows `logger.go` exactly, and where the package's tests disagree with it, the code wins:

- A string-kinded type (a string alias) is tried only after `fmt.Stringer` and `encoding.TextMarshaler` (`logger.go:120-136`). An empty alias string is accepted; only the exact empty `string` is refused with `ErrNilMessage` (`logger.go:107-117`).
- A failing `MarshalText` gives the plain `ErrInvalidMessage` sentinel, with no cause wrapped (`logger.go:127-128`).
- The statistics value is printed with `%f`, that is with six decimals, not at full precision (`logger.go:156`).
- `Log` knows exactly the levels 1, 2, 10 and 20 and the five error sentinels of `logger.go:56-69`; there are no other levels or errors.
- `logger_test.go:72` expects the text "could not turn message into string". The code's `ErrInvalidMessage` says "message was invalid" (`logger.go:62`). The model uses the code's text.
- `TestStatsInput` (`logger_test.go:122-175`) uses names that `logger.go` does not define (`MsgStat`, `msgStat`, `LevelStats`, string tags). It is not modelled. `Logger.StatisticsExample` states the record format that `logger.go` actually produces.

## Model

| member | source | states |
|---|---|---|
| `Values.ErrorTextsDistinct` | logger.go:56-69 | two sentinels have the same `Error()` text only when they are the same sentinel, so callers can tell them apart by text |
| `Coerce.StringMessage` | logger.go:106-139 | nil and the exact empty string, and nothing else, give NilMessage. A non-empty exact string passes unchanged. A `String()` result is used whatever `MarshalText` or the kind would give. Without `String()`, `MarshalText` decides, and its error gives InvalidMessage even for a string-kinded type. Only then does a string-kinded value pass, the empty string included. Byte slices, statistics records and all other values give InvalidMessage. No other error is returned |
| `Coerce.TagValString` | logger.go:237-264 | tag values are rendered in priority order: exact string, then `String()`, then a successful `MarshalText()`. A failed `MarshalText` falls through. A `[]byte` is used as text. Everything else, nil and string-kinded types included, goes to `fmt.Sprint` |
| `Coerce.TagChainExtendsStringChain` | logger.go:237-255 | whenever `msgString` accepts a value through an exact string, `String()` or `MarshalText()`, `tagValString` renders it to the same text |
| `Coerce.MarshalErrorDiverges` | logger.go:249-255 | a type whose only capability is a failing `MarshalText` is refused as a message (InvalidMessage) but rendered by `fmt.Sprint` as a tag value |
| `Coerce.TagsString` | logger.go:222-225 | the rendering of a tag map is empty exactly when the map is empty |
| `Coerce.MetricTagsString` | logger.go:222-234 | the loop that appends `k=v,` per entry and then drops the final byte yields exactly the comma-join of the entries in iteration order, so there is no trailing comma |
| `Coerce.TagsSplit` | logger.go:227-233 | each entry appears exactly once and in iteration order: when no key or rendered value holds a comma, splitting the tag string on commas gives back the `k=v` entries |
| `Coerce.ValidateAggregation` | logger.go:208-216 | an aggregation type passes exactly when it is "A" or "D". Otherwise the result is InvalidAggregationType |
| `Coerce.ValidateStatistics` | logger.go:189-195 | an empty key gives NilStatisticsKey whatever the operation. A non-empty key defers to the aggregation check. A record passes exactly when its key is non-empty and its operation is "A" or "D" |
| `Coerce.StatisticsLine` | logger.go:156-161 | the line begins with `key:`, the `%f` text of the value, `\|` and the operation. It is exactly that head when the tag map is empty, so there is no trailing `\|`; otherwise `\|` and the tag rendering follow the head |
| `Coerce.StatisticsMessage` | logger.go:144-164 | every value that is not a `MsgStatistics`, nil included, gives InvalidMessage. A record is formatted exactly when it validates; otherwise its validation error is returned. A formatted line is the record's `StatisticsLine`, so it begins with `key:` |
| `Coerce.StatisticsRoundTrip` | logger.go:156-163 | a formatted record reads back as its key, the `%f` text of its value and its operation. The tag segment is present exactly when the tag map is non-empty, so an empty map never leaves a trailing `\|`. This assumes the key holds no `:` and the value text holds no `\|` |
| `Coerce.JsonMessage` | logger.go:167-177 | nil gives NilMessage. A serializer failure gives InvalidMessage. Otherwise the result is the serializer's output, unchanged |
| `Framing.IsMultiline` | logger.go:277-280 | a text is multi-line exactly when some position in it holds a line break |
| `Framing.PrintLog` | logger.go:267-280 | the written text starts with the decimal level and `::` and ends with a line break. That final line break is the only one exactly when the message holds none, so a single-line message never gets the multi-line frame and a multi-line message never gets the single-line frame |
| `Framing.SingleLineFrame` | logger.go:274 | a message without line breaks is written as `L::msg\n` |
| `Framing.MultiLineFrame` | logger.go:268-271 | a message with a line break is written as `L:::\nmsg\n:::\n` |
| `Framing.UnframePrintLog` | logger.go:267-275 | removing the known prefix and suffix from a written record recovers both the level and the message exactly, for every level and every message |
| `Framing.PrintLogUnframe` | logger.go:267-275 | conversely, any text that reads as a record is exactly what `printLog` writes for that record, so the framing is one-to-one |
| `Framing.RecordsInsideMultiline` | logger.go:267-275 | a multi-line message that holds a line break, `:::`, and a single-line record is written as exactly the text of two records at two levels plus a stray `:::` line; read as one record it gives back the logged level and message |
| `Logger.Dispatch` | logger.go:76-97 | levels 1 and 2 go to the string coercer, 10 to the statistics coercer and 20 to the JSON coercer. LevelNotValid comes back for exactly the other levels, because no coercer returns it |
| `Logger.Log` | logger.go:72-103 | an unknown level gives LevelNotValid. On any error nothing is written and the coercer's error is returned. On success one record is written, and it reads back as the level and the coerced message |
| `Logger.LogNilOrEmptyString` | logger_test.go:31-39 | at levels 1 and 2, nil and "" give NilMessage and nothing is written |
| `Logger.LogStatisticsNil` | logger.go:144-149 | at level 10, nil is not a `MsgStatistics`, so the result is InvalidMessage rather than NilMessage |
| `Logger.LogJsonUnserializable` | logger_test.go:202-204 | a non-nil value the serializer refuses (such as +Inf) gives InvalidMessage at level 20, and nothing is written |
| `Logger.LogValidStatistics` | logger.go:84-100 | a record that validates is always logged, framed at level 10 |
| `Logger.HelloWorldExample` | logger.go:3-6 | `Log(LevelStdout, "Hello world")` writes `1::Hello world\n` |
| `Logger.InvalidLevelExample` | logger_test.go:26-29 | level 255 gives LevelNotValid and writes nothing |
| `Logger.SingleLineFormatExample` | logger_test.go:209-214 | the single-line framing the test expects |
| `Logger.MultiLineFormatExample` | logger_test.go:216-220 | the multi-line framing the test expects |
| `Logger.StatisticsExample` | logger.go:156-163 | the record `somekey`, 123.456, `A`, `{foo: bar}` is written as `10::somekey:123.456000\|A\|foo=bar\n` |
| `Logger.JsonExample` | logger_test.go:178-200 | the serialized test structure is written at level 20 as the serializer produced it |
| `Logger.JsonTestsTogether` | logger_test.go:177-205 | under one serializer, the test structure is logged at level 20 and `math.Inf(1)` is refused with InvalidMessage and nothing written |
| `Logger.IntTagsExample` | logger.go:222-234 | tags `{a: 1, b: 2}`, visited in that order, render as `a=1,b=2` when `fmt.Sprint` renders the ints as `1` and `2` |

## Left out

- Writing to `os.Stdout` through `fmt.Fprintf` (logger.go:100, 270, 274): `printLog` returns the text instead. The write's own errors are ignored by the code, and the model ignores them too.
- The internals of `json.Marshal`, of `%f` float formatting and of `fmt.Sprint`: they are the opaque `Runtime` fields. The model makes no claim about float precision, and `%f` prints six decimals.
- Go map iteration order: a tag map is a sequence of pairs in the order one iteration visits them. Every statement holds for any order. That keys are distinct is not enforced, and nothing depends on it.
- Go strings and byte slices are both Dafny strings. `string(bs)` is the identity. There is no UTF-8 validation.
- Pointers and typed nils: a `*MsgStatistics` is not a `MsgStatistics`. It is one of the "other" values and gets InvalidMessage at level 10. A typed nil pointer inside a non-nil interface is not distinguished from other values.
- The `error` interface: `fmt.Sprint` prefers `Error()` to the underlying string. That happens inside the opaque `sprint`, and `Value` does not record it.
- `assert/assert.go`, `assert/assert_test.go` and the test helpers in `logger_test.go`: they are test scaffolding with no formatting logic.
- Record boundaries in a stream: `Log` writes records back to back, and a multi-line message can hold text that looks like the end of its frame followed by another record (`Framing.RecordsInsideMultiline`). The code does not escape such messages, and the model does not either. `Framing.Unframe` reads one record whose end is known and makes no claim about splitting a stream.
- The identity of an "other" value (`Value.Other`'s `id`) is opaque: the model does not describe what the Go value is, only that the library routines may depend on it.
