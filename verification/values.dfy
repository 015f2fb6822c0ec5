/**
  The data the 0-Core log formatter works on: levels, error sentinels,
  statistics records, and the dynamically typed message value.
 */
module Values {
  import opened Wrappers

  /** A log level; Go's `Level` is a `uint8`. */
  type Level = n: nat | n < 256

  const LevelStdout: Level := 1
  const LevelStderr: Level := 2
  const LevelStatistics: Level := 10
  const LevelJSON: Level := 20

  /** The package's error sentinels, compared by identity in Go and by constructor here. */
  datatype LogError =
    | LevelNotValid
    | NilMessage
    | InvalidMessage
    | NilStatisticsKey
    | InvalidAggregationType
  {
    /** The text `err.Error()` returns. */
    function Text(): string {
      match this
      case LevelNotValid => "logging level not valid"
      case NilMessage => "message was nil"
      case InvalidMessage => "message was invalid"
      case NilStatisticsKey => "statistics key was missing"
      case InvalidAggregationType => "invalid aggregation type"
    }
  }

  /** Callers (and the tests) tell the sentinels apart by their text: no two share one. */
  lemma ErrorTextsDistinct(e1: LogError, e2: LogError)
    ensures e1.Text() == e2.Text() <==> e1 == e2
  {
  }

  /** A Go `float64`, kept as its IEEE-754 bit pattern: the model never does arithmetic on it. */
  type Float64 = bv64

  /** What a `MarshalText()` call returned: the text, or a non-nil error. */
  datatype MarshalOutcome = Marshalled(text: string) | MarshalError

  /**
    A value passed as `interface{}`, by its dynamic type.
    Go strings and byte slices are both modelled as Dafny strings.
   */
  datatype Value =
      /** the nil interface */
    | Nil
      /** dynamic type exactly `string` (no methods) */
    | Str(s: string)
      /** dynamic type exactly `[]byte` (no methods) */
    | Bytes(b: string)
      /** dynamic type exactly `MsgStatistics` (a struct without `String` or `MarshalText`) */
    | Stats(m: MsgStatistics)
      /** any other dynamic type. `id` names the Go value itself (an int, a struct, +Inf, ...),
          opaque to the model, so that the library routines of `Runtime` can tell two such
          values apart. The other fields are what runtime probing can see of it: the result
          of its `String()` method if it has one, the result of its `MarshalText()` method if
          it has one, and its underlying string when its kind is `reflect.String` */
    | Other(id: nat, stringer: Option<string>, textMarshal: Option<MarshalOutcome>, stringKind: Option<string>)

  /**
    A statistics record. `tags` is a Go map; the sequence lists its entries in
    the order one iteration of that map visits them.
   */
  datatype MsgStatistics = MsgStatistics(key: string, value: Float64, operation: string, tags: seq<(string, Value)>)

  /** The two aggregation codes the 0-Core statistics monitor understands. */
  const AggregationAverages: string := "A"
  const AggregationDifferentiates: string := "D"

  /**
    Library routines whose internals are outside the model, passed in as functions:
    `fmt`'s `%f` rendering of a float64, `json.Marshal` (None when it reports an
    error) and `fmt.Sprint`.
   */
  datatype Runtime = Runtime(
    formatFloat: Float64 -> string,
    jsonMarshal: Value -> Option<string>,
    sprint: Value -> string)
}
