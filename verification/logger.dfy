/**
  `Log`, the package's entry point: select the coercer for the level, and write the
  framed text only when the coercer succeeds.
 */
module Logger {
  import opened Wrappers
  import opened Values
  import Text
  import Coerce
  import Framing

  /** The four levels `Log` handles. */
  predicate IsValidLevel(lvl: Level) {
    lvl == LevelStdout || lvl == LevelStderr || lvl == LevelStatistics || lvl == LevelJSON
  }

  /** The `switch` of `Log`: the coercer the level selects, or LevelNotValid. */
  function Dispatch(rt: Runtime, lvl: Level, msg: Value): (r: Result<string, LogError>)
    // LevelNotValid is returned for exactly the levels outside the four: no coercer returns it
    ensures r == Failure(LevelNotValid) <==> !IsValidLevel(lvl)
    ensures lvl == LevelStdout || lvl == LevelStderr ==> r == Coerce.StringMessage(msg)
    ensures lvl == LevelStatistics ==> r == Coerce.StatisticsMessage(rt, msg)
    ensures lvl == LevelJSON ==> r == Coerce.JsonMessage(rt, msg)
  {
    if lvl == LevelStdout || lvl == LevelStderr then Coerce.StringMessage(msg)
    else if lvl == LevelStatistics then Coerce.StatisticsMessage(rt, msg)
    else if lvl == LevelJSON then Coerce.JsonMessage(rt, msg)
    else Failure(LevelNotValid)
  }

  /** The effect of one `Log` call: what reached standard output, and the error returned. */
  datatype LogResult = LogResult(stdout: string, err: Option<LogError>)

  /** `Log`: on any error nothing is written; otherwise exactly one framed record is. */
  function Log(rt: Runtime, lvl: Level, msg: Value): (r: LogResult)
    ensures !IsValidLevel(lvl) ==> r == LogResult("", Some(LevelNotValid))
    // an error return writes nothing
    ensures r.err.Some? ==> r.stdout == ""
    ensures r.err.Some? <==> Dispatch(rt, lvl, msg).Failure?
    ensures r.err.Some? ==> r.err.value == Dispatch(rt, lvl, msg).error
    // a success writes one record that reads back as the level and the coerced message
    ensures r.err.None? ==> Framing.Unframe(r.stdout) == Some(Framing.Record(lvl, Dispatch(rt, lvl, msg).value))
  {
    match Dispatch(rt, lvl, msg)
    case Failure(e) => LogResult("", Some(e))
    case Success(s) =>
      Framing.UnframePrintLog(lvl, s);
      LogResult(Framing.PrintLog(lvl, s), None)
  }

  /** At the string levels, nil and "" are refused with NilMessage and nothing is written. */
  lemma LogNilOrEmptyString(rt: Runtime, lvl: Level, msg: Value)
    requires lvl == LevelStdout || lvl == LevelStderr
    requires msg == Nil || msg == Str("")
    ensures Log(rt, lvl, msg) == LogResult("", Some(NilMessage))
  {
  }

  /** At the statistics level, nil is not a `MsgStatistics`: InvalidMessage, not NilMessage. */
  lemma LogStatisticsNil(rt: Runtime)
    ensures Log(rt, LevelStatistics, Nil) == LogResult("", Some(InvalidMessage))
  {
  }

  /** A value the serializer refuses (such as +Inf) is an InvalidMessage at the JSON level, and nothing is written. */
  lemma LogJsonUnserializable(rt: Runtime, msg: Value)
    requires msg != Nil && rt.jsonMarshal(msg) == None
    ensures Log(rt, LevelJSON, msg) == LogResult("", Some(InvalidMessage))
  {
  }

  /** A valid statistics record is always logged. */
  lemma LogValidStatistics(rt: Runtime, m: MsgStatistics)
    requires Coerce.ValidateStatistics(m) == Pass
    ensures Log(rt, LevelStatistics, Stats(m)) ==
              LogResult(Framing.PrintLog(LevelStatistics, Coerce.StatisticsLine(rt, m)), None)
  {
  }

  // ---------------------------------------------------------------------------
  // The package's test expectations
  // ---------------------------------------------------------------------------

  /** A coerced message without line breaks is written as `L::msg\n`. */
  lemma LogSingleLine(rt: Runtime, lvl: Level, msg: Value, s: string)
    requires Dispatch(rt, lvl, msg) == Success(s) && !Framing.IsMultiline(s)
    ensures Log(rt, lvl, msg) == LogResult(Text.Decimal(lvl) + "::" + s + "\n", None)
  {
    Framing.SingleLineFrame(lvl, s);
  }

  lemma HelloWorldHasNoLineBreak()
    ensures !Framing.IsMultiline("Hello world")
  {
  }

  /** The literal concatenation the example needs, kept apart to keep the example's proof small. */
  lemma HelloWorldFramed()
    ensures "1" + "::" + "Hello world" + "\n" == "1::Hello world\n"
  {
  }

  lemma HelloWorldExample(rt: Runtime)
    ensures Log(rt, LevelStdout, Str("Hello world")) == LogResult("1::Hello world\n", None)
  {
    Text.SmallDecimals();
    HelloWorldHasNoLineBreak();
    LogSingleLine(rt, LevelStdout, Str("Hello world"), "Hello world");
    HelloWorldFramed();
  }

  lemma InvalidLevelExample(rt: Runtime)
    ensures Log(rt, 255, Str("Hello world")) == LogResult("", Some(LevelNotValid))
  {
  }

  lemma SingleLineTestHasNoLineBreak()
    ensures !Framing.IsMultiline("stdout single line test")
  {
  }

  /** The literal concatenation the example needs, kept apart to keep the example's proof small. */
  lemma SingleLineTestFramed()
    ensures "1" + "::" + "stdout single line test" + "\n" == "1::stdout single line test\n"
  {
  }

  lemma SingleLineFormatExample()
    ensures Framing.PrintLog(LevelStdout, "stdout single line test") == "1::stdout single line test\n"
  {
    Text.SmallDecimals();
    SingleLineTestHasNoLineBreak();
    Framing.SingleLineFrame(LevelStdout, "stdout single line test");
    SingleLineTestFramed();
  }

  const MultiLineTest := "stderr\nmultiline test"

  /** The literal concatenation the example needs, kept apart to keep the example's proof small. */
  lemma MultiLineTestFramed()
    ensures "2" + ":::\n" + MultiLineTest + "\n:::\n" == "2:::\nstderr\nmultiline test\n:::\n"
  {
  }

  lemma MultiLineFormatExample()
    ensures Framing.PrintLog(LevelStderr, MultiLineTest) == "2:::\nstderr\nmultiline test\n:::\n"
  {
    Text.SmallDecimals();
    Framing.HasLineBreak(MultiLineTest, 6);
    Framing.MultiLineFrame(LevelStderr, MultiLineTest);
    MultiLineTestFramed();
  }

  /** The bit pattern of the float64 123.456. */
  const Float123_456: Float64 := 0x405E_DD2F_1A9F_BE77

  const ExampleStatistics := MsgStatistics("somekey", Float123_456, "A", [("foo", Str("bar"))])

  lemma ExampleStatisticsLine(rt: Runtime)
    requires rt.formatFloat(Float123_456) == "123.456000"
    ensures Coerce.StatisticsLine(rt, ExampleStatistics) == "somekey:123.456000|A|foo=bar"
  {
    var tags := ExampleStatistics.tags;
    assert Coerce.TagValString(rt, Str("bar")) == "bar";
    assert Coerce.TagEntry(rt, tags[0]) == "foo=bar";
    assert Coerce.TagEntries(rt, tags) == ["foo=bar"];
    assert Coerce.TagsString(rt, tags) == "foo=bar";
  }

  const ExampleStatisticsText := "somekey:123.456000|A|foo=bar"

  lemma ExampleStatisticsLineHasNoLineBreak()
    ensures !Framing.IsMultiline(ExampleStatisticsText)
  {
  }

  lemma ExampleStatisticsDispatch(rt: Runtime)
    requires rt.formatFloat(Float123_456) == "123.456000"
    ensures Dispatch(rt, LevelStatistics, Stats(ExampleStatistics)) == Success(ExampleStatisticsText)
  {
    ExampleStatisticsLine(rt);
  }

  /** The literal concatenation the example needs, kept apart to keep the example's proof small. */
  lemma ExampleStatisticsFramed()
    ensures "10" + "::" + ExampleStatisticsText + "\n" == "10::" + ExampleStatisticsText + "\n"
  {
  }

  /** A full record with one tag, its value rendered by `%f` with six decimals. */
  lemma StatisticsExample(rt: Runtime)
    requires rt.formatFloat(Float123_456) == "123.456000"
    ensures Log(rt, LevelStatistics, Stats(ExampleStatistics)) == LogResult("10::" + ExampleStatisticsText + "\n", None)
  {
    ExampleStatisticsDispatch(rt);
    ExampleStatisticsLineHasNoLineBreak();
    Text.SmallDecimals();
    LogSingleLine(rt, LevelStatistics, Stats(ExampleStatistics), ExampleStatisticsText);
    ExampleStatisticsFramed();
  }

  const ExampleJson := "{\"TestField\":" + "\"Hello world\"," + "\"OtherTestfield\":1}"

  lemma ExampleJsonHasNoLineBreak()
    ensures !Framing.IsMultiline(ExampleJson)
  {
    assert !Framing.IsMultiline("{\"TestField\":");
    assert !Framing.IsMultiline("\"Hello world\",");
    assert !Framing.IsMultiline("\"OtherTestfield\":1}");
    Framing.MultilineConcat("{\"TestField\":", "\"Hello world\",");
    Framing.MultilineConcat("{\"TestField\":" + "\"Hello world\",", "\"OtherTestfield\":1}");
  }

  /** The test structure and `math.Inf(1)` of the JSON test: values without methods, told apart by identity. */
  const TestStruct := Other(0, None, None, None)
  const PositiveInfinity := Other(1, None, None, None)

  /** Both JSON expectations hold under one runtime: the structure is logged and +Inf is refused. */
  lemma JsonTestsTogether(rt: Runtime)
    requires rt.jsonMarshal(TestStruct) == Some(ExampleJson) && rt.jsonMarshal(PositiveInfinity) == None
    ensures Log(rt, LevelJSON, TestStruct) == LogResult("20::" + ExampleJson + "\n", None)
    ensures Log(rt, LevelJSON, PositiveInfinity) == LogResult("", Some(InvalidMessage))
  {
    JsonExample(rt, TestStruct);
    LogJsonUnserializable(rt, PositiveInfinity);
  }

  /** The ints 1 and 2 as tag values: plain values that only `fmt.Sprint` renders, each its own identity. */
  const IntOne := Other(2, None, None, None)
  const IntTwo := Other(3, None, None, None)

  /** The four example values are four different Go values. */
  lemma ExampleValuesDistinct()
    ensures TestStruct != PositiveInfinity && TestStruct != IntOne && TestStruct != IntTwo
    ensures PositiveInfinity != IntOne && PositiveInfinity != IntTwo && IntOne != IntTwo
  {
  }

  /** Tags `{a: 1, b: 2}`, visited in that order, render as `a=1,b=2`. */
  lemma IntTagsExample(rt: Runtime)
    requires rt.sprint(IntOne) == "1" && rt.sprint(IntTwo) == "2"
    ensures Coerce.TagsString(rt, [("a", IntOne), ("b", IntTwo)]) == "a=1,b=2"
  {
    var tags := [("a", IntOne), ("b", IntTwo)];
    assert Coerce.TagEntry(rt, tags[0]) == "a=1";
    assert Coerce.TagEntry(rt, tags[1]) == "b=2";
    assert Coerce.TagEntries(rt, tags) == ["a=1", "b=2"];
    assert Text.Join(["a=1", "b=2"], ',') == "a=1" + [','] + "b=2";
  }

  /** A JSON object is written as the serializer produced it. */
  lemma JsonExample(rt: Runtime, msg: Value)
    requires msg != Nil && rt.jsonMarshal(msg) == Some(ExampleJson)
    ensures Log(rt, LevelJSON, msg) == LogResult("20::" + ExampleJson + "\n", None)
  {
    ExampleJsonHasNoLineBreak();
    Text.SmallDecimals();
    LogSingleLine(rt, LevelJSON, msg, ExampleJson);
    assert "20" + "::" + ExampleJson + "\n" == "20::" + ExampleJson + "\n";
  }
}
