/**
  The three coercers of `logger.go` that turn a message into the text to log,
  one per kind of level, and the statistics record's validation and tag rendering.
 */
module Coerce {
  import opened Wrappers
  import opened Values
  import Text

  // ---------------------------------------------------------------------------
  // String messages (levels 1 and 2)
  // ---------------------------------------------------------------------------

  /**
    `msgString`: probe the value in a fixed order — nil, exact string, `fmt.Stringer`,
    `encoding.TextMarshaler`, string kind — and use the first probe that applies.
   */
  function StringMessage(msg: Value): (r: Result<string, LogError>)
    // nil and the empty exact string are the only NilMessage cases
    ensures r == Failure(NilMessage) <==> msg.Nil? || msg == Str("")
    // a non-empty exact string passes through unchanged
    ensures msg.Str? && msg.s != "" ==> r == Success(msg.s)
    // Stringer output is used unconditionally, whatever MarshalText or the kind would give
    ensures msg.Other? && msg.stringer.Some? ==> r == Success(msg.stringer.value)
    // without String(), MarshalText decides; its error is InvalidMessage even for a string-kinded type
    ensures msg.Other? && msg.stringer.None? && msg.textMarshal == Some(MarshalError) ==> r == Failure(InvalidMessage)
    ensures msg.Other? && msg.stringer.None? && msg.textMarshal.Some? && msg.textMarshal.value.Marshalled? ==>
              r == Success(msg.textMarshal.value.text)
    // only then does a string-kinded value pass, the empty string included
    ensures msg.Other? && msg.stringer.None? && msg.textMarshal.None? && msg.stringKind.Some? ==>
              r == Success(msg.stringKind.value)
    // everything else is refused
    ensures msg.Bytes? || msg.Stats? || (msg.Other? && msg.stringer.None? && msg.textMarshal.None? && msg.stringKind.None?) ==>
              r == Failure(InvalidMessage)
    ensures r.Failure? ==> r.error == NilMessage || r.error == InvalidMessage
  {
    match msg
    case Nil => Failure(NilMessage)
    case Str(s) => if s == "" then Failure(NilMessage) else Success(s)
    case Other(_, stringer, textMarshal, stringKind) =>
      if stringer.Some? then Success(stringer.value)
      else if textMarshal.Some? then
        (match textMarshal.value
         case Marshalled(text) => Success(text)
         case MarshalError => Failure(InvalidMessage))
      else if stringKind.Some? then Success(stringKind.value)
      else Failure(InvalidMessage)
    case _ => Failure(InvalidMessage)
  }

  // ---------------------------------------------------------------------------
  // Tag values and MetricTags.String
  // ---------------------------------------------------------------------------

  /**
    `tagValString`: the rendering of one tag value. Unlike `StringMessage` it never
    fails: a `MarshalText` error falls through to the later probes and `fmt.Sprint`
    is the last resort.
   */
  function TagValString(rt: Runtime, v: Value): (r: string)
    ensures v.Str? ==> r == v.s
    ensures v.Other? && v.stringer.Some? ==> r == v.stringer.value
    ensures v.Other? && v.stringer.None? && v.textMarshal.Some? && v.textMarshal.value.Marshalled? ==>
              r == v.textMarshal.value.text
    // a failed MarshalText is ignored, and so is a string kind: Sprint renders the value
    ensures v.Other? && v.stringer.None? && (v.textMarshal.None? || v.textMarshal == Some(MarshalError)) ==>
              r == rt.sprint(v)
    ensures v.Bytes? ==> r == v.b
    ensures v.Nil? || v.Stats? ==> r == rt.sprint(v)
  {
    match v
    case Str(s) => s
    case Other(_, stringer, textMarshal, _) =>
      if stringer.Some? then stringer.value
      else if textMarshal.Some? && textMarshal.value.Marshalled? then textMarshal.value.text
      else rt.sprint(v)
    case Bytes(b) => b
    case _ => rt.sprint(v)
  }

  /**
    The two renderings agree on every value `StringMessage` accepts through an exact
    string, `String()` or a successful `MarshalText()`; the tag chain has no string-kind
    step of its own and hands such values to `fmt.Sprint`.
   */
  lemma TagChainExtendsStringChain(rt: Runtime, v: Value)
    requires StringMessage(v).Success?
    requires !(v.Other? && v.stringer.None? && v.textMarshal.None?)
    ensures TagValString(rt, v) == StringMessage(v).value
  {
  }

  /** The two chains part ways on a failing `MarshalText`: refused as a message, Sprint-ed as a tag. */
  lemma MarshalErrorDiverges(rt: Runtime, v: Value)
    requires v.Other? && v.stringer.None? && v.textMarshal == Some(MarshalError)
    ensures StringMessage(v) == Failure(InvalidMessage)
    ensures TagValString(rt, v) == rt.sprint(v)
  {
  }

  /** The `k=v` text of one tag. */
  function TagEntry(rt: Runtime, tag: (string, Value)): string {
    tag.0 + "=" + TagValString(rt, tag.1)
  }

  /** The `k=v` texts of the tags, in iteration order. */
  function TagEntries(rt: Runtime, tags: seq<(string, Value)>): seq<string> {
    seq(|tags|, i requires 0 <= i < |tags| => TagEntry(rt, tags[i]))
  }

  /** Reference rendering of a tag map: the entries, in iteration order, joined by commas. */
  function TagsString(rt: Runtime, tags: seq<(string, Value)>): (s: string)
    ensures s == "" <==> |tags| == 0
  {
    var es := TagEntries(rt, tags);
    assert |tags| > 0 ==> |es[0]| > 0;
    Text.Join(es, ',')
  }

  /**
    `MetricTags.String` as written: append `k=v,` per entry, then drop the final byte.
    The result is the comma-join of the entries, so there is no trailing comma.
   */
  method MetricTagsString(rt: Runtime, tags: seq<(string, Value)>) returns (s: string)
    ensures s == TagsString(rt, tags)
  {
    if |tags| < 1 {
      return "";
    }
    var str := "";
    var i := 0;
    while i < |tags|
      invariant 0 <= i <= |tags|
      invariant str == Text.Terminated(TagEntries(rt, tags)[..i], ',')
    {
      var es := TagEntries(rt, tags);
      assert es[..i + 1][..i] == es[..i];
      str := str + tags[i].0 + "=" + TagValString(rt, tags[i].1) + ",";
      i := i + 1;
    }
    assert TagEntries(rt, tags)[..i] == TagEntries(rt, tags);
    Text.TerminatedIsJoin(TagEntries(rt, tags), ',');
    s := str[..|str| - 1];
  }

  /**
    Each entry appears exactly once, in iteration order: when no key or rendered value
    holds a comma, splitting the tag string on commas gives back the entries.
   */
  lemma TagsSplit(rt: Runtime, tags: seq<(string, Value)>)
    requires |tags| > 0
    requires forall i | 0 <= i < |tags| :: ',' !in tags[i].0 && ',' !in TagValString(rt, tags[i].1)
    ensures Text.Split(TagsString(rt, tags), ',') == TagEntries(rt, tags)
  {
    var es := TagEntries(rt, tags);
    forall i | 0 <= i < |es|
      ensures ',' !in es[i]
    {
      assert es[i] == tags[i].0 + "=" + TagValString(rt, tags[i].1);
    }
    Text.SplitJoin(es, ',');
  }

  // ---------------------------------------------------------------------------
  // Statistics messages (level 10)
  // ---------------------------------------------------------------------------

  /** `AggregationType.Validate`: only "A" and "D" are accepted. */
  function ValidateAggregation(operation: string): (o: Outcome<LogError>)
    ensures o == Pass <==> operation == "A" || operation == "D"
    ensures o.Fail? ==> o.error == InvalidAggregationType
  {
    if operation == AggregationAverages || operation == AggregationDifferentiates then Pass
    else Fail(InvalidAggregationType)
  }

  /** `MsgStatistics.Validate`: the key is checked before the aggregation type. */
  function ValidateStatistics(m: MsgStatistics): (o: Outcome<LogError>)
    ensures m.key == "" ==> o == Fail(NilStatisticsKey)
    ensures m.key != "" ==> o == ValidateAggregation(m.operation)
    ensures o == Pass <==> m.key != "" && (m.operation == "A" || m.operation == "D")
  {
    if m.key == "" then Fail(NilStatisticsKey) else ValidateAggregation(m.operation)
  }

  /** The `key:value|op` head of a statistics line, `value` in `%f`. */
  function StatisticsHead(rt: Runtime, m: MsgStatistics): string {
    m.key + ":" + rt.formatFloat(m.value) + "|" + m.operation
  }

  /** The statistics line: the head, followed by `|tags` only when there are tags. */
  function StatisticsLine(rt: Runtime, m: MsgStatistics): (line: string)
    ensures StatisticsHead(rt, m) <= line
    // an empty tag map leaves the head alone, with no trailing '|'
    ensures line == StatisticsHead(rt, m) <==> |m.tags| == 0
    ensures |m.tags| != 0 ==> line[|StatisticsHead(rt, m)|..] == "|" + TagsString(rt, m.tags)
  {
    var str := StatisticsHead(rt, m);
    if |m.tags| != 0 then str + "|" + TagsString(rt, m.tags) else str
  }

  /** `msgStatistics`: only a `MsgStatistics` value is accepted, and only a valid one. */
  function StatisticsMessage(rt: Runtime, msg: Value): (r: Result<string, LogError>)
    // anything but a MsgStatistics value, nil included, is an invalid message
    ensures !msg.Stats? ==> r == Failure(InvalidMessage)
    // a record is formatted exactly when it validates, and its validation error is returned otherwise
    ensures msg.Stats? ==> (r.Success? <==> ValidateStatistics(msg.m) == Pass)
    ensures msg.Stats? && r.Failure? ==> r.error == ValidateStatistics(msg.m).error
    ensures r.Failure? ==> r.error in {InvalidMessage, NilStatisticsKey, InvalidAggregationType}
    // the line starts with the key and a colon
    ensures r.Success? ==> msg.Stats? && msg.m.key != "" && msg.m.key + ":" <= r.value
    ensures msg.Stats? && r.Success? ==> r.value == StatisticsLine(rt, msg.m)
  {
    match msg
    case Stats(m) =>
      (match ValidateStatistics(m)
       case Fail(e) => Failure(e)
       case Pass => Success(StatisticsLine(rt, m)))
    case _ => Failure(InvalidMessage)
  }

  /** The fields of a statistics line, as `ParseStatistics` reads them back. */
  datatype StatsFields = StatsFields(key: string, value: string, operation: string, tags: Option<string>)

  /**
    Read a statistics line: the key up to the first ':', the value up to the next '|',
    the operation up to the next '|' or the end, and the tags after that '|'.
   */
  function ParseStatistics(line: string): Option<StatsFields> {
    match Text.Cut(line, ':')
    case None => None
    case Some((key, rest)) =>
      match Text.Cut(rest, '|')
      case None => None
      case Some((value, tail)) =>
        match Text.Cut(tail, '|')
        case None => Some(StatsFields(key, value, tail, None))
        case Some((operation, tags)) => Some(StatsFields(key, value, operation, Some(tags)))
  }

  /** The field layout of a statistics line, written out from its parts. */
  function ComposeStatistics(f: StatsFields): string {
    var str := f.key + ":" + f.value + "|" + f.operation;
    match f.tags
    case None => str
    case Some(t) => str + "|" + t
  }

  /** `ParseStatistics` inverts `ComposeStatistics` when no field holds a separator it ends at. */
  lemma ParseComposed(f: StatsFields)
    requires ':' !in f.key && '|' !in f.value && '|' !in f.operation
    ensures ParseStatistics(ComposeStatistics(f)) == Some(f)
  {
    var tail := if f.tags.None? then f.operation else f.operation + "|" + f.tags.value;
    var rest := f.value + "|" + tail;
    assert ComposeStatistics(f) == f.key + [':'] + rest;
    Text.CutFirst(f.key, ':', rest);
    assert rest == f.value + ['|'] + tail;
    Text.CutFirst(f.value, '|', tail);
    if f.tags.None? {
      Text.CutAbsent(f.operation, '|');
    } else {
      assert tail == f.operation + ['|'] + f.tags.value;
      Text.CutFirst(f.operation, '|', f.tags.value);
    }
  }

  /**
    A formatted statistics line reads back as its record: the key, the `%f` text of the
    value, the operation, and a tag segment that is present exactly when the record has
    tags (so an empty tag map never leaves a trailing '|'). The key must not hold ':' and
    the value text must not hold '|', or the fields could not be told apart.
   */
  lemma StatisticsRoundTrip(rt: Runtime, m: MsgStatistics)
    requires ValidateStatistics(m) == Pass
    requires ':' !in m.key && '|' !in rt.formatFloat(m.value)
    ensures StatisticsMessage(rt, Stats(m)).Success?
    ensures ParseStatistics(StatisticsMessage(rt, Stats(m)).value) ==
              Some(StatsFields(m.key, rt.formatFloat(m.value), m.operation,
                               if |m.tags| == 0 then None else Some(TagsString(rt, m.tags))))
  {
    var f := StatsFields(m.key, rt.formatFloat(m.value), m.operation,
                         if |m.tags| == 0 then None else Some(TagsString(rt, m.tags)));
    assert StatisticsLine(rt, m) == ComposeStatistics(f);
    ParseComposed(f);
  }

  // ---------------------------------------------------------------------------
  // JSON messages (level 20)
  // ---------------------------------------------------------------------------

  /** `msgJSON`: nil is refused; otherwise the serializer's output, or InvalidMessage when it fails. */
  function JsonMessage(rt: Runtime, msg: Value): (r: Result<string, LogError>)
    ensures msg.Nil? ==> r == Failure(NilMessage)
    ensures !msg.Nil? ==> (r.Success? <==> rt.jsonMarshal(msg).Some?)
    ensures !msg.Nil? && rt.jsonMarshal(msg).None? ==> r == Failure(InvalidMessage)
    // the serialized text is passed through unchanged
    ensures r.Success? ==> rt.jsonMarshal(msg) == Some(r.value)
    ensures r.Failure? ==> r.error == NilMessage || r.error == InvalidMessage
  {
    if msg.Nil? then Failure(NilMessage)
    else
      match rt.jsonMarshal(msg)
      case None => Failure(InvalidMessage)
      case Some(text) => Success(text)
  }
}
