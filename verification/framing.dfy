/**
  The wire framing of one log record: `L::msg\n` for a single-line message and
  `L:::\nmsg\n:::\n` for a message that holds a line break, with `L` the level in
  decimal. `Unframe` reads back one record whose extent is known: it is the
  single-record inverse of `PrintLog`. The frames do not mark where a record ends
  in a stream of records (`RecordsInsideMultiline`).
 */
module Framing {
  import opened Wrappers
  import opened Values
  import Text

  /** `isMultiline`: the text holds a line break. */
  function IsMultiline(s: string): (r: bool)
    ensures r <==> exists i | 0 <= i < |s| :: s[i] == '\n'
  {
    '\n' in s
  }

  lemma DigitsHaveNoLineBreak(d: string)
    requires Text.AllDigits(d)
    ensures !IsMultiline(d)
  {
    assert forall i | 0 <= i < |d| :: d[i] != '\n';
  }

  /** What follows the level: the single-line or the multi-line frame around `msg`. */
  function Frame(msg: string): string {
    if IsMultiline(msg) then ":::\n" + msg + "\n:::\n" else "::" + msg + "\n"
  }

  /** `printLog`: the text written for one message at level `lvl`. */
  function PrintLog(lvl: Level, msg: string): (line: string)
    ensures |line| > 0 && line[|line| - 1] == '\n'
    ensures Text.Decimal(lvl) + "::" <= line
    // the final line break is the only one exactly when the message holds none:
    // a single-line message is never given the multi-line frame, and vice versa
    ensures !IsMultiline(msg) <==> !IsMultiline(line[..|line| - 1])
  {
    var d := Text.Decimal(lvl);
    DigitsHaveNoLineBreak(d);
    var line := d + Frame(msg);
    if IsMultiline(msg) then
      assert line[..|line| - 1][|d| + 3] == '\n';
      line
    else
      assert line[..|line| - 1] == d + "::" + msg;
      line
  }

  /** The level at the head of a record, and the text after it. */
  function ReadLevel(line: string): Option<(Level, string)> {
    var n := Text.DigitSpan(line);
    var digits := line[..n];
    if Text.CanonicalDecimal(digits) && Text.ParseDecimal(digits) < 256
    then Some((Text.ParseDecimal(digits) as Level, line[n..]))
    else None
  }

  lemma ReadLevelOf(lvl: Level, rest: string)
    requires |rest| > 0 && rest[0] == ':'
    ensures ReadLevel(Text.Decimal(lvl) + rest) == Some((lvl, rest))
  {
    var d := Text.Decimal(lvl);
    Text.DigitSpanOfConcat(d, rest);
    assert (d + rest)[..|d|] == d && (d + rest)[|d|..] == rest;
    Text.DecimalRoundTrip(lvl);
  }

  lemma LevelOfRead(line: string)
    requires ReadLevel(line).Some?
    ensures Text.Decimal(ReadLevel(line).value.0) + ReadLevel(line).value.1 == line
  {
    var n := Text.DigitSpan(line);
    Text.ParseDecimalRoundTrip(line[..n]);
    assert line[..n] + line[n..] == line;
  }

  /** The message inside a frame: the inverse of `Frame`. */
  function ReadPayload(rest: string): Option<string> {
    if |rest| < 3 || rest[..2] != "::" || rest[|rest| - 1] != '\n' then None
    else
      var body := rest[2..|rest| - 1];
      if !IsMultiline(body) then Some(body)
      else if |body| >= 6 && body[..2] == ":\n" && body[|body| - 4..] == "\n:::" && IsMultiline(body[2..|body| - 4])
      then Some(body[2..|body| - 4])
      else None
  }

  lemma ReadPayloadOfFrame(msg: string)
    ensures ReadPayload(Frame(msg)) == Some(msg)
  {
    var rest := Frame(msg);
    var body := if IsMultiline(msg) then ":\n" + msg + "\n:::" else msg;
    assert rest == "::" + body + "\n";
    assert rest[..2] == "::";
    assert rest[2..|rest| - 1] == body;
    if IsMultiline(msg) {
      assert body[..2] == ":\n";
      assert body[|body| - 4..] == "\n:::";
      assert body[2..|body| - 4] == msg;
      assert body[1] == '\n';
    }
  }

  lemma FrameOfReadPayload(rest: string)
    requires ReadPayload(rest).Some?
    ensures Frame(ReadPayload(rest).value) == rest
  {
    var body := rest[2..|rest| - 1];
    assert rest == rest[..2] + body + [rest[|rest| - 1]];
    if IsMultiline(body) {
      assert body == body[..2] + body[2..|body| - 4] + body[|body| - 4..];
    }
  }

  /** One record as read back from the wire. */
  datatype Record = Record(level: Level, payload: string)

  /** Read one framed record that spans the whole of `line`. */
  function Unframe(line: string): Option<Record> {
    match ReadLevel(line)
    case None => None
    case Some((lvl, rest)) =>
      match ReadPayload(rest)
      case None => None
      case Some(msg) => Some(Record(lvl, msg))
  }

  /** The level and the message are recovered exactly from what `printLog` writes. */
  lemma UnframePrintLog(lvl: Level, msg: string)
    ensures Unframe(PrintLog(lvl, msg)) == Some(Record(lvl, msg))
  {
    ReadLevelOf(lvl, Frame(msg));
    ReadPayloadOfFrame(msg);
  }

  /** Conversely, every text `Unframe` accepts is exactly what `printLog` writes for the record it reads. */
  lemma PrintLogUnframe(line: string)
    requires Unframe(line).Some?
    ensures PrintLog(Unframe(line).value.level, Unframe(line).value.payload) == line
  {
    LevelOfRead(line);
    FrameOfReadPayload(ReadLevel(line).value.1);
  }

  lemma SingleLineFrame(lvl: Level, msg: string)
    requires !IsMultiline(msg)
    ensures PrintLog(lvl, msg) == Text.Decimal(lvl) + "::" + msg + "\n"
  {
  }

  lemma MultiLineFrame(lvl: Level, msg: string)
    requires IsMultiline(msg)
    ensures PrintLog(lvl, msg) == Text.Decimal(lvl) + ":::\n" + msg + "\n:::\n"
  {
  }

  /**
    A multi-line message may itself hold a complete record and a closing frame line:
    `printLog` then writes exactly the text of a multi-line record, a second record at
    another level, and a stray `:::` line. `Unframe`, told where the text ends, reads it
    as the single record that was logged; a reader that splits a stream into records at
    frame lines cannot tell the two apart.
   */
  lemma RecordsInsideMultiline(l1: Level, a: string, l2: Level, b: string)
    requires IsMultiline(a) && !IsMultiline(b)
    ensures PrintLog(l1, a + "\n:::\n" + Text.Decimal(l2) + "::" + b) ==
              PrintLog(l1, a) + PrintLog(l2, b) + ":::\n"
    ensures Unframe(PrintLog(l1, a) + PrintLog(l2, b) + ":::\n") ==
              Some(Record(l1, a + "\n:::\n" + Text.Decimal(l2) + "::" + b))
  {
    var d2 := Text.Decimal(l2);
    var tail := "\n:::\n" + d2 + "::" + b;
    var msg := a + tail;
    assert msg == a + "\n:::\n" + d2 + "::" + b;
    MultilineConcat(a, tail);
    MultiLineFrame(l1, msg);
    MultiLineFrame(l1, a);
    SingleLineFrame(l2, b);
    NestedRecordText(Text.Decimal(l1), a, d2, b);
    UnframePrintLog(l1, msg);
  }

  lemma NestedRecordText(d1: string, a: string, d2: string, b: string)
    ensures d1 + ":::\n" + (a + "\n:::\n" + d2 + "::" + b) + "\n:::\n" ==
              (d1 + ":::\n" + a + "\n:::\n") + (d2 + "::" + b + "\n") + ":::\n"
  {
    assert "\n:::\n" == "\n" + ":::\n";
  }

  lemma HasLineBreak(s: string, i: nat)
    requires i < |s| && s[i] == '\n'
    ensures IsMultiline(s)
  {
  }

  lemma MultilineConcat(a: string, b: string)
    ensures IsMultiline(a + b) <==> IsMultiline(a) || IsMultiline(b)
  {
    if '\n' in a + b {
      var i :| 0 <= i < |a + b| && (a + b)[i] == '\n';
      if i < |a| {
        assert a[i] == '\n';
      } else {
        assert b[i - |a|] == '\n';
      }
    }
  }
}
