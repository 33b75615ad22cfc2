/**
 * The incremental event-stream frame parser that runs inside the fetch
 * proxy's read loop: text chunks are appended to a residual buffer, the
 * buffer is split on blank lines ("\n\n"), every complete record is
 * interpreted, and the last fragment is kept for the next chunk.
 *
 * It follows a simplified subset of "Interpreting an event stream" (section
 * 9.2.6 of the WHATWG HTML Living Standard): only "\n" separates lines, every
 * line is right-trimmed, the `event:` value is fully trimmed, and `id:`,
 * `retry:` and comment lines are ignored.
 */
module SseParser {
  import opened Wrappers
  import opened JsString

  /** Records are separated by a blank line. */
  const RecordSeparator := "\n\n"

  /** Lines of a record, and data lines of an event, are separated by one line feed. */
  const LineBreak := "\n"

  /** The type a record has when it carries no `event:` line. */
  const DefaultEventType := "message"

  /** One decoded event. */
  datatype Event = Event(eventType: string, data: string)

  /** The complete records cut from the buffer and the residual kept for later. */
  datatype Fed = Fed(records: seq<string>, residual: string)

  // ---------------------------------------------------------------------------
  // Framing: buffer and chunk to records and residual
  // ---------------------------------------------------------------------------

  /**
   * One pass of the read-loop body: `buffer += chunk`, split on "\n\n", keep the
   * last part as the new buffer and hand the others over as complete records.
   */
  function Feed(buffer: string, chunk: string): Fed
  {
    var parts := Split(buffer + chunk, RecordSeparator);
    Fed(parts[..|parts| - 1], parts[|parts| - 1])
  }

  /** No text is lost: records, each followed by "\n\n", then the residual, give the input back. */
  lemma FeedKeepsText(buffer: string, chunk: string)
    ensures var r := Feed(buffer, chunk);
      Frame(r.records, RecordSeparator) + r.residual == buffer + chunk
  {
    var parts := Split(buffer + chunk, RecordSeparator);
    SplitRejoins(buffer + chunk, RecordSeparator);
    JoinAsFrame(parts, RecordSeparator);
  }

  /** Neither the residual nor any record contains a record separator. */
  lemma FeedCutsAtEverySeparator(buffer: string, chunk: string)
    ensures var r := Feed(buffer, chunk);
      && Free(r.residual, RecordSeparator)
      && forall i :: 0 <= i < |r.records| ==> Free(r.records[i], RecordSeparator)
  {
    SplitPiecesFree(buffer + chunk, RecordSeparator);
  }

  /** Feeding the rest of the input after the records already cut off. */
  function Continue(f: Fed, chunk: string): Fed {
    var g := Feed(f.residual, chunk);
    Fed(f.records + g.records, g.residual)
  }

  /** Feeding `x + y` at once equals feeding `x`, then `y` to the residual. */
  lemma FeedCompose(buffer: string, x: string, y: string)
    ensures Feed(buffer, x + y) == Continue(Feed(buffer, x), y)
  {
    var ps := Split(buffer + x, RecordSeparator);
    var qs := Split(ps[|ps| - 1] + y, RecordSeparator);
    var all := Split(buffer + (x + y), RecordSeparator);
    calc {
      Feed(buffer, x + y);
      Fed(all[..|all| - 1], all[|all| - 1]);
    == { SplitOfAppended(buffer, x, y); InitOfAppend(ps[..|ps| - 1], qs); }
      Fed(ps[..|ps| - 1] + qs[..|qs| - 1], qs[|qs| - 1]);
      Continue(Feed(buffer, x), y);
    }
  }

  lemma InitOfAppend<T>(xs: seq<T>, ys: seq<T>)
    requires ys != []
    ensures (xs + ys)[..|xs + ys| - 1] == xs + ys[..|ys| - 1]
    ensures (xs + ys)[|xs + ys| - 1] == ys[|ys| - 1]
  {
  }

  lemma SplitOfAppended(buffer: string, x: string, y: string)
    ensures var ps := Split(buffer + x, RecordSeparator);
      Split(buffer + (x + y), RecordSeparator) == ps[..|ps| - 1] + Split(ps[|ps| - 1] + y, RecordSeparator)
  {
    SplitAppend(buffer + x, y, RecordSeparator);
    Assoc(buffer, x, y);
  }

  /** The read loop over a sequence of chunks, starting from `buffer`. */
  function FeedAll(buffer: string, chunks: seq<string>): Fed
    decreases |chunks|
  {
    if chunks == [] then Fed([], buffer)
    else Continue(FeedAll(buffer, chunks[..|chunks| - 1]), chunks[|chunks| - 1])
  }

  /** The chunks concatenated in order. */
  function Concat(chunks: seq<string>): string
    decreases |chunks|
  {
    if chunks == [] then "" else Concat(chunks[..|chunks| - 1]) + chunks[|chunks| - 1]
  }

  /**
   * The result does not depend on how the input is chunked: feeding the chunks
   * one by one yields the same ordered records and the same final residual as
   * feeding their concatenation in a single call. The starting buffer is a
   * residual (the read loop starts from the empty one), so it holds no separator.
   */
  lemma {:induction false} ChunkingIndependence(buffer: string, chunks: seq<string>)
    requires Free(buffer, RecordSeparator)
    ensures FeedAll(buffer, chunks) == Feed(buffer, Concat(chunks))
    decreases |chunks|
  {
    if chunks == [] {
      assert buffer + "" == buffer;
      SplitFree(buffer, RecordSeparator);
    } else {
      var init, last := chunks[..|chunks| - 1], chunks[|chunks| - 1];
      ChunkingIndependence(buffer, init);
      FeedCompose(buffer, Concat(init), last);
    }
  }

  lemma ConcatTwo(a: string, b: string)
    ensures Concat([a, b]) == a + b
  {
    assert Concat([a]) == a by {
      assert [a][..0] == [];
      assert Concat([a]) == Concat([]) + a;
    }
    assert [a, b][..1] == [a];
    assert Concat([a, b]) == Concat([a]) + b;
  }

  /** Each character of `s` as a chunk of its own. */
  function Characters(s: string): (cs: seq<string>)
    ensures |cs| == |s|
  {
    seq(|s|, i requires 0 <= i < |s| => [s[i]])
  }

  lemma {:induction false} ConcatCharacters(s: string)
    ensures Concat(Characters(s)) == s
    decreases |s|
  {
    if s != [] {
      var init := s[..|s| - 1];
      assert Characters(s)[..|s| - 1] == Characters(init);
      ConcatCharacters(init);
      assert init + [s[|s| - 1]] == s;
    }
  }

  /** Delivery one character at a time gives the same records and residual. */
  lemma OneCharacterAtATime(buffer: string, s: string)
    requires Free(buffer, RecordSeparator)
    ensures FeedAll(buffer, Characters(s)) == Feed(buffer, s)
  {
    ChunkingIndependence(buffer, Characters(s));
    ConcatCharacters(s);
  }

  // ---------------------------------------------------------------------------
  // Interpreting one record
  // ---------------------------------------------------------------------------

  /** What one line of a record contributes. */
  datatype LineKind = EventLine(eventType: string) | DataLine(data: string) | OtherLine

  /**
   * A right-trimmed line starting with `event:` names the type (the rest fully
   * trimmed); one starting with `data:` contributes the rest, less at most one
   * leading space; any other line (`id:`, `retry:`, a comment) is ignored.
   */
  function ClassifyLine(raw: string): LineKind
  {
    var line := TrimEnd(raw);
    if StartsWith(line, "event:") then EventLine(Trim(line[6..]))
    else if StartsWith(line, "data:") then
      var d := line[5..];
      DataLine(if StartsWith(d, " ") then d[1..] else d)
    else OtherLine
  }

  /** Every line of a record classified, in order. */
  function Classify(lines: seq<string>): seq<LineKind>
  {
    seq(|lines|, i requires 0 <= i < |lines| => ClassifyLine(lines[i]))
  }

  /** The type set by the last `event:` line, or the default type when there is none. */
  function EventTypeOf(kinds: seq<LineKind>): string
    decreases |kinds|
  {
    if kinds == [] then DefaultEventType
    else match kinds[|kinds| - 1]
      case EventLine(t) => t
      case _ => EventTypeOf(kinds[..|kinds| - 1])
  }

  /** What one line adds to the data parts: its data, when it is a `data:` line. */
  function DataContribution(kind: LineKind): seq<string> {
    match kind
    case DataLine(d) => [d]
    case _ => []
  }

  /** The contributions of the `data:` lines, in encounter order. */
  function DataOf(kinds: seq<LineKind>): seq<string>
    decreases |kinds|
  {
    if kinds == [] then []
    else DataOf(kinds[..|kinds| - 1]) + DataContribution(kinds[|kinds| - 1])
  }

  /** One more line scanned: the type is overwritten by an `event:` line, the data extended by a `data:` line. */
  lemma ScanStep(kinds: seq<LineKind>, i: nat)
    requires i < |kinds|
    ensures EventTypeOf(kinds[..i + 1]) ==
      match kinds[i] case EventLine(t) => t case _ => EventTypeOf(kinds[..i])
    ensures DataOf(kinds[..i + 1]) == DataOf(kinds[..i]) + DataContribution(kinds[i])
  {
    assert kinds[..i + 1][..i] == kinds[..i];
  }

  /** One more raw line scanned, stated on the line itself. */
  lemma LineStep(lines: seq<string>, i: nat)
    requires i < |lines|
    ensures var kinds, line := Classify(lines), TrimEnd(lines[i]);
      && (StartsWith(line, "event:") ==>
          EventTypeOf(kinds[..i + 1]) == Trim(line[6..]) && DataOf(kinds[..i + 1]) == DataOf(kinds[..i]))
      && (!StartsWith(line, "event:") && StartsWith(line, "data:") ==>
          EventTypeOf(kinds[..i + 1]) == EventTypeOf(kinds[..i]) &&
          DataOf(kinds[..i + 1]) == DataOf(kinds[..i]) + [if StartsWith(line[5..], " ") then line[5..][1..] else line[5..]])
      && (!StartsWith(line, "event:") && !StartsWith(line, "data:") ==>
          EventTypeOf(kinds[..i + 1]) == EventTypeOf(kinds[..i]) && DataOf(kinds[..i + 1]) == DataOf(kinds[..i]))
  {
    var kinds := Classify(lines);
    ScanStep(kinds, i);
    assert kinds[i] == ClassifyLine(lines[i]);
  }

  /**
   * The event a complete record yields: emitted when it has at least one
   * `data:` line or a type other than the default, the data lines joined by "\n".
   */
  function RecordEvent(record: string): Option<Event>
  {
    var kinds := Classify(Split(record, LineBreak));
    var eventType, data := EventTypeOf(kinds), DataOf(kinds);
    if |data| > 0 || eventType != DefaultEventType then Some(Event(eventType, Join(data, LineBreak)))
    else None
  }

  /** The events a record adds to the stream: none when it is dropped. */
  function EventsOfRecord(record: string): seq<Event> {
    match RecordEvent(record)
    case Some(e) => [e]
    case None => []
  }

  /** The events of a sequence of records, in order, dropped records left out. */
  function Events(records: seq<string>): seq<Event>
    decreases |records|
  {
    if records == [] then []
    else Events(records[..|records| - 1]) + EventsOfRecord(records[|records| - 1])
  }

  lemma {:induction false} EventsAppend(a: seq<string>, b: seq<string>)
    ensures Events(a + b) == Events(a) + Events(b)
    decreases |b|
  {
    if b == [] {
      assert a + b == a;
    } else {
      var init := b[..|b| - 1];
      assert (a + b)[..|a + b| - 1] == a + init;
      EventsAppend(a, init);
    }
  }

  // ---------------------------------------------------------------------------
  // What a record yields
  // ---------------------------------------------------------------------------

  /** The type is the value of the last `event:` line. */
  lemma {:induction false} LastEventLineWins(kinds: seq<LineKind>, k: nat)
    requires k < |kinds| && kinds[k].EventLine?
    requires forall j :: k < j < |kinds| ==> !kinds[j].EventLine?
    ensures EventTypeOf(kinds) == kinds[k].eventType
    decreases |kinds|
  {
    if k < |kinds| - 1 {
      LastEventLineWins(kinds[..|kinds| - 1], k);
    }
  }

  /** Without an `event:` line the type is the default one. */
  lemma {:induction false} NoEventLineMeansDefault(kinds: seq<LineKind>)
    requires forall j :: 0 <= j < |kinds| ==> !kinds[j].EventLine?
    ensures EventTypeOf(kinds) == DefaultEventType
    decreases |kinds|
  {
    if kinds != [] {
      NoEventLineMeansDefault(kinds[..|kinds| - 1]);
    }
  }

  /** Lines after the last `event:` line do not change the type. */
  lemma {:induction false} EventTypeOfAppend(a: seq<LineKind>, b: seq<LineKind>)
    requires forall j :: 0 <= j < |b| ==> !b[j].EventLine?
    ensures EventTypeOf(a + b) == EventTypeOf(a)
    decreases |b|
  {
    if b == [] {
      assert a + b == a;
    } else {
      assert (a + b)[..|a + b| - 1] == a + b[..|b| - 1];
      EventTypeOfAppend(a, b[..|b| - 1]);
    }
  }

  /** Data parts are collected in encounter order. */
  lemma {:induction false} DataOfAppend(a: seq<LineKind>, b: seq<LineKind>)
    ensures DataOf(a + b) == DataOf(a) + DataOf(b)
    decreases |b|
  {
    if b == [] {
      assert a + b == a;
    } else {
      assert (a + b)[..|a + b| - 1] == a + b[..|b| - 1];
      DataOfAppend(a, b[..|b| - 1]);
    }
  }

  /** There are no data parts exactly when no line is a `data:` line. */
  lemma {:induction false} NoDataIffNoDataLine(kinds: seq<LineKind>)
    ensures DataOf(kinds) == [] <==> forall j :: 0 <= j < |kinds| ==> !kinds[j].DataLine?
    decreases |kinds|
  {
    if kinds != [] {
      NoDataIffNoDataLine(kinds[..|kinds| - 1]);
    }
  }

  /**
   * The emit rule: a record is dropped exactly when it has no `data:` line and
   * its type is the default one (no `event:` line, or the last one says "message").
   */
  lemma EmitRule(record: string)
    ensures var kinds := Classify(Split(record, LineBreak));
      RecordEvent(record).None? <==>
        (forall j :: 0 <= j < |kinds| ==> !kinds[j].DataLine?) &&
        EventTypeOf(kinds) == DefaultEventType
  {
    NoDataIffNoDataLine(Classify(Split(record, LineBreak)));
  }

  /** A record with one line: its split is that line alone. */
  lemma SingleLine(line: string)
    requires forall i :: 0 <= i < |line| ==> line[i] != '\n'
    ensures Split(line, LineBreak) == [line]
  {
    FreeOfFirstChar(line, LineBreak);
    SplitFree(line, LineBreak);
  }

  /** A single classified line: its type, or the default, and its contribution. */
  lemma OneKind(k: LineKind)
    ensures EventTypeOf([k]) == if k.EventLine? then k.eventType else DefaultEventType
    ensures DataOf([k]) == DataContribution(k)
  {
    assert [k][..0] == [];
  }

  /** A record of one line yields what that line alone says. */
  lemma SingleLineRecord(line: string)
    requires forall i :: 0 <= i < |line| ==> line[i] != '\n'
    ensures RecordEvent(line) ==
      match ClassifyLine(line)
      case EventLine(t) => (if t != DefaultEventType then Some(Event(t, "")) else None)
      case DataLine(d) => Some(Event(DefaultEventType, d))
      case OtherLine => None
  {
    var k := ClassifyLine(line);
    SingleLine(line);
    assert Classify([line]) == [k];
    OneKind(k);
  }

  /** A comment line (one starting with a colon) is ignored. */
  lemma CommentLineIgnored(comment: string)
    ensures ClassifyLine(":" + comment) == OtherLine
  {
    var t := TrimEnd(":" + comment);
    TrimEndSpec(":" + comment);
    if t != [] {
      assert t[0] == ':';
    }
    assert !StartsWith(t, "event:") && !StartsWith(t, "data:");
  }

  /** A record made of one comment line is dropped. */
  lemma CommentDropped(comment: string)
    requires forall i :: 0 <= i < |comment| ==> comment[i] != '\n'
    ensures RecordEvent(":" + comment) == None
  {
    CommentLineIgnored(comment);
    SingleLineRecord(":" + comment);
  }

  /** A bare `data:` line contributes empty data. */
  lemma BareDataLine()
    ensures ClassifyLine("data:") == DataLine("")
  {
    TrimEndOfTrimmed("data:");
    assert !StartsWith("data:", "event:");
    assert StartsWith("data:", "data:");
  }

  /** A lone `data:` line is a message event with empty data. */
  lemma LoneDataLine()
    ensures RecordEvent("data:") == Some(Event(DefaultEventType, ""))
  {
    BareDataLine();
    SingleLineRecord("data:");
  }

  /** An `event:` line written with one space before a trimmed type yields that type. */
  lemma EventLineOf(t: string)
    requires IsTrimmed(t)
    ensures ClassifyLine("event: " + t) == EventLine(t)
  {
    var line := "event: " + t;
    if t == [] {
      assert TrimEnd(line) == "event:" by {
        assert line == "event:" + " ";
        assert TrimEnd("event:") == "event:" by { TrimEndOfTrimmed("event:"); }
      }
    } else {
      assert line[|line| - 1] == t[|t| - 1];
      TrimEndOfTrimmed(line);
      assert line[6..] == " " + t;
      TrimSkipsLeadingSpace(" ", t);
    }
  }

  /** A `data:` line written with one space before a value not ending in white space yields that value. */
  lemma DataLineOf(v: string)
    requires v == [] || !IsWhiteSpace(v[|v| - 1])
    ensures ClassifyLine("data: " + v) == DataLine(v)
  {
    var line := "data: " + v;
    if v == [] {
      assert TrimEnd(line) == "data:" by {
        assert line == "data:" + " ";
        TrimEndOfTrimmed("data:");
      }
    } else {
      assert line[|line| - 1] == v[|v| - 1];
      TrimEndOfTrimmed(line);
      assert line[5..] == " " + v;
    }
  }

  // ---------------------------------------------------------------------------
  // Writing events as a stream, and reading them back
  // ---------------------------------------------------------------------------

  /** One `data:` line per line of the data. */
  function DataLines(pieces: seq<string>): seq<string>
  {
    seq(|pieces|, i requires 0 <= i < |pieces| => "data: " + pieces[i])
  }

  /** The record an event is written as: its `event:` line, then its `data:` lines. */
  function FormatRecord(e: Event): string {
    Join(["event: " + e.eventType] + DataLines(Split(e.data, LineBreak)), LineBreak)
  }

  function FormatRecords(evs: seq<Event>): seq<string>
  {
    seq(|evs|, i requires 0 <= i < |evs| => FormatRecord(evs[i]))
  }

  /** The events written as a stream, every record closed by a blank line. */
  function FormatStream(evs: seq<Event>): string {
    Frame(FormatRecords(evs), RecordSeparator)
  }

  /** A line of data that survives right-trimming. */
  predicate EndsClean(line: string) {
    line == [] || !IsWhiteSpace(line[|line| - 1])
  }

  /**
   * An event the parser can carry: a trimmed type on one line, and data none of
   * whose lines ends in white space (the parser right-trims every line).
   */
  predicate WellFormed(e: Event) {
    && IsTrimmed(e.eventType)
    && (forall i :: 0 <= i < |e.eventType| ==> e.eventType[i] != '\n')
    && var pieces := Split(e.data, LineBreak);
       forall i :: 0 <= i < |pieces| ==> EndsClean(pieces[i])
  }

  /** The kinds of written `data:` lines: data lines with those values. */
  function DataKinds(pieces: seq<string>): seq<LineKind>
  {
    seq(|pieces|, j requires 0 <= j < |pieces| => DataLine(pieces[j]))
  }

  /** Written `data:` lines are read back as data lines with their values. */
  lemma DataLinesRead(pieces: seq<string>)
    requires forall i :: 0 <= i < |pieces| ==> EndsClean(pieces[i])
    ensures Classify(DataLines(pieces)) == DataKinds(pieces)
  {
    forall j | 0 <= j < |pieces|
      ensures ClassifyLine(DataLines(pieces)[j]) == DataLine(pieces[j])
    {
      DataLineOf(pieces[j]);
    }
  }

  /** Data lines contribute their values, in order. */
  lemma {:induction false} DataOfDataKinds(pieces: seq<string>)
    ensures DataOf(DataKinds(pieces)) == pieces
    decreases |pieces|
  {
    if pieces != [] {
      var init := pieces[..|pieces| - 1];
      assert DataKinds(pieces)[..|pieces| - 1] == DataKinds(init);
      DataOfDataKinds(init);
    }
  }

  /** A written line holds no line feed when its value holds none. */
  lemma PrefixedLineFree(prefix: string, v: string)
    requires forall i :: 0 <= i < |prefix| ==> prefix[i] != '\n'
    requires Free(v, LineBreak)
    ensures Free(prefix + v, LineBreak)
    ensures forall i :: 0 <= i < |prefix + v| ==> (prefix + v)[i] != '\n'
  {
    FreeOfCharHasNone(v, LineBreak);
    FreeOfFirstChar(prefix + v, LineBreak);
  }

  /** The lines of a written record, each without a line feed. */
  lemma FormatRecordLines(e: Event)
    requires WellFormed(e)
    ensures var lines := ["event: " + e.eventType] + DataLines(Split(e.data, LineBreak));
      && Split(FormatRecord(e), LineBreak) == lines
      && forall i :: 0 <= i < |lines| ==> lines[i] != [] && forall c :: 0 <= c < |lines[i]| ==> lines[i][c] != '\n'
  {
    var pieces := Split(e.data, LineBreak);
    var lines := ["event: " + e.eventType] + DataLines(pieces);
    SplitPiecesFree(e.data, LineBreak);
    FreeOfFirstChar(e.eventType, LineBreak);
    forall i | 0 <= i < |lines|
      ensures Free(lines[i], LineBreak) && lines[i] != []
      ensures forall c :: 0 <= c < |lines[i]| ==> lines[i][c] != '\n'
    {
      if i == 0 {
        PrefixedLineFree("event: ", e.eventType);
        assert lines[0] == "event: " + e.eventType;
      } else {
        PrefixedLineFree("data: ", pieces[i - 1]);
        assert lines[i] == "data: " + pieces[i - 1];
      }
    }
    SplitJoin(lines, LineBreak);
  }

  /** The kinds of the lines of a written record: its `event:` line, then its data lines. */
  lemma FormatRecordKinds(e: Event)
    requires WellFormed(e)
    ensures Classify(Split(FormatRecord(e), LineBreak)) ==
      [EventLine(e.eventType)] + DataKinds(Split(e.data, LineBreak))
  {
    var pieces := Split(e.data, LineBreak);
    FormatRecordLines(e);
    EventLineOf(e.eventType);
    DataLinesRead(pieces);
    ClassifyCons("event: " + e.eventType, DataLines(pieces));
  }

  lemma ClassifyCons(line: string, lines: seq<string>)
    ensures Classify([line] + lines) == [ClassifyLine(line)] + Classify(lines)
  {
  }

  /** An `event:` line followed by data lines: that type, and those data parts. */
  lemma EventThenData(t: string, pieces: seq<string>)
    ensures EventTypeOf([EventLine(t)] + DataKinds(pieces)) == t
    ensures DataOf([EventLine(t)] + DataKinds(pieces)) == pieces
  {
    var head := [EventLine(t)];
    EventTypeOfAppend(head, DataKinds(pieces));
    DataOfAppend(head, DataKinds(pieces));
    DataOfDataKinds(pieces);
    assert head[..0] == [];
  }

  /** A well-formed event, written as a record, reads back as itself. */
  lemma RecordRoundTrip(e: Event)
    requires WellFormed(e)
    ensures RecordEvent(FormatRecord(e)) == Some(e)
  {
    var pieces := Split(e.data, LineBreak);
    var kinds := Classify(Split(FormatRecord(e), LineBreak));
    FormatRecordKinds(e);
    EventThenData(e.eventType, pieces);
    assert EventTypeOf(kinds) == e.eventType;
    assert DataOf(kinds) == pieces;
    SplitRejoins(e.data, LineBreak);
  }

  /** The lines of a record of `data:` lines are read as data lines. */
  lemma DataOnlyKinds(pieces: seq<string>)
    requires |pieces| >= 1
    requires forall i :: 0 <= i < |pieces| ==> Free(pieces[i], LineBreak) && EndsClean(pieces[i])
    ensures Classify(Split(Join(DataLines(pieces), LineBreak), LineBreak)) == DataKinds(pieces)
  {
    var lines := DataLines(pieces);
    forall i | 0 <= i < |lines|
      ensures Free(lines[i], LineBreak)
    {
      PrefixedLineFree("data: ", pieces[i]);
    }
    SplitJoin(lines, LineBreak);
    DataLinesRead(pieces);
  }

  /**
   * A record of `data:` lines only is a message event whose data are the
   * values joined by "\n", in their original order.
   */
  lemma DataLinesJoined(pieces: seq<string>)
    requires |pieces| >= 1
    requires forall i :: 0 <= i < |pieces| ==> Free(pieces[i], LineBreak) && EndsClean(pieces[i])
    ensures RecordEvent(Join(DataLines(pieces), LineBreak)) ==
      Some(Event(DefaultEventType, Join(pieces, LineBreak)))
  {
    var kinds := DataKinds(pieces);
    DataOnlyKinds(pieces);
    NoEventLineMeansDefault(kinds);
    DataOfDataKinds(pieces);
    assert EventTypeOf(kinds) == DefaultEventType;
    assert DataOf(kinds) == pieces;
  }

  /** Text with single line feeds only, neither starting nor ending with one. */
  predicate SingleBreaks(x: string) {
    && |x| > 0 && x[0] != '\n' && x[|x| - 1] != '\n'
    && forall i :: 0 <= i < |x| - 1 && x[i] == '\n' ==> x[i + 1] != '\n'
  }

  lemma SingleBreaksCons(l: string, rest: string)
    requires l != [] && forall c :: 0 <= c < |l| ==> l[c] != '\n'
    requires SingleBreaks(rest)
    ensures SingleBreaks(l + LineBreak + rest)
  {
    var x := l + LineBreak + rest;
    forall i | 0 <= i < |x| - 1 && x[i] == '\n'
      ensures x[i + 1] != '\n'
    {
      if i > |l| {
        assert x[i] == rest[i - |l| - 1] && x[i + 1] == rest[i - |l|];
      }
    }
  }

  lemma {:induction false} JoinedLinesSingleBreaks(lines: seq<string>)
    requires |lines| >= 1
    requires forall i :: 0 <= i < |lines| ==> lines[i] != [] && forall c :: 0 <= c < |lines[i]| ==> lines[i][c] != '\n'
    ensures SingleBreaks(Join(lines, LineBreak))
    decreases |lines|
  {
    if |lines| > 1 {
      assert forall i :: 0 <= i < |lines[1..]| ==> lines[1..][i] == lines[i + 1];
      JoinedLinesSingleBreaks(lines[1..]);
      SingleBreaksCons(lines[0], Join(lines[1..], LineBreak));
    }
  }

  /** Text without a blank line, not ending in a line feed, is cut off whole as one record. */
  lemma SingleBreaksClean(x: string)
    requires SingleBreaks(x)
    ensures Clean(x, RecordSeparator)
  {
    forall i | 0 <= i < |x|
      ensures !OccursAt(x + RecordSeparator, RecordSeparator, i)
    {
      var y := x + RecordSeparator;
      assert y[i..i + 2] == [y[i], y[i + 1]];
      if i + 1 < |x| {
        assert y[i + 1] == x[i + 1];
      }
    }
  }

  /** Every written record is cut off whole. */
  lemma FormatRecordClean(e: Event)
    requires WellFormed(e)
    ensures Clean(FormatRecord(e), RecordSeparator)
  {
    FormatRecordLines(e);
    JoinedLinesSingleBreaks(["event: " + e.eventType] + DataLines(Split(e.data, LineBreak)));
    SingleBreaksClean(FormatRecord(e));
  }

  /**
   * Format/parse round trip: feeding the written stream cuts exactly the
   * written records, leaves an empty residual, and reads back the events.
   */
  lemma {:induction false} StreamRoundTrip(evs: seq<Event>)
    requires forall i :: 0 <= i < |evs| ==> WellFormed(evs[i])
    ensures Feed("", FormatStream(evs)) == Fed(FormatRecords(evs), "")
    ensures Events(Feed("", FormatStream(evs)).records) == evs
    decreases |evs|
  {
    var rs := FormatRecords(evs);
    forall i | 0 <= i < |rs|
      ensures Clean(rs[i], RecordSeparator)
    {
      FormatRecordClean(evs[i]);
    }
    SplitFrame(rs, "", RecordSeparator);
    SplitFree("", RecordSeparator);
    assert "" + FormatStream(evs) == FormatStream(evs) + "";
    assert (rs + [""])[..|rs|] == rs;
    EventsRoundTrip(evs);
  }

  /** Records each of which reads back as the matching event give back those events. */
  lemma {:induction false} EventsOfReadable(rs: seq<string>, evs: seq<Event>)
    requires |rs| == |evs|
    requires forall i :: 0 <= i < |rs| ==> RecordEvent(rs[i]) == Some(evs[i])
    ensures Events(rs) == evs
    decreases |rs|
  {
    if rs != [] {
      var n := |rs| - 1;
      EventsOfReadable(rs[..n], evs[..n]);
      assert EventsOfRecord(rs[n]) == [evs[n]];
    }
  }

  lemma EventsRoundTrip(evs: seq<Event>)
    requires forall i :: 0 <= i < |evs| ==> WellFormed(evs[i])
    ensures Events(FormatRecords(evs)) == evs
  {
    var rs := FormatRecords(evs);
    forall i | 0 <= i < |rs|
      ensures RecordEvent(rs[i]) == Some(evs[i])
    {
      RecordRoundTrip(evs[i]);
    }
    EventsOfReadable(rs, evs);
  }

  /** An event whose data is one line is written as its `event:` line, a line break and its `data:` line. */
  lemma OneLineRecord(t: string, d: string)
    requires forall i :: 0 <= i < |d| ==> d[i] != '\n'
    ensures FormatRecord(Event(t, d)) == "event: " + t + LineBreak + ("data: " + d)
  {
    SingleLine(d);
    assert DataLines([d]) == ["data: " + d];
    var lines := ["event: " + t] + DataLines([d]);
    assert lines == ["event: " + t, "data: " + d];
    assert lines[1..] == ["data: " + d];
    assert Join(lines[1..], LineBreak) == "data: " + d;
    assert Join(lines, LineBreak) == lines[0] + LineBreak + Join(lines[1..], LineBreak);
  }

  /** The first record of the two-chunk example is the written form of foo/"1". */
  lemma FooRecord()
    ensures WellFormed(Event("foo", "1"))
    ensures FormatRecord(Event("foo", "1")) == "event: foo\ndata: 1"
  {
    SingleLine("1");
    assert IsTrimmed("foo") by {
      assert "foo"[0] == 'f' && "foo"[2] == 'o';
    }
    assert EndsClean("1") by {
      assert "1"[0] == '1';
    }
    assert "1"[0] == '1';
    OneLineRecord("foo", "1");
    assert "event: " + "foo" + LineBreak + ("data: " + "1") == "event: foo\ndata: 1";
  }

  /** The second record of the two-chunk example reads as message/"2". */
  lemma MessageTwoRecord()
    ensures RecordEvent("data: 2") == Some(Event(DefaultEventType, "2"))
    ensures Clean("data: 2", RecordSeparator)
  {
    FreeOfFirstChar("2", LineBreak);
    DataLinesJoined(["2"]);
    assert Join(DataLines(["2"]), LineBreak) == "data: 2";
    SingleBreaksClean("data: 2");
  }

  /** The two chunks of the example, together, are two closed records and an open one. */
  lemma TwoChunkText()
    ensures "" + ("event: foo\ndata: 1\n\n" + "data: 2\n\ndata: 3") ==
      Frame(["event: foo\ndata: 1", "data: 2"], RecordSeparator) + "data: 3"
  {
  }

  /** Feeding the example at once cuts the two closed records and keeps "data: 3". */
  lemma TwoChunkFeed()
    ensures Feed("", "event: foo\ndata: 1\n\n" + "data: 2\n\ndata: 3") ==
      Fed(["event: foo\ndata: 1", "data: 2"], "data: 3")
  {
    var r1, r2, rest := "event: foo\ndata: 1", "data: 2", "data: 3";
    var parts := Split("" + ("event: foo\ndata: 1\n\n" + "data: 2\n\ndata: 3"), RecordSeparator);
    calc {
      parts;
    == { TwoChunkText(); }
      Split(Frame([r1, r2], RecordSeparator) + rest, RecordSeparator);
    == { TwoChunkRecordsClean(); SplitFrame([r1, r2], rest, RecordSeparator); }
      [r1, r2] + Split(rest, RecordSeparator);
    == { assert '\n' !in rest; FreeOfAbsentChar(rest, RecordSeparator); SplitFree(rest, RecordSeparator); }
      [r1, r2, rest];
    }
  }

  lemma TwoChunkRecordsClean()
    ensures forall i :: 0 <= i < 2 ==> Clean(["event: foo\ndata: 1", "data: 2"][i], RecordSeparator)
  {
    FooRecord();
    FormatRecordClean(Event("foo", "1"));
    MessageTwoRecord();
  }

  /** The two closed records of the example read as foo/"1" and message/"2". */
  lemma TwoChunkEvents()
    ensures Events(["event: foo\ndata: 1", "data: 2"]) == [Event("foo", "1"), Event(DefaultEventType, "2")]
  {
    TwoChunkRecordsRead();
    EventsOfTwo("event: foo\ndata: 1", "data: 2", Event("foo", "1"), Event(DefaultEventType, "2"));
  }

  lemma EventsOfTwo(r1: string, r2: string, e1: Event, e2: Event)
    requires RecordEvent(r1) == Some(e1) && RecordEvent(r2) == Some(e2)
    ensures Events([r1, r2]) == [e1, e2]
  {
    EventsOfReadable([r1, r2], [e1, e2]);
  }

  lemma TwoChunkRecordsRead()
    ensures RecordEvent("event: foo\ndata: 1") == Some(Event("foo", "1"))
    ensures RecordEvent("data: 2") == Some(Event(DefaultEventType, "2"))
  {
    FooRecord();
    RecordRoundTrip(Event("foo", "1"));
    MessageTwoRecord();
  }

  /**
   * Two chunks, "event: foo\ndata: 1\n\n" then "data: 2\n\ndata: 3": the
   * events foo/"1" and message/"2" are cut and interpreted, and "data: 3",
   * which no blank line closes, stays in the buffer.
   */
  lemma TwoChunkScenario()
    ensures var f := FeedAll("", ["event: foo\ndata: 1\n\n", "data: 2\n\ndata: 3"]);
      && f.residual == "data: 3"
      && Events(f.records) == [Event("foo", "1"), Event(DefaultEventType, "2")]
  {
    var chunks := ["event: foo\ndata: 1\n\n", "data: 2\n\ndata: 3"];
    FreeOfFirstChar("", RecordSeparator);
    ChunkingIndependence("", chunks);
    ConcatTwo(chunks[0], chunks[1]);
    TwoChunkFeed();
    TwoChunkEvents();
  }

  /**
   * The body of `parts.forEach`: scan the lines of one record, overwrite the
   * type on every `event:` line, push every `data:` contribution, then decide.
   */
  method ParseRecord(part: string) returns (ev: Option<Event>)
    ensures ev == RecordEvent(part)
  {
    var lines := Split(part, LineBreak);
    ghost var kinds := Classify(lines);
    var eventType := DefaultEventType;
    var dataParts: seq<string> := [];
    var i := 0;
    while i < |lines|
      invariant 0 <= i <= |lines|
      invariant eventType == EventTypeOf(kinds[..i])
      invariant dataParts == DataOf(kinds[..i])
    {
      LineStep(lines, i);
      var line := TrimEnd(lines[i]);
      if StartsWith(line, "event:") {
        eventType := Trim(line[6..]);
      } else if StartsWith(line, "data:") {
        var d := line[5..];
        if StartsWith(d, " ") {
          d := d[1..];
        }
        dataParts := dataParts + [d];
      }
      i := i + 1;
    }
    assert kinds[..i] == kinds;
    if |dataParts| > 0 || eventType != DefaultEventType {
      ev := Some(Event(eventType, Join(dataParts, LineBreak)));
    } else {
      ev := None;
    }
  }
}
