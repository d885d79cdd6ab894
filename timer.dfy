/**
  The lap timer of package `timer`: a start reading taken once, an
  append-only log of laps, and two renderings of the log (a text table and
  a JSON document).

  What the Go runtime and libraries supply is passed in: clock readings are
  integer nanosecond counts, the caller's file and line are an optional
  pair, the formatted message is a string, and `Duration.String` is a
  function parameter `durStr`.
 */
module Timer {
  import opened Wrappers
  import Fmt
  import FilePath
  import Json

  // ---------------------------------------------------------------------------
  // Durations
  // ---------------------------------------------------------------------------

  const MinDuration: int := -0x8000_0000_0000_0000
  const MaxDuration: int := 0x7FFF_FFFF_FFFF_FFFF

  /** A `time.Duration`: a signed 64-bit count of nanoseconds. */
  type Duration = d: int | MinDuration <= d <= MaxDuration

  /**
    `time.Since(start)` for the clock reading `now`: the difference of the two
    readings, saturated to the Duration range as `Time.Sub` does.
   */
  function Since(start: int, now: int): (d: Duration)
    ensures MinDuration <= now - start <= MaxDuration ==> d == now - start
    ensures now - start > MaxDuration ==> d == MaxDuration
    ensures now - start < MinDuration ==> d == MinDuration
  {
    if now - start > MaxDuration then MaxDuration
    else if now - start < MinDuration then MinDuration
    else now - start
  }

  /** A later clock reading never gives a shorter elapsed time. */
  lemma SinceMonotone(start: int, earlier: int, later: int)
    requires earlier <= later
    ensures Since(start, earlier) <= Since(start, later)
  {
  }

  // ---------------------------------------------------------------------------
  // Laps
  // ---------------------------------------------------------------------------

  /** One checkpoint: where it was recorded, what was said, and the time since start. */
  datatype Lap = Lap(file: string, line: int, message: string, duration: Duration)

  /** The location recorded when the runtime cannot report the caller. */
  const UnknownFile: string := "???"
  const UnknownLine: int := 0

  /** The caller's file and line as reported, or the sentinel `???:0` when the runtime has none. */
  function CallerLocation(caller: Option<(string, int)>): (site: (string, int))
    ensures caller.Some? ==> site == caller.value
    ensures caller.None? ==> site.0 == "???" && site.1 == 0
  {
    match caller
    case None => (UnknownFile, UnknownLine)
    case Some(site) => site
  }

  /** The record that `(*Timer).Lap` appends for the given caller, message and elapsed time. */
  function RecordedLap(caller: Option<(string, int)>, message: string, elapsed: Duration): (lap: Lap)
    ensures lap.message == message && lap.duration == elapsed
  {
    var (file, line) := CallerLocation(caller);
    Lap(FilePath.Base(file), line, message, elapsed)
  }

  /**
    The stored location: the sentinel `???:0` without caller information,
    otherwise the caller's own line and the base name of its file, which is
    a single path element.
   */
  lemma RecordedLocation(caller: Option<(string, int)>, message: string, elapsed: Duration)
    ensures caller.None? ==> RecordedLap(caller, message, elapsed).file == "???"
    ensures caller.None? ==> RecordedLap(caller, message, elapsed).line == 0
    ensures caller.Some? ==> RecordedLap(caller, message, elapsed).line == caller.value.1
    ensures caller.Some? ==> RecordedLap(caller, message, elapsed).file == FilePath.Base(caller.value.0)
    ensures RecordedLap(caller, message, elapsed).file != []
    ensures var f := RecordedLap(caller, message, elapsed).file; f == "/" || '/' !in f
  {
    FilePath.BaseOfName(UnknownFile);
  }

  ghost predicate NonDecreasing(xs: seq<int>) {
    forall i, j :: 0 <= i <= j < |xs| ==> xs[i] <= xs[j]
  }

  // ---------------------------------------------------------------------------
  // The timer
  // ---------------------------------------------------------------------------

  class Timer {
    /** The clock reading taken by `New`; a `const`, so nothing can reassign it. */
    const startTime: int
    /** The laps, in recording order. */
    var laps: seq<Lap>
    /** The clock reading taken at each recording, oldest first. */
    ghost var readings: seq<int>

    /** Every lap's duration is its clock reading minus the start reading. */
    ghost predicate Valid()
      reads this
    {
      |readings| == |laps| &&
      forall i :: 0 <= i < |laps| ==> laps[i].duration == Since(startTime, readings[i])
    }

    /** `New`: a timer started at the clock reading `now`, with no laps. */
    constructor (now: int)
      ensures Valid()
      ensures startTime == now && laps == [] && readings == []
    {
      startTime := now;
      laps := [];
      readings := [];
    }

    /**
      `(*Timer).Lap`: appends exactly one record, built from the caller
      information, the message and the time elapsed at reading `now`.
     */
    method Lap(caller: Option<(string, int)>, message: string, now: int)
      requires Valid()
      modifies this
      ensures Valid()
      ensures laps == old(laps) + [RecordedLap(caller, message, Since(startTime, now))]
      ensures readings == old(readings) + [now]
    {
      var lap := RecordedLap(caller, message, Since(startTime, now));
      laps := laps + [lap];
      readings := readings + [now];
    }

    /**
      `(*Timer).Print`: the title line, the two header rows, one row per lap in
      recording order, and the closing line. The timer is not changed.
     */
    method Print(durStr: Duration -> string) returns (out: seq<TextLine>)
      ensures out == TextReport(laps, durStr)
    {
      var table := [Row(HeaderCells), Row(RuleCells)];
      for i := 0 to |laps|
        invariant table == [Row(HeaderCells), Row(RuleCells)] + LapRows(laps[..i], durStr)
      {
        LapRowsAppend(laps, i, durStr);
        table := table + [Row(LapCells(laps[i], durStr))];
      }
      assert laps[..|laps|] == laps;
      out := [Banner(Title)] + table + [Banner(Closing)];
    }

    /**
      `(*Timer).PrintJSON`: fills one JSON record per lap, in order, and
      prints `{"laps": [...]}`; if the encoder reports `marshalError`, only a
      diagnostic is written. The timer is not changed.
     */
    method PrintJSON(durStr: Duration -> string, marshalError: Option<string>) returns (out: JsonOutput)
      ensures marshalError.None? ==> out == Stdout(LapsDocument(laps, durStr))
      ensures marshalError.Some? ==> out == Stderr(MarshalFailure + marshalError.value + "\n")
    {
      var lapsJSON := new LapJson[|laps|];
      for i := 0 to |laps|
        invariant forall k :: 0 <= k < i ==> lapsJSON[k] == ToLapJson(laps[k], durStr)
      {
        lapsJSON[i] := LapJson(laps[i].file, laps[i].line, laps[i].message, durStr(laps[i].duration));
      }
      assert lapsJSON[..] == Project(laps, durStr);
      var data := Document(lapsJSON[..]);
      if marshalError.Some? {
        out := Stderr(MarshalFailure + marshalError.value + "\n");
        return;
      }
      out := Stdout(data);
    }
  }

  /** Clock readings taken in order give laps whose durations never decrease. */
  lemma ClockOrderIsLapOrder(t: Timer)
    requires t.Valid() && NonDecreasing(t.readings)
    ensures forall i, j :: 0 <= i <= j < |t.laps| ==> t.laps[i].duration <= t.laps[j].duration
  {
    forall i, j | 0 <= i <= j < |t.laps|
      ensures t.laps[i].duration <= t.laps[j].duration
    {
      SinceMonotone(t.startTime, t.readings[i], t.readings[j]);
    }
  }

  // ---------------------------------------------------------------------------
  // Text rendering
  // ---------------------------------------------------------------------------

  /** A line printed directly, or a row of cells laid out by the tab writer. */
  datatype TextLine = Banner(text: string) | Row(cells: seq<string>)

  const Title: string := "--- Performance Measurement Results ---"
  const Closing: string := "---------------------------------------"
  const HeaderCells: seq<string> := ["Elapsed", "Location", "Message"]
  const RuleCells: seq<string> := ["-------", "--------", "-------"]

  /** The location column: `file:line`. */
  function LocationCell(file: string, line: int): string {
    file + ":" + Fmt.FormatInt(line)
  }

  /** The three cells of a lap's row: the elapsed text, the location, the message. */
  function LapCells(lap: Lap, durStr: Duration -> string): seq<string> {
    [durStr(lap.duration), LocationCell(lap.file, lap.line), lap.message]
  }

  /** One row per lap, in the order of `laps`. */
  function LapRows(laps: seq<Lap>, durStr: Duration -> string): (rows: seq<TextLine>)
    ensures |rows| == |laps|
    ensures forall i :: 0 <= i < |laps| ==> rows[i] == Row(LapCells(laps[i], durStr))
  {
    if laps == [] then []
    else LapRows(laps[..|laps| - 1], durStr) + [Row(LapCells(laps[|laps| - 1], durStr))]
  }

  lemma LapRowsAppend(laps: seq<Lap>, i: nat, durStr: Duration -> string)
    requires i < |laps|
    ensures LapRows(laps[..i + 1], durStr) == LapRows(laps[..i], durStr) + [Row(LapCells(laps[i], durStr))]
  {
    assert laps[..i + 1][..i] == laps[..i];
  }

  /** Everything `Print` writes, line by line. */
  function TextReport(laps: seq<Lap>, durStr: Duration -> string): seq<TextLine> {
    [Banner(Title)] + ([Row(HeaderCells), Row(RuleCells)] + LapRows(laps, durStr)) + [Banner(Closing)]
  }

  /** The position of the last `c` in `s`. */
  function LastIndexOf(s: string, c: char): (r: Option<nat>)
    ensures r.Some? ==> r.value < |s| && s[r.value] == c && c !in s[r.value + 1..]
    ensures r.None? ==> c !in s
  {
    if s == [] then None
    else if s[|s| - 1] == c then Some(|s| - 1)
    else LastIndexOf(s[..|s| - 1], c)
  }

  /** Reads a location cell back: the file is everything before the last ':'. */
  function SplitLocation(cell: string): Option<(string, int)> {
    match LastIndexOf(cell, ':')
    case None => None
    case Some(k) =>
      match Fmt.ParseInt(cell[k + 1..])
      case None => None
      case Some(line) => Some((cell[..k], line))
  }

  /** Reads a lap row back into its elapsed text, file, line and message. */
  function ParseLapRow(cells: seq<string>): Option<(string, string, int, string)> {
    if |cells| != 3 then None
    else
      match SplitLocation(cells[1])
      case None => None
      case Some((file, line)) => Some((cells[0], file, line, cells[2]))
  }

  lemma {:induction false} LastIndexOfAppended(s: string, c: char, t: string)
    requires c !in t
    ensures LastIndexOf(s + [c] + t, c) == Some(|s|)
    decreases |t|
  {
    if t != [] {
      var u := s + [c] + t;
      assert u[..|u| - 1] == s + [c] + t[..|t| - 1];
      LastIndexOfAppended(s, c, t[..|t| - 1]);
    }
  }

  /** The location cell names the lap's file and line unambiguously, whatever the file name holds. */
  lemma LocationRoundTrip(file: string, line: int)
    ensures SplitLocation(LocationCell(file, line)) == Some((file, line))
  {
    var digits := Fmt.FormatInt(line);
    LastIndexOfAppended(file, ':', digits);
    var cell := LocationCell(file, line);
    assert cell[|file| + 1..] == digits;
    assert cell[..|file|] == file;
    Fmt.ParseFormatInt(line);
  }

  /** A lap row reads back into the lap's elapsed text, file, line and message. */
  lemma LapRowRoundTrip(lap: Lap, durStr: Duration -> string)
    ensures ParseLapRow(LapCells(lap, durStr)) ==
      Some((durStr(lap.duration), lap.file, lap.line, lap.message))
  {
    LocationRoundTrip(lap.file, lap.line);
  }

  /**
    The text report has the title, the two header rows, then exactly one row
    per lap in recording order, then the closing line; by LapRowRoundTrip
    each lap row names its lap's elapsed text, file, line and message.
   */
  lemma TextReportRows(laps: seq<Lap>, durStr: Duration -> string)
    ensures var r := TextReport(laps, durStr);
      && |r| == |laps| + 4
      && r[0] == Banner(Title) && r[1] == Row(HeaderCells) && r[2] == Row(RuleCells)
      && r[|r| - 1] == Banner(Closing)
      && forall j :: 3 <= j < |laps| + 3 ==> r[j] == Row(LapCells(laps[j - 3], durStr))
  {
    Framed(Banner(Title), Row(HeaderCells), Row(RuleCells), LapRows(laps, durStr), Banner(Closing));
  }

  /**
    The index arithmetic of a report: three lines, the body, then one more
    line. Stated over an arbitrary element type, so that the rows' cells are
    not unfolded while the positions are worked out.
   */
  lemma Framed<T>(first: T, second: T, third: T, body: seq<T>, last: T)
    ensures var r := [first] + ([second, third] + body) + [last];
      && |r| == |body| + 4
      && r[0] == first && r[1] == second && r[2] == third && r[|r| - 1] == last
      && forall j :: 3 <= j < |body| + 3 ==> r[j] == body[j - 3]
  {
  }

  // ---------------------------------------------------------------------------
  // JSON rendering
  // ---------------------------------------------------------------------------

  /** The record `PrintJSON` builds for one lap; its duration is the duration's text. */
  datatype LapJson = LapJson(file: string, line: int, message: string, duration: string)

  /** The JSON object of a lap carries its file, line and message, and the duration's text. */
  function ToLapJson(lap: Lap, durStr: Duration -> string): (e: LapJson)
    ensures LapValue(e) == Json.Object([
      ("file", Json.String(lap.file)),
      ("line", Json.Number(lap.line)),
      ("message", Json.String(lap.message)),
      ("duration", Json.String(durStr(lap.duration)))
    ])
  {
    LapJson(lap.file, lap.line, lap.message, durStr(lap.duration))
  }

  /** The projection of the laps into JSON records: same length, same order, field by field. */
  function Project(laps: seq<Lap>, durStr: Duration -> string): (entries: seq<LapJson>)
    ensures |entries| == |laps|
    ensures forall i :: 0 <= i < |laps| ==>
      && entries[i].file == laps[i].file
      && entries[i].line == laps[i].line
      && entries[i].message == laps[i].message
      && entries[i].duration == durStr(laps[i].duration)
  {
    if laps == [] then []
    else Project(laps[..|laps| - 1], durStr) + [ToLapJson(laps[|laps| - 1], durStr)]
  }

  /** A record as a JSON object with the keys `file`, `line`, `message` and `duration`. */
  function LapValue(e: LapJson): Json.Value {
    Json.Object([
      ("file", Json.String(e.file)),
      ("line", Json.Number(e.line)),
      ("message", Json.String(e.message)),
      ("duration", Json.String(e.duration))
    ])
  }

  function LapValues(entries: seq<LapJson>): (vs: seq<Json.Value>)
    ensures |vs| == |entries|
    ensures forall i :: 0 <= i < |entries| ==> vs[i] == LapValue(entries[i])
  {
    if entries == [] then [] else [LapValue(entries[0])] + LapValues(entries[1..])
  }

  /** The value handed to the encoder: an object whose only key is `laps`. */
  function Document(entries: seq<LapJson>): (doc: Json.Value)
    ensures doc.Object? && |doc.members| == 1 && doc.members[0].0 == "laps"
    ensures doc.members[0].1.Array? && |doc.members[0].1.items| == |entries|
    ensures forall i :: 0 <= i < |entries| ==> doc.members[0].1.items[i] == LapValue(entries[i])
  {
    Json.Object([("laps", Json.Array(LapValues(entries)))])
  }

  /** The document for the recorded laps: under `laps`, one object per lap, in recording order. */
  function LapsDocument(laps: seq<Lap>, durStr: Duration -> string): (doc: Json.Value)
    ensures doc.Object? && |doc.members| == 1 && doc.members[0].0 == "laps"
    ensures doc.members[0].1.Array? && |doc.members[0].1.items| == |laps|
    ensures forall i :: 0 <= i < |laps| ==>
      doc.members[0].1.items[i] == LapValue(ToLapJson(laps[i], durStr))
  {
    Document(Project(laps, durStr))
  }

  /** What `PrintJSON` writes: the JSON line on standard output, or a diagnostic. */
  datatype JsonOutput = Stdout(document: Json.Value) | Stderr(text: string)

  const MarshalFailure: string := "Failed to marshal JSON: "

  /** Reads one record back from a JSON object, by key. */
  function DecodeLap(v: Json.Value): Option<LapJson> {
    if !v.Object? then None
    else
      var file := Json.Lookup(v.members, "file");
      var line := Json.Lookup(v.members, "line");
      var message := Json.Lookup(v.members, "message");
      var duration := Json.Lookup(v.members, "duration");
      if && file.Some? && file.value.String?
         && line.Some? && line.value.Number?
         && message.Some? && message.value.String?
         && duration.Some? && duration.value.String?
      then Some(LapJson(file.value.s, line.value.n, message.value.s, duration.value.s))
      else None
  }

  function DecodeLaps(vs: seq<Json.Value>): Option<seq<LapJson>> {
    if vs == [] then Some([])
    else
      match (DecodeLap(vs[0]), DecodeLaps(vs[1..]))
      case (Some(e), Some(es)) => Some([e] + es)
      case _ => None
  }

  /** Reads the records back from a document of the shape `{"laps": [...]}`. */
  function DecodeDocument(doc: Json.Value): Option<seq<LapJson>> {
    if !doc.Object? then None
    else
      var laps := Json.Lookup(doc.members, "laps");
      if laps.Some? && laps.value.Array? then DecodeLaps(laps.value.items) else None
  }

  /** A record reads back from its own JSON object. */
  lemma DecodeLapValue(e: LapJson)
    ensures DecodeLap(LapValue(e)) == Some(e)
  {
    var file, line := ("file", Json.String(e.file)), ("line", Json.Number(e.line));
    var message, duration := ("message", Json.String(e.message)), ("duration", Json.String(e.duration));
    assert LapValue(e).members == [file, line, message, duration];
    assert "file"[0] != "line"[0] && "file"[0] != "message"[0] && "file"[0] != "duration"[0];
    assert "line"[0] != "message"[0] && "line"[0] != "duration"[0];
    assert "message"[0] != "duration"[0];
    assert [file, line, message, duration][1..] == [line, message, duration];
    assert [line, message, duration][1..] == [message, duration];
    assert [message, duration][1..] == [duration];
    assert Json.Lookup([duration], "duration") == Some(duration.1);
    assert Json.Lookup([message, duration], "duration") == Some(duration.1);
    assert Json.Lookup([message, duration], "message") == Some(message.1);
    assert Json.Lookup([line, message, duration], "line") == Some(line.1);
    assert Json.Lookup([line, message, duration], "message") == Some(message.1);
    assert Json.Lookup([line, message, duration], "duration") == Some(duration.1);
    var all := [file, line, message, duration];
    assert Json.Lookup(all, "file") == Some(file.1);
    assert Json.Lookup(all, "line") == Some(line.1);
    assert Json.Lookup(all, "message") == Some(message.1);
    assert Json.Lookup(all, "duration") == Some(duration.1);
  }

  /** A list of values decodes to the records each of them decodes to. */
  lemma {:induction false} DecodeLapsEach(vs: seq<Json.Value>, entries: seq<LapJson>)
    requires |vs| == |entries|
    requires forall i :: 0 <= i < |vs| ==> DecodeLap(vs[i]) == Some(entries[i])
    ensures DecodeLaps(vs) == Some(entries)
    decreases |vs|
  {
    if vs != [] {
      DecodeLapsEach(vs[1..], entries[1..]);
      assert [entries[0]] + entries[1..] == entries;
    }
  }

  /** Decoding the document gives back exactly the projected records, in order. */
  lemma DocumentRoundTrip(laps: seq<Lap>, durStr: Duration -> string)
    ensures DecodeDocument(LapsDocument(laps, durStr)) == Some(Project(laps, durStr))
  {
    var entries := Project(laps, durStr);
    var vs := LapValues(entries);
    forall i | 0 <= i < |vs|
      ensures DecodeLap(vs[i]) == Some(entries[i])
    {
      DecodeLapValue(entries[i]);
    }
    DecodeLapsEach(vs, entries);
  }

  /** With no laps the document is `{"laps": []}`: an empty array, not null. */
  lemma EmptyDocument(durStr: Duration -> string)
    ensures LapsDocument([], durStr) == Json.Object([("laps", Json.Array([]))])
  {
  }

  /** Both renderings print the same duration text for the same lap. */
  lemma RenderingsAgreeOnDuration(laps: seq<Lap>, durStr: Duration -> string)
    ensures forall i :: 0 <= i < |laps| ==>
      TextReport(laps, durStr)[i + 3].cells[0] == Project(laps, durStr)[i].duration
  {
  }

  // ---------------------------------------------------------------------------
  // A client
  // ---------------------------------------------------------------------------

  /**
    A session as a caller sees it through the contracts alone: lap "A" at
    the start from the call site `site`, then lap "B" 100ms later without
    caller information.
   */
  method TwoLapSession(site: (string, int), start: int)
  {
    var t := new Timer(start);
    t.Lap(Some(site), "A", start);
    t.Lap(None, "B", start + 100_000_000);
    RecordedLocation(None, "B", 100_000_000);
    var a := Lap(FilePath.Base(site.0), site.1, "A", 0);
    var b := Lap("???", 0, "B", 100_000_000);
    assert t.laps == [a, b];

    assert t.laps[0].duration <= t.laps[1].duration;
  }
}
