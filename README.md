# Lap timer model

A Dafny model of the Go package `timer`: a `Timer` takes a start reading
once, records laps (file, line, message, time since start) into an
append-only log, and renders the log either as a text table or as a JSON
document `{"laps": [...]}`.

Files:

- `timer.dfy` (module `Timer`): the `Lap` record, the `Duration` type and
  `Since`, the class `Timer` (constructor = `New`, methods `Lap`, `Print`,
  `PrintJSON`), the specification functions of both renderings, their
  inverses and the lemmas that connect them.
- `filepath.dfy` (module `FilePath`): `filepath.Base` for '/' separators.
- `fmt.dfy` (module `Fmt`): the `%d` formatting of the line number, and a
  parser used as its inverse.
- `json.dfy` (module `Json`): JSON values in the sense of RFC 8259.
- `wrappers.dfy` (module `Wrappers`): `Option`.

What the Go runtime and libraries provide is an input of the model:

- clock readings (`time.Now`, `time.Since`) are integer nanosecond counts
  passed to the constructor and to `Lap`; `Since` subtracts and saturates
  to the 64-bit `Duration` range, as `Time.Sub` does;
- `runtime.Caller(1)` is the argument `caller: Option<(string, int)>`;
- the formatted message (`fmt.Sprintf`) is the string `message`;
- `Duration.String` is the function argument `durStr: Duration -> string`;
- the outcome of `json.Marshal` is the argument `marshalError: Option<string>`
  (`None` = success).

`Print` returns the lines it would write, as `Banner` lines (printed
directly) and `Row`s of cells, one per line of the format string (laid out by the tab writer). `PrintJSON`
returns either `Stdout(document)` with the JSON value handed to the
encoder, or `Stderr(text)` with the diagnostic. Neither method has a
`modifies` clause, so neither can change the timer. `startTime` is a
`const`, so nothing can reassign it after construction. A ghost field
`readings` keeps the clock reading of every lap. The invariant `Valid()`
says that lap i's duration is `Since(startTime, readings[i])`.

## Model

| member | source | states |
|---|---|---|
| `Timer.Timer.constructor` | timer.go:28-33 | `New`: the start time is the clock reading given, there are no laps, and the invariant holds |
| `Timer.Timer.Lap` | timer.go:37-52 | appends exactly one record, built from the caller info, the message and `Since(startTime, now)`, after the unchanged earlier laps; it records the reading and keeps the invariant; only `laps` and the ghost `readings` change |
| `Timer.RecordedLocation` | timer.go:39-47 | with no caller info the record says file `???`, line 0; otherwise the caller's line and the base name of its file; the stored file is never empty and has no '/' unless it is exactly "/" |
| `Timer.CallerLocation` | timer.go:39-43 | the caller's file and line when the runtime reports them, otherwise the sentinel file `???` with line 0 |
| `Timer.RecordedLap` | timer.go:45-50 | the record keeps the message unchanged and its duration is the elapsed time passed in |
| `Timer.Since` | timer.go:49 | the elapsed time is exactly `now - start` whenever that fits in a 64-bit Duration; above the range it is the largest Duration, below it the smallest |
| `Timer.SinceMonotone` | timer.go:49 | a later clock reading never gives a shorter elapsed time |
| `Timer.ClockOrderIsLapOrder` | timer.go:49-51 | if the clock readings taken at the laps never decrease, lap durations never decrease in recording order |
| `Timer.Timer.Print` | timer.go:56-67 | returns exactly `TextReport(laps)`: title, the two header rows, one row per lap in order, the closing line |
| `Timer.LapRows` | timer.go:61-64 | one row per lap, the same length as `laps`; row i holds lap i's cells |
| `Timer.TextReportRows` | timer.go:57-66 | the report has `|laps| + 4` lines: title, `Elapsed/Location/Message`, the dash row, lap i at position i + 3, and the closing line |
| `Timer.LapRowRoundTrip` | timer.go:63 | the cells `LapCells` builds for a lap row read back into the duration text, file, line and message of its lap |
| `Timer.LocationRoundTrip` | timer.go:63 | the `file:line` cell built by `LocationCell` splits back into the same file and line, even when the file name holds ':' |
| `Timer.LastIndexOf` | timer.go:63 | the index found holds the character and no later position does; with no index, the character is absent |
| `Timer.Timer.PrintJSON` | timer.go:70-96 | on success the output is the document built from the laps; on an encoder error it is only the diagnostic `Failed to marshal JSON: <err>` on the error stream |
| `Timer.Project` | timer.go:78-86 | the JSON records have as many entries as there are laps; entry i copies lap i's file, line and message, and its duration is `durStr` of lap i's duration |
| `Timer.ToLapJson` | timer.go:71-85 | a lap's JSON object has the keys `file`, `line`, `message`, `duration` holding the lap's file, line and message and the text of its duration |
| `Timer.LapValues` | timer.go:79-89 | one JSON object per record, in the same order |
| `Timer.Document` | timer.go:88-90 | the encoded value is an object with the single key `laps`, holding an array with one object per record, in order |
| `Timer.LapsDocument` | timer.go:78-90 | the document's `laps` array has one entry per lap, and entry i is the JSON object of lap i |
| `Timer.DecodeLapValue` | timer.go:71-76 | a record is recovered from its JSON object by the keys `file`, `line`, `message`, `duration` |
| `Timer.DecodeLapsEach` | timer.go:78-86 | an array whose values each decode to record i decodes to the whole list of records |
| `Timer.DocumentRoundTrip` | timer.go:78-90 | decoding the document's `laps` array gives back exactly the projected records, in order |
| `Timer.EmptyDocument` | timer.go:78-90 | with no laps the document is the object whose only key `laps` holds an empty array, not null |
| `Timer.RenderingsAgreeOnDuration` | timer.go:63-84 | the text row and the JSON record of the same lap carry the same duration text |
| `Timer.LapRowsAppend` | timer.go:61-64 | the rows for one more lap are the earlier rows followed by that lap's row |
| `Timer.LastIndexOfAppended` | timer.go:63 | in `s + ":" + t` where `t` has no ':', the last ':' is the one after `s` |
| `FilePath.TrimmedPrefix` | timer.go:46 | trimming keeps a prefix that does not end in '/' and removes only '/' |
| `FilePath.LastElementSuffix` | timer.go:46 | the last element is a suffix with no '/', preceded by a '/' unless it is the whole path |
| `FilePath.Base` | timer.go:46 | the base name is non-empty and contains no '/' unless it is exactly "/" |
| `FilePath.BaseOfPath` | timer.go:46 | for `dir + name + trailing slashes` the base name is `name` |
| `FilePath.BaseOfName` | timer.go:41-46 | a name without '/', such as the sentinel `???`, is its own base name |
| `FilePath.BaseIdempotent` | timer.go:46 | taking the base name twice gives the same result as taking it once |
| `Fmt.FormatNat` | timer.go:63 | the decimal text is non-empty, made only of digits, with no leading zero |
| `Fmt.FormatInt` | timer.go:63 | `%d` text: non-empty, starts with '-' exactly for negative numbers, and every other character is a digit |
| `Fmt.ParseNat` | timer.go:63 | the parser accepts exactly the non-empty strings of digits |
| `Fmt.ParseFormatNat` | timer.go:63 | parsing the decimal text of a natural number gives that number |
| `Fmt.ParseFormatInt` | timer.go:63 | parsing `%d` text gives the number back |
| `Fmt.FormatIntInjective` | timer.go:63 | different line numbers print differently |

## Left out

- Clock reads (`time.Now`, `time.Since`) are wall-clock reads. They are integer readings passed in. Go readings are 64-bit values; the model's readings are unbounded, and only their difference is saturated.
- `runtime.Caller` stack inspection is a runtime facility. Its result is the `caller` argument.
- `fmt.Sprintf` formatting of the message, including its permissive handling of mismatched arguments, is a library call. The message is an opaque string.
- The text of `Duration.String` is library formatting. It is the `durStr` argument, the same function for both renderings.
- `tabwriter` padding and alignment, the `%-15v` padding and `Flush` are library layout. Only the logical lines and cells are modelled.
- `Timer.Timer.Print`, `Timer.TextReportRows`, `Timer.LapRowRoundTrip`: a row holds the three fields of the format string. The tab writer splits cells at every '\t' or '\v' and lines at every '\n' or '\f', including those inside a message or a file name. A message holding such characters is therefore printed as more cells or more lines than the model's one row of three cells. The round trip holds for the fields, not for the printed bytes.
- The byte-level output of `encoding/json` is not modelled: string escaping, key order of the outer map, the trailing newline of `Println`. The actual writes to stdout and stderr are left out too. The document is the structured value handed to the encoder.
- `filepath.Base` is modelled for '/' separators only. Windows volume names and '\' are not modelled.
- `Timer.Timer.PrintJSON`: the encoder's outcome is an input. For values of this shape `json.Marshal` does not report errors, so the `Stderr` branch is reachable in the model only through that input.
- Thread-safety: there is none in the source, and the model is sequential.
- `internal/example/main.go` is a demonstration driver with no logic of its own. `Timer.TwoLapSession` plays a similar client role against the contracts.
