/** The data-import card: the semicolon-separated record parser, the upload transition that
    reports either the parsed fleet or an error, and the built-in sample fleet. */
module CsvUploader {
  import opened Wrappers
  import opened JsString
  import opened AircraftCard

  /** The column names the header line must contain. */
  const ExpectedHeaders: seq<string> := ["tailNumber", "model", "lastCheck", "nextCheck", "flightHours"]

  /** The message of the error thrown for a header that lacks one of the expected names. */
  const HeaderError: string :=
    "Invalid CSV format. Expected headers: tailNumber, model, lastCheck, nextCheck, flightHours"

  /** `values[k]`, which is `undefined` past the end of the row. */
  function Cell(values: seq<string>, k: nat): Option<string> {
    if k < |values| then Some(values[k]) else None
  }

  /** Every expected name appears among the header's columns, in any order and next to any
      other columns. */
  predicate ValidHeader(header: seq<string>) {
    forall h :: h in ExpectedHeaders ==> h in header
  }

  /** The lines of the upload: the trimmed text split at line feeds. */
  function Lines(text: string): (r: seq<string>)
    ensures |r| >= 1
  {
    Split(Trim(text), '\n')
  }

  /** A text that neither starts nor ends with whitespace. */
  predicate Trimmed(text: string) {
    text == [] || (!IsWhitespace(text[0]) && !IsWhitespace(text[|text| - 1]))
  }

  /** The lines of a text that `trim` leaves alone are its own line-feed pieces. */
  lemma LinesOfTrimmed(text: string)
    requires Trimmed(text)
    ensures Lines(text) == Split(text, '\n')
  {
    TrimKeeps(text);
  }

  /** One data line as a record: columns 0 to 3 by position (`undefined` when the row is
      shorter), and `parseInt` of column 4, which reads `undefined` as the text "undefined". */
  function ParseRecord(line: string): Aircraft {
    var values := Split(line, ';');
    Aircraft(values[0], Cell(values, 1), Cell(values, 2), Cell(values, 3),
             ParseInt(Cell(values, 4).GetOr("undefined")))
  }

  /** One record per data line, in order. */
  function ParseRecords(rows: seq<string>): (r: seq<Aircraft>)
    ensures |r| == |rows|
    ensures forall k :: 0 <= k < |rows| ==> r[k] == ParseRecord(rows[k])
  {
    seq(|rows|, k requires 0 <= k < |rows| => ParseRecord(rows[k]))
  }

  /** The header check on the first line, then one record per remaining line, in order. The
      thrown error becomes `Err` with its message. */
  function ParseLines(lines: seq<string>): (r: Result<seq<Aircraft>, string>)
    requires |lines| >= 1
    ensures r.Err? <==> !ValidHeader(Split(lines[0], ';'))
    ensures r.Err? ==> r.error == HeaderError
    ensures r.Ok? ==> |r.value| == |lines| - 1
  {
    var header := Split(lines[0], ';');
    if !ValidHeader(header) then Err(HeaderError)
    else Ok(ParseRecords(lines[1..]))
  }

  /** `parseCSV`: the lines of the trimmed text, parsed. */
  function ParseCsv(text: string): (r: Result<seq<Aircraft>, string>)
    ensures r.Err? <==> !ValidHeader(Split(Lines(text)[0], ';'))
    ensures r.Err? ==> r.error == HeaderError
    ensures r.Ok? ==> r.value == ParseRecords(Lines(text)[1..])
  {
    ParseLines(Lines(text))
  }

  /** A row's first five columns become the record's fields whatever follows them: columns
      past the fifth are ignored. */
  lemma RecordColumns(cells: seq<string>, extra: seq<string>)
    requires |cells| == 5
    requires forall k :: 0 <= k < |cells + extra| ==> ';' !in (cells + extra)[k]
    ensures ParseRecord(Join(cells + extra, ';'))
         == Aircraft(cells[0], Some(cells[1]), Some(cells[2]), Some(cells[3]), ParseInt(cells[4]))
  {
    SplitJoin(cells + extra, ';');
  }

  /** A row with fewer than five columns leaves the missing fields `undefined`, and the hours
      of a row without a fifth column are `NaN`. */
  lemma ShortRecord(line: string)
    requires |Split(line, ';')| < 5
    ensures var r := ParseRecord(line);
      (r.model.None? <==> |Split(line, ';')| < 2)
      && (r.lastCheck.None? <==> |Split(line, ';')| < 3)
      && (r.nextCheck.None? <==> |Split(line, ';')| < 4)
      && r.flightHours.None?
  {
    var u := "undefined";
    assert u[0] == 'u';
    ParseIntNoDigits(u);
  }

  /** The parse of a text laid out as a header line followed by data lines: it succeeds exactly
      when every expected name is among the header's columns, and then yields one record per
      data line, in order. */
  lemma ParseLinesOf(header: seq<string>, rows: seq<string>)
    requires |header| >= 1
    requires forall k :: 0 <= k < |header| ==> ';' !in header[k]
    ensures ParseLines([Join(header, ';')] + rows)
         == if ValidHeader(header) then Ok(ParseRecords(rows)) else Err(HeaderError)
  {
    SplitJoin(header, ';');
    assert ([Join(header, ';')] + rows)[1..] == rows;
  }

  /** The lines of a text laid out as a header line followed by data lines are those lines. */
  lemma LinesOf(text: string, header: seq<string>, rows: seq<string>)
    requires forall k :: 0 <= k < |header| ==> '\n' !in header[k]
    requires forall k :: 0 <= k < |rows| ==> '\n' !in rows[k]
    requires text == Join([Join(header, ';')] + rows, '\n') && Trimmed(text)
    ensures Lines(text) == [Join(header, ';')] + rows
  {
    var lines := [Join(header, ';')] + rows;
    JoinAvoids(header, ';', '\n');
    assert forall k :: 0 <= k < |lines| ==> '\n' !in lines[k];
    SplitJoin(lines, '\n');
    LinesOfTrimmed(text);
  }

  /** The parse of a text laid out as a header line followed by data lines: the header error
      exactly when an expected name is missing from the header's columns (whatever their order
      and whatever other columns there are), and otherwise one record per data line, in order. */
  lemma ParseLayout(text: string, header: seq<string>, rows: seq<string>)
    requires |header| >= 1
    requires forall k :: 0 <= k < |header| ==> ';' !in header[k] && '\n' !in header[k]
    requires forall k :: 0 <= k < |rows| ==> '\n' !in rows[k]
    requires text == Join([Join(header, ';')] + rows, '\n') && Trimmed(text)
    ensures ParseCsv(text)
         == if ValidHeader(header) then Ok(ParseRecords(rows))
            else Err(HeaderError)
  {
    ParseLinesOf(header, rows);
    LinesOf(text, header, rows);
  }

  /** Empty or whitespace-only text fails the header check. */
  lemma BlankInputFails(text: string)
    requires forall i :: 0 <= i < |text| ==> IsWhitespace(text[i])
    ensures ParseCsv(text) == Err(HeaderError)
  {
    TrimAllWhitespace(text);
    assert Lines(text) == [""];
    assert "tailNumber" !in Split("", ';');
  }

  /** The expected names as the first line of a file saved with CRLF line ends splits into:
      the last one keeps the carriage return. */
  const CrlfHeader: seq<string> := ["tailNumber", "model", "lastCheck", "nextCheck", "flightHours\r"]

  /** A header line whose last name still carries the carriage return of a CRLF file lacks
      "flightHours", so the file fails once a data line follows it. */
  lemma CrlfHeaderFails(rows: seq<string>)
    requires |rows| >= 1
    requires forall k :: 0 <= k < |rows| ==> '\n' !in rows[k]
    requires var last := rows[|rows| - 1]; last != [] && !IsWhitespace(last[|last| - 1])
    ensures ParseCsv(Join([Join(CrlfHeader, ';')] + rows, '\n')).Err?
  {
    CrlfHeaderCells();
    MissingNameFails(CrlfHeader, rows, "flightHours");
  }

  /** The CRLF header's names are clean cells, its first starts with a letter, and none of
      them is "flightHours". */
  lemma CrlfHeaderCells()
    ensures forall k :: 0 <= k < |CrlfHeader| ==> ';' !in CrlfHeader[k] && '\n' !in CrlfHeader[k]
    ensures CrlfHeader[0] != [] && !IsWhitespace(CrlfHeader[0][0])
    ensures "flightHours" !in CrlfHeader
  {
  }

  /** A file whose header lacks one of the expected names fails once a data line follows it. */
  lemma MissingNameFails(header: seq<string>, rows: seq<string>, name: string)
    requires |header| >= 1 && |rows| >= 1
    requires forall k :: 0 <= k < |header| ==> ';' !in header[k] && '\n' !in header[k]
    requires header[0] != [] && !IsWhitespace(header[0][0])
    requires forall k :: 0 <= k < |rows| ==> '\n' !in rows[k]
    requires var last := rows[|rows| - 1]; last != [] && !IsWhitespace(last[|last| - 1])
    requires name in ExpectedHeaders && name !in header
    ensures ParseCsv(Join([Join(header, ';')] + rows, '\n')).Err?
  {
    var text := Join([Join(header, ';')] + rows, '\n');
    JoinFirst(header, ';');
    JoinFirst([Join(header, ';')] + rows, '\n');
    JoinLast([Join(header, ';')] + rows, '\n');
    LinesOf(text, header, rows);
    ParseLinesOf(header, rows);
  }

  // ---------------------------------------------------------------------------------------
  // The documented format, and reading it back

  /** The header line of the documented format. */
  function HeaderLine(): string {
    Join(ExpectedHeaders, ';')
  }

  /** A cell text that the format can carry unchanged. */
  predicate CleanCell(s: string) {
    ';' !in s && '\n' !in s
  }

  /** A record every field of which is present and fits in a cell. */
  predicate Writable(a: Aircraft) {
    a.model.Some? && a.lastCheck.Some? && a.nextCheck.Some? && a.flightHours.Some?
    && CleanCell(a.tailNumber) && CleanCell(a.model.value)
    && CleanCell(a.lastCheck.value) && CleanCell(a.nextCheck.value)
  }

  /** The five cells of a record; a missing field is written as the empty cell, and `NaN`
      hours as "NaN". */
  function RecordCells(a: Aircraft): (r: seq<string>)
    ensures |r| == 5
  {
    [a.tailNumber, a.model.GetOr(""), a.lastCheck.GetOr(""), a.nextCheck.GetOr(""),
     match a.flightHours case Some(h) => IntToString(h) case None => "NaN"]
  }

  /** A record as one line of the documented format. */
  function RecordLine(a: Aircraft): string {
    Join(RecordCells(a), ';')
  }

  /** The data lines of a fleet, one per record. */
  function Rows(records: seq<Aircraft>): (r: seq<string>)
    ensures |r| == |records|
    ensures forall k :: 0 <= k < |records| ==> r[k] == RecordLine(records[k])
  {
    seq(|records|, k requires 0 <= k < |records| => RecordLine(records[k]))
  }

  /** A fleet in the documented format: the header line, then one line per record. */
  function Serialize(records: seq<Aircraft>): string {
    Join([HeaderLine()] + Rows(records), '\n')
  }

  /** A header line followed by data lines is left alone by `trim` when its first and last
      characters are not whitespace. */
  lemma LayoutTrimmed(header: seq<string>, rows: seq<string>)
    requires |header| >= 1 && header[0] != [] && !IsWhitespace(header[0][0])
    requires var last := if rows == [] then header[|header| - 1] else rows[|rows| - 1];
      last != [] && !IsWhitespace(last[|last| - 1])
    ensures Trimmed(Join([Join(header, ';')] + rows, '\n'))
  {
    var lines := [Join(header, ';')] + rows;
    JoinFirst(header, ';');
    JoinFirst(lines, '\n');
    if rows == [] {
      JoinLast(header, ';');
    }
    JoinLast(lines, '\n');
  }

  /** `trim` leaves a written fleet alone. */
  lemma SerializeTrimmed(records: seq<Aircraft>)
    requires forall k :: 0 <= k < |records| ==> Writable(records[k])
    ensures Trimmed(Serialize(records))
  {
    ExpectedHeaderCells();
    var rows := Rows(records);
    if |records| > 0 {
      var last := records[|records| - 1];
      RecordLineShape(last);
      assert rows[|rows| - 1] == RecordLine(last);
    }
    LayoutTrimmed(ExpectedHeaders, rows);
  }

  /** The expected names are clean cells that start and end with a letter. */
  lemma ExpectedHeaderCells()
    ensures |ExpectedHeaders| == 5
    ensures forall k :: 0 <= k < 5 ==> ';' !in ExpectedHeaders[k] && '\n' !in ExpectedHeaders[k]
    ensures ExpectedHeaders[0] != [] && !IsWhitespace(ExpectedHeaders[0][0])
    ensures ExpectedHeaders[4] != [] && !IsWhitespace(ExpectedHeaders[4][|ExpectedHeaders[4]| - 1])
  {
  }

  /** Round trip: the parser reads a written fleet back exactly. */
  lemma ParseSerialize(records: seq<Aircraft>)
    requires forall k :: 0 <= k < |records| ==> Writable(records[k])
    ensures ParseCsv(Serialize(records)) == Ok(records)
  {
    RowsReadBack(records);
    SerializeTrimmed(records);
    ExpectedHeaderCells();
    ParseLayout(Serialize(records), ExpectedHeaders, Rows(records));
  }

  /** The data lines of a written fleet are single lines that parse back to the records. */
  lemma RowsReadBack(records: seq<Aircraft>)
    requires forall k :: 0 <= k < |records| ==> Writable(records[k])
    ensures forall k :: 0 <= k < |records| ==> '\n' !in Rows(records)[k]
    ensures ParseRecords(Rows(records)) == records
  {
    forall k | 0 <= k < |records|
      ensures '\n' !in Rows(records)[k] && ParseRecord(Rows(records)[k]) == records[k]
    {
      RecordLineShape(records[k]);
      RecordLineReadsBack(records[k]);
    }
  }

  /** The decimal rendering of an integer is made of digits and a leading minus sign only. */
  lemma IntToStringChars(n: int)
    ensures forall i :: 0 <= i < |IntToString(n)| ==> IntToString(n)[i] == '-' || IsDigit(IntToString(n)[i])
  {
    if n < 0 {
      assert IntToString(n)[1..] == NatToString(-n);
    }
  }

  /** A written record is one line, and it ends in a digit of its hours. */
  lemma RecordLineShape(a: Aircraft)
    requires Writable(a)
    ensures '\n' !in RecordLine(a)
    ensures RecordLine(a) != [] && IsDigit(RecordLine(a)[|RecordLine(a)| - 1])
  {
    var cells := RecordCells(a);
    IntToStringChars(a.flightHours.value);
    assert '\n' !in cells[4];
    JoinAvoids(cells, ';', '\n');
    JoinLast(cells, ';');
  }

  /** A written record parses back to the record. */
  lemma RecordLineReadsBack(a: Aircraft)
    requires Writable(a)
    ensures ParseRecord(RecordLine(a)) == a
  {
    var cells := RecordCells(a);
    var hours := IntToString(a.flightHours.value);
    IntToStringChars(a.flightHours.value);
    assert ';' !in cells[4];
    RecordColumns(cells, []);
    assert cells + [] == cells;
    ParseIntOfIntToString(a.flightHours.value, "");
    assert hours + "" == hours;
  }


  // ---------------------------------------------------------------------------------------
  // The sample fleet

  /** The twelve records of the built-in sample. */
  function SampleData(): (r: seq<Aircraft>)
    ensures |r| == 12
  {
    [ Aircraft("SA8880", Some("Airbus A330"), Some("2024-09-24"), Some("2026-03-27"), Some(2847)),
      Aircraft("KE2815", Some("Airbus A350"), Some("2025-01-30"), Some("2026-01-28"), Some(3714)),
      Aircraft("DL6343", Some("Airbus A350"), Some("2024-08-16"), Some("2025-07-11"), Some(1122)),
      Aircraft("QR5924", Some("Airbus A320"), Some("2024-08-14"), Some("2025-07-19"), Some(1289)),
      Aircraft("AF1454", Some("Boeing 737"), Some("2025-01-19"), Some("2025-11-20"), Some(4439)),
      Aircraft("ET4010", Some("Boeing 747"), Some("2024-11-17"), Some("2026-01-28"), Some(883)),
      Aircraft("SK3823", Some("Airbus A330"), Some("2024-12-12"), Some("2026-01-13"), Some(1723)),
      Aircraft("LA9571", Some("Airbus A330"), Some("2024-06-26"), Some("2025-06-12"), Some(137)),
      Aircraft("AA7291", Some("Airbus A320"), Some("2024-09-09"), Some("2025-06-06"), Some(4763)),
      Aircraft("BA8817", Some("Boeing 737"), Some("2024-10-12"), Some("2025-11-26"), Some(1935)),
      Aircraft("AF8764", Some("Boeing 747"), Some("2025-04-15"), Some("2026-02-04"), Some(1537)),
      Aircraft("WN2726", Some("Airbus A320"), Some("2025-03-09"), Some("2025-12-13"), Some(4444)) ]
  }

  /** The sample's tail numbers are pairwise distinct. */
  lemma SampleTailNumbersDistinct()
    ensures forall j, k :: 0 <= j < k < |SampleData()| ==> SampleData()[j].tailNumber != SampleData()[k].tailNumber
  {
  }

  // ---------------------------------------------------------------------------------------
  // The upload card's state

  /** A call the card makes to its parent: the parsed fleet, or the upload-success signal. */
  datatype Callback = DataLoad(records: seq<Aircraft>) | UploadSuccess

  /** The outcome of reading the chosen file: its text, or a failure that may carry an error
      message (`None` when what was thrown is not an `Error`). */
  datatype FileRead = Text(text: string) | ReadFailure(message: Option<string>)

  /** The message shown when what was caught carries none. */
  const FallbackError: string := "Failed to parse CSV file"

  class Uploader {
    var isLoading: bool
    var error: Option<string>
    /** The callbacks made so far, oldest first. */
    var emitted: seq<Callback>

    constructor()
      ensures !isLoading && error == None && emitted == []
    {
      isLoading := false;
      error := None;
      emitted := [];
    }

    /** `handleFileUpload`: nothing happens without a file; otherwise the error is cleared, the
        text is parsed, and either the fleet and the success signal go to the parent, in that
        order, or the error message is kept. Loading ends either way. */
    method HandleFileUpload(file: Option<FileRead>)
      modifies this
      ensures file.None? ==> isLoading == old(isLoading) && error == old(error) && emitted == old(emitted)
      ensures file.Some? ==> !isLoading
      ensures file.Some? && file.value.ReadFailure? ==>
        error == Some(file.value.message.GetOr(FallbackError)) && emitted == old(emitted)
      ensures file.Some? && file.value.Text? && ParseCsv(file.value.text).Err? ==>
        error == Some(HeaderError) && emitted == old(emitted)
      ensures file.Some? && file.value.Text? && ParseCsv(file.value.text).Ok? ==>
        error == None && emitted == old(emitted) + [DataLoad(ParseCsv(file.value.text).value), UploadSuccess]
    {
      if file.None? {
        return;
      }
      isLoading := true;
      error := None;
      match file.value {
        case ReadFailure(message) =>
          error := Some(message.GetOr(FallbackError));
        case Text(text) =>
          var parsed := ParseCsv(text);
          match parsed {
            case Err(message) =>
              error := Some(message);
            case Ok(aircraft) =>
              emitted := emitted + [DataLoad(aircraft)];
              emitted := emitted + [UploadSuccess];
          }
      }
      isLoading := false;
    }

    /** `loadSampleData`: the sample fleet goes to the parent, without the success signal. */
    method LoadSampleData()
      modifies this
      ensures emitted == old(emitted) + [DataLoad(SampleData())]
      ensures isLoading == old(isLoading) && error == old(error)
    {
      emitted := emitted + [DataLoad(SampleData())];
    }
  }
}
