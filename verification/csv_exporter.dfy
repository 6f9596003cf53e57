/**
 * The CSV exporter: it keeps a file writer, a sequence counter and a
 * header flag, goes through `open`, any number of `export`s and `close`,
 * and appends one comma-separated line per in-scope record to the file
 * `zeebe_events.csv`.
 */
module CsvExport {
  import opened Options
  import opened Strings
  import opened Decimal
  import opened Records
  import opened JsonScan

  /** The delimiter handed to `String.join`. */
  const Delimiter: char := ','

  /** `System.lineSeparator()`, taken as fixed. */
  const LineSeparator: string := "\n"

  const SequenceColumn: string := "sequence"
  const TimestampColumn: string := "timestamp"
  const KeyColumn: string := "value.processInstanceKey"
  const ElementIdColumn: string := "value.elementId"
  const IntentColumn: string := "intent"

  /** The five names, as written in the header and as looked for by the header check. */
  const HeaderColumns: seq<string> :=
    [SequenceColumn, TimestampColumn, KeyColumn, ElementIdColumn, IntentColumn]

  /** `sequence,timestamp,value.processInstanceKey,value.elementId,intent` */
  const HeaderLine: string := Join(HeaderColumns, Delimiter)

  // ---------------------------------------------------------------------
  // The sequence counter: a Java int, incremented with wrap-around.

  type Int32 = x: int | -0x8000_0000 <= x < 0x8000_0000

  /**
   * `AtomicInteger.incrementAndGet()`: one more, modulo 2^32 (the one
   * value in the int range congruent to it), so the largest int is
   * followed by the smallest.
   */
  function IncrementAndGet(x: Int32): (r: Int32)
    ensures r == x + 1 || r == x + 1 - 0x1_0000_0000
    ensures x < 0x7fff_ffff ==> r > x
  {
    if x == 0x7fff_ffff then -0x8000_0000 else x + 1
  }

  /** The int a counter holds after `n` increments from 0. */
  function Wrap32(n: nat): Int32
  {
    var m := n % 0x1_0000_0000;
    if m < 0x8000_0000 then m else m - 0x1_0000_0000
  }

  lemma IncrementWrap32(n: nat)
    ensures IncrementAndGet(Wrap32(n)) == Wrap32(n + 1)
  {
    var m := n % 0x1_0000_0000;
    var q := n / 0x1_0000_0000;
    assert n + 1 == q * 0x1_0000_0000 + (m + 1);
    if m + 1 == 0x1_0000_0000 {
      assert n + 1 == (q + 1) * 0x1_0000_0000;
      assert (n + 1) % 0x1_0000_0000 == 0;
    } else {
      assert (n + 1) % 0x1_0000_0000 == m + 1;
    }
  }

  /** Below 2^31 the counter holds exactly the number of increments. */
  lemma Wrap32Small(n: nat)
    requires n < 0x8000_0000
    ensures Wrap32(n) == n
  {
  }

  // ---------------------------------------------------------------------
  // The classifier.

  /**
   * The three process-instance intents the exporter writes rows for: only
   * process-instance intents named ELEMENT_ACTIVATED, ELEMENT_COMPLETED or
   * SEQUENCE_FLOW_TAKEN pass; an intent of any other enum never does, even
   * one carrying the same name.
   */
  predicate AllowedIntent(i: Intent)
    ensures AllowedIntent(i) <==>
      i.ProcessInstance? && i.Name() in {"ELEMENT_ACTIVATED", "ELEMENT_COMPLETED", "SEQUENCE_FLOW_TAKEN"}
  {
    || i == ProcessInstance(ElementActivated)
    || i == ProcessInstance(ElementCompleted)
    || i == ProcessInstance(SequenceFlowTaken)
  }

  /** A record gets a row when its intent is allowed and its value is not null. */
  predicate InScope(r: Record)
    ensures InScope(r) <==>
      && r.value.Some? && r.intent.ProcessInstance?
      && r.intent.pi in {ElementActivated, ElementCompleted, SequenceFlowTaken}
  {
    AllowedIntent(r.intent) && r.value.Some?
  }

  // ---------------------------------------------------------------------
  // The header check.

  /**
   * The first line names every column the exporter writes (by containment):
   * the five names checked are exactly the five written in the header.
   */
  predicate HeaderCheck(line: string)
    ensures HeaderCheck(line) <==> forall c :: c in HeaderColumns ==> Contains(line, c)
  {
    && Contains(line, SequenceColumn)
    && Contains(line, TimestampColumn)
    && Contains(line, KeyColumn)
    && Contains(line, ElementIdColumn)
    && Contains(line, IntentColumn)
  }

  /**
   * `fileHasHeaders()`: false for a missing file and for an empty one
   * (`readLine()` returns null); otherwise the check on the first line.
   */
  function FileHasHeaders(present: bool, lines: seq<string>): (b: bool)
    ensures b ==> present && |lines| > 0
  {
    if !present then false
    else if |lines| == 0 then false
    else HeaderCheck(lines[0])
  }

  lemma FileHasHeadersIff(present: bool, lines: seq<string>)
    ensures FileHasHeaders(present, lines) <==>
      present && |lines| > 0 && forall c :: c in HeaderColumns ==> exists k :: OccursAt(lines[0], c, k)
  {
    if present && |lines| > 0 {
      var line := lines[0];
      assert HeaderCheck(line) <==> forall c :: c in HeaderColumns ==> Contains(line, c);
    }
  }

  /** The header line the exporter writes passes its own check. */
  lemma HeaderLinePassesCheck()
    ensures HeaderCheck(HeaderLine)
  {
    forall i | 0 <= i < |HeaderColumns|
      ensures Contains(HeaderLine, HeaderColumns[i])
    {
      PartOccursInJoin(HeaderColumns, Delimiter, i);
    }
  }

  /**
   * A file whose first line fails the check keeps failing it after the
   * header is appended at its end: every later open appends the header
   * once more.
   */
  lemma HeaderlessFileStaysHeaderless(lines: seq<string>)
    requires |lines| > 0 && !HeaderCheck(lines[0])
    ensures !FileHasHeaders(true, lines + [HeaderLine])
  {
    assert (lines + [HeaderLine])[0] == lines[0];
  }

  /** A file whose first line is the header passes the check, whatever follows. */
  lemma HeaderFirstPassesCheck(lines: seq<string>)
    requires |lines| > 0 && lines[0] == HeaderLine
    ensures FileHasHeaders(true, lines)
  {
    HeaderLinePassesCheck();
  }

  // ---------------------------------------------------------------------
  // Rows.

  /** The element id and the intent scanned from `toJson()`; none when it threw. */
  function Scanned(json: Option<string>): (r: (Option<string>, Option<string>))
    ensures json.None? ==> r == (None, None)
    ensures r.0.Some? ==> '"' !in r.0.value
    ensures r.1.Some? ==> '"' !in r.1.value
    ensures json.Some? ==> r == ExtractedFields(json.value)
  {
    match json
    case None => (None, None)
    case Some(text) => ExtractedFields(text)
  }

  /**
   * The element id and intent columns: the scanned text where the scan
   * found one, `""` where it did not (`elementId != null ? elementId : ""`).
   */
  function ScannedColumns(json: Option<string>): (cols: (string, string))
    ensures var scanned := Scanned(json);
      && (scanned.0.Some? ==> cols.0 == scanned.0.value) && (scanned.0.None? ==> cols.0 == "")
      && (scanned.1.Some? ==> cols.1 == scanned.1.value) && (scanned.1.None? ==> cols.1 == "")
    ensures '"' !in cols.0 && '"' !in cols.1
    ensures json.None? ==> cols == ("", "")
  {
    var scanned := Scanned(json);
    (scanned.0.GetOr(""), scanned.1.GetOr(""))
  }

  /**
   * The five fields of a record's row: the sequence number, the rendered
   * timestamp, the record's own key (the column is headed
   * `value.processInstanceKey`, but it is filled from the record key),
   * and the scanned element id and intent, `""` when not found.
   */
  function DataFields(seqNo: Int32, r: Record, instantText: Long -> string): (fields: seq<string>)
    ensures |fields| == 5
    ensures fields[0] == IntToString(seqNo) && ParseInt(fields[0]) == seqNo
    ensures fields[1] == instantText(r.timestamp)
    ensures fields[2] == IntToString(r.key) && ParseInt(fields[2]) == r.key
    ensures (fields[3], fields[4]) == ScannedColumns(r.json)
  {
    [IntToString(seqNo), instantText(r.timestamp), IntToString(r.key),
     ScannedColumns(r.json).0, ScannedColumns(r.json).1]
  }

  /**
   * The ordinary case: in the JSON text of a record, the first
   * `"elementId":"` of the value segment is followed by `x` and a quote, and
   * the first `"intent":"` of the whole text by `y` and a quote; the row then
   * carries `x` and `y` in its last two columns.
   */
  lemma RowCarriesScannedFields(seqNo: Int32, r: Record, instantText: Long -> string,
                                segment: string, p: int, x: string, q: int, y: string)
    requires r.json.Some? && ValueSegment(r.json.value) == Some(segment)
    requires OccursAt(segment, ElementIdMarker, p)
    requires forall j :: 0 <= j < p ==> !OccursAt(segment, ElementIdMarker, j)
    requires p + 13 + |x| < |segment| && segment[p + 13..p + 13 + |x|] == x
    requires segment[p + 13 + |x|] == '"' && '"' !in x
    requires OccursAt(r.json.value, IntentMarker, q)
    requires forall j :: 0 <= j < q ==> !OccursAt(r.json.value, IntentMarker, j)
    requires q + 10 + |y| < |r.json.value| && r.json.value[q + 10..q + 10 + |y|] == y
    requires r.json.value[q + 10 + |y|] == '"' && '"' !in y
    ensures DataFields(seqNo, r, instantText)[3] == x
    ensures DataFields(seqNo, r, instantText)[4] == y
  {
    ElementIdFound(r.json.value, segment, p, x);
    IntentFound(r.json.value, q, y);
  }

  /**
   * The line written for a record: its five fields joined by commas. It
   * starts with the sequence number, and holds exactly four commas when the
   * timestamp and the scanned fields hold none.
   */
  function DataRow(seqNo: Int32, r: Record, instantText: Long -> string): (row: string)
    ensures |IntToString(seqNo)| <= |row| && row[..|IntToString(seqNo)|] == IntToString(seqNo)
    ensures (forall i :: 1 <= i < 5 && i != 2 ==> Delimiter !in DataFields(seqNo, r, instantText)[i]) ==>
      multiset(row)[Delimiter] == 4
  {
    var fields := DataFields(seqNo, r, instantText);
    IntToStringHasNoDelimiter(seqNo, Delimiter);
    IntToStringHasNoDelimiter(r.key, Delimiter);
    JoinDelimiterCount(fields, Delimiter);
    Join(fields, Delimiter)
  }

  /**
   * Reading a row back by splitting at commas gives its five fields,
   * whenever the timestamp and the scanned fields hold no comma (the two
   * numeric fields never do).
   */
  lemma DataRowRoundTrip(seqNo: Int32, r: Record, instantText: Long -> string)
    requires forall i :: 1 <= i < 5 && i != 2 ==> Delimiter !in DataFields(seqNo, r, instantText)[i]
    ensures Split(DataRow(seqNo, r, instantText), Delimiter) == DataFields(seqNo, r, instantText)
  {
    var fields := DataFields(seqNo, r, instantText);
    IntToStringHasNoDelimiter(seqNo, Delimiter);
    IntToStringHasNoDelimiter(r.key, Delimiter);
    SplitJoin(fields, Delimiter);
  }

  /** The first column read back from the row with the `n`th sequence number is `n`. */
  lemma SequenceColumnReadsBack(n: nat, r: Record, instantText: Long -> string)
    requires 1 <= n < 0x8000_0000
    ensures ParseInt(Split(DataRow(Wrap32(n), r, instantText), Delimiter)[0]) == n
  {
    Wrap32Small(n);
    var fields := DataFields(n, r, instantText);
    IntToStringHasNoDelimiter(n, Delimiter);
    var rest := Join(fields[1..], Delimiter);
    assert DataRow(n, r, instantText) == fields[0] + [Delimiter] + rest;
    FirstField(fields[0], Delimiter, rest);
  }

  // ---------------------------------------------------------------------
  // The file.

  /** The characters of a file made of `lines`, each followed by the line separator. */
  function Text(lines: seq<string>): (text: string)
    ensures text == "" <==> lines == []
    ensures lines != [] ==> |lines[0]| < |text| && text[..|lines[0]|] == lines[0]
  {
    if lines == [] then "" else lines[0] + LineSeparator + Text(lines[1..])
  }

  lemma {:induction false} TextAppend(lines: seq<string>, line: string)
    ensures Text(lines + [line]) == Text(lines) + line + LineSeparator
  {
    if lines != [] {
      assert (lines + [line])[1..] == lines[1..] + [line];
      TextAppend(lines[1..], line);
    }
  }

  /** With no separator inside a line, the text holds one separator per line. */
  lemma {:induction false} TextLineCount(lines: seq<string>)
    requires forall i :: 0 <= i < |lines| ==> '\n' !in lines[i]
    ensures multiset(Text(lines))['\n'] == |lines|
  {
    if lines != [] {
      TextLineCount(lines[1..]);
      assert multiset(lines[0] + LineSeparator + Text(lines[1..]))
        == multiset(lines[0]) + multiset(LineSeparator) + multiset(Text(lines[1..]));
    }
  }

  predicate IsLineTerminator(c: char)
  {
    c == '\n' || c == '\r'
  }

  /** The index of the first line terminator at or after `from`, or the end of `s`. */
  function LineEnd(s: string, from: nat): (k: nat)
    requires from <= |s|
    decreases |s| - from
    ensures from <= k <= |s|
    ensures k < |s| ==> IsLineTerminator(s[k])
    ensures forall j :: from <= j < k ==> !IsLineTerminator(s[j])
  {
    if from == |s| then from
    else if IsLineTerminator(s[from]) then from
    else LineEnd(s, from + 1)
  }

  /**
   * `BufferedReader.readLine()` on a fresh reader: null on an empty file,
   * otherwise the characters before the first line terminator.
   */
  function ReadFirstLine(text: string): (line: Option<string>)
    ensures line.None? <==> text == []
    ensures line.Some? ==>
      && |line.value| <= |text| && text[..|line.value|] == line.value
      && (forall j :: 0 <= j < |line.value| ==> !IsLineTerminator(line.value[j]))
      && (|line.value| < |text| ==> IsLineTerminator(text[|line.value|]))
  {
    if text == [] then None else Some(text[..LineEnd(text, 0)])
  }

  /**
   * Reading the first line of a file's text gives its first line, or null
   * for a file with none, as long as that line holds no terminator: the
   * header check can be read off the lines.
   */
  lemma FirstLineOfText(lines: seq<string>)
    requires |lines| > 0 ==> forall j :: 0 <= j < |lines[0]| ==> !IsLineTerminator(lines[0][j])
    ensures ReadFirstLine(Text(lines)) == if lines == [] then None else Some(lines[0])
  {
    if lines != [] {
      var text := Text(lines);
      var first := lines[0];
      assert text == first + LineSeparator + Text(lines[1..]);
      assert text[|first|] == '\n';
      assert forall j :: 0 <= j < |first| ==> text[j] == first[j];
      assert LineEnd(text, 0) == |first|;
      assert text[..|first|] == first;
    }
  }

  /** The file at the exporter's path: whether it exists, and its lines. */
  class CsvFile {
    var present: bool
    var lines: seq<string>

    /** A missing file has no lines. */
    ghost predicate Valid()
      reads this
    {
      !present ==> lines == []
    }

    constructor (present: bool, lines: seq<string>)
      requires !present ==> lines == []
      ensures Valid()
      ensures this.present == present && this.lines == lines
    {
      this.present := present;
      this.lines := lines;
    }

    /** Opening a writer in append mode creates a missing file, empty, and leaves an existing one as it is. */
    method Create()
      requires Valid()
      modifies this
      ensures Valid()
      ensures present && lines == old(lines)
    {
      present := true;
    }

    /** Append one line and its separator. */
    method Append(line: string)
      requires Valid() && present
      modifies this`lines
      ensures Valid()
      ensures lines == old(lines) + [line]
      ensures Text(lines) == old(Text(lines)) + line + LineSeparator
    {
      TextAppend(lines, line);
      lines := lines + [line];
    }
  }

  /**
   * The exporter's `fileWriter`: never created (null), open, or closed.
   * `close()` does not reset the field, so a closed writer stays there.
   */
  datatype WriterState = NoWriter | Opened | Closed

  /**
   * How a `write` on the writer ends: it appends, a closed writer throws
   * an IOException, a null writer a NullPointerException.
   */
  datatype WriteResult = Written | IoFailure | NullPointer

  function WriteResultFor(w: WriterState): WriteResult
  {
    match w
    case Opened => Written
    case Closed => IoFailure
    case NoWriter => NullPointer
  }

  /**
   * How `export` ends: the record is skipped, its row is appended, the
   * write failed with an IOException (caught and reported), or a
   * NullPointerException escaped because `open` never created a writer.
   */
  datatype ExportOutcome = Skipped | Appended | WriteFailed | NullWriter

  function OutcomeOf(res: WriteResult): ExportOutcome
  {
    match res
    case Written => Appended
    case IoFailure => WriteFailed
    case NullPointer => NullWriter
  }

  class CsvExporter {
    const file: CsvFile
    /** `Instant.ofEpochMilli(t).toString()`, the ISO-8601 rendering. */
    const instantText: Long -> string
    var writer: WriterState
    var sequence: Int32
    var headerWritten: bool
    /** How many times the sequence counter has been incremented. */
    ghost var issued: nat

    ghost predicate Valid()
      reads this, file
    {
      && file.Valid()
      && (writer == Opened ==> file.present)
      && sequence == Wrap32(issued)
    }

    /** A new exporter: counter 0, no writer, no header written. */
    constructor (file: CsvFile, instantText: Long -> string)
      requires file.Valid()
      ensures Valid()
      ensures this.file == file && this.instantText == instantText
      ensures writer == NoWriter && sequence == 0 && issued == 0 && !headerWritten
    {
      this.file := file;
      this.instantText := instantText;
      writer := NoWriter;
      sequence := 0;
      issued := 0;
      headerWritten := false;
    }

    /**
     * `open`: create the writer (`canCreate` is false when the
     * environment makes that throw, and then nothing changes), then write
     * the header unless the file already passes the header check. The
     * `!file.exists()` test always fails at that point, because the writer
     * has just created the file, so the check alone decides; and since a
     * missing file has no lines the decision can be read off the file as
     * it was before the call.
     */
    method Open(canCreate: bool)
      requires Valid()
      modifies this`writer, this`headerWritten, file
      ensures Valid()
      ensures sequence == old(sequence) && issued == old(issued)
      ensures !canCreate ==>
        && writer == old(writer) && headerWritten == old(headerWritten)
        && file.present == old(file.present) && file.lines == old(file.lines)
      ensures canCreate ==>
        var needsHeader := !FileHasHeaders(old(file.present), old(file.lines));
        && writer == Opened && file.present
        && file.lines == old(file.lines) + (if needsHeader then [HeaderLine] else [])
        && headerWritten == (old(headerWritten) || needsHeader)
    {
      if canCreate {
        file.Create();
        writer := Opened;
        if !file.present || !FileHasHeaders(file.present, file.lines) {
          var _ := WriteCsvRecord(HeaderColumns);
          headerWritten := true;
        }
      }
    }

    /**
     * `export`: a record outside the allow-list, or with a null value, is
     * skipped and changes nothing. Any other record takes the next
     * sequence number and has its row written, including when `toJson()`
     * throws (the key is already set, and the scanned fields become
     * `""`). The number is taken before the write, so it is used up even
     * when the write fails.
     */
    method Export(r: Record) returns (outcome: ExportOutcome)
      requires Valid()
      modifies this`sequence, this`issued, file`lines
      ensures Valid()
      ensures writer == old(writer) && headerWritten == old(headerWritten)
      ensures !InScope(r) ==>
        outcome == Skipped && sequence == old(sequence) && issued == old(issued) && file.lines == old(file.lines)
      ensures InScope(r) ==>
        && issued == old(issued) + 1 && sequence == IncrementAndGet(old(sequence))
        && outcome == OutcomeOf(WriteResultFor(writer))
        && file.lines == old(file.lines) + (if writer == Opened then [DataRow(sequence, r, instantText)] else [])
    {
      var processInstanceKey: Option<string> := None;
      var elementId: Option<string> := None;
      var intentText: Option<string> := None;
      if AllowedIntent(r.intent) {
        if r.value.Some? {
          processInstanceKey := Some(IntToString(r.key));
          match r.json {
            case None =>
            case Some(json) =>
              var scanned := ExtractedFields(json);
              elementId := scanned.0;
              intentText := scanned.1;
          }
        }
      }
      if processInstanceKey.Some? {
        IncrementWrap32(issued);
        sequence := IncrementAndGet(sequence);
        issued := issued + 1;
        var res := WriteCsvRecord(
          [IntToString(sequence), instantText(r.timestamp), processInstanceKey.value,
           elementId.GetOr(""), intentText.GetOr("")]);
        outcome := OutcomeOf(res);
      } else {
        outcome := Skipped;
      }
    }

    /** `close`: an open writer is flushed and closed; otherwise nothing happens. */
    method Close()
      requires Valid()
      modifies this`writer
      ensures Valid()
      ensures writer == (if old(writer) == Opened then Closed else old(writer))
    {
      if writer == Opened {
        writer := Closed;
      }
    }

    /** `writeCsvRecord`: the five values joined by commas, as one line. */
    method WriteCsvRecord(values: seq<string>) returns (res: WriteResult)
      requires Valid()
      requires |values| == 5
      modifies file`lines
      ensures Valid()
      ensures res == WriteResultFor(writer)
      ensures file.lines == old(file.lines) + (if writer == Opened then [Join(values, Delimiter)] else [])
    {
      res := WriteLine(Join(values, Delimiter));
    }

    /** `writeLine`: the line, then the line separator. */
    method WriteLine(line: string) returns (res: WriteResult)
      requires Valid()
      modifies file`lines
      ensures Valid()
      ensures res == WriteResultFor(writer)
      ensures file.lines == old(file.lines) + (if writer == Opened then [line] else [])
      ensures writer == Opened ==> Text(file.lines) == old(Text(file.lines)) + line + LineSeparator
    {
      match writer {
        case NoWriter =>
          res := NullPointer;
        case Closed =>
          res := IoFailure;
        case Opened =>
          file.Append(line);
          res := Written;
      }
    }
  }

  /**
   * One exporter instance on a file that is missing or starts with the
   * header: open, export one in-scope record, close. The header is written
   * only when the file was missing, and the row carries sequence number 1.
   */
  method OneSession(file: CsvFile, instantText: Long -> string, r: Record)
    requires file.Valid() && (file.present ==> |file.lines| > 0 && file.lines[0] == HeaderLine)
    requires InScope(r)
    modifies file
    ensures file.Valid() && file.present
    ensures file.lines == (if old(file.present) then old(file.lines) else [HeaderLine]) + [DataRow(1, r, instantText)]
  {
    if file.present {
      HeaderFirstPassesCheck(file.lines);
    }
    var exporter := new CsvExporter(file, instantText);
    exporter.Open(true);
    var before := file.lines;
    assert before == (if old(file.present) then old(file.lines) else [HeaderLine]);
    var _ := exporter.Export(r);
    assert exporter.sequence == 1;
    exporter.Close();
  }

  /**
   * Two exporter instances, one after the other, on a file that did not
   * exist: the first writes the header and its row; the second finds the
   * header and adds only its row. Each instance numbers its rows from 1.
   */
  method TwoSessions(file: CsvFile, instantText: Long -> string, a: Record, b: Record)
    requires file.Valid() && !file.present
    requires InScope(a) && InScope(b)
    modifies file
    ensures file.lines == [HeaderLine, DataRow(1, a, instantText), DataRow(1, b, instantText)]
  {
    OneSession(file, instantText, a);
    OneSession(file, instantText, b);
  }
}
