# A verified model of a Zeebe CSV exporter

The exporter receives the records of the Zeebe workflow engine one at a
time and appends a comma-separated projection of some of them to the file
`zeebe_events.csv`. It has two parts, and the model has one module for each,
plus five helper modules:

- `CsvExport` (`csv_exporter.dfy`): the `CsvExporter` class and its life cycle
  `open`, `export`*, `close`. It holds the file writer (`NoWriter`, `Opened`
  or `Closed`), an int sequence counter with Java wrap-around, and the
  `headerWritten` flag. `open` appends the header
  `sequence,timestamp,value.processInstanceKey,value.elementId,intent` unless
  the first line of the file already contains those five names. `export`
  writes a row only for the process-instance intents ELEMENT_ACTIVATED,
  ELEMENT_COMPLETED and SEQUENCE_FLOW_TAKEN with a non-null value. The row
  holds the next sequence number, the timestamp, the record key, and an
  element id and intent cut out of the record's JSON text. The file is a
  `CsvFile` object (an exists flag and a sequence of lines). It outlives
  exporter instances, so a reopen can be described.
- `ZeebeEvents` (`zeebe_event.dfy`): the `ZeebeEvent` object. It maps a
  record whose value is a process instance or a variable onto twelve string
  fields. `Project` is the mapping as a function with an exhaustive match.
  The class has the twelve fields, a constructor tied to `Project`, and a
  getter and a setter per field.
- `JsonScan` (`json_scan.dfy`): the `indexOf`/`substring` scanning of the JSON
  text, kept as written. The guards on the scan starts (`valueStart > 0`,
  `elementIdStart > 0`, `intentStart > 0`) can never fail; only the guards on
  the ends reject, when no stop character follows the start. A missing marker
  therefore makes the scan start at a fixed offset instead of skipping the
  field: `ElementIdFromKeyTail` shows a record whose element id comes out as
  `sId`.
- `Strings` and `Options` (`strings.dfy`): `indexOf`, `contains`,
  `String.join`, a splitter that reads joined lines back, and `Option` for
  nullable references.
- `Decimal` (`decimal.dfy`): `String.valueOf` on integers and its inverse.
- `Records` (`records.dfy`): records, intents, value types and the value
  variants.

Some facts about the code worth stating up front:
- the file has five columns, joined by a fixed `,`;
- only three process-instance intents are exported, and no variable intents;
- the header check looks for the five column names on the first line;
- the writer is flushed only in `close`, not after every row;
- the `value.processInstanceKey` column holds the record key (`getKey()`),
  not the value's process instance key.

## Model

| member | source | states |
|---|---|---|
| Strings.IndexOfFrom | src/main/java/com/example/zeebe/CsvExporter.java:99-112 | the search behind `indexOf(pat)`: from `from` on, -1 exactly when `pat` occurs nowhere at or after `from`, otherwise the least such occurrence |
| Strings.IndexOf | src/main/java/com/example/zeebe/CsvExporter.java:99-112 | `indexOf(pat)` is never below -1; it is -1 exactly when `pat` occurs nowhere, otherwise the first occurrence |
| Strings.IndexOfChar | src/main/java/com/example/zeebe/CsvExporter.java:100-113 | `indexOf(c, from)` returns -1 exactly when no `c` lies at or after `from`, otherwise the least index holding `c` |
| Strings.Contains | src/main/java/com/example/zeebe/CsvExporter.java:42-46 | `contains` holds exactly when some index is an occurrence |
| Strings.Join | src/main/java/com/example/zeebe/CsvExporter.java:151 | `String.join` output starts with the first part |
| Strings.JoinDelimiterCount | src/main/java/com/example/zeebe/CsvExporter.java:151 | when no part holds the delimiter, the joined line holds exactly one delimiter fewer than there are parts |
| Strings.Split | src/main/java/com/example/zeebe/CsvExporter.java:151 | reading a line back: at least one field, and no field holds the delimiter |
| Strings.SplitJoin | src/main/java/com/example/zeebe/CsvExporter.java:151 | splitting a `String.join` line gives back exactly the joined parts when none holds the delimiter |
| Strings.JoinSplit | src/main/java/com/example/zeebe/CsvExporter.java:151 | joining the split fields restores the line, so splitting loses nothing |
| Strings.PartOccursInJoin | src/main/java/com/example/zeebe/CsvExporter.java:62-68 | each joined part occurs in the joined line |
| Decimal.NatToString | src/main/java/com/example/zeebe/CsvExporter.java:92 | a rendering is non-empty, all digits, without a leading zero |
| Decimal.IntToString | src/main/java/com/example/zeebe/ZeebeEvent.java:35 | `String.valueOf(n)` is in canonical form (digits without a leading zero, `-` exactly for negative numbers, never `-0`) and reads back as `n` |
| Decimal.CanonicalIsRendering | src/main/java/com/example/zeebe/ZeebeEvent.java:35 | a canonical string that reads back as `n` is `String.valueOf(n)` itself, so the canonical form is unique |
| Decimal.IntToStringInjective | src/main/java/com/example/zeebe/ZeebeEvent.java:35 | distinct numbers render differently |
| Decimal.IntToStringHasNoDelimiter | src/main/java/com/example/zeebe/CsvExporter.java:151 | a rendered number never holds the comma delimiter |
| JsonScan.ScanStart | src/main/java/com/example/zeebe/CsvExporter.java:99-112 | the scan start `indexOf(marker) + length` is never below `length - 1`, equals it exactly when the marker is absent, and otherwise sits right after an occurrence with none earlier, so after the first one |
| JsonScan.FieldAfter | src/main/java/com/example/zeebe/CsvExporter.java:99-115 | the `> 0` guards reject only when no stop character follows the start; the substring is always in bounds; the field holds no stop character and ends right before the first one |
| JsonScan.FieldAfterUpTo | src/main/java/com/example/zeebe/CsvExporter.java:99-108 | a stop character at `end` with none between the scan start and it makes the field exactly that stretch of text |
| JsonScan.ScanStartAfterFirst | src/main/java/com/example/zeebe/CsvExporter.java:99-112 | when the first occurrence of the marker is at `p`, the scan starts at `p` plus the marker's length |
| JsonScan.FieldAfterFirstMarker | src/main/java/com/example/zeebe/CsvExporter.java:99-115 | a first marker followed by a stop-free `x` and then the stop character yields exactly `x` |
| JsonScan.ElementIdFound | src/main/java/com/example/zeebe/CsvExporter.java:104-109 | when the first `"elementId":"` of the value segment is followed by a quote-free `x` and a quote, the element id is `x` |
| JsonScan.IntentFound | src/main/java/com/example/zeebe/CsvExporter.java:111-116 | when a value segment exists and the first `"intent":"` of the whole text is followed by a quote-free `y` and a quote, the intent is `y` |
| JsonScan.ValueSegment | src/main/java/com/example/zeebe/CsvExporter.java:99-102 | the value segment never contains `}` |
| JsonScan.ExtractedFields | src/main/java/com/example/zeebe/CsvExporter.java:99-117 | without a value segment nothing is scanned; with one, the element id is the `"elementId":"` scan of the segment and the intent the `"intent":"` scan of the whole text; neither holds `"` |
| JsonScan.MissingElementIdScansFromOffset | src/main/java/com/example/zeebe/CsvExporter.java:105-109 | a segment without the element id marker still yields the text from offset 12 to the next quote |
| JsonScan.ElementIdFromKeyTail | src/main/java/com/example/zeebe/CsvExporter.java:99-109 | for `{"value":{"bpmnProcessId":"p"}}` the element id written is `sId` |
| CsvExport.IncrementWrap32 | src/main/java/com/example/zeebe/CsvExporter.java:126 | `incrementAndGet` after `n` increments gives the value after `n + 1`, wrap-around included |
| CsvExport.Wrap32Small | src/main/java/com/example/zeebe/CsvExporter.java:28 | below 2^31 the counter equals the number of increments since 0 |
| CsvExport.IncrementAndGet | src/main/java/com/example/zeebe/CsvExporter.java:126 | the result is one more than the argument modulo 2^32, and larger than it below the largest int |
| CsvExport.AllowedIntent | src/main/java/com/example/zeebe/CsvExporter.java:84-87 | the allow-list is exactly the process-instance intents named ELEMENT_ACTIVATED, ELEMENT_COMPLETED and SEQUENCE_FLOW_TAKEN; an intent of another enum never passes |
| CsvExport.InScope | src/main/java/com/example/zeebe/CsvExporter.java:84-90 | a record gets a row exactly when its value is not null and its intent is one of the three process-instance intents |
| CsvExport.HeaderCheck | src/main/java/com/example/zeebe/CsvExporter.java:42-46 | the five names checked are exactly the five column names written in the header |
| CsvExport.FileHasHeaders | src/main/java/com/example/zeebe/CsvExporter.java:32-52 | a missing or empty file never passes the header check |
| CsvExport.FileHasHeadersIff | src/main/java/com/example/zeebe/CsvExporter.java:32-52 | the check passes exactly when the file exists, has a first line, and that line contains each of the five column names |
| CsvExport.HeaderLinePassesCheck | src/main/java/com/example/zeebe/CsvExporter.java:42-46 | the header line the exporter writes passes its own check |
| CsvExport.HeaderFirstPassesCheck | src/main/java/com/example/zeebe/CsvExporter.java:58-70 | a file starting with the header passes the check, so reopening it adds no header |
| CsvExport.HeaderlessFileStaysHeaderless | src/main/java/com/example/zeebe/CsvExporter.java:58-70 | a file whose first line fails the check still fails after a header is appended, so each open appends another |
| CsvExport.Scanned | src/main/java/com/example/zeebe/CsvExporter.java:91-121 | when `toJson` throws nothing is scanned, otherwise the text goes to the scan; scanned fields never contain `"` |
| CsvExport.ScannedColumns | src/main/java/com/example/zeebe/CsvExporter.java:129-130 | the element id and intent columns are the scanned text where the scan found one and `""` where it did not (both `""` when `toJson` threw); neither holds `"` |
| CsvExport.DataFields | src/main/java/com/example/zeebe/CsvExporter.java:124-131 | five fields: the sequence number and the record key as their `String.valueOf` renderings, which read back as the numbers, the rendered timestamp, and the two scanned columns as `ScannedColumns` gives them |
| CsvExport.RowCarriesScannedFields | src/main/java/com/example/zeebe/CsvExporter.java:104-130 | a record whose JSON has a well-formed `"elementId":"x"` in its value segment and `"intent":"y"` gets `x` and `y` in its last two columns |
| CsvExport.DataRow | src/main/java/com/example/zeebe/CsvExporter.java:150-152 | a row starts with its sequence number and holds exactly four commas when the timestamp and scanned fields hold none |
| CsvExport.DataRowRoundTrip | src/main/java/com/example/zeebe/CsvExporter.java:150-152 | splitting a written row at commas gives back its five fields when the timestamp, element id and intent hold no comma |
| CsvExport.SequenceColumnReadsBack | src/main/java/com/example/zeebe/CsvExporter.java:126 | the first column of the row carrying the `n`th sequence number reads back as `n` |
| CsvExport.Text | src/main/java/com/example/zeebe/CsvExporter.java:154-157 | the file's text is empty exactly when it has no lines, and starts with its first line followed by more text |
| CsvExport.TextLineCount | src/main/java/com/example/zeebe/CsvExporter.java:154-157 | with no separator inside a line, the text holds exactly one separator per line |
| CsvExport.TextAppend | src/main/java/com/example/zeebe/CsvExporter.java:154-157 | appending a line adds the line and then the separator to the file's text |
| CsvExport.LineEnd | src/main/java/com/example/zeebe/CsvExporter.java:39 | the first line ends at the first `\n` or `\r`, or at the end |
| CsvExport.ReadFirstLine | src/main/java/com/example/zeebe/CsvExporter.java:38-40 | `readLine` is null exactly for an empty text; otherwise a terminator-free prefix of the text followed by a terminator or the end |
| CsvExport.FirstLineOfText | src/main/java/com/example/zeebe/CsvExporter.java:38-40 | for a file whose first line holds no `\n` or `\r`, `readLine` on the file's text is null for no lines and the first line otherwise |
| CsvExport.CsvFile.constructor | src/main/java/com/example/zeebe/CsvExporter.java:33-34 | a file object with the given existence and lines; a missing file has no lines |
| CsvExport.CsvFile.Create | src/main/java/com/example/zeebe/CsvExporter.java:58 | opening in append mode creates a missing file and keeps an existing one's lines |
| CsvExport.CsvFile.Append | src/main/java/com/example/zeebe/CsvExporter.java:155-156 | one line is appended and nothing else changes |
| CsvExport.CsvExporter.constructor | src/main/java/com/example/zeebe/CsvExporter.java:26-30 | counter 0, no writer, no header written |
| CsvExport.CsvExporter.Open | src/main/java/com/example/zeebe/CsvExporter.java:54-74 | on success: writer open, file exists, the header appended exactly when the file failed the header check before the call, existing lines untouched, `headerWritten` set when the header is appended (otherwise unchanged), counter unchanged; on failure nothing changes |
| CsvExport.CsvExporter.Export | src/main/java/com/example/zeebe/CsvExporter.java:76-136 | an out-of-scope record changes nothing; an in-scope one advances the counter by one and appends the row with the new number if the writer is open (even when `toJson` throws), appends nothing otherwise, and reports how the write ended |
| CsvExport.CsvExporter.Close | src/main/java/com/example/zeebe/CsvExporter.java:138-148 | an open writer becomes closed; otherwise nothing changes |
| CsvExport.CsvExporter.WriteCsvRecord | src/main/java/com/example/zeebe/CsvExporter.java:150-152 | appends the five values joined by commas when the writer is open |
| CsvExport.CsvExporter.WriteLine | src/main/java/com/example/zeebe/CsvExporter.java:154-157 | appends the line followed by the separator when the writer is open; otherwise reports the exception and appends nothing |
| CsvExport.OneSession | src/main/java/com/example/zeebe/CsvExporter.java:54-148 | one exporter on a missing file or one starting with the header: open, export one in-scope record, close; the header is added only to a missing file, and the row carries number 1 |
| CsvExport.TwoSessions | src/main/java/com/example/zeebe/CsvExporter.java:58-70 | two exporters in turn on a new file leave exactly one header, each row numbered 1 |
| ZeebeEvents.RendersLongExactly | src/main/java/com/example/zeebe/ZeebeEvent.java:35 | a field renders a long exactly when it holds `String.valueOf` of it |
| ZeebeEvents.InitFromVariable | src/main/java/com/example/zeebe/ZeebeEvent.java:41-50 | the common fields untouched; no element; the variable's name, value, process id and tenant copied; both keys rendered |
| ZeebeEvents.InitFromProcessInstance | src/main/java/com/example/zeebe/ZeebeEvent.java:52-61 | the common fields untouched; no variable; element id, process id and tenant copied; element type name or `""`; both keys rendered |
| ZeebeEvents.Project | src/main/java/com/example/zeebe/ZeebeEvent.java:24-61 | common fields always from the record, the position as its canonical rendering; process-instance: all fields set, no variable, element fields and keys (canonical renderings) from the value, element type `""` when absent; variable: all set, no element, name and value copied; any other value: payload left null |
| ZeebeEvents.CommonFieldsIgnoreValue | src/main/java/com/example/zeebe/ZeebeEvent.java:35-38 | position, intent, value type and timestamp do not depend on the value |
| ZeebeEvents.PositionIdentifiesRecord | src/main/java/com/example/zeebe/ZeebeEvent.java:35 | equal position fields come from equal positions |
| ZeebeEvents.ZeebeEvent.constructor | src/main/java/com/example/zeebe/ZeebeEvent.java:24-39 | the object's fields are the projection of the record |
| ZeebeEvents.ZeebeEvent.GetProcessDefinitionKey | src/main/java/com/example/zeebe/ZeebeEvent.java:63-65 | returns the current `processDefinitionKey` |
| ZeebeEvents.ZeebeEvent.SetProcessDefinitionKey | src/main/java/com/example/zeebe/ZeebeEvent.java:67-69 | sets `processDefinitionKey`; every other field keeps its value |
| ZeebeEvents.ZeebeEvent.GetBpmnProcessId | src/main/java/com/example/zeebe/ZeebeEvent.java:71-73 | returns the current `bpmnProcessId` |
| ZeebeEvents.ZeebeEvent.SetBpmnProcessId | src/main/java/com/example/zeebe/ZeebeEvent.java:75-77 | sets `bpmnProcessId`; every other field keeps its value |
| ZeebeEvents.ZeebeEvent.GetProcessInstanceKey | src/main/java/com/example/zeebe/ZeebeEvent.java:79-81 | returns the current `processInstanceKey` |
| ZeebeEvents.ZeebeEvent.SetProcessInstanceKey | src/main/java/com/example/zeebe/ZeebeEvent.java:83-85 | sets `processInstanceKey`; every other field keeps its value |
| ZeebeEvents.ZeebeEvent.GetElementId | src/main/java/com/example/zeebe/ZeebeEvent.java:87-89 | returns the current `elementId` |
| ZeebeEvents.ZeebeEvent.SetElementId | src/main/java/com/example/zeebe/ZeebeEvent.java:91-93 | sets `elementId`; every other field keeps its value |
| ZeebeEvents.ZeebeEvent.GetTenantId | src/main/java/com/example/zeebe/ZeebeEvent.java:95-97 | returns the current `tenantId` |
| ZeebeEvents.ZeebeEvent.SetTenantId | src/main/java/com/example/zeebe/ZeebeEvent.java:99-101 | sets `tenantId`; every other field keeps its value |
| ZeebeEvents.ZeebeEvent.GetBpmnElementType | src/main/java/com/example/zeebe/ZeebeEvent.java:103-105 | returns the current `bpmnElementType` |
| ZeebeEvents.ZeebeEvent.SetBpmnElementType | src/main/java/com/example/zeebe/ZeebeEvent.java:107-109 | sets `bpmnElementType`; every other field keeps its value |
| ZeebeEvents.ZeebeEvent.GetVariableName | src/main/java/com/example/zeebe/ZeebeEvent.java:111-113 | returns the current `variableName` |
| ZeebeEvents.ZeebeEvent.SetVariableName | src/main/java/com/example/zeebe/ZeebeEvent.java:115-117 | sets `variableName`; every other field keeps its value |
| ZeebeEvents.ZeebeEvent.GetVariableValue | src/main/java/com/example/zeebe/ZeebeEvent.java:119-121 | returns the current `variableValue` |
| ZeebeEvents.ZeebeEvent.SetVariableValue | src/main/java/com/example/zeebe/ZeebeEvent.java:123-125 | sets `variableValue`; every other field keeps its value |
| ZeebeEvents.ZeebeEvent.GetPosition | src/main/java/com/example/zeebe/ZeebeEvent.java:127-129 | returns the current `position` |
| ZeebeEvents.ZeebeEvent.SetPosition | src/main/java/com/example/zeebe/ZeebeEvent.java:131-133 | sets `position`; every other field keeps its value |
| ZeebeEvents.ZeebeEvent.GetIntent | src/main/java/com/example/zeebe/ZeebeEvent.java:135-137 | returns the current `intent` |
| ZeebeEvents.ZeebeEvent.SetIntent | src/main/java/com/example/zeebe/ZeebeEvent.java:139-141 | sets `intent`; every other field keeps its value |
| ZeebeEvents.ZeebeEvent.GetValueType | src/main/java/com/example/zeebe/ZeebeEvent.java:143-145 | returns the current `valueType` |
| ZeebeEvents.ZeebeEvent.SetValueType | src/main/java/com/example/zeebe/ZeebeEvent.java:147-149 | sets `valueType`; every other field keeps its value |
| ZeebeEvents.ZeebeEvent.GetTimestamp | src/main/java/com/example/zeebe/ZeebeEvent.java:151-153 | returns the current `timestamp` |
| ZeebeEvents.ZeebeEvent.SetTimestamp | src/main/java/com/example/zeebe/ZeebeEvent.java:155-157 | sets `timestamp`; every other field keeps its value |

## Left out

- File I/O is modelled as a `CsvFile` object with an exists flag and a list of lines; the path `zeebe_events.csv` is the object given to the exporter's constructor.
- IOExceptions while reading the first line in `fileHasHeaders`, and while writing to an open writer, are not modelled. Only the failures a null or closed writer causes are modelled.
- `FileWriter` buffering and `flush` are not modelled: a written line is in the file at once. So the lines a second `open` without `close` would strand in the first writer's buffer are not captured.
- A pre-existing file whose last line has no terminator is not modelled; appended text would join that line.
- Console output (`System.out.println`, `System.err.println`, `printStackTrace`) is left out, as are the `Controller` and the `Exporter` interface.
- `record.toJson()` is an arbitrary string carried by the record, or none when the call throws.
- `Instant.ofEpochMilli(t).toString()` is the parameter `instantText` of the exporter and of `Project`.
- The counter is a plain int field; `AtomicInteger`'s atomicity does not matter for one thread.
- `System.lineSeparator()` is the fixed `"\n"`.
- Strings inside record values are never null in the model. A null from `getBpmnElementType()`, which would throw, is not modelled.
- `ProcessInstanceIntent` lists the engine's main constants. Intents of other enums are known by name only.
- Java strings are UTF-16 code units; the model uses Dafny characters.
- A line of a `CsvFile` may itself contain `\n` or `\r` (the constructor and `Append` accept any line). `FileHasHeaders` tests the whole of the first model line, while `readLine` would stop at its first terminator; `FirstLineOfText` shows the two agree exactly when the first line holds no terminator.
