/**
 * The exporter's hand-rolled scanning of a record's JSON text: find a
 * marker with `indexOf`, add the marker's length, and take everything up to
 * the next stop character.
 */
module JsonScan {
  import opened Options
  import opened Strings

  const ValueMarker: string := "\"value\":"
  const ElementIdMarker: string := "\"elementId\":\""
  const IntentMarker: string := "\"intent\":\""

  /**
   * Where scanning starts: `s.indexOf(marker) + |marker|`. Because
   * `indexOf` is never below -1, this is never below `|marker| - 1`; when
   * the marker is absent it is exactly that fixed offset, and otherwise it
   * is the index right after the first occurrence.
   */
  function ScanStart(s: string, marker: string): (start: nat)
    requires |marker| > 0
    ensures start >= |marker| - 1
    ensures (forall j :: !OccursAt(s, marker, j)) <==> start == |marker| - 1
    ensures start >= |marker| ==> OccursAt(s, marker, start - |marker|)
    ensures start >= |marker| ==> forall j :: 0 <= j < start - |marker| ==> !OccursAt(s, marker, j)
  {
    IndexOf(s, marker) + |marker|
  }

  /**
   * One scan: from `start = s.indexOf(marker) + |marker|` to
   * `end = s.indexOf(stop, start)`, kept when `start > 0 && end > 0`.
   * With a marker of two or more characters `start > 0` always holds, so
   * only a missing stop character rejects, and a missing marker makes the
   * scan start at the fixed offset instead. The substring is in bounds on
   * every input.
   */
  function FieldAfter(s: string, marker: string, stop: char): (r: Option<string>)
    requires |marker| >= 2
    ensures r.Some? <==> exists j :: ScanStart(s, marker) <= j < |s| && s[j] == stop
    ensures r.Some? ==> stop !in r.value
    ensures r.Some? ==>
      var start := ScanStart(s, marker);
      start + |r.value| < |s| && s[start..start + |r.value|] == r.value && s[start + |r.value|] == stop
  {
    var start := ScanStart(s, marker);
    var end := IndexOfChar(s, stop, start);
    if start > 0 && end > 0 then
      var field := s[start..end];
      assert forall i :: 0 <= i < |field| ==> field[i] == s[start + i];
      Some(field)
    else
      None
  }

  /** The text after `"value":` up to the first `}`. */
  function ValueSegment(json: string): (r: Option<string>)
    ensures r.Some? ==> '}' !in r.value
  {
    FieldAfter(json, ValueMarker, '}')
  }

  /**
   * The element id and the intent scanned from a record's JSON text. Both
   * are looked for only when a value segment was found; the element id
   * inside that segment, but the intent in the whole text.
   */
  function ExtractedFields(json: string): (r: (Option<string>, Option<string>))
    ensures ValueSegment(json).None? ==> r == (None, None)
    ensures r.0.Some? ==> '"' !in r.0.value
    ensures r.1.Some? ==> '"' !in r.1.value
    ensures ValueSegment(json).Some? ==>
      && r.0 == FieldAfter(ValueSegment(json).value, ElementIdMarker, '"')
      && r.1 == FieldAfter(json, IntentMarker, '"')
  {
    match ValueSegment(json)
    case None => (None, None)
    case Some(segment) =>
      (FieldAfter(segment, ElementIdMarker, '"'), FieldAfter(json, IntentMarker, '"'))
  }

  /**
   * A scan whose start is followed by a stop character at `end`, with none
   * in between, yields exactly the text from the start to `end`.
   */
  lemma FieldAfterUpTo(s: string, marker: string, stop: char, end: int)
    requires |marker| >= 2
    requires ScanStart(s, marker) <= end < |s| && s[end] == stop
    requires stop !in s[ScanStart(s, marker)..end]
    ensures FieldAfter(s, marker, stop) == Some(s[ScanStart(s, marker)..end])
  {
    var start := ScanStart(s, marker);
    assert forall i :: start <= i < end ==> s[i] == s[start..end][i - start];
  }

  /**
   * A value segment without an `"elementId":"` marker still yields an
   * element id when it holds a `"` at or after index 12: the text from the
   * fixed offset 12 up to that quote.
   */
  lemma MissingElementIdScansFromOffset(segment: string, q: int)
    requires forall j :: !OccursAt(segment, ElementIdMarker, j)
    requires 12 <= q < |segment| && segment[q] == '"'
    requires '"' !in segment[12..q]
    ensures FieldAfter(segment, ElementIdMarker, '"') == Some(segment[12..q])
  {
    FieldAfterUpTo(segment, ElementIdMarker, '"', q);
  }

  /** When the first occurrence of `marker` is at `p`, the scan starts right after it. */
  lemma ScanStartAfterFirst(s: string, marker: string, p: int)
    requires |marker| > 0 && OccursAt(s, marker, p)
    requires forall j :: 0 <= j < p ==> !OccursAt(s, marker, j)
    ensures ScanStart(s, marker) == p + |marker|
  {
    var k := IndexOf(s, marker);
    assert k != -1;
    assert !(k < p);
    assert !(p < k);
  }

  /**
   * A scan whose first marker sits at `p` and is followed by a quote-free
   * `x` and then the stop character yields exactly `x`.
   */
  lemma FieldAfterFirstMarker(s: string, marker: string, stop: char, p: int, x: string)
    requires |marker| >= 2 && OccursAt(s, marker, p)
    requires forall j :: 0 <= j < p ==> !OccursAt(s, marker, j)
    requires p + |marker| + |x| < |s| && s[p + |marker|..p + |marker| + |x|] == x
    requires s[p + |marker| + |x|] == stop && stop !in x
    ensures FieldAfter(s, marker, stop) == Some(x)
  {
    ScanStartAfterFirst(s, marker, p);
    FieldAfterUpTo(s, marker, stop, p + |marker| + |x|);
  }

  /**
   * The ordinary case for the element id: when the first `"elementId":"`
   * of the value segment is at `p` and is followed by `x` and a quote, the
   * element id is `x`.
   */
  lemma ElementIdFound(json: string, segment: string, p: int, x: string)
    requires ValueSegment(json) == Some(segment)
    requires OccursAt(segment, ElementIdMarker, p)
    requires forall j :: 0 <= j < p ==> !OccursAt(segment, ElementIdMarker, j)
    requires p + 13 + |x| < |segment| && segment[p + 13..p + 13 + |x|] == x
    requires segment[p + 13 + |x|] == '"' && '"' !in x
    ensures ExtractedFields(json).0 == Some(x)
  {
    FieldAfterFirstMarker(segment, ElementIdMarker, '"', p, x);
  }

  /**
   * The ordinary case for the intent, scanned in the whole text: when a
   * value segment exists and the first `"intent":"` of the text is at `p`
   * and is followed by `x` and a quote, the intent is `x`.
   */
  lemma IntentFound(json: string, p: int, x: string)
    requires ValueSegment(json).Some?
    requires OccursAt(json, IntentMarker, p)
    requires forall j :: 0 <= j < p ==> !OccursAt(json, IntentMarker, j)
    requires p + 10 + |x| < |json| && json[p + 10..p + 10 + |x|] == x
    requires json[p + 10 + |x|] == '"' && '"' !in x
    ensures ExtractedFields(json).1 == Some(x)
  {
    FieldAfterFirstMarker(json, IntentMarker, '"', p, x);
  }

  /** A marker right after a prefix occurs there. */
  lemma OccursAfterPrefix(prefix: string, pat: string, rest: string)
    ensures OccursAt(prefix + pat + rest, pat, |prefix|)
  {
    var s := prefix + pat + rest;
    assert s[|prefix|..|prefix| + |pat|] == pat;
  }

  /** The value segment of the concrete record of `ElementIdFromKeyTail`. */
  lemma ExampleValueSegment()
    ensures ValueSegment(ExampleJson) == Some(ExampleSegment)
  {
    var json := ExampleJson;
    OccursAfterPrefix("{", ValueMarker, ExampleSegment + "}}");
    assert json == "{" + ValueMarker + (ExampleSegment + "}}");
    assert !OccursAt(json, ValueMarker, 0) by {
      assert json[0..8][0] == json[0] == '{';
    }
    assert ScanStart(json, ValueMarker) == 9;
    assert json[9..29] == ExampleSegment;
    assert json[29] == '}';
    FieldAfterUpTo(json, ValueMarker, '}', 29);
  }

  /** The concrete value segment holds no element id marker. */
  lemma ExampleSegmentHasNoElementId()
    ensures forall j :: !OccursAt(ExampleSegment, ElementIdMarker, j)
  {
    forall j | 0 <= j && j + 13 <= |ExampleSegment|
      ensures !OccursAt(ExampleSegment, ElementIdMarker, j)
    {
      assert ExampleSegment[j..j + 13][1] == ExampleSegment[j + 1] != ElementIdMarker[1];
    }
  }

  /** The segment `{"bpmnProcessId":"p"`. */
  const ExampleSegment: string := "{\"bpmnProcessId\":\"p\""
  /** The text `{"value":{"bpmnProcessId":"p"}}`. */
  const ExampleJson: string := "{" + ValueMarker + ExampleSegment + "}}"

  /**
   * A concrete record whose value has no element id: the scan starts at
   * index 12 of the segment `{"bpmnProcessId":"p"` and returns `sId`, the
   * tail of the key `bpmnProcessId`.
   */
  lemma ElementIdFromKeyTail(json: string)
    requires json == ExampleJson
    ensures ExtractedFields(json).0 == Some("sId")
  {
    ExampleValueSegment();
    ExampleSegmentHasNoElementId();
    ExampleElementId(ExampleSegment);
  }

  lemma ExampleElementId(segment: string)
    requires segment == ExampleSegment
    ensures FieldAfter(segment, ElementIdMarker, '"') == Some("sId")
  {
    ExampleSegmentHasNoElementId();
    assert segment[12..15] == "sId";
    MissingElementIdScansFromOffset(segment, 15);
  }
}
