/** Option, the stand-in for a Java reference that may be null. */
module Options {

  datatype Option<+T> = None | Some(value: T) {

    /** `x != null ? x : d` */
    function GetOr(d: T): T {
      match this
      case Some(v) => v
      case None => d
    }
  }
}

/**
 * The few `java.lang.String` operations the exporter relies on: `indexOf`
 * (for a substring and for a character), `contains` and `String.join`,
 * together with a field splitter that reads a joined line back.
 */
module Strings {

  /** `pat` occurs in `s` starting at index `k`. */
  predicate OccursAt(s: string, pat: string, k: int)
  {
    0 <= k && k + |pat| <= |s| && s[k..k + |pat|] == pat
  }

  /**
   * The search behind `s.indexOf(pat)`: the least index at or after `from`
   * where `pat` occurs, or -1 when there is none. (Unlike Java's
   * two-argument `indexOf`, an empty `pat` with `from` past the end gives
   * -1 here; the exporter only searches from 0.)
   */
  function IndexOfFrom(s: string, pat: string, from: nat): (k: int)
    decreases |s| - from
    ensures k == -1 || (from <= k && OccursAt(s, pat, k))
    ensures k == -1 ==> forall j :: from <= j ==> !OccursAt(s, pat, j)
    ensures k != -1 ==> forall j :: from <= j < k ==> !OccursAt(s, pat, j)
  {
    if from + |pat| > |s| then -1
    else if s[from..from + |pat|] == pat then from
    else IndexOfFrom(s, pat, from + 1)
  }

  /** `s.indexOf(pat)` */
  function IndexOf(s: string, pat: string): (k: int)
    ensures k == -1 || OccursAt(s, pat, k)
    ensures k == -1 <==> forall j :: !OccursAt(s, pat, j)
    ensures forall j :: 0 <= j < k ==> !OccursAt(s, pat, j)
  {
    IndexOfFrom(s, pat, 0)
  }

  /** `s.contains(pat)`: holds exactly when some index is an occurrence. */
  predicate Contains(s: string, pat: string)
    ensures Contains(s, pat) <==> exists k :: OccursAt(s, pat, k)
  {
    IndexOf(s, pat) >= 0
  }

  /**
   * `s.indexOf(c, from)`: the least index at or after `from` holding `c`,
   * or -1 when there is none (also when `from` is past the end).
   */
  function IndexOfChar(s: string, c: char, from: nat): (k: int)
    decreases |s| - from
    ensures k == -1 || (from <= k < |s| && s[k] == c)
    ensures k == -1 ==> forall j :: from <= j < |s| ==> s[j] != c
    ensures k != -1 ==> forall j :: from <= j < k ==> s[j] != c
  {
    if from >= |s| then -1
    else if s[from] == c then from
    else IndexOfChar(s, c, from + 1)
  }

  /** `String.join(sep, parts)` for a one-character delimiter; the line starts with the first part. */
  function Join(parts: seq<string>, sep: char): (r: string)
    ensures |parts| > 0 ==> |parts[0]| <= |r| && r[..|parts[0]|] == parts[0]
  {
    if |parts| == 0 then ""
    else if |parts| == 1 then parts[0]
    else parts[0] + [sep] + Join(parts[1..], sep)
  }

  /** When no part holds the delimiter, a joined line holds one delimiter fewer than there are parts. */
  lemma {:induction false} JoinDelimiterCount(parts: seq<string>, sep: char)
    ensures (forall i :: 0 <= i < |parts| ==> sep !in parts[i]) ==>
      multiset(Join(parts, sep))[sep] == if |parts| == 0 then 0 else |parts| - 1
  {
    if |parts| > 1 {
      assert forall i :: 0 <= i < |parts| - 1 ==> parts[1..][i] == parts[i + 1];
      var rest := Join(parts[1..], sep);
      JoinDelimiterCount(parts[1..], sep);
      assert multiset(parts[0] + [sep] + rest) == multiset(parts[0]) + multiset{sep} + multiset(rest);
    }
  }

  /**
   * Cuts `s` at every `sep`, keeping empty fields: the reader of a line
   * written by `Join`.
   */
  function Split(s: string, sep: char): (parts: seq<string>)
    decreases |s|
    ensures |parts| > 0
    ensures forall i :: 0 <= i < |parts| ==> sep !in parts[i]
  {
    var k := IndexOfChar(s, sep, 0);
    if k == -1 then [s]
    else
      var head := s[..k];
      assert forall j :: 0 <= j < |head| ==> head[j] == s[j];
      [head] + Split(s[k + 1..], sep)
  }

  /** The first occurrence of `sep` in `x + [sep] + y` is right after `x`. */
  lemma FirstSeparator(x: string, sep: char, y: string)
    requires sep !in x
    ensures IndexOfChar(x + [sep] + y, sep, 0) == |x|
  {
    var s := x + [sep] + y;
    assert s[|x|] == sep;
    assert forall j :: 0 <= j < |x| ==> s[j] == x[j];
  }

  /** Splitting a joined line gives back the parts when none holds the delimiter. */
  lemma {:induction false} SplitJoin(parts: seq<string>, sep: char)
    requires |parts| > 0
    requires forall i :: 0 <= i < |parts| ==> sep !in parts[i]
    ensures Split(Join(parts, sep), sep) == parts
  {
    if |parts| == 1 {
      assert Join(parts, sep) == parts[0];
    } else {
      var rest := Join(parts[1..], sep);
      var s := parts[0] + [sep] + rest;
      assert Join(parts, sep) == s;
      FirstSeparator(parts[0], sep, rest);
      var k := |parts[0]|;
      assert s[..k] == parts[0];
      assert s[k + 1..] == rest;
      assert Split(s, sep) == [parts[0]] + Split(rest, sep);
      assert forall i :: 0 <= i < |parts| - 1 ==> parts[1..][i] == parts[i + 1];
      SplitJoin(parts[1..], sep);
      assert parts == [parts[0]] + parts[1..];
    }
  }

  /** Splitting loses nothing: joining the fields again restores the line. */
  lemma {:induction false} JoinSplit(s: string, sep: char)
    decreases |s|
    ensures Join(Split(s, sep), sep) == s
  {
    var k := IndexOfChar(s, sep, 0);
    if k != -1 {
      var tail := s[k + 1..];
      JoinSplit(tail, sep);
      var parts := Split(s, sep);
      assert parts == [s[..k]] + Split(tail, sep);
      assert parts[1..] == Split(tail, sep);
      assert s == s[..k] + [sep] + tail;
    }
  }

  /** Every part occurs in the joined line. */
  lemma {:induction false} PartOccursInJoin(parts: seq<string>, sep: char, i: int)
    requires 0 <= i < |parts|
    ensures exists k :: OccursAt(Join(parts, sep), parts[i], k)
  {
    var s := Join(parts, sep);
    if |parts| == 1 {
      assert OccursAt(s, parts[i], 0);
    } else if i == 0 {
      assert s[..|parts[0]|] == parts[0];
      assert OccursAt(s, parts[i], 0);
    } else {
      var rest := Join(parts[1..], sep);
      PartOccursInJoin(parts[1..], sep, i - 1);
      var k :| OccursAt(rest, parts[i], k);
      var offset := |parts[0]| + 1;
      assert s == parts[0] + [sep] + rest;
      assert s[offset + k..offset + k + |parts[i]|] == rest[k..k + |parts[i]|];
      assert OccursAt(s, parts[i], offset + k);
    }
  }

  /** The first field read back from a line is everything before the first delimiter. */
  lemma FirstField(x: string, sep: char, y: string)
    requires sep !in x
    ensures Split(x + [sep] + y, sep)[0] == x
  {
    var s := x + [sep] + y;
    FirstSeparator(x, sep, y);
    assert s[..|x|] == x;
  }
}
