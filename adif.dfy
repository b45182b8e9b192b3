/**
 * The ADIF side of the uploader (class `AdifParser` in adifpush_enhanced.py):
 * the tag scanner behind `parse_line`, the duplicate key of
 * `calculate_hash`, and the two file readers.
 */
module Adif {
  import opened Wrappers
  import opened Text
  import Mapping

  // ---------------------------------------------------------------------
  // The scanner: `re.findall(r'<(\w+):(\d+)>([^<]*)', line, re.IGNORECASE)`
  // ---------------------------------------------------------------------

  /**
   * One match of the tag pattern, by position: the `<` at `open`, the `:` at
   * `colon`, the `>` at `close`, and the value running up to `end`.
   */
  datatype Tag = Tag(open: nat, colon: nat, close: nat, end: nat)

  /** `\w` (ASCII letters, digits and underscore). */
  predicate IsWordChar(c: char) {
    'a' <= c <= 'z' || 'A' <= c <= 'Z' || IsDigit(c) || c == '_'
  }

  /** `[^<]`. */
  predicate IsValueChar(c: char) {
    c != '<'
  }

  /** The end of the longest run of characters satisfying `p` that starts at `i`. */
  function Span(s: string, i: nat, p: char -> bool): (j: nat)
    requires i <= |s|
    ensures i <= j <= |s|
    decreases |s| - i
  {
    if i < |s| && p(s[i]) then Span(s, i + 1, p) else i
  }

  /** The run `Span` finds is all `p` and is followed by the end or a character that is not `p`. */
  lemma {:induction false} SpanRun(s: string, i: nat, p: char -> bool)
    requires i <= |s|
    ensures var j := Span(s, i, p);
      && (forall k :: i <= k < j ==> p(s[k]))
      && (j == |s| || !p(s[j]))
    decreases |s| - i
  {
    if i < |s| && p(s[i]) {
      SpanRun(s, i + 1, p);
    }
  }

  predicate InLine(s: string, t: Tag) {
    t.open < t.colon < t.close < t.end <= |s|
  }

  /** Group 1, the tag name. */
  function Name(s: string, t: Tag): string
    requires InLine(s, t)
  {
    s[t.open + 1..t.colon]
  }

  /** Group 3, the value (group 2, the declared length, is never read). */
  function Value(s: string, t: Tag): string
    requires InLine(s, t)
  {
    s[t.close + 1..t.end]
  }

  /**
   * `<(\w+):(\d+)>([^<]*)` matches at `t.open` and ends at `t.end`. `[^<]*` is
   * greedy, so the value runs up to the next `<` or the end of the line; the
   * declared length plays no part in where the value stops.
   */
  ghost predicate TagAt(s: string, t: Tag) {
    && InLine(s, t)
    && s[t.open] == '<' && s[t.colon] == ':' && s[t.close] == '>'
    && t.open + 1 < t.colon && t.colon + 1 < t.close
    && (forall k :: t.open < k < t.colon ==> IsWordChar(s[k]))
    && (forall k :: t.colon < k < t.close ==> IsDigit(s[k]))
    && (forall k :: t.close < k < t.end ==> s[k] != '<')
    && (t.end == |s| || s[t.end] == '<')
  }

  /** The attempt of the regular-expression engine to match at position `p`. */
  function MatchAt(s: string, p: nat): (r: Option<Tag>)
    requires p <= |s|
    ensures r.Some? ==> InLine(s, r.value) && r.value.open == p
  {
    if p < |s| && s[p] == '<' then
      var colon := Span(s, p + 1, IsWordChar);
      if p + 1 < colon < |s| && s[colon] == ':' then
        var close := Span(s, colon + 1, IsDigit);
        if colon + 1 < close < |s| && s[close] == '>' then
          Some(Tag(p, colon, close, Span(s, close + 1, IsValueChar)))
        else None
      else None
    else None
  }

  lemma {:induction false} SpanIs(s: string, i: nat, j: nat, p: char -> bool)
    requires i <= j <= |s|
    requires forall k :: i <= k < j ==> p(s[k])
    requires j == |s| || !p(s[j])
    ensures Span(s, i, p) == j
    decreases j - i
  {
    if i < j {
      SpanIs(s, i + 1, j, p);
    }
  }

  /** What `MatchAt` finds at `p`: the three spans, each ended by the right character. */
  lemma MatchAtShape(s: string, p: nat)
    requires p <= |s| && MatchAt(s, p).Some?
    ensures var colon := Span(s, p + 1, IsWordChar);
      var close := Span(s, colon + 1, IsDigit);
      && p < |s| && s[p] == '<'
      && p + 1 < colon < |s| && s[colon] == ':'
      && colon + 1 < close < |s| && s[close] == '>'
      && MatchAt(s, p) == Some(Tag(p, colon, close, Span(s, close + 1, IsValueChar)))
  {
  }

  /** What `MatchAt` finds is a match of the pattern. */
  lemma MatchAtSound(s: string, p: nat)
    requires p <= |s| && MatchAt(s, p).Some?
    ensures TagAt(s, MatchAt(s, p).value)
  {
    MatchAtShape(s, p);
    SpansMakeTag(s, MatchAt(s, p).value);
  }

  /** Three maximal spans, ended by `:`, `>` and the end of the value, make a match. */
  lemma SpansMakeTag(s: string, t: Tag)
    requires t.open < |s| && s[t.open] == '<'
    requires t.open + 1 < t.colon < |s| && s[t.colon] == ':'
    requires t.colon + 1 < t.close < |s| && s[t.close] == '>'
    requires t.colon == Span(s, t.open + 1, IsWordChar)
    requires t.close == Span(s, t.colon + 1, IsDigit)
    requires t.end == Span(s, t.close + 1, IsValueChar)
    ensures TagAt(s, t)
  {
    SpanRun(s, t.open + 1, IsWordChar);
    SpanRun(s, t.colon + 1, IsDigit);
    SpanRun(s, t.close + 1, IsValueChar);
  }

  /** A match of the pattern at a position is the one `MatchAt` finds there. */
  lemma MatchAtFinds(s: string, t: Tag)
    requires TagAt(s, t)
    ensures MatchAt(s, t.open) == Some(t)
  {
    SpanIs(s, t.open + 1, t.colon, IsWordChar);
    SpanIs(s, t.colon + 1, t.close, IsDigit);
    SpanIs(s, t.close + 1, t.end, IsValueChar);
  }

  /** What `MatchAt` finds is a match, and every match at a position is the one it finds. */
  lemma MatchAtExact(s: string, p: nat, t: Tag)
    requires p <= |s|
    ensures MatchAt(s, p) == Some(t) <==> TagAt(s, t) && t.open == p
  {
    if MatchAt(s, p) == Some(t) {
      MatchAtSound(s, p);
    }
    if TagAt(s, t) && t.open == p {
      MatchAtFinds(s, t);
    }
  }

  function StartsOf(ts: seq<Tag>): set<nat> {
    set t | t in ts :: t.open
  }

  /** `re.findall` from position `i`: try to match, resume after a match, else move on by one. */
  function Scan(s: string, i: nat): (ts: seq<Tag>)
    requires i <= |s|
    ensures forall k :: 0 <= k < |ts| ==> InLine(s, ts[k]) && i <= ts[k].open
    decreases |s| - i
  {
    if i == |s| then []
    else
      match MatchAt(s, i)
      case Some(t) => [t] + Scan(s, t.end)
      case None => Scan(s, i + 1)
  }

  /** A step of `Scan` at a match: the match, then the search resumes at its end. */
  lemma ScanMatched(s: string, i: nat)
    requires i < |s| && MatchAt(s, i).Some?
    ensures Scan(s, i) == [MatchAt(s, i).value] + Scan(s, MatchAt(s, i).value.end)
  {
  }

  /** A step of `Scan` where nothing matches: the search moves on by one. */
  lemma ScanUnmatched(s: string, i: nat)
    requires i < |s| && MatchAt(s, i).None?
    ensures Scan(s, i) == Scan(s, i + 1)
  {
  }

  /** Consecutive matches of `Scan` do not overlap: the search resumes where a match ended. */
  lemma {:induction false} ScanOrdered(s: string, i: nat, k: nat)
    requires i <= |s| && 0 < k < |Scan(s, i)|
    ensures Scan(s, i)[k - 1].end <= Scan(s, i)[k].open
    decreases |s| - i
  {
    var m := MatchAt(s, i);
    if m.None? {
      ScanUnmatched(s, i);
      ScanOrdered(s, i + 1, k);
    } else {
      ScanMatched(s, i);
      var rest := Scan(s, m.value.end);
      if k > 1 {
        ScanOrdered(s, m.value.end, k - 1);
        assert Scan(s, i)[k - 1] == rest[k - 2] && Scan(s, i)[k] == rest[k - 1];
      } else {
        assert Scan(s, i)[1] == rest[0];
      }
    }
  }

  /**
   * `Scan` starts a tag at exactly the positions where the pattern matches:
   * a match that would begin inside an earlier match's value cannot exist,
   * since the value holds no `<`.
   */
  lemma {:induction false} ScanComplete(s: string, i: nat, p: nat)
    requires i <= p < |s|
    ensures MatchAt(s, p).Some? <==> p in StartsOf(Scan(s, i))
    decreases |s| - i
  {
    var m := MatchAt(s, i);
    if m.Some? {
      ScanMatched(s, i);
      var t := m.value;
      var rest := Scan(s, t.end);
      StartsOfCons(t, rest, p);
      if p < t.end {
        StartsBelow(rest, t.end, p);
        if p > i {
          MatchAtSound(s, i);
          InsideValue(s, t, p);
        }
      } else {
        ScanComplete(s, t.end, p);
      }
    } else {
      ScanUnmatched(s, i);
      if p > i {
        ScanComplete(s, i + 1, p);
      } else {
        StartsBelow(Scan(s, i + 1), i + 1, p);
      }
    }
  }

  lemma StartsOfCons(t: Tag, rest: seq<Tag>, p: nat)
    ensures p in StartsOf([t] + rest) <==> p == t.open || p in StartsOf(rest)
  {
    assert forall u :: u in [t] + rest <==> u == t || u in rest;
  }

  lemma StartsBelow(ts: seq<Tag>, e: nat, p: nat)
    requires forall k :: 0 <= k < |ts| ==> e <= ts[k].open
    requires p < e
    ensures p !in StartsOf(ts)
  {
  }

  /** No match starts inside a match: its name, length and value hold no `<`. */
  lemma InsideValue(s: string, t: Tag, p: nat)
    requires TagAt(s, t) && t.open < p < t.end
    ensures MatchAt(s, p).None?
  {
    assert s[p] != '<';
  }

  lemma {:induction false} ScannedTagMatches(s: string, i: nat, k: nat)
    requires i <= |s| && k < |Scan(s, i)|
    ensures TagAt(s, Scan(s, i)[k])
    decreases |s| - i
  {
    if MatchAt(s, i).None? {
      ScanUnmatched(s, i);
      ScannedTagMatches(s, i + 1, k);
    } else if k == 0 {
      ScanMatchedAt(s, i, k);
      MatchAtSound(s, i);
    } else {
      ScanMatchedAt(s, i, k);
      ScannedTagMatches(s, MatchAt(s, i).value.end, k - 1);
    }
  }

  /** The tags `Scan` reports after a match are the match, then those found from its end. */
  lemma ScanMatchedAt(s: string, i: nat, k: nat)
    requires i < |s| && MatchAt(s, i).Some? && k < |Scan(s, i)|
    ensures var e := MatchAt(s, i).value.end;
      && e <= |s|
      && (k == 0 ==> Scan(s, i)[k] == MatchAt(s, i).value)
      && (k > 0 ==> k - 1 < |Scan(s, e)| && Scan(s, i)[k] == Scan(s, e)[k - 1])
  {
    ScanMatched(s, i);
  }

  /** All matches of the tag pattern in a line, left to right. */
  function FindTags(line: string): (ts: seq<Tag>)
    ensures forall k :: 0 <= k < |ts| ==> InLine(line, ts[k])
  {
    Scan(line, 0)
  }

  /** Each tag found is a match of the pattern. */
  lemma FoundTagMatches(line: string, k: nat)
    requires k < |FindTags(line)|
    ensures TagAt(line, FindTags(line)[k])
  {
    ScannedTagMatches(line, 0, k);
  }

  // ---------------------------------------------------------------------
  // `parse_line` and `calculate_hash`
  // ---------------------------------------------------------------------

  /** The `(key.lower(), value)` assignments the loop of `parse_line` performs, in order. */
  function Fields(line: string, tags: seq<Tag>): seq<(string, string)>
    requires forall k :: 0 <= k < |tags| ==> InLine(line, tags[k])
  {
    seq(|tags|, k requires 0 <= k < |tags| => (Lower(Name(line, tags[k])), Value(line, tags[k])))
  }

  predicate HasRequired(rec: map<string, string>) {
    "call" in rec && "qso_date" in rec && "time_on" in rec
  }

  /** What `parse_line` returns: the record, or None. */
  function ParseRecord(line: string): (r: Option<map<string, string>>)
    ensures r.Some? ==> HasRequired(r.value)
  {
    var tags := FindTags(line);
    if tags == [] then None
    else
      var rec := Mapping.FromPairs(Fields(line, tags));
      if HasRequired(rec) then Some(rec) else None
  }

  /** `ParseRecord` of a line with tags: the dictionary of its fields, if it has the required ones. */
  lemma RecordOfTags(line: string)
    requires FindTags(line) != []
    ensures var rec := Mapping.FromPairs(Fields(line, FindTags(line)));
      ParseRecord(line) == if HasRequired(rec) then Some(rec) else None
  {
  }

  /** One more tag adds its assignment to the dictionary. */
  lemma FieldsStep(line: string, tags: seq<Tag>, i: nat)
    requires forall k :: 0 <= k < |tags| ==> InLine(line, tags[k])
    requires i < |tags|
    ensures Mapping.FromPairs(Fields(line, tags)[..i + 1])
      == Mapping.FromPairs(Fields(line, tags)[..i])[Lower(Name(line, tags[i])) := Value(line, tags[i])]
  {
    var fields := Fields(line, tags);
    assert fields[..i + 1] == fields[..i] + [fields[i]];
    Mapping.AssignLast(fields[..i], fields[i]);
  }

  /** `parse_line`: one dictionary assignment per match, then the required-field check. */
  method ParseLine(line: string) returns (r: Option<map<string, string>>)
    ensures r == ParseRecord(line)
  {
    var matches := FindTags(line);
    if |matches| == 0 {
      return None;
    }
    ghost var fields := Fields(line, matches);
    var record: map<string, string> := map[];
    for i := 0 to |matches|
      invariant record == Mapping.FromPairs(fields[..i])
    {
      FieldsStep(line, matches, i);
      record := record[Lower(Name(line, matches[i])) := Value(line, matches[i])];
    }
    assert fields[..|matches|] == fields;
    RecordOfTags(line);
    if "call" !in record || "qso_date" !in record || "time_on" !in record {
      return None;
    }
    return Some(record);
  }

  /** A line in which `<\w+:\d+>` matches nowhere is not a record. */
  lemma NoTagNoRecord(line: string)
    requires forall t :: !TagAt(line, t)
    ensures ParseRecord(line) == None
  {
    if FindTags(line) != [] {
      FoundTagMatches(line, 0);
    }
  }

  /** The key a tag is stored under: its name, lower-cased. */
  function Key(line: string, t: Tag): string
    requires InLine(line, t)
  {
    Lower(Name(line, t))
  }

  /** Tag names that differ only in letter case are stored under the same key. */
  lemma KeyIgnoresCase(a: string, b: string)
    requires |a| == |b|
    requires forall k :: 0 <= k < |a| ==>
      || a[k] == b[k]
      || (IsUpper(a[k]) && b[k] as int == a[k] as int + 32)
      || (IsUpper(b[k]) && a[k] as int == b[k] as int + 32)
    ensures Lower(a) == Lower(b)
  {
    forall k | 0 <= k < |a| ensures Lower(a)[k] == Lower(b)[k] {
    }
  }

  /** A line without a `call`, `qso_date` or `time_on` tag (in any letter case) is not a record. */
  lemma MissingFieldNoRecord(line: string, field: string)
    requires field == "call" || field == "qso_date" || field == "time_on"
    requires forall k :: 0 <= k < |FindTags(line)| ==> Key(line, FindTags(line)[k]) != field
    ensures ParseRecord(line) == None
  {
    var tags := FindTags(line);
    var fields := Fields(line, tags);
    Mapping.KeysFromPairs(fields);
  }

  /** Every key of a record is lower case and is the name of a tag of the line, lower-cased. */
  lemma RecordKeys(line: string, key: string)
    requires ParseRecord(line).Some? && key in ParseRecord(line).value
    ensures forall k :: 0 <= k < |key| ==> !IsUpper(key[k])
    ensures exists i :: 0 <= i < |FindTags(line)| && Key(line, FindTags(line)[i]) == key
  {
    var tags := FindTags(line);
    var fields := Fields(line, tags);
    Mapping.KeysFromPairs(fields);
    var p :| p in fields && p.0 == key;
    var i :| 0 <= i < |tags| && fields[i] == p;
    assert Key(line, tags[i]) == key;
  }

  /**
   * A repeated tag keeps the value of its last occurrence; that value is the
   * text after the tag's `>` up to the next `<` or the end of the line,
   * whitespace included.
   */
  lemma LastOccurrenceWins(line: string, i: nat)
    requires ParseRecord(line).Some? && i < |FindTags(line)|
    requires forall j :: i < j < |FindTags(line)| ==> Key(line, FindTags(line)[j]) != Key(line, FindTags(line)[i])
    ensures var t := FindTags(line)[i];
      && Key(line, t) in ParseRecord(line).value
      && ParseRecord(line).value[Key(line, t)] == line[t.close + 1..t.end]
      && line[t.close] == '>'
      && (forall k :: t.close < k < t.end ==> line[k] != '<')
      && (t.end == |line| || line[t.end] == '<')
  {
    var tags := FindTags(line);
    var fields := Fields(line, tags);
    var t := tags[i];
    FoundTagMatches(line, i);
    assert ParseRecord(line).value == Mapping.FromPairs(fields);
    assert fields[i] == (Key(line, t), Value(line, t));
    assert Mapping.IsLastFor(fields, i) by {
      forall j | i < j < |fields| ensures fields[j].0 != fields[i].0 {
        assert fields[j].0 == Key(line, tags[j]);
      }
    }
    Mapping.LastAssignmentWins(fields, i);
  }

  /** Two lines holding the same tags (each key once) in any order parse to the same record. */
  lemma TagOrderIrrelevant(a: string, b: string)
    requires Mapping.DistinctKeys(Fields(a, FindTags(a))) && Mapping.DistinctKeys(Fields(b, FindTags(b)))
    requires forall p :: p in Fields(a, FindTags(a)) <==> p in Fields(b, FindTags(b))
    ensures ParseRecord(a) == ParseRecord(b)
  {
    var fa, fb := Fields(a, FindTags(a)), Fields(b, FindTags(b));
    assert fa == [] <==> fb == [] by {
      if fa != [] { assert fa[0] in fb; }
      if fb != [] { assert fb[0] in fa; }
    }
    Mapping.OrderIrrelevant(fa, fb);
  }

  predicate IsHexDigit(c: char) {
    IsDigit(c) || 'a' <= c <= 'f'
  }

  /** What `hashlib.sha256(...).hexdigest()` returns: 64 lower-case hexadecimal digits. */
  predicate IsHexDigest(d: string) {
    |d| == 64 && forall k :: 0 <= k < |d| ==> IsHexDigit(d[k])
  }

  type HexDigest = d: string | IsHexDigest(d)
    witness seq(64, _ => '0')

  /** `record.get(key, '')`. */
  function Get(rec: map<string, string>, key: string): (v: string)
    ensures key in rec ==> v == rec[key]
    ensures key !in rec ==> v == ""
  {
    if key in rec then rec[key] else ""
  }

  /**
   * The string whose SHA-256 is the duplicate key: `qso_date_time_on_call_freq_mode`,
   * that is, the five values joined with `_`.
   */
  function Normalized(rec: map<string, string>): (r: string)
    ensures r == Join(KeyFields(rec), '_')
  {
    JoinFive(Get(rec, "qso_date"), Get(rec, "time_on"), Get(rec, "call"), Get(rec, "freq"), Get(rec, "mode"));
    Get(rec, "qso_date") + "_" + Get(rec, "time_on") + "_" + Get(rec, "call") + "_"
      + Get(rec, "freq") + "_" + Get(rec, "mode")
  }

  /** `calculate_hash`: "" exactly for lines that are not records, a hex digest otherwise. */
  function CalculateHash(sha256: string -> HexDigest, line: string): (h: string)
    ensures h == "" <==> ParseRecord(line).None?
    ensures h != "" ==> IsHexDigest(h)
  {
    match ParseRecord(line)
    case None => ""
    case Some(rec) => sha256(Normalized(rec))
  }

  /** The key sees only date, time, call, frequency and mode: every other field is ignored. */
  lemma KeyFieldsDecideHash(sha256: string -> HexDigest, a: string, b: string)
    requires ParseRecord(a).Some? && ParseRecord(b).Some?
    requires var ra, rb := ParseRecord(a).value, ParseRecord(b).value;
      && Get(ra, "qso_date") == Get(rb, "qso_date") && Get(ra, "time_on") == Get(rb, "time_on")
      && Get(ra, "call") == Get(rb, "call") && Get(ra, "freq") == Get(rb, "freq")
      && Get(ra, "mode") == Get(rb, "mode")
    ensures CalculateHash(sha256, a) == CalculateHash(sha256, b)
  {
  }

  /** The five values the key is made of, in the order the key string lists them. */
  function KeyFields(rec: map<string, string>): seq<string> {
    [Get(rec, "qso_date"), Get(rec, "time_on"), Get(rec, "call"), Get(rec, "freq"), Get(rec, "mode")]
  }

  /** Two records whose key strings are equal get the same key: only the key string is hashed. */
  lemma NormalizedDecidesHash(sha256: string -> HexDigest, a: string, b: string)
    requires ParseRecord(a).Some? && ParseRecord(b).Some?
    requires Normalized(ParseRecord(a).value) == Normalized(ParseRecord(b).value)
    ensures CalculateHash(sha256, a) == CalculateHash(sha256, b)
  {
  }

  lemma JoinFive(a: string, b: string, c: string, d: string, e: string)
    ensures Join([a, b, c, d, e], '_') == a + "_" + b + "_" + c + "_" + d + "_" + e
  {
    var de, cde, bcde := Join([d, e], '_'), Join([c, d, e], '_'), Join([b, c, d, e], '_');
    assert [d, e][1..] == [e] && [c, d, e][1..] == [d, e];
    assert [b, c, d, e][1..] == [c, d, e] && [a, b, c, d, e][1..] == [b, c, d, e];
    assert Join([e], '_') == e;
    assert de == d + "_" + e;
    assert cde == c + "_" + de;
    assert bcde == b + "_" + cde;
    assert Join([a, b, c, d, e], '_') == a + "_" + bcde;
    assert a + "_" + (b + "_" + (c + "_" + (d + "_" + e))) == a + "_" + b + "_" + c + "_" + d + "_" + e;
  }

  /**
   * While none of the five values holds `_`, the key string tells the five
   * values apart: equal key strings exactly when the five values agree.
   */
  lemma NormalizedInjective(ra: map<string, string>, rb: map<string, string>)
    requires forall k :: 0 <= k < 5 ==> '_' !in KeyFields(ra)[k] && '_' !in KeyFields(rb)[k]
    ensures Normalized(ra) == Normalized(rb) <==> KeyFields(ra) == KeyFields(rb)
  {
    if Normalized(ra) == Normalized(rb) {
      SplitJoin(KeyFields(ra), '_');
      SplitJoin(KeyFields(rb), '_');
    }
  }

  /**
   * A `_` inside a value lets two different records share a key string:
   * date `2024_01` with time `X`, and date `2024` with time `01_X`.
   */
  lemma SeparatorCollision()
    ensures var ra, rb := map["qso_date" := "2024_01", "time_on" := "X"], map["qso_date" := "2024", "time_on" := "01_X"];
      Normalized(ra) == Normalized(rb) && KeyFields(ra) != KeyFields(rb)
  {
    var ra, rb := map["qso_date" := "2024_01", "time_on" := "X"], map["qso_date" := "2024", "time_on" := "01_X"];
    assert Get(ra, "qso_date") == "2024_01" && Get(ra, "time_on") == "X";
    assert Get(rb, "qso_date") == "2024" && Get(rb, "time_on") == "01_X";
    assert Get(ra, "call") == "" == Get(rb, "call");
    assert Get(ra, "freq") == "" == Get(rb, "freq");
    assert Get(ra, "mode") == "" == Get(rb, "mode");
    assert "2024_01" + "_" + "X" == "2024" + "_" + "01_X";
    assert KeyFields(ra)[0] != KeyFields(rb)[0];
  }

  // ---------------------------------------------------------------------
  // `read_file` and `read_new_records`
  // ---------------------------------------------------------------------

  const MaxRetries: nat := 5

  /** The lines of the first of the five open attempts that succeeds, from attempt `a` on. */
  function FirstOpen(attempt: nat -> Option<seq<string>>, a: nat): (r: Option<seq<string>>)
    ensures r.None? <==> forall j :: a <= j < MaxRetries ==> attempt(j).None?
    decreases MaxRetries - a
  {
    if a >= MaxRetries then None
    else if attempt(a).Some? then attempt(a)
    else FirstOpen(attempt, a + 1)
  }

  /**
   * `read_file`: `attempt(n)` is what the n-th `open(...).readlines()` gives,
   * None when it raises IOError. None as the result is the IOError that
   * `read_file` re-raises after the fifth failure.
   */
  method ReadFile(attempt: nat -> Option<seq<string>>) returns (r: Option<seq<string>>, opens: nat, sleeps: nat)
    ensures 1 <= opens <= MaxRetries
    ensures forall j :: 0 <= j < opens - 1 ==> attempt(j).None?
    ensures r == attempt(opens - 1)
    ensures r.Some? ==> sleeps == opens - 1
    ensures r.None? ==> opens == MaxRetries && sleeps == MaxRetries - 1
    ensures r == FirstOpen(attempt, 0)
  {
    r, opens, sleeps := None, 0, 0;
    var a := 0;
    while a < MaxRetries
      invariant a <= MaxRetries && opens == a && r.None?
      invariant sleeps == if a < MaxRetries then a else MaxRetries - 1
      invariant forall j :: 0 <= j < a ==> attempt(j).None?
      invariant a > 0 ==> r == attempt(a - 1)
      invariant FirstOpen(attempt, 0) == FirstOpen(attempt, a)
    {
      opens := opens + 1;
      r := attempt(a);
      if r.Some? {
        return;
      }
      if a < MaxRetries - 1 {
        sleeps := sleeps + 1;  // the file is locked: back off and retry
      }
      a := a + 1;
    }
  }

  /** Blank and `#` lines, which both readers pass over (`t` already stripped). */
  predicate IsIgnored(t: string) {
    t == "" || t[0] == '#'
  }

  /**
   * Whether `read_new_records` keeps the stripped line `t`. `olderThan`,
   * when present, stands for the comparison with `last_upload_time`: given
   * `qso_date + time_on` it says whether the record is older, or gives None
   * where `strptime` raises (the record is then kept).
   */
  function KeepNew(t: string, olderThan: Option<string -> Option<bool>>): (keep: bool)
    ensures keep ==> !IsIgnored(t) && ParseRecord(t).Some?
    ensures olderThan.None? ==> (keep <==> !IsIgnored(t) && ParseRecord(t).Some?)
  {
    if IsIgnored(t) then false
    else
      match ParseRecord(t)
      case None => false
      case Some(rec) =>
        match olderThan
        case None => true
        case Some(older) =>
          var date, time := Get(rec, "qso_date"), Get(rec, "time_on");
          !(date != "" && time != "" && older(date + time) == Some(true))
  }

  /** The stripped lines of `lines` that `keep` accepts, in file order. */
  function Kept(lines: seq<string>, keep: string -> bool): (r: seq<string>)
    ensures |r| <= |lines|
  {
    if lines == [] then []
    else
      var n := |lines| - 1;
      var t := Strip(lines[n]);
      Kept(lines[..n], keep) + if keep(t) then [t] else []
  }

  /** One more line for `Kept`. */
  lemma KeptStep(lines: seq<string>, keep: string -> bool, i: nat)
    requires i < |lines|
    ensures var t := Strip(lines[i]);
      Kept(lines[..i + 1], keep) == Kept(lines[..i], keep) + if keep(t) then [t] else []
  {
    assert lines[..i + 1][..i] == lines[..i];
  }

  /** Everything `Kept` returns is a stripped line of the input that `keep` accepts. */
  lemma {:induction false} KeptSound(lines: seq<string>, keep: string -> bool, k: nat)
    requires k < |Kept(lines, keep)|
    ensures var t := Kept(lines, keep)[k];
      keep(t) && exists j :: 0 <= j < |lines| && t == Strip(lines[j])
    decreases |lines|
  {
    var n := |lines| - 1;
    var prefix := Kept(lines[..n], keep);
    if k < |prefix| {
      KeptSound(lines[..n], keep, k);
      var j :| 0 <= j < n && prefix[k] == Strip(lines[..n][j]);
      assert lines[..n][j] == lines[j];
    } else {
      assert Kept(lines, keep)[k] == Strip(lines[n]);
    }
  }

  /** Every line `keep` accepts is returned. */
  lemma {:induction false} KeptComplete(lines: seq<string>, keep: string -> bool, j: nat)
    requires j < |lines| && keep(Strip(lines[j]))
    ensures Strip(lines[j]) in Kept(lines, keep)
    decreases |lines|
  {
    var n := |lines| - 1;
    var prefix := Kept(lines[..n], keep);
    var t := Strip(lines[n]);
    assert Kept(lines, keep) == prefix + if keep(t) then [t] else [];
    if j < n {
      assert lines[..n][j] == lines[j];
      KeptComplete(lines[..n], keep, j);
      assert Strip(lines[j]) in prefix;
    }
  }

  /** The stripped record lines `read_new_records` returns for the lines read. */
  function NewRecords(lines: seq<string>, olderThan: Option<string -> Option<bool>>): (r: seq<string>)
    ensures |r| <= |lines|
  {
    Kept(lines, t => KeepNew(t, olderThan))
  }

  /** One more line for `NewRecords`, kept or not as `kept` says. */
  lemma NewRecordsStep(lines: seq<string>, olderThan: Option<string -> Option<bool>>, i: nat, kept: bool)
    requires i < |lines| && kept == KeepNew(Strip(lines[i]), olderThan)
    ensures NewRecords(lines[..i + 1], olderThan)
      == NewRecords(lines[..i], olderThan) + if kept then [Strip(lines[i])] else []
  {
    KeptStep(lines, t => KeepNew(t, olderThan), i);
  }

  /** Every line returned is a stripped, non-comment line of the file that parses as a record. */
  lemma NewRecordsAreRecords(lines: seq<string>, olderThan: Option<string -> Option<bool>>, k: nat)
    requires k < |NewRecords(lines, olderThan)|
    ensures var t := NewRecords(lines, olderThan)[k];
      && IsStripped(t) && !IsIgnored(t) && ParseRecord(t).Some?
      && exists j :: 0 <= j < |lines| && t == Strip(lines[j])
  {
    KeptSound(lines, t => KeepNew(t, olderThan), k);
  }

  /** Without a cutoff, every record line of the file is returned. */
  lemma NewRecordsWithoutCutoff(lines: seq<string>, j: nat)
    requires j < |lines|
    requires !IsIgnored(Strip(lines[j])) && ParseRecord(Strip(lines[j])).Some?
    ensures Strip(lines[j]) in NewRecords(lines, None)
  {
    KeptComplete(lines, t => KeepNew(t, None), j);
  }

  /** The body of the loop of `read_new_records`: whether the stripped line `line` is returned. */
  method Keeps(line: string, olderThan: Option<string -> Option<bool>>) returns (keep: bool)
    ensures keep == KeepNew(line, olderThan)
  {
    if IsIgnored(line) {
      return false;
    }
    var record := ParseLine(line);
    if record.None? {
      return false;
    }
    KeepRecord(line, olderThan, record.value);
    keep := true;
    if olderThan.Some? {
      var date, time := Get(record.value, "qso_date"), Get(record.value, "time_on");
      if date != "" && time != "" && olderThan.value(date + time) == Some(true) {
        keep := false;
      }
    }
  }

  /** `KeepNew` for a line that parses as `rec`. */
  lemma KeepRecord(t: string, olderThan: Option<string -> Option<bool>>, rec: map<string, string>)
    requires !IsIgnored(t) && ParseRecord(t) == Some(rec)
    ensures KeepNew(t, olderThan) == match olderThan
      case None => true
      case Some(older) =>
        var date, time := Get(rec, "qso_date"), Get(rec, "time_on");
        !(date != "" && time != "" && older(date + time) == Some(true))
  {
  }

  /** `read_new_records`: the record lines of the file, or none when it cannot be read. */
  method ReadNewRecords(attempt: nat -> Option<seq<string>>, olderThan: Option<string -> Option<bool>>)
    returns (records: seq<string>)
    ensures records == match FirstOpen(attempt, 0)
      case None => []
      case Some(lines) => NewRecords(lines, olderThan)
  {
    var read, _, _ := ReadFile(attempt);
    if read.None? {
      return [];
    }
    var lines := read.value;
    records := [];
    for i := 0 to |lines|
      invariant records == NewRecords(lines[..i], olderThan)
    {
      var line := Strip(lines[i]);
      var kept := Keeps(line, olderThan);
      NewRecordsStep(lines, olderThan, i, kept);
      if kept {
        records := records + [line];
      }
    }
    assert lines[..|lines|] == lines;
  }
}
