/**
 * `Config`: the `key=value` configuration file and the duplicate cache, the
 * set of SHA-256 keys of QSOs already uploaded, kept as the sorted,
 * newline-joined text of a file next to it.
 */
module Settings {
  import opened Wrappers
  import opened Text
  import opened StringOrder
  import Mapping
  import Adif

  // ---------------------------------------------------------------------
  // `Config.load` and `Config.save`
  // ---------------------------------------------------------------------

  /** `key, value = line.split('=', 1)`, both halves stripped. */
  function Assignment(line: string): (kv: (string, string))
    requires '=' in line
    ensures IsStripped(kv.0) && IsStripped(kv.1)
  {
    var e := IndexOf(line, '=');
    (Strip(line[..e]), Strip(line[e + 1..]))
  }

  /** The assignments the loop of `Config.load` performs: one per line holding `=`, in order. */
  function Assignments(lines: seq<string>): (ps: seq<(string, string)>)
    ensures |ps| <= |lines|
  {
    if lines == [] then []
    else
      var n := |lines| - 1;
      Assignments(lines[..n]) + if '=' in lines[n] then [Assignment(lines[n])] else []
  }

  /** The lines of the file: `read_text().strip().split('\n')`, after universal-newline reading. */
  function ConfigLines(text: string): seq<string> {
    Split(Strip(Universal(text)), '\n')
  }

  predicate HasSettings(m: map<string, string>) {
    "url" in m && "apikey" in m && "stationid" in m
  }

  /** What `Config.load` returns for the text of an existing configuration file. */
  function ParseConfig(text: string): (r: Option<map<string, string>>)
    ensures r.Some? ==> HasSettings(r.value)
  {
    var m := Mapping.FromPairs(Assignments(ConfigLines(text)));
    if HasSettings(m) then Some(m) else None
  }

  /** Every key and every value `load` returns is stripped. */
  lemma LoadedStripped(text: string)
    requires ParseConfig(text).Some?
    ensures var m := ParseConfig(text).value;
      forall k :: k in m ==> IsStripped(k) && IsStripped(m[k])
  {
    var ps := Assignments(ConfigLines(text));
    StrippedAssignments(ConfigLines(text));
    Mapping.ValuesFromPairs(ps);
  }

  /** Keys and values of the assignments are stripped. */
  lemma {:induction false} StrippedAssignments(lines: seq<string>)
    ensures forall p :: p in Assignments(lines) ==> IsStripped(p.0) && IsStripped(p.1)
    decreases |lines|
  {
    if lines != [] {
      StrippedAssignments(lines[..|lines| - 1]);
    }
  }

  /** `Config.load`: None when the file does not exist. */
  function LoadConfig(file: Option<string>): (r: Option<map<string, string>>)
    ensures file.None? ==> r.None?
    ensures r.Some? ==> HasSettings(r.value)
  {
    match file
    case None => None
    case Some(text) => ParseConfig(text)
  }

  /** One `key=value` line of the configuration file. */
  function SettingLine(name: string, value: string): string {
    name + "=" + value
  }

  /** The text `Config.save` writes. */
  function ConfigText(url: string, apiKey: string, stationId: string): (r: string)
    ensures |r| > 4 && r[..4] == "url=" && r[|r| - 1] == '\n'
  {
    SettingLine("url", url) + "\n" + SettingLine("apikey", apiKey) + "\n"
      + SettingLine("stationid", stationId) + "\n"
  }

  /** A later line assigning the same key overwrites an earlier one. */
  lemma {:induction false} LaterLineWins(lines: seq<string>, i: nat)
    requires i < |lines| && '=' in lines[i]
    requires forall j :: i < j < |lines| && '=' in lines[j] ==> Assignment(lines[j]).0 != Assignment(lines[i]).0
    ensures var kv := Assignment(lines[i]);
      var m := Mapping.FromPairs(Assignments(lines));
      kv.0 in m && m[kv.0] == kv.1
    decreases |lines|
  {
    var n := |lines| - 1;
    var prefix := Assignments(lines[..n]);
    var kv := Assignment(lines[i]);
    if i == n {
      assert Assignments(lines) == prefix + [kv];
      Mapping.AssignLast(prefix, kv);
    } else {
      NoLaterAssignmentInPrefix(lines, i);
      LaterLineWins(lines[..n], i);
      assert kv.0 in Mapping.FromPairs(prefix) && Mapping.FromPairs(prefix)[kv.0] == kv.1;
      if '=' in lines[n] {
        var last := Assignment(lines[n]);
        assert last.0 != kv.0;
        assert Assignments(lines) == prefix + [last];
        Mapping.AssignLast(prefix, last);
      } else {
        assert Assignments(lines) == prefix;
      }
    }
  }

  /** Dropping the last line keeps line `i` the last assignment to its key. */
  lemma NoLaterAssignmentInPrefix(lines: seq<string>, i: nat)
    requires i < |lines| - 1 && '=' in lines[i]
    requires forall j :: i < j < |lines| && '=' in lines[j] ==> Assignment(lines[j]).0 != Assignment(lines[i]).0
    ensures var prefix := lines[..|lines| - 1];
      && i < |prefix| && prefix[i] == lines[i]
      && forall j :: i < j < |prefix| && '=' in prefix[j] ==> Assignment(prefix[j]).0 != Assignment(prefix[i]).0
  {
    var prefix := lines[..|lines| - 1];
    forall j | i < j < |prefix| && '=' in prefix[j]
      ensures Assignment(prefix[j]).0 != Assignment(prefix[i]).0
    {
      assert prefix[j] == lines[j] && prefix[i] == lines[i];
    }
  }

  lemma AssignmentsSnoc(lines: seq<string>, line: string)
    ensures Assignments(lines + [line]) == Assignments(lines) + if '=' in line then [Assignment(line)] else []
  {
    assert (lines + [line])[..|lines|] == lines;
  }

  /** One more line of the loop of `Config.load`: a line holding `=` assigns its key, any other changes nothing. */
  lemma LoadStep(done: seq<string>, line: string)
    ensures var m := Mapping.FromPairs(Assignments(done));
      Mapping.FromPairs(Assignments(done + [line])) == if '=' in line then m[Assignment(line).0 := Assignment(line).1] else m
  {
    AssignmentsSnoc(done, line);
    if '=' in line {
      Mapping.AssignLast(Assignments(done), Assignment(line));
    } else {
      assert Assignments(done) + [] == Assignments(done);
    }
  }

  /** The line `name=value`, for a name without `=` and a stripped value, assigns `value` to `name`. */
  lemma AssignmentOf(name: string, value: string)
    requires '=' !in name && IsStripped(name) && IsStripped(value)
    ensures var line := SettingLine(name, value);
      '=' in line && Assignment(line) == (name, value)
  {
    var line := SettingLine(name, value);
    assert line == name + ['='] + value;
    assert line[|name|] == '=';
    IndexOfFirst(name, '=', value);
    var e := IndexOf(line, '=');
    assert e == |name|;
    assert line[..e] == name;
    assert line[e + 1..] == value;
    assert Strip(name) == name && Strip(value) == value;
  }

  /** The three lines `save` writes are the lines `load` reads. */
  lemma ConfigTextLines(url: string, apiKey: string, stationId: string)
    requires IsStripped(stationId)
    requires '\n' !in url && '\n' !in apiKey && '\n' !in stationId
    requires '\r' !in url && '\r' !in apiKey && '\r' !in stationId
    ensures ConfigLines(ConfigText(url, apiKey, stationId))
      == [SettingLine("url", url), SettingLine("apikey", apiKey), SettingLine("stationid", stationId)]
  {
    var a, b, c := SettingLine("url", url), SettingLine("apikey", apiKey), SettingLine("stationid", stationId);
    SettingOnOneLine("url", url);
    SettingOnOneLine("apikey", apiKey);
    SettingOnOneLine("stationid", stationId);
    assert a[0] == 'u';
    assert c[|c| - 1] == if stationId == [] then '=' else stationId[|stationId| - 1];
    LinesOfThree(a, b, c);
  }

  /** Three one-line pieces, each followed by a line break, read back as those three lines. */
  lemma LinesOfThree(a: string, b: string, c: string)
    requires '\n' !in a && '\n' !in b && '\n' !in c
    requires '\r' !in a && '\r' !in b && '\r' !in c
    requires a != [] && !IsSpace(a[0]) && c != [] && !IsSpace(c[|c| - 1])
    ensures ConfigLines(a + "\n" + b + "\n" + c + "\n") == [a, b, c]
  {
    ThreeLinesNoReturn(a, b, c);
    var parts := [a, b, c];
    var body := Join(parts, '\n');
    assert body == a + "\n" + b + "\n" + c by {
      assert parts[1..] == [b, c] && [b, c][1..] == [c];
      assert Join([b, c], '\n') == b + "\n" + c;
    }
    JoinStripped(parts, '\n');
    StripSurrounded([], body, "\n");
    assert [] + body + "\n" == a + "\n" + b + "\n" + c + "\n";
    SplitJoin(parts, '\n');
  }

  lemma ThreeLinesNoReturn(a: string, b: string, c: string)
    requires '\r' !in a && '\r' !in b && '\r' !in c
    ensures '\r' !in a + "\n" + b + "\n" + c + "\n"
  {
    var text := a + "\n" + b + "\n" + c + "\n";
    forall k | 0 <= k < |text|
      ensures text[k] != '\r'
    {
      if k < |a| {
        assert text[k] == a[k];
      } else if |a| + 1 <= k < |a| + 1 + |b| {
        assert text[k] == b[k - |a| - 1];
      } else if |a| + |b| + 2 <= k < |a| + |b| + 2 + |c| {
        assert text[k] == c[k - |a| - |b| - 2];
      }
    }
  }

  lemma SettingOnOneLine(name: string, value: string)
    requires '\n' !in name && '\n' !in value && '\r' !in name && '\r' !in value
    ensures '\n' !in SettingLine(name, value) && '\r' !in SettingLine(name, value)
  {
  }

  /** Three lines that each assign a key give those three assignments. */
  lemma ThreeAssignments(a: string, b: string, c: string)
    requires '=' in a && '=' in b && '=' in c
    ensures Assignments([a, b, c]) == [Assignment(a), Assignment(b), Assignment(c)]
  {
    var one, two, three := [a], [a, b], [a, b, c];
    assert one[..0] == [] && two[..1] == one && three[..2] == two;
    assert Assignments(one) == [Assignment(a)];
    assert Assignments(two) == [Assignment(a)] + [Assignment(b)];
  }

  /** Three assignments give the dictionary the three updates build in order. */
  lemma ThreePairs(p1: (string, string), p2: (string, string), p3: (string, string))
    ensures Mapping.FromPairs([p1, p2, p3]) == map[p1.0 := p1.1, p2.0 := p2.1, p3.0 := p3.1]
  {
    Mapping.AssignLast([], p1);
    assert [] + [p1] == [p1];
    Mapping.AssignLast([p1], p2);
    assert [p1] + [p2] == [p1, p2];
    Mapping.AssignLast([p1, p2], p3);
    assert [p1, p2] + [p3] == [p1, p2, p3];
  }

  /** The three setting names can stand left of `=`: no `=`, no surrounding space. */
  lemma NamesAreKeys()
    ensures '=' !in "url" && IsStripped("url")
    ensures '=' !in "apikey" && IsStripped("apikey")
    ensures '=' !in "stationid" && IsStripped("stationid")
  {
  }

  /** The saved text makes the three assignments, in order. */
  lemma SavedAssignments(url: string, apiKey: string, stationId: string)
    requires IsStripped(url) && IsStripped(apiKey) && IsStripped(stationId)
    requires '\n' !in url && '\n' !in apiKey && '\n' !in stationId
    requires '\r' !in url && '\r' !in apiKey && '\r' !in stationId
    ensures Assignments(ConfigLines(ConfigText(url, apiKey, stationId)))
      == [("url", url), ("apikey", apiKey), ("stationid", stationId)]
  {
    var a, b, c := SettingLine("url", url), SettingLine("apikey", apiKey), SettingLine("stationid", stationId);
    ConfigTextLines(url, apiKey, stationId);
    NamesAreKeys();
    AssignmentOf("url", url);
    AssignmentOf("apikey", apiKey);
    AssignmentOf("stationid", stationId);
    ThreeAssignments(a, b, c);
  }

  /**
   * `load` reads back what `save` wrote, when the values are stripped and
   * hold no line break (`strip()`, universal newlines and the split at `\n`
   * would alter them).
   */
  lemma SaveLoadRoundTrip(url: string, apiKey: string, stationId: string)
    requires IsStripped(url) && IsStripped(apiKey) && IsStripped(stationId)
    requires '\n' !in url && '\n' !in apiKey && '\n' !in stationId
    requires '\r' !in url && '\r' !in apiKey && '\r' !in stationId
    ensures ParseConfig(ConfigText(url, apiKey, stationId))
      == Some(map["url" := url, "apikey" := apiKey, "stationid" := stationId])
  {
    var p1, p2, p3 := ("url", url), ("apikey", apiKey), ("stationid", stationId);
    var m := map["url" := url, "apikey" := apiKey, "stationid" := stationId];
    SavedAssignments(url, apiKey, stationId);
    assert Mapping.FromPairs([p1, p2, p3]) == m by {
      ThreePairs(p1, p2, p3);
    }
    assert HasSettings(m);
  }

  // ---------------------------------------------------------------------
  // The duplicate cache
  // ---------------------------------------------------------------------

  /**
   * The cache file: absent, present but not readable as text (`read_text`
   * raises, for instance on bytes that are not UTF-8), or present with its text.
   */
  datatype CacheFile = Missing | Unreadable | Stored(text: string)

  /**
   * `load_uploaded_qsos`: the lines of the stripped text as `read_text` gives
   * it (universal newlines), as a set; empty when the file cannot be read.
   */
  function LoadUploadedQsos(f: CacheFile): (s: set<string>)
    ensures forall x :: x in s ==> '\n' !in x && '\r' !in x
    ensures f.Stored? <==> s != {}
  {
    match f
    case Stored(text) =>
      var read := Strip(Universal(text));
      var lines := Split(read, '\n');
      StripAvoids(Universal(text), '\r');
      JoinedPieces(lines, '\n', '\r');
      assert lines[0] in Elems(lines);
      Elems(lines)
    case _ => {}
  }

  /** The text `save_uploaded_qso` writes for the set `S`: `'\n'.join(sorted(S))`. */
  ghost function Serialize(S: set<string>): (r: string)
    ensures S == {} ==> r == ""
    ensures S != {} && (forall x :: x in S ==> '\n' !in x) ==> Split(r, '\n') == SortedList(S)
  {
    if S != {} && forall x :: x in S ==> '\n' !in x then
      SplitSorted(S);
      Join(SortedList(S), '\n')
    else
      var ls := SortedList(S);
      assert ls != [] ==> ls[0] in Elems(ls);
      Join(ls, '\n')
  }

  /** Single-line keys, sorted and joined with line breaks, split back into the sorted keys. */
  lemma SplitSorted(S: set<string>)
    requires S != {} && forall x :: x in S ==> '\n' !in x
    ensures Split(Join(SortedList(S), '\n'), '\n') == SortedList(S)
  {
    var ls := SortedList(S);
    var x :| x in S;
    assert x in Elems(ls);
    assert forall k :: 0 <= k < |ls| ==> ls[k] in Elems(ls);
    SplitJoin(ls, '\n');
  }

  /** The cache file after `save_uploaded_qso(h)`: the loaded set with `h` added, written back whole. */
  ghost function SavedFile(f: CacheFile, h: string): (r: CacheFile)
    ensures r.Stored?
    ensures '\n' !in h ==> h in Elems(Split(r.text, '\n'))
  {
    Stored(Serialize(LoadUploadedQsos(f) + {h}))
  }

  /** A key the cache keeps intact: non-empty, stripped, on one line (no `\n` and no `\r`). */
  predicate IsCleanKey(h: string) {
    h != "" && IsStripped(h) && '\n' !in h && '\r' !in h
  }

  /** Every stored line is stripped (true of anything the program itself writes). */
  ghost predicate WellFormedCache(f: CacheFile) {
    forall x :: x in LoadUploadedQsos(f) ==> IsStripped(x)
  }

  /** A SHA-256 hex digest is a clean key. */
  lemma DigestIsClean(h: Adif.HexDigest)
    ensures IsCleanKey(h)
  {
    assert Adif.IsHexDigit(h[0]) && Adif.IsHexDigit(h[|h| - 1]);
  }

  /** The text written for a non-empty set of clean keys is stripped and splits into its sorted keys. */
  lemma SerializedLines(S: set<string>)
    requires S != {} && forall x :: x in S ==> IsCleanKey(x)
    ensures IsStripped(Serialize(S)) && '\r' !in Serialize(S)
    ensures Split(Serialize(S), '\n') == SortedList(S)
  {
    var ls := SortedList(S);
    var x :| x in S;
    assert x in Elems(ls);
    assert ls[0] in Elems(ls) && ls[|ls| - 1] in Elems(ls);
    JoinStripped(ls, '\n');
    assert forall k :: 0 <= k < |ls| ==> ls[k] in Elems(ls);
    SplitJoin(ls, '\n');
    JoinAvoids(ls, '\n', '\r');
  }

  /** A non-empty set of clean keys is read back exactly as written. */
  lemma LoadSerialized(S: set<string>)
    requires S != {} && forall x :: x in S ==> IsCleanKey(x)
    ensures LoadUploadedQsos(Stored(Serialize(S))) == S
  {
    SerializedLines(S);
  }

  /** A written `""` comes first, as a leading line break. */
  lemma SerializeWithEmpty(S: set<string>)
    requires "" in S && S - {""} != {}
    ensures Serialize(S) == "\n" + Serialize(S - {""})
  {
    EmptyFirst(S);
    var rest := SortedList(S - {""});
    var x :| x in S - {""};
    assert x in Elems(rest);
    var ls := [""] + rest;
    assert |ls| > 1 && ls[0] == "" && ls[1..] == rest;
    assert Join(ls, '\n') == "" + ['\n'] + Join(rest, '\n');
  }

  /** A written `""` comes first, as a leading line break that `strip()` then removes. */
  lemma LoadSerializedDropsEmpty(S: set<string>)
    requires "" in S && S - {""} != {}
    requires forall x :: x in S - {""} ==> IsCleanKey(x)
    ensures LoadUploadedQsos(Stored(Serialize(S))) == S - {""}
  {
    var t := Serialize(S - {""});
    SerializeWithEmpty(S);
    SerializedLines(S - {""});
    StripSurrounded("\n", t, []);
    assert "\n" + t + [] == Serialize(S);
  }

  /**
   * After `save_uploaded_qso(h)` a load gives the earlier set with `h` added:
   * no stored key is lost and the new one is there. The one exception is the
   * empty line an empty cache file loads as, which the save drops.
   */
  lemma LoadAfterSave(f: CacheFile, h: string)
    requires WellFormedCache(f) && IsCleanKey(h)
    ensures LoadUploadedQsos(SavedFile(f, h)) == (LoadUploadedQsos(f) + {h}) - {""}
    ensures h in LoadUploadedQsos(SavedFile(f, h))
    ensures LoadUploadedQsos(f) - {""} <= LoadUploadedQsos(SavedFile(f, h))
    ensures WellFormedCache(SavedFile(f, h))
  {
    var S := LoadUploadedQsos(f) + {h};
    assert forall x :: x in S - {""} ==> IsCleanKey(x);
    assert h in S - {""};
    if "" in S {
      LoadSerializedDropsEmpty(S);
    } else {
      LoadSerialized(S);
    }
  }

  /** Saving a key that is already in the cache leaves a written cache file as it was. */
  lemma ResaveUnchanged(S: set<string>, h: string)
    requires S != {} && forall x :: x in S ==> IsCleanKey(x)
    requires h in S
    ensures SavedFile(Stored(Serialize(S)), h) == Stored(Serialize(S))
  {
    LoadSerialized(S);
    assert S + {h} == S;
  }

  /** Saving the same key twice writes what saving it once wrote. */
  lemma SaveTwice(f: CacheFile, h: string)
    requires WellFormedCache(f) && IsCleanKey(h) && "" !in LoadUploadedQsos(f)
    ensures SavedFile(SavedFile(f, h), h) == SavedFile(f, h)
  {
    LoadAfterSave(f, h);
    var S := LoadUploadedQsos(f) + {h};
    assert S - {""} == S && S + {h} == S;
  }

  /**
   * An existing but empty cache file loads as `{""}`; the first save then
   * writes a leading line break, and only a second save of the same key
   * gives the bare key.
   */
  lemma EmptyCacheFile(h: string)
    requires IsCleanKey(h)
    ensures LoadUploadedQsos(Stored("")) == {""}
    ensures SavedFile(Stored(""), h) == Stored("\n" + h)
    ensures SavedFile(SavedFile(Stored(""), h), h) == Stored(h)
  {
    EmptyTextLoads();
    var S := {""} + {h};
    assert S - {""} == {h};
    SerializeWithEmpty(S);
    SerializeOne(h);
    LoadSerializedDropsEmpty(S);
    assert {h} + {h} == {h};
  }

  /** A cache file with Windows line ends (`\r\n`) loads as the keys it holds. */
  lemma CrlfCacheLoads(h1: string, h2: string)
    requires IsCleanKey(h1) && IsCleanKey(h2)
    ensures LoadUploadedQsos(Stored(h1 + "\r\n" + h2)) == {h1, h2}
  {
    CrlfRead(h1, h2);
    TwoKeysRead(h1, h2);
  }

  lemma CrlfRead(h1: string, h2: string)
    requires '\r' !in h1 && '\r' !in h2
    ensures Universal(h1 + "\r\n" + h2) == h1 + "\n" + h2
  {
    var tail := "\r\n" + h2;
    assert h1 + "\r\n" + h2 == h1 + tail;
    assert tail[0] == '\r' && tail[1] == '\n' && tail[2..] == h2;
    assert Universal(tail) == "\n" + Universal(h2);
    UniversalAppend(h1, tail);
  }

  lemma TwoKeysRead(h1: string, h2: string)
    requires IsCleanKey(h1) && IsCleanKey(h2)
    ensures Elems(Split(Strip(h1 + "\n" + h2), '\n')) == {h1, h2}
  {
    var parts := [h1, h2];
    assert Join(parts, '\n') == h1 + "\n" + h2 by {
      assert parts[1..] == [h2];
    }
    assert h1[0] in h1 && h2[|h2| - 1] in h2;
    JoinStripped(parts, '\n');
    SplitJoin(parts, '\n');
    assert forall x :: x in parts <==> x == h1 || x == h2;
  }

  lemma EmptyTextLoads()
    ensures LoadUploadedQsos(Stored("")) == {""}
  {
    assert Split("", '\n') == [""];
    assert Elems([""]) == {""};
  }

  /** A single key is written as itself. */
  lemma SerializeOne(h: string)
    ensures Serialize({h}) == h
  {
    SortedUnique(SortedList({h}), [h]);
  }

  /** The cache file after saving the keys `hs`, one after the other. */
  ghost function SaveAll(f: CacheFile, hs: seq<string>): CacheFile
    decreases |hs|
  {
    if hs == [] then f else SavedFile(SaveAll(f, hs[..|hs| - 1]), hs[|hs| - 1])
  }

  lemma SetStep(L: set<string>, A: set<string>, B: set<string>, E: set<string>, h: string)
    requires B == (A + {h}) - {""}
    requires A - {""} == (L + E) - {""}
    ensures B - {""} == (L + (E + {h})) - {""}
  {
    forall x ensures x in B - {""} <==> x in (L + (E + {h})) - {""} {
      assert x in A - {""} <==> x in (L + E) - {""};
    }
  }

  /** After a series of saves a load gives the earlier keys and every saved one. */
  lemma {:induction false} LoadAfterSaves(f: CacheFile, hs: seq<string>)
    requires WellFormedCache(f)
    requires forall i :: 0 <= i < |hs| ==> IsCleanKey(hs[i])
    ensures LoadUploadedQsos(SaveAll(f, hs)) - {""} == (LoadUploadedQsos(f) + Elems(hs)) - {""}
    ensures WellFormedCache(SaveAll(f, hs))
    decreases |hs|
  {
    if hs != [] {
      var n := |hs| - 1;
      var before := SaveAll(f, hs[..n]);
      CleanPrefix(hs, n);
      LoadAfterSaves(f, hs[..n]);
      LoadAfterSave(before, hs[n]);
      ElemsSnoc(hs);
      SetStep(LoadUploadedQsos(f), LoadUploadedQsos(before), LoadUploadedQsos(SaveAll(f, hs)), Elems(hs[..n]), hs[n]);
    }
  }

  lemma CleanPrefix(hs: seq<string>, n: nat)
    requires n <= |hs| && forall i :: 0 <= i < |hs| ==> IsCleanKey(hs[i])
    ensures forall i :: 0 <= i < n ==> IsCleanKey(hs[..n][i])
  {
  }

  lemma ElemsSnoc(hs: seq<string>)
    requires hs != []
    ensures Elems(hs) == Elems(hs[..|hs| - 1]) + {hs[|hs| - 1]}
  {
    assert hs == hs[..|hs| - 1] + [hs[|hs| - 1]];
  }

  /** Saving clean keys loses no key that was there and keeps every key saved. */
  lemma SavesKeepKeys(f: CacheFile, hs: seq<string>)
    requires WellFormedCache(f)
    requires forall i :: 0 <= i < |hs| ==> IsCleanKey(hs[i])
    ensures LoadUploadedQsos(f) - {""} <= LoadUploadedQsos(SaveAll(f, hs))
    ensures forall i :: 0 <= i < |hs| ==> hs[i] in LoadUploadedQsos(SaveAll(f, hs))
  {
    LoadAfterSaves(f, hs);
    SubsetOfUnion(LoadUploadedQsos(f), LoadUploadedQsos(SaveAll(f, hs)), hs);
  }

  lemma SubsetOfUnion(L: set<string>, S: set<string>, hs: seq<string>)
    requires S - {""} == (L + Elems(hs)) - {""}
    requires forall i :: 0 <= i < |hs| ==> hs[i] != ""
    ensures L - {""} <= S
    ensures forall i :: 0 <= i < |hs| ==> hs[i] in S
  {
    forall i | 0 <= i < |hs| ensures hs[i] in S {
      assert hs[i] in Elems(hs) && hs[i] in (L + Elems(hs)) - {""};
    }
    forall x | x in L - {""} ensures x in S {
      assert x in (L + Elems(hs)) - {""};
    }
  }

  // ---------------------------------------------------------------------
  // The files, as the state of the program
  // ---------------------------------------------------------------------

  /**
   * The two files under the configuration directory. `writes` counts the
   * writes (`write_text`, `unlink`) tried on them so far, and `writeOk(n)`
   * says whether the n-th of them (counting from 0) succeeds; one that does
   * not raises and leaves the files as they were.
   */
  class Config {
    var configFile: Option<string>
    var cache: CacheFile
    var writes: nat
    const writeOk: nat -> bool

    constructor (configFile: Option<string>, cache: CacheFile, writeOk: nat -> bool)
      ensures this.configFile == configFile && this.cache == cache && this.writeOk == writeOk && writes == 0
    {
      this.configFile := configFile;
      this.cache := cache;
      this.writeOk := writeOk;
      writes := 0;
    }

    /** `Config.load`: one assignment per line holding `=`, then the check for the three settings. */
    method Load() returns (r: Option<map<string, string>>)
      ensures r == LoadConfig(configFile)
    {
      if configFile.None? {
        return None;
      }
      var lines := ConfigLines(configFile.value);  // `read_text().strip().split('\n')`
      var config: map<string, string> := map[];
      for i := 0 to |lines|
        invariant config == Mapping.FromPairs(Assignments(lines[..i]))
      {
        var line := lines[i];
        assert lines[..i + 1] == lines[..i] + [line];
        LoadStep(lines[..i], line);
        if '=' in line {
          var e := IndexOf(line, '=');
          var key, value := Strip(line[..e]), Strip(line[e + 1..]);
          assert (key, value) == Assignment(line);
          config := config[key := value];
        }
      }
      assert lines[..|lines|] == lines;
      if "url" in config && "apikey" in config && "stationid" in config {
        return Some(config);
      }
      return None;
    }

    /** `Config.save`: writes the three settings, one `key=value` line each. */
    method Save(url: string, apiKey: string, stationId: string) returns (raised: bool)
      modifies this
      ensures raised == !writeOk(old(writes)) && writes == old(writes) + 1 && cache == old(cache)
      ensures configFile == if !raised then Some(ConfigText(url, apiKey, stationId)) else old(configFile)
    {
      raised := !writeOk(writes);
      writes := writes + 1;
      if raised {
        return;
      }
      configFile := Some(ConfigText(url, apiKey, stationId));
    }

    /** `save_uploaded_qso`: load the set, add the key, write the sorted set back. */
    method SaveUploadedQso(h: string) returns (raised: bool)
      modifies this
      ensures raised == !writeOk(old(writes)) && writes == old(writes) + 1 && configFile == old(configFile)
      ensures cache == if !raised then SavedFile(old(cache), h) else old(cache)
    {
      var uploaded := LoadUploadedQsos(cache);
      uploaded := uploaded + {h};
      var ordered := SortSet(uploaded);
      raised := !writeOk(writes);
      writes := writes + 1;
      if raised {
        return;
      }
      cache := Stored(Join(ordered, '\n'));
    }

    /** Clearing the duplicate cache from the menu: `unlink(missing_ok=True)`. */
    method ClearCache() returns (raised: bool)
      modifies this
      ensures raised == !writeOk(old(writes)) && writes == old(writes) + 1 && configFile == old(configFile)
      ensures cache == if !raised then Missing else old(cache)
      ensures !raised ==> LoadUploadedQsos(cache) == {}
    {
      raised := !writeOk(writes);
      writes := writes + 1;
      if raised {
        return;
      }
      cache := Missing;
    }
  }
}
