# adifpush, modelled in Dafny

A model of the core of `adifpush_enhanced.py`, a small uploader that sends the
QSO records a WSJT-X station logs to a Cloudlog server and remembers what it has
already sent. It has three paths:

- **batch upload** (`CloudlogPusher.push_file`): read the ADIF log file,
  work out a duplicate key for every record line, skip the keys already in the
  cache file, POST the rest one by one, and save the key of every successful
  POST to the cache file;
- **live upload** (`WsjtxListener`): search each UDP datagram for an embedded
  ADIF record and push it unless its key is already known;
- **configuration and cache** (`Config`): the `key=value` settings file and
  the cache file of uploaded keys (one SHA-256 hex digest per line, sorted).

The model is split by the program's own classes:

| file | module | models |
|---|---|---|
| `adif.dfy` | `Adif` | `AdifParser`: the tag scanner behind `parse_line`, `calculate_hash`, `read_file`, `read_new_records` |
| `config.dfy` | `Settings` | `Config.load` / `Config.save`, the cache file (`load_uploaded_qsos`, `save_uploaded_qso`, clearing it) and a `Config` class holding the two files |
| `cloudlog.dfy` | `Cloudlog` | `CloudlogPusher`: `push_record`, and `push_file` both as a class method and as a left fold (`Run`) that the lemmas reason about |
| `listener.dfy` | `Listener` | `WsjtxListener`: the `<QSO_DATE:\d+>\d+.*?<EOR>` search, `_parse_message` as a state step (`OnDatagram`), and the receive loop of `start` (`Listen`) |
| `text.dfy`, `ordering.dfy`, `mapping.dfy`, `wrappers.dfy` | `Text`, `StringOrder`, `Mapping`, `Wrappers` | the Python built-ins the core leans on: `str.strip`, `split`/`join`, `lower`, code-point order for `sorted`, dictionary assignment in a loop, `Optional` |

The world outside the program is passed in as values:

- the SHA-256 hex digest is a function parameter `sha256: string -> HexDigest`;
- the Cloudlog server is a `Server` object. Its `respond` function gives the
  reply to the n-th POST, either a status and body or a transport error. Its
  `sent` field records every payload POSTed;
- the outcome of each of the five attempts to open the log file is a
  parameter `attempt`;
- the outcome of every write to the configuration directory is an oracle
  `writeOk`: `writeOk(n)` says whether the n-th write (counting from 0)
  succeeds, and `Config.writes` counts the writes tried so far, so a failed
  write can be followed by a successful one;
- the `strptime` comparison with `last_upload_time` is an oracle `olderThan`;
- the datagrams received before Ctrl+C are a finite sequence of texts.

### Where the model follows the code rather than the documentation

- Values are not whitespace-normalised: `parse_line` keeps each value exactly
  as found (`[^<]*`), so `calculate_hash` sees two records that differ only in
  spacing inside a value as different (`Adif.KeyFieldsDecideHash` is stated
  over parsed values).
- The `TX_PWR` clean-up in `push_record` (lines 203-205) alters a dictionary
  that is then thrown away; the payload carries the line as read. The model
  sends the stripped line (`Cloudlog.RecordPayload`).
- `push_file` has no memory within one run: the snapshot of the cache is
  taken once before the loop, so a record that occurs twice in one file is
  POSTed twice (`Cloudlog.RepeatedLinePostedTwice`).
- An existing but empty cache file loads as the set `{""}`, not the empty set,
  and the first save then writes a leading blank line that the second save
  removes (`Settings.EmptyCacheFile`).
- `Config.load` accepts empty setting values: only the presence of the three
  keys is checked.
- The listener checks `qso_hash in last_uploaded_qsos` before parsing the
  record. A line that is not a record has the key `""`, and is dropped either
  way, so the order makes no difference to what is sent. The model drops
  such a line before the key check (`Listener.Candidate`).

## Model

| member | source | states |
|---|---|---|
| Adif.MatchAt | adifpush_enhanced.py:104-105 | a match found at a position starts there and lies inside the line |
| Adif.MatchAtExact | adifpush_enhanced.py:104-105 | the scanner matches at `p` exactly when a tag `<word:digits>value` starts at `p`, with the greedy `[^<]*` value (both directions) |
| Adif.MatchAtSound | adifpush_enhanced.py:104-105 | every match is a well-formed tag |
| Adif.MatchAtFinds | adifpush_enhanced.py:104-105 | every well-formed tag is matched |
| Adif.SpanIs | adifpush_enhanced.py:104 | a greedy character run stops exactly at the first character outside its class |
| Adif.Span | adifpush_enhanced.py:104 | a greedy run of a character class from a position ends inside the line, no earlier than it starts |
| Adif.SpanRun | adifpush_enhanced.py:104 | the run is all of the class and stops at the end of the line or at a character outside it |
| Adif.Scan | adifpush_enhanced.py:105 | `findall` returns matches inside the line, from the scan position on |
| Adif.ScanOrdered | adifpush_enhanced.py:105 | the matches do not overlap and come in line order |
| Adif.ScanComplete | adifpush_enhanced.py:105 | a position starts a match exactly when a tag matches there (the value of an earlier tag never hides one, since it cannot hold `<`) |
| Adif.InsideValue | adifpush_enhanced.py:104 | no tag starts inside another tag |
| Adif.ScannedTagMatches | adifpush_enhanced.py:105 | every match `findall` returns is a well-formed tag |
| Adif.FindTags | adifpush_enhanced.py:105 | all matches of the line lie inside it |
| Adif.FoundTagMatches | adifpush_enhanced.py:105 | each match of the line is a well-formed tag |
| Adif.ParseRecord | adifpush_enhanced.py:99-117 | a record that is returned has `call`, `qso_date` and `time_on` |
| Adif.ParseLine | adifpush_enhanced.py:99-117 | the loop assigning `record[key.lower()] = value` returns exactly the record of the tags in order, or None without tags or without a required field |
| Adif.FieldsStep | adifpush_enhanced.py:110-111 | each pass adds that tag's lower-cased key and value to the dictionary |
| Adif.RecordOfTags | adifpush_enhanced.py:107-117 | a line with tags yields its dictionary exactly when the three required keys are in it |
| Adif.NoTagNoRecord | adifpush_enhanced.py:107-108 | a line without any tag is not a record |
| Adif.MissingFieldNoRecord | adifpush_enhanced.py:114-115 | a line lacking any one of the three required tags is not a record |
| Adif.RecordKeys | adifpush_enhanced.py:110-111 | every key of a record is lower-case and comes from one of the line's tags |
| Adif.KeyIgnoresCase | adifpush_enhanced.py:111 | tag names that differ only in letter case (`CALL`, `Call`, `call`) are stored under the same key |
| Adif.LastOccurrenceWins | adifpush_enhanced.py:110-111 | a repeated tag keeps the value of its last occurrence |
| Adif.TagOrderIrrelevant | adifpush_enhanced.py:110-111 | two lines with the same distinct tags, in any order, parse to the same record |
| Adif.CalculateHash | adifpush_enhanced.py:120-130 | the key is `""` exactly for lines that are not records, and a 64-digit lower-case hex digest otherwise |
| Adif.Get | adifpush_enhanced.py:127-129 | `record.get(key, '')` is the stored value when the key is there and `""` otherwise |
| Adif.Normalized | adifpush_enhanced.py:127-129 | the string that is hashed is date, time, call, frequency and mode, in that order, joined with `_` |
| Adif.NormalizedDecidesHash | adifpush_enhanced.py:127-130 | records with the same key string get the same key |
| Adif.NormalizedInjective | adifpush_enhanced.py:127-129 | when none of the five values holds `_`, two records have the same key string exactly when their five values agree (both directions) |
| Adif.SeparatorCollision | adifpush_enhanced.py:127-129 | a `_` inside a value lets two different records share a key string: date `2024_01` with time `X`, and date `2024` with time `01_X` |
| Adif.KeyFieldsDecideHash | adifpush_enhanced.py:127-130 | records that agree on date, time, call, frequency and mode get the same key, whatever their other fields |
| Adif.ReadFile | adifpush_enhanced.py:133-144 | at most five opens; the lines of the first that succeeds; a sleep between failed attempts but none after the last; failure only after five failures |
| Adif.FirstOpen | adifpush_enhanced.py:136-144 | no lines exactly when every open attempt from the given one up to the fifth fails |
| Adif.Kept | adifpush_enhanced.py:154-176 | never more lines than read |
| Adif.KeptStep | adifpush_enhanced.py:155-176 | each line adds its stripped form to the result or nothing |
| Adif.KeptSound | adifpush_enhanced.py:155-176 | every line returned is an accepted stripped line of the file |
| Adif.KeptComplete | adifpush_enhanced.py:155-176 | every accepted line of the file is returned |
| Adif.KeepRecord | adifpush_enhanced.py:164-176 | a record line is kept unless date and time are both present and the cutoff says it is older; a `strptime` failure keeps it |
| Adif.KeepNew | adifpush_enhanced.py:155-176 | a kept line is a non-blank, non-comment record line; without `last_upload_time` every such line is kept (both directions) |
| Adif.Keeps | adifpush_enhanced.py:156-176 | the loop body keeps a stripped line exactly when it is a non-comment record line not older than the cutoff |
| Adif.NewRecords | adifpush_enhanced.py:154-178 | never more records than lines read |
| Adif.NewRecordsStep | adifpush_enhanced.py:155-176 | one more line appends itself, stripped, exactly when it is kept |
| Adif.NewRecordsAreRecords | adifpush_enhanced.py:154-178 | every line returned is a stripped, non-blank, non-comment line of the file that parses as a record |
| Adif.NewRecordsWithoutCutoff | adifpush_enhanced.py:165 | without `last_upload_time` every record line of the file is returned |
| Adif.ReadNewRecords | adifpush_enhanced.py:147-178 | `[]` when the file cannot be read, otherwise the record lines of the file in order, stripped and filtered by the cutoff |
| Settings.Assignment | adifpush_enhanced.py:52-53 | a `key=value` line splits at its first `=` into a stripped key and a stripped value |
| Settings.ConfigText | adifpush_enhanced.py:39 | the saved text begins with `url=` and ends with a line break |
| Settings.Assignments | adifpush_enhanced.py:50-53 | one assignment at most per line |
| Settings.ParseConfig | adifpush_enhanced.py:49-57 | the file is read with `\r\n` and `\r` as line breaks; a configuration that is returned has `url`, `apikey` and `stationid` |
| Settings.LoadedStripped | adifpush_enhanced.py:53 | every key and value loaded is stripped |
| Settings.StrippedAssignments | adifpush_enhanced.py:52-53 | every assignment has a stripped key and value |
| Settings.LaterLineWins | adifpush_enhanced.py:50-53 | when a key is assigned on several lines, the last line decides its value |
| Settings.AssignmentsSnoc | adifpush_enhanced.py:50-53 | one more line adds its assignment only when it holds `=` |
| Settings.AssignmentOf | adifpush_enhanced.py:39-53 | a saved `name=value` line loads back as `(name, value)` |
| Settings.ConfigTextLines | adifpush_enhanced.py:39-50 | the saved file splits back into its three lines |
| Settings.SavedAssignments | adifpush_enhanced.py:39-53 | for stripped values holding neither `\n` nor `\r`, the saved file's lines assign url, apikey and stationid in that order |
| Settings.SaveLoadRoundTrip | adifpush_enhanced.py:36-57 | `load` after `save(url, api_key, station_id)` returns exactly those three settings, for stripped values holding neither `\n` nor `\r` |
| Settings.Config.Load | adifpush_enhanced.py:44-57 | None without a settings file; otherwise, with `\r\n` and `\r` read as line breaks, the dictionary of the file's assignments if it holds the three keys |
| Settings.LoadConfig | adifpush_enhanced.py:44-57 | None when the settings file does not exist; a configuration that is returned holds the three keys |
| Settings.LoadStep | adifpush_enhanced.py:50-53 | each pass of the loop of `load` assigns the stripped value to the stripped key of a line holding `=`, and leaves the dictionary alone otherwise |
| Settings.Config.Save | adifpush_enhanced.py:36-41 | the settings file becomes the three `name=value` lines unless this write fails; a failed write raises and changes nothing; every write is counted and has its own outcome |
| Settings.LoadUploadedQsos | adifpush_enhanced.py:75-84 | the file is read with `\r\n` and `\r` as line breaks, so no key holds `\n` or `\r`; the set is empty exactly when the file is missing or unreadable |
| Settings.LoadSerialized | adifpush_enhanced.py:82-92 | a non-empty set of keys that are non-empty, stripped and free of `\n` and `\r`, once written, loads back as itself |
| Settings.Serialize | adifpush_enhanced.py:92 | an empty set is written as empty text; keys without `\n` split back into the sorted list of keys |
| Settings.SavedFile | adifpush_enhanced.py:87-92 | after `save_uploaded_qso(h)` the cache file exists and a single-line `h` is one of its lines |
| Settings.CrlfCacheLoads | adifpush_enhanced.py:82 | a cache file written with Windows line ends (`h1\r\nh2`) loads as the two keys it holds |
| Settings.SerializedLines | adifpush_enhanced.py:82-92 | the written text is stripped and splits into the sorted keys |
| Settings.SerializeWithEmpty | adifpush_enhanced.py:92 | an empty key sorts first and becomes a leading newline |
| Settings.LoadSerializedDropsEmpty | adifpush_enhanced.py:82-92 | an empty key written to the file is lost on the next load |
| Settings.LoadAfterSave | adifpush_enhanced.py:87-92 | after saving a key, loading gives the old keys plus the new one, minus `""`; nothing else is lost |
| Settings.ResaveUnchanged | adifpush_enhanced.py:87-92 | saving a key already in a well-formed file leaves the file unchanged |
| Settings.SaveTwice | adifpush_enhanced.py:87-92 | saving the same key twice is the same as saving it once |
| Settings.EmptyCacheFile | adifpush_enhanced.py:75-92 | an empty cache file loads as `{""}`; the first save writes a leading blank line and the second removes it |
| Settings.EmptyTextLoads | adifpush_enhanced.py:82 | the empty file text loads as `{""}` |
| Settings.SerializeOne | adifpush_enhanced.py:92 | a single key is written without a newline |
| Settings.DigestIsClean | adifpush_enhanced.py:130 | a hex digest is a key the file keeps intact |
| Settings.LoadAfterSaves | adifpush_enhanced.py:87-92 | after a sequence of saves, loading gives the original keys plus every key saved (minus `""`) |
| Settings.SavesKeepKeys | adifpush_enhanced.py:87-92 | saves never drop a key, and every saved key is loaded back |
| Settings.Config.SaveUploadedQso | adifpush_enhanced.py:87-92 | the cache file becomes the sorted, newline-joined set of its old keys plus the new one unless this write fails; a failed write raises and leaves it as it was; every write is counted and has its own outcome |
| Settings.Config.ClearCache | adifpush_enhanced.py:474-477 | the cache file is removed, so the next load gives no keys, unless this write fails; a failure raises and changes nothing |
| Settings.Config.constructor | adifpush_enhanced.py:24-29 | the settings file, the cache file and the outcome of each write to them; no write tried yet |
| StringOrder.Insert | adifpush_enhanced.py:92 | inserting into a sorted list keeps it sorted and adds exactly the element |
| StringOrder.SortedExists | adifpush_enhanced.py:92 | every set of keys has a sorted listing |
| StringOrder.SortedUnique | adifpush_enhanced.py:92 | that listing is unique |
| StringOrder.SortSet | adifpush_enhanced.py:92 | `sorted(uploaded)` is the unique sorted listing of the set |
| StringOrder.EmptyFirst | adifpush_enhanced.py:92 | `""` sorts before every other key |
| StringOrder.LessTransitive | adifpush_enhanced.py:92 | code-point order is transitive |
| StringOrder.LessTotal | adifpush_enhanced.py:92 | code-point order is total |
| Text.Strip | adifpush_enhanced.py:156 | the result has no surrounding whitespace and stripping twice changes nothing |
| Text.StripSurrounded | adifpush_enhanced.py:259 | stripping removes exactly the surrounding whitespace |
| Text.Split | adifpush_enhanced.py:82 | the parts hold no separator and join back to the text |
| Text.Universal | adifpush_enhanced.py:50 | text read in universal-newline mode holds no `\r`, and text without `\r` is read as written |
| Text.SplitJoin | adifpush_enhanced.py:82-92 | splitting a join of separator-free parts gives the parts back |
| Text.Lower | adifpush_enhanced.py:111 | each upper-case ASCII letter becomes its lower-case letter and every other character is kept |
| Text.DecimalRoundTrip | adifpush_enhanced.py:228 | a printed status or line number reads back as the same number |
| Mapping.KeysFromPairs | adifpush_enhanced.py:110-111 | the keys of a dictionary built by assignment are exactly the keys assigned |
| Mapping.LastAssignmentWins | adifpush_enhanced.py:110-111 | the last assignment of a key decides its value |
| Mapping.OrderIrrelevant | adifpush_enhanced.py:110-111 | with distinct keys, the order of assignment does not matter |
| Cloudlog.Server.Post | adifpush_enhanced.py:216-220 | a POST is recorded and answered with the server's reply for that POST |
| Cloudlog.Classify | adifpush_enhanced.py:225-233 | success exactly on status 200 or 201; a transport error is a failure carrying its message |
| Cloudlog.RejectionReportsStatus | adifpush_enhanced.py:228 | any other status fails with `status: body`, the body cut to 100 characters |
| Cloudlog.RecordPayload | adifpush_enhanced.py:208-213 | the payload carries the api key, the station profile id, the type `adif` and the line exactly as given |
| Cloudlog.CloudlogPusher.constructor | adifpush_enhanced.py:184-189 | the pusher takes url, api key and station id from the configuration |
| Cloudlog.CloudlogPusher.PushRecord | adifpush_enhanced.py:191-233 | a line that is not a record fails with "Invalid ADIF format" and no POST; a record is POSTed once and the result follows the reply |
| Cloudlog.CloudlogPusher.PushFile | adifpush_enhanced.py:235-286 | an unreadable file gives zero counts and no POST; otherwise the POSTs, the cache file and the counts are those of the loop over the lines read against a snapshot of the cache taken first; a failing cache write ends the run with an exception |
| Cloudlog.CloudlogPusher.PushLines | adifpush_enhanced.py:253-277 | the loop's POSTs, cache, counts and error lines are the fold of one step per line, numbered from 1 |
| Cloudlog.CloudlogPusher.PushLine | adifpush_enhanced.py:259-277 | one pass of the loop ends in the state that line's step gives |
| Cloudlog.CloudlogPusher.Submit | adifpush_enhanced.py:269-277 | a line past the duplicate check is pushed and tallied as its step says |
| Cloudlog.Tally | adifpush_enhanced.py:271-277 | a success counts and saves the key; a failure counts and adds `Line n: reason` |
| Cloudlog.ErrorLine | adifpush_enhanced.py:277 | a failed line is reported as `  Line `, the line number in decimal, `: ` and the reason |
| Cloudlog.Dispose | adifpush_enhanced.py:259-269 | a line is ignored exactly when blank or a comment once stripped; it is skipped exactly when its non-empty key is in the snapshot; a POSTed line is a stripped record under its new hex-digest key `calculate_hash` gives; a refused line is not a record |
| Cloudlog.Disposer | adifpush_enhanced.py:251-269 | with the settings and the snapshot fixed, every POSTed line carries a hex-digest key |
| Cloudlog.Step | adifpush_enhanced.py:259-277 | after an exception a pass changes nothing; otherwise it appends exactly the payload of a POSTed line; it tries at most one write to the cache |
| Cloudlog.Recorded | adifpush_enhanced.py:271-277 | exactly one of success and failed goes up; the pass tries a write exactly when a success has a key, and raises exactly when that write fails |
| Cloudlog.Run | adifpush_enhanced.py:258-277 | a run that starts after an exception changes nothing |
| Cloudlog.RunBounds | adifpush_enhanced.py:258-277 | a run POSTs at most once per line and tries at most one write to the cache per line |
| Cloudlog.RunFailedGrows | adifpush_enhanced.py:275-276 | the failure count of a run never goes down |
| Cloudlog.StepFailsInvalid | adifpush_enhanced.py:195-197 | a line refused as not a record always counts as a failure |
| Cloudlog.RunFailsInvalids | adifpush_enhanced.py:258-277 | a run that raises nothing counts at least one failure per refused line |
| Cloudlog.StepOfPost | adifpush_enhanced.py:269-277 | a POSTed line appends its payload and is tallied by the server's reply |
| Cloudlog.RaisedStays | adifpush_enhanced.py:274 | once a save raises, the rest of the file is not processed |
| Cloudlog.Counted | adifpush_enhanced.py:258-267 | no more lines counted than read |
| Cloudlog.Skips | adifpush_enhanced.py:265-267 | no more skips than lines |
| Cloudlog.Posts | adifpush_enhanced.py:269 | no more POSTs than lines |
| Cloudlog.Invalids | adifpush_enhanced.py:195-197 | no more refusals of non-record lines than lines |
| Cloudlog.InvalidErrors | adifpush_enhanced.py:275-277 | one error line per refused line, so as many as there are refusals |
| Cloudlog.RunAccounting | adifpush_enhanced.py:253-286 | success + failed + skipped equals the number of non-blank, non-comment lines; the POSTs are exactly the non-skipped valid lines in order; one error line per failure |
| Cloudlog.StepAccounting | adifpush_enhanced.py:259-277 | each line adds one to exactly one counter unless blank or a comment |
| Cloudlog.StepEffects | adifpush_enhanced.py:259-277 | a line POSTs at most once, touches the cache only by saving its own key after a success, and raises only when that save fails |
| Cloudlog.RunCache | adifpush_enhanced.py:258-277 | the cache file after the run is the old one with the keys saved, in order |
| Cloudlog.RunSavedKeys | adifpush_enhanced.py:271-274 | one key saved per success, each a hex digest |
| Cloudlog.RunSavesEveryPush | adifpush_enhanced.py:269-277 | in a run in which no POST was rejected, so that every failure is a line refused as not a record, every POSTed record's key is saved and the errors are exactly those refusals |
| Cloudlog.StepSavesPush | adifpush_enhanced.py:269-277 | a pass that fails only by refusing its line saves the key of what it POSTed, keeps the keys saved before and reports only that refusal |
| Cloudlog.RunOfSkips | adifpush_enhanced.py:258-267 | a file whose lines are all duplicates or ignored POSTs nothing and counts only skips |
| Cloudlog.RunWithoutPosts | adifpush_enhanced.py:258-277 | a file none of whose lines is POSTed adds its skips and its refusals to the counts, reports each refusal, and changes nothing else |
| Cloudlog.CountedWithoutPosts | adifpush_enhanced.py:258-277 | when no line is POSTed, every counted line is a skip or a refusal |
| Cloudlog.CountedAgree | adifpush_enhanced.py:259-261 | which lines count depends only on which are blank or comments |
| Cloudlog.InvalidsAgree | adifpush_enhanced.py:259-277 | two runs that refuse the same lines count the same refusals and report the same error lines |
| Cloudlog.SkippedNextTime | adifpush_enhanced.py:259-269 | a line POSTed and saved, or skipped, in one run is skipped in the next; a line refused as not a record is refused again |
| Cloudlog.SkippedAllNextTime | adifpush_enhanced.py:259-269 | on the next run of the same file no line is POSTed: lines ignored or refused before are ignored or refused again, all others are skipped |
| Cloudlog.RunKeepsKeys | adifpush_enhanced.py:251-274 | a run never loses a key from the cache file, and every key it saves can be loaded back |
| Cloudlog.FirstRunCovers | adifpush_enhanced.py:251-277 | after a run in which no POST was rejected, every POSTed line's key is in the next snapshot, no old key is lost, and the failures and errors are exactly the refusals of the lines that are not records |
| Cloudlog.SecondRunSendsNothing | adifpush_enhanced.py:235-286 | pushing the same file again after a run in which no POST was rejected POSTs nothing and writes nothing: every line sent or skipped before is skipped, and each line that is not a record (an `<EOH>` header, say) is refused and reported again, with the same failure count and error lines as the first run |
| Cloudlog.RepeatedLinePostedTwice | adifpush_enhanced.py:251-269 | the same record twice in one file is POSTed twice, whenever the first copy's save (if any) does not raise |
| Cloudlog.FailureNotCached | adifpush_enhanced.py:275-277 | a failed POST counts as failed, reports `Line 1: reason` and leaves the cache alone |
| Listener.DigitsEnd | adifpush_enhanced.py:333 | `\d+` runs to the first non-digit |
| Listener.Prefilter | adifpush_enhanced.py:329 | only a text long enough to hold both `<QSO_DATE:` and `<CALL:` passes the test |
| Listener.MatchEnd | adifpush_enhanced.py:333 | a match starting at a position begins with `<QSO_DATE:`, ends with `<EOR>` inside the text and is at least 18 characters long |
| Listener.LazyEnd | adifpush_enhanced.py:333 | `.*?<EOR>` ends at a `<EOR>` with no newline before it |
| Listener.SearchFrom | adifpush_enhanced.py:333 | a match found lies inside the text, after the start |
| Listener.MatchEndSound | adifpush_enhanced.py:333 | a match is `<QSO_DATE:` digits `>` digits, anything but a newline, then `<EOR>` |
| Listener.MatchEndComplete | adifpush_enhanced.py:333 | every such span starting at a position yields a match there, ending no later |
| Listener.LazyEndFirst | adifpush_enhanced.py:333 | the lazy `.*?` stops at the first `<EOR>` |
| Listener.SearchFromLeftmost | adifpush_enhanced.py:333 | the search finds a match no later than any that exists |
| Listener.Search | adifpush_enhanced.py:333 | a match lies inside the text |
| Listener.SearchIsLeftmostShortest | adifpush_enhanced.py:333-337 | `re.search` returns the leftmost match, and the shortest one there |
| Listener.SearchSound | adifpush_enhanced.py:333-337 | what the search returns is a match |
| Listener.Extract | adifpush_enhanced.py:329-337 | a line is extracted exactly when both tag openings occur and the pattern matches |
| Listener.ExtractedRecord | adifpush_enhanced.py:333-337 | the extracted line starts with `<QSO_DATE:`, ends with `<EOR>` and holds no newline |
| Listener.ParsedOnOneLine | adifpush_enhanced.py:333 | a match spans no newline |
| Listener.Candidate | adifpush_enhanced.py:337-347 | a datagram offers its extracted line with its hex-digest key exactly when that line is a record |
| Listener.OnDatagram | adifpush_enhanced.py:324-361 | one datagram never drops a known key, POSTs at most once and tries at most one write to the cache |
| Listener.DatagramEffect | adifpush_enhanced.py:340-358 | a datagram POSTs once exactly when its record's key is not known; the set and the cache change together, by that key alone, exactly on a success whose save succeeds |
| Listener.StartsDurable | adifpush_enhanced.py:298 | a listener starts knowing only the keys in the cache file |
| Listener.DatagramKeepsDurable | adifpush_enhanced.py:340-361 | a datagram keeps every known key in the cache file |
| Listener.RebroadcastIgnored | adifpush_enhanced.py:340-342 | a record uploaded once is never POSTed again by the same listener |
| Listener.FailedPushRetried | adifpush_enhanced.py:349-358 | a failed upload is not remembered, so the same record is POSTed again when it arrives again |
| Listener.FailedSaveRetried | adifpush_enhanced.py:349-361 | a successful POST whose cache write raises (the exception is swallowed) leaves the key unknown, so a re-broadcast is POSTed again, and is saved and remembered when that POST and the next write succeed |
| Listener.OffersKeyed | adifpush_enhanced.py:340 | every offered record carries a hex-digest key |
| Listener.Listen | adifpush_enhanced.py:315-318 | over a sequence of datagrams the known keys only grow, and at most one write is tried per datagram |
| Listener.ListenDurable | adifpush_enhanced.py:315-318 | over any sequence of datagrams every known key stays in the cache file |
| Listener.ListenSends | adifpush_enhanced.py:315-318 | the listener only appends POSTs, at most one per datagram, and never forgets a key |
| Listener.WsjtxListener.constructor | adifpush_enhanced.py:295-298 | the set of known keys starts as the keys in the cache file |
| Listener.WsjtxListener.ParseMessage | adifpush_enhanced.py:324-361 | the listener's keys, the POSTs and the cache file change as one datagram step says; the settings file is untouched |
| Listener.WsjtxListener.Deliver | adifpush_enhanced.py:349-356 | a new record is POSTed; on success the key is saved and, if the save does not raise, remembered; the settings file is untouched |
| Listener.WsjtxListener.Start | adifpush_enhanced.py:315-318 | the receive loop leaves the state the fold over the datagrams gives; the settings file is untouched |

## Left out

- SHA-256 itself is a parameter: the model uses only the fact that it returns a
  64-digit lower-case hex digest.
- HTTP: the session, `urljoin` of the endpoint, the JSON encoding and the
  10-second timeout are not modelled. The server is an oracle giving each
  POST's reply, and only `RequestException` is modelled, as a transport error.
  Other exceptions out of `session.post` would end `push_file`.
- Sockets: binding, multicast membership, `recvfrom` and closing. The loop of
  `start` runs over a finite sequence of datagrams; Ctrl+C is its end.
- Decoding datagrams as UTF-8 with `errors='ignore'`: datagrams arrive as text.
- `Listener.WsjtxListener.ParseMessage`: `except Exception: pass` is modelled
  only for a failing cache write. No other exception can arise in the modelled
  operations.
- `Settings.Config.Load`: a settings file that exists but cannot be read or
  decoded makes `read_text` (line 50) raise out of `load`. The settings file
  is either absent or a text here, so that exception is not modelled.
- `Adif.ReadFile`: only the `IOError` of an open is modelled, and it is retried.
  An error that is not an `IOError` escapes the first attempt without a
  retry. For example, `readlines` can raise `UnicodeDecodeError` under the
  locale encoding. Such an error also escapes `read_new_records` (line 151)
  and `push_file` (line 243), which catch only `IOError`. The oracle `attempt`
  gives lines or an `IOError`, nothing else.
- `Adif.IsWordChar`: `\w` and `\d` are taken as ASCII. Python's `str`
  patterns also match other Unicode letters and digits.
- `Text.Lower`: only ASCII letters are lower-cased. Python's `str.lower` also
  lower-cases other Unicode letters, which `\w` would let into a tag name.
- `datetime.strptime` and the comparison with `last_upload_time` are an
  oracle (`olderThan`).
- The sleeps of `read_file` are counted, not timed. The 0.5-second delay is not
  modelled.
- Printing, `show_progress` and the summary of at most five errors
  (lines 279-284) are output only. They are left out.
- The interactive menu, `configure_interactive`, `get_wsjtx_log_path`,
  `main` and the argument handling are not part of the core. The only menu
  action modelled is the cache clear at line 476.
- `Config.ensure_dir`: creating the directory is not modelled. A failure to
  write a file is a `false` answer of the `writeOk` oracle for that write.
- Partial writes, concurrent writers of the cache file and files changing
  between reads are not modelled.
- `Settings.LoadUploadedQsos`: an unreadable cache file is one value
  (`Unreadable`). The reasons a read fails are not distinguished.
- `Settings.SaveLoadRoundTrip`: a value holding `\n` or `\r` does not come
  back as saved, because reading cuts the file into lines at either, as
  `read_text` does. The round trip is stated only for single-line values.
- `Adif.NormalizedInjective`: a `_` inside one of the five values can let
  two different records share a key, as `Adif.SeparatorCollision` shows.
  Distinct keys are promised only for values without `_`.
- `Cloudlog.CloudlogPusher.PushFile`: when a cache write raises mid-run the
  exception propagates. The model returns None for the counts and says
  nothing about the error list.
