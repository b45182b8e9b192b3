/**
 * `CloudlogPusher`: one POST of a record to Cloudlog's QSO API, and the loop
 * of `push_file` that POSTs every new record of a log file, skips those
 * whose key the duplicate cache already holds, and records each success in
 * the cache.
 */
module Cloudlog {
  import opened Wrappers
  import opened Text
  import opened Adif
  import opened Settings
  import StringOrder

  // ---------------------------------------------------------------------
  // The endpoint
  // ---------------------------------------------------------------------

  /** The JSON body of the POST: `key`, `station_profile_id`, `type` and `string`. */
  datatype Payload = Payload(key: string, stationProfileId: string, kind: string, adif: string)

  /** What a POST gives back: a response, or the `RequestException` it raised. */
  datatype Reply = Response(status: nat, body: string) | TransportError(message: string)

  /** The `(bool, Optional[str])` pair `push_record` returns. */
  datatype PushResult = Pushed | Rejected(reason: string)

  /**
   * The QSO endpoint as the program sees it: `respond(n, p)` is the reply to
   * the n-th POST (counting from 0), whose body is `p`; `sent` logs the
   * bodies POSTed so far.
   */
  class Server {
    const respond: (nat, Payload) -> Reply
    var sent: seq<Payload>

    constructor (respond: (nat, Payload) -> Reply)
      ensures this.respond == respond && sent == []
    {
      this.respond := respond;
      sent := [];
    }

    /** `session.post(endpoint, json=p, timeout=10)`. */
    method Post(p: Payload) returns (reply: Reply)
      modifies this
      ensures sent == old(sent) + [p]
      ensures reply == respond(|old(sent)|, p)
    {
      reply := respond(|sent|, p);
      sent := sent + [p];
    }
  }

  // ---------------------------------------------------------------------
  // `push_record`
  // ---------------------------------------------------------------------

  const InvalidFormat := "Invalid ADIF format"

  /** The verdict on a reply: 200 and 201 are success, any other status or a transport error is not. */
  function Classify(reply: Reply): (r: PushResult)
    ensures r.Pushed? <==> reply.Response? && (reply.status == 200 || reply.status == 201)
    ensures reply.TransportError? ==> r == Rejected(reply.message)
  {
    match reply
    case Response(status, body) =>
      if status == 200 || status == 201 then Pushed
      else Rejected(Decimal(status) + ": " + Take(body, 100))
    case TransportError(message) => Rejected(message)
  }

  /**
   * The reason given for a refused status names the status and quotes the
   * start of the response body: the digits before the first `:` read back
   * as the status, and what follows `": "` is the body's first (at most) 100
   * characters.
   */
  lemma RejectionReportsStatus(status: nat, body: string)
    requires status != 200 && status != 201
    ensures Classify(Response(status, body)).Rejected?
    ensures var reason, i := Classify(Response(status, body)).reason, IndexOf(Classify(Response(status, body)).reason, ':');
      && i == |Decimal(status)| && i + 2 <= |reason|
      && (forall k :: 0 <= k < i ==> IsDigit(reason[k]))
      && DecimalValue(reason[..i]) == status
      && reason[i..i + 2] == ": "
      && |reason[i + 2..]| <= 100 && reason[i + 2..] == body[..|reason[i + 2..]|]
      && (|body| <= 100 ==> reason[i + 2..] == body)
  {
    var d, t := Decimal(status), Take(body, 100);
    assert Classify(Response(status, body)).reason == d + ": " + t;
    ReasonParts(d, t);
    DecimalRoundTrip(status);
  }

  /** A run of digits, `": "` and a text: the first `:` ends the digits. */
  lemma ReasonParts(d: string, t: string)
    requires forall k :: 0 <= k < |d| ==> IsDigit(d[k])
    ensures var reason := d + ": " + t;
      && IndexOf(reason, ':') == |d| && |d| + 2 <= |reason|
      && reason[..|d|] == d && reason[|d|..|d| + 2] == ": " && reason[|d| + 2..] == t
  {
    var reason := d + ": " + t;
    assert forall k :: 0 <= k < |d| ==> d[k] != ':';
    assert reason == d + [':'] + (" " + t);
    IndexOfFirst(d, ':', " " + t);
    assert reason[..|d|] == d;
    assert reason[|d| + 2..] == t;
  }

  /** The body `push_record` POSTs for `line`: the line itself, untouched. */
  function RecordPayload(apiKey: string, stationId: string, line: string): (p: Payload)
    ensures p.adif == line && p.kind == "adif" && p.key == apiKey && p.stationProfileId == stationId
  {
    Payload(apiKey, stationId, "adif", line)
  }

  /** The configured pusher: the three settings and the endpoint it POSTs to. */
  class CloudlogPusher {
    const url: string
    const apiKey: string
    const stationId: string
    const server: Server

    /** `CloudlogPusher(config)`: `config` is what `Config.load` returned, so the three keys are there. */
    constructor (config: map<string, string>, server: Server)
      requires HasSettings(config)
      ensures url == config["url"] && apiKey == config["apikey"] && stationId == config["stationid"]
      ensures this.server == server
    {
      url := config["url"];
      apiKey := config["apikey"];
      stationId := config["stationid"];
      this.server := server;
    }

    /**
     * `push_record`: a line that is not a record is refused without a POST;
     * otherwise the raw line is POSTed and the reply decides.
     */
    method PushRecord(line: string) returns (r: PushResult)
      modifies server
      ensures ParseRecord(line).None? ==> r == Rejected(InvalidFormat) && server.sent == old(server.sent)
      ensures ParseRecord(line).Some? ==>
        var p := RecordPayload(apiKey, stationId, line);
        && server.sent == old(server.sent) + [p]
        && r == Classify(server.respond(|old(server.sent)|, p))
    {
      var record := ParseLine(line);
      if record.None? {
        return Rejected(InvalidFormat);
      }
      var rec := record.value;
      if "tx_pwr" in rec {
        // The cleaned power goes into the local dictionary only; the payload below uses `line`.
        rec := rec["tx_pwr" := Strip(Without(rec["tx_pwr"], 'W'))];
      }
      var reply := server.Post(Payload(apiKey, stationId, "adif", line));
      r := Classify(reply);
    }

    /**
     * `push_file`. `attempt` stands for the opens `read_file` tries, `sha256`
     * for `hashlib.sha256(...).hexdigest()`. The result is None when
     * `save_uploaded_qso` raised, which ends the run with the exception;
     * `errors` is the list of messages the run prints.
     */
    method PushFile(config: Config, attempt: nat -> Option<seq<string>>, skipDuplicates: bool, sha256: string -> HexDigest)
      returns (counts: Option<Counts>, errors: seq<string>)
      modifies server, config
      ensures config.configFile == old(config.configFile)
      ensures FirstOpen(attempt, 0).None? ==>
        && counts == Some(Counts(0, 0, 0)) && errors == []
        && server.sent == old(server.sent) && config.cache == old(config.cache) && config.writes == old(config.writes)
      ensures FirstOpen(attempt, 0).Some? ==>
        var snapshot := Snapshot(skipDuplicates, old(config.cache));
        var r := Run(server.respond, config.writeOk, Disposer(apiKey, stationId, sha256, snapshot),
          Start(old(server.sent), old(config.cache), old(config.writes)), FirstOpen(attempt, 0).value);
        && server.sent == r.sent && config.cache == r.cache && config.writes == r.writes
        && counts == (if r.raised then None else Some(Counts(r.success, r.failed, r.skipped)))
        && (!r.raised ==> errors == r.errors)
    {
      var read, _, _ := ReadFile(attempt);
      if read.None? {
        return Some(Counts(0, 0, 0)), [];
      }
      var lines := read.value;
      var uploaded := if skipDuplicates then LoadUploadedQsos(config.cache) else {};
      var success, failed, skipped, raised;
      success, failed, skipped, errors, raised := PushLines(config, sha256, uploaded, lines);
      if raised {
        return None, errors;
      }
      counts := Some(Counts(success, failed, skipped));
    }

    /** The loop of `push_file` over the lines read, against the key set `uploaded` loaded before it. */
    method PushLines(config: Config, sha256: string -> HexDigest, uploaded: set<string>, lines: seq<string>)
      returns (success: nat, failed: nat, skipped: nat, errors: seq<string>, raised: bool)
      modifies server, config
      ensures config.configFile == old(config.configFile)
      ensures var r := Run(server.respond, config.writeOk, Disposer(apiKey, stationId, sha256, uploaded),
          Start(old(server.sent), old(config.cache), old(config.writes)), lines);
        && server.sent == r.sent && config.cache == r.cache && config.writes == r.writes && raised == r.raised
        && (!raised ==> success == r.success && failed == r.failed && skipped == r.skipped && errors == r.errors)
    {
      ghost var dispose := Disposer(apiKey, stationId, sha256, uploaded);
      ghost var st := Start(server.sent, config.cache, config.writes);
      success, failed, skipped, errors, raised := 0, 0, 0, [], false;
      for i := 0 to |lines|
        invariant config.configFile == old(config.configFile)
        invariant Run(server.respond, config.writeOk, dispose, st, lines[..i])
          == FileRun(success, failed, skipped, errors, server.sent, Run(server.respond, config.writeOk, dispose, st, lines[..i]).saved, config.cache, config.writes, false)
      {
        assert lines[..i + 1][..i] == lines[..i];
        ghost var before := Run(server.respond, config.writeOk, dispose, st, lines[..i]);
        success, failed, skipped, errors, raised := PushLine(config, sha256, uploaded, i + 1, lines[i], success, failed, skipped, errors, before);
        if raised {
          RaisedStays(server.respond, config.writeOk, dispose, st, lines, i + 1);
          return;
        }
      }
      assert lines[..|lines|] == lines;
    }

    /** One pass of the loop of `push_file`, for the line numbered `idx` (from 1). */
    method PushLine(config: Config, sha256: string -> HexDigest, uploaded: set<string>, idx: nat, line: string,
                    success0: nat, failed0: nat, skipped0: nat, errors0: seq<string>, ghost st: FileRun)
      returns (success: nat, failed: nat, skipped: nat, errors: seq<string>, raised: bool)
      requires st == FileRun(success0, failed0, skipped0, errors0, server.sent, st.saved, config.cache, config.writes, false)
      modifies server, config
      ensures config.configFile == old(config.configFile)
      ensures var r := Step(server.respond, config.writeOk, st, idx, Dispose(apiKey, stationId, sha256, uploaded, line));
        r == FileRun(success, failed, skipped, errors, server.sent, r.saved, config.cache, config.writes, raised)
    {
      success, failed, skipped, errors, raised := success0, failed0, skipped0, errors0, false;
      var trimmed := Strip(line);
      if IsIgnored(trimmed) {
        DisposeIgnored(apiKey, stationId, sha256, uploaded, line);
        return;
      }
      var qsoHash := CalculateHash(sha256, trimmed);
      if qsoHash != "" && qsoHash in uploaded {
        DisposeSkipped(apiKey, stationId, sha256, uploaded, line);
        skipped := skipped + 1;
        return;
      }
      DisposeByKey(apiKey, stationId, sha256, uploaded, line, trimmed, qsoHash);
      success, failed, errors, raised := Submit(config, trimmed, qsoHash, idx, success, failed, errors, st);
    }

    /**
     * The rest of the pass for a line that is neither ignored nor skipped:
     * `push_record`, then the counting; `h` is the line's key, empty exactly
     * when the line is not a record.
     */
    method Submit(config: Config, trimmed: string, h: string, idx: nat,
                  success0: nat, failed0: nat, errors0: seq<string>, ghost st: FileRun)
      returns (success: nat, failed: nat, errors: seq<string>, raised: bool)
      requires h == "" <==> ParseRecord(trimmed).None?
      requires st.success == success0 && st.failed == failed0 && st.errors == errors0
      requires st.sent == server.sent && st.cache == config.cache && st.writes == config.writes && !st.raised
      modifies server, config
      ensures config.configFile == old(config.configFile)
      ensures var d := if h == "" then Invalid else Post(RecordPayload(apiKey, stationId, trimmed), h);
        var r := Step(server.respond, config.writeOk, st, idx, d);
        r == st.(success := success, failed := failed, errors := errors, sent := server.sent, saved := r.saved,
                 cache := config.cache, writes := config.writes, raised := raised)
    {
      var result := PushRecord(trimmed);
      if h == "" {
        assert result == Rejected(InvalidFormat) && server.sent == st.sent;
        assert st.(sent := server.sent) == st;
      } else {
        var p := RecordPayload(apiKey, stationId, trimmed);
        assert server.sent == st.sent + [p] && result == Classify(server.respond(|st.sent|, p));
        StepOfPost(server.respond, config.writeOk, st, idx, p, h);
      }
      success, failed, errors, raised := Tally(config, h, idx, result, success0, failed0, errors0, st.(sent := server.sent));
    }
  }

  /** The bookkeeping after `push_record` answered `result` for the line numbered `idx`, whose key is `h`. */
  method Tally(config: Config, h: string, idx: nat, result: PushResult,
               success0: nat, failed0: nat, errors0: seq<string>, ghost st: FileRun)
    returns (success: nat, failed: nat, errors: seq<string>, raised: bool)
    requires st.success == success0 && st.failed == failed0 && st.errors == errors0
    requires st.cache == config.cache && st.writes == config.writes && !st.raised
    modifies config
    ensures config.configFile == old(config.configFile)
    ensures var r := Recorded(config.writeOk, st, idx, h, result);
      r == st.(success := success, failed := failed, errors := errors, saved := r.saved, cache := config.cache, writes := config.writes, raised := raised)
  {
    success, failed, errors, raised := success0, failed0, errors0, false;
    if result.Pushed? {
      success := success + 1;
      if h != "" {
        raised := config.SaveUploadedQso(h);
      }
    } else {
      failed := failed + 1;
      errors := errors + [ErrorLine(idx, result.reason)];
    }
  }

  // ---------------------------------------------------------------------
  // `push_file` as a fold over the lines
  // ---------------------------------------------------------------------

  /** The dictionary `push_file` returns. */
  datatype Counts = Counts(success: nat, failed: nat, skipped: nat)

  /** The message `push_file` prints for a failed line. */
  function ErrorLine(idx: nat, reason: string): (r: string)
    ensures |r| >= 10 + |reason| && r[..7] == "  Line " && r[|r| - |reason|..] == reason
    ensures r[7..|r| - |reason| - 2] == Decimal(idx) && r[|r| - |reason| - 2..|r| - |reason|] == ": "
  {
    "  Line " + Decimal(idx) + ": " + reason
  }

  /** The set duplicates are checked against, loaded once before the loop. */
  function Snapshot(skipDuplicates: bool, cache: CacheFile): set<string> {
    if skipDuplicates then LoadUploadedQsos(cache) else {}
  }

  /** What the loop does with a line, decided before any reply is known. */
  datatype Disposition =
    | Ignored                                // blank or `#` line: not counted
    | Skipped                                // its key is in the snapshot
    | Invalid                                // `push_record` refuses it without a POST
    | Post(payload: Payload, key: string)    // POSTed; `key` is its hash

  /**
   * The disposition of one line, given the snapshot. A POSTed line is a
   * record, sent stripped but otherwise as read, under a hex-digest key that
   * is not in the snapshot; a skipped line's key is.
   */
  function Dispose(apiKey: string, stationId: string, sha256: string -> HexDigest, snapshot: set<string>, line: string): (d: Disposition)
    ensures d.Ignored? <==> IsIgnored(Strip(line))
    ensures d.Post? ==>
      && ParseRecord(Strip(line)).Some? && d.payload == RecordPayload(apiKey, stationId, Strip(line))
      && IsHexDigest(d.key) && d.key !in snapshot && d.key == CalculateHash(sha256, Strip(line))
    ensures d.Skipped? <==> !IsIgnored(Strip(line)) && CalculateHash(sha256, Strip(line)) in snapshot - {""}
    ensures d.Invalid? ==> ParseRecord(Strip(line)).None?
  {
    var t := Strip(line);
    if IsIgnored(t) then Ignored
    else
      var h := CalculateHash(sha256, t);
      if h != "" && h in snapshot then Skipped
      else if ParseRecord(t).None? then Invalid
      else Post(RecordPayload(apiKey, stationId, t), h)
  }

  /** `Dispose` once the stripped line and its key are known. */
  lemma DisposeByKey(apiKey: string, stationId: string, sha256: string -> HexDigest, snapshot: set<string>,
                     line: string, trimmed: string, h: string)
    requires trimmed == Strip(line) && h == CalculateHash(sha256, trimmed)
    ensures Dispose(apiKey, stationId, sha256, snapshot, line) ==
      if IsIgnored(trimmed) then Ignored
      else if h != "" && h in snapshot then Skipped
      else if h == "" then Invalid
      else Post(RecordPayload(apiKey, stationId, trimmed), h)
  {
  }

  lemma DisposeIgnored(apiKey: string, stationId: string, sha256: string -> HexDigest, snapshot: set<string>, line: string)
    requires IsIgnored(Strip(line))
    ensures Dispose(apiKey, stationId, sha256, snapshot, line) == Ignored
  {
  }

  lemma DisposeSkipped(apiKey: string, stationId: string, sha256: string -> HexDigest, snapshot: set<string>, line: string)
    requires !IsIgnored(Strip(line))
    requires CalculateHash(sha256, Strip(line)) != "" && CalculateHash(sha256, Strip(line)) in snapshot
    ensures Dispose(apiKey, stationId, sha256, snapshot, line) == Skipped
  {
  }

  /** `Dispose` with the settings and the snapshot fixed: the decision the loop takes on each line. */
  function Disposer(apiKey: string, stationId: string, sha256: string -> HexDigest, snapshot: set<string>): (f: string -> Disposition)
    ensures KeyedPosts(f)
  {
    line => Dispose(apiKey, stationId, sha256, snapshot, line)
  }

  /**
   * The state of a run: the counters, the error list, the POSTs, the saves,
   * the cache, the number of writes tried on it, an escaped exception.
   */
  datatype FileRun = FileRun(success: nat, failed: nat, skipped: nat, errors: seq<string>,
                             sent: seq<Payload>, saved: seq<string>, cache: CacheFile, writes: nat, raised: bool)

  function Start(sent: seq<Payload>, cache: CacheFile, writes: nat): FileRun {
    FileRun(0, 0, 0, [], sent, [], cache, writes, false)
  }

  /**
   * One pass of the loop: `respond` answers the POSTs, `writeOk(n)` says
   * whether the n-th write to the cache (counting from 0) succeeds.
   */
  ghost function Step(respond: (nat, Payload) -> Reply, writeOk: nat -> bool, st: FileRun, idx: nat, d: Disposition): (r: FileRun)
    ensures st.raised ==> r == st
    ensures r.sent == if !st.raised && d.Post? then st.sent + [d.payload] else st.sent
    ensures st.writes <= r.writes <= st.writes + 1
  {
    if st.raised then st
    else
      match d
      case Ignored => st
      case Skipped => st.(skipped := st.skipped + 1)
      case Invalid => Recorded(writeOk, st, idx, "", Rejected(InvalidFormat))
      case Post(p, h) => Recorded(writeOk, st.(sent := st.sent + [p]), idx, h, Classify(respond(|st.sent|, p)))
  }

  lemma StepOfPost(respond: (nat, Payload) -> Reply, writeOk: nat -> bool, st: FileRun, idx: nat, p: Payload, h: string)
    requires !st.raised
    ensures Step(respond, writeOk, st, idx, Post(p, h))
      == Recorded(writeOk, st.(sent := st.sent + [p]), idx, h, Classify(respond(|st.sent|, p)))
  {
  }

  /**
   * The counting after `push_record`: a success is counted and its key (if
   * any) saved, where a failing write raises; a failure is counted and reported.
   */
  ghost function Recorded(writeOk: nat -> bool, st: FileRun, idx: nat, h: string, result: PushResult): (r: FileRun)
    ensures r.sent == st.sent && r.skipped == st.skipped
    ensures r.success + r.failed == st.success + st.failed + 1
    ensures r.raised <==> st.raised || (result.Pushed? && h != "" && !writeOk(st.writes))
    ensures r.writes == if result.Pushed? && h != "" then st.writes + 1 else st.writes
  {
    match result
    case Pushed =>
      var pushed := st.(success := st.success + 1);
      if h == "" then pushed
      else if writeOk(st.writes) then pushed.(saved := st.saved + [h], cache := SavedFile(st.cache, h), writes := st.writes + 1)
      else pushed.(writes := st.writes + 1, raised := true)
    case Rejected(reason) => st.(failed := st.failed + 1, errors := st.errors + [ErrorLine(idx, reason)])
  }

  /** The loop of `push_file` over `lines`, numbered from 1. */
  ghost function Run(respond: (nat, Payload) -> Reply, writeOk: nat -> bool, dispose: string -> Disposition,
                     st: FileRun, lines: seq<string>): (r: FileRun)
    ensures st.raised ==> r == st
    decreases |lines|
  {
    if lines == [] then st
    else
      var n := |lines| - 1;
      Step(respond, writeOk, Run(respond, writeOk, dispose, st, lines[..n]), n + 1, dispose(lines[n]))
  }

  /** A run POSTs at most once per line, and tries at most one write to the cache per line. */
  lemma {:induction false} RunBounds(respond: (nat, Payload) -> Reply, writeOk: nat -> bool, dispose: string -> Disposition,
                                     st: FileRun, lines: seq<string>)
    ensures var r := Run(respond, writeOk, dispose, st, lines);
      && |st.sent| <= |r.sent| <= |st.sent| + |lines|
      && st.writes <= r.writes <= st.writes + |lines|
    decreases |lines|
  {
    if lines != [] {
      RunBounds(respond, writeOk, dispose, st, lines[..|lines| - 1]);
    }
  }

  /** An exception ends the run: the lines after it change nothing. */
  lemma {:induction false} RaisedStays(respond: (nat, Payload) -> Reply, writeOk: nat -> bool, dispose: string -> Disposition,
                                       st: FileRun, lines: seq<string>, k: nat)
    requires k <= |lines| && Run(respond, writeOk, dispose, st, lines[..k]).raised
    ensures Run(respond, writeOk, dispose, st, lines) == Run(respond, writeOk, dispose, st, lines[..k])
    decreases |lines|
  {
    if k < |lines| {
      var n := |lines| - 1;
      assert lines[..n][..k] == lines[..k];
      RaisedStays(respond, writeOk, dispose, st, lines[..n], k);
      var prev := Run(respond, writeOk, dispose, st, lines[..n]);
      assert prev.raised;
      assert Run(respond, writeOk, dispose, st, lines) == Step(respond, writeOk, prev, n + 1, dispose(lines[n]));
    } else {
      assert lines[..k] == lines;
    }
  }

  // ---------------------------------------------------------------------
  // Properties of a run
  // ---------------------------------------------------------------------

  /** The lines the loop counts: all but blank and `#` lines. */
  function Counted(dispose: string -> Disposition, lines: seq<string>): (r: nat)
    ensures r <= |lines|
    decreases |lines|
  {
    if lines == [] then 0
    else
      var n := |lines| - 1;
      Counted(dispose, lines[..n]) + (if dispose(lines[n]).Ignored? then 0 else 1)
  }

  /** The lines skipped as already uploaded. */
  function Skips(dispose: string -> Disposition, lines: seq<string>): (r: nat)
    ensures r <= |lines|
    decreases |lines|
  {
    if lines == [] then 0
    else
      var n := |lines| - 1;
      Skips(dispose, lines[..n]) + (if dispose(lines[n]).Skipped? then 1 else 0)
  }

  /** The bodies the loop POSTs, in order. */
  function Posts(dispose: string -> Disposition, lines: seq<string>): (r: seq<Payload>)
    ensures |r| <= |lines|
    decreases |lines|
  {
    if lines == [] then []
    else
      var n := |lines| - 1;
      Posts(dispose, lines[..n]) + (if dispose(lines[n]).Post? then [dispose(lines[n]).payload] else [])
  }

  /** The lines `push_record` refuses without a POST because they are not records. */
  function Invalids(dispose: string -> Disposition, lines: seq<string>): (r: nat)
    ensures r <= |lines|
    decreases |lines|
  {
    if lines == [] then 0
    else
      var n := |lines| - 1;
      Invalids(dispose, lines[..n]) + (if dispose(lines[n]).Invalid? then 1 else 0)
  }

  /** The error lines those refusals add, numbered by their place in the file. */
  function InvalidErrors(dispose: string -> Disposition, lines: seq<string>): (r: seq<string>)
    ensures |r| == Invalids(dispose, lines)
    decreases |lines|
  {
    if lines == [] then []
    else
      var n := |lines| - 1;
      InvalidErrors(dispose, lines[..n]) + (if dispose(lines[n]).Invalid? then [ErrorLine(n + 1, InvalidFormat)] else [])
  }

  /** Every POSTed line carries a hex-digest key, as `Dispose` guarantees. */
  ghost predicate KeyedPosts(dispose: string -> Disposition) {
    forall line :: dispose(line).Post? ==> IsHexDigest(dispose(line).key)
  }

  /**
   * A run that ends without an exception has counted every line but the
   * ignored ones as exactly one of success, failure or skip, skipped the
   * lines whose key the snapshot holds, POSTed every other record in file
   * order, and printed one error per failure.
   */
  lemma {:induction false} RunAccounting(respond: (nat, Payload) -> Reply, writeOk: nat -> bool, dispose: string -> Disposition,
                                         st: FileRun, lines: seq<string>)
    requires !Run(respond, writeOk, dispose, st, lines).raised
    ensures var r := Run(respond, writeOk, dispose, st, lines);
      && r.success + r.failed + r.skipped == st.success + st.failed + st.skipped + Counted(dispose, lines)
      && r.skipped == st.skipped + Skips(dispose, lines)
      && r.sent == st.sent + Posts(dispose, lines)
      && |r.errors| + st.failed == |st.errors| + r.failed
      && st.success <= r.success && st.failed <= r.failed
    decreases |lines|
  {
    if lines != [] {
      var n := |lines| - 1;
      StepAccounting(respond, writeOk, Run(respond, writeOk, dispose, st, lines[..n]), n + 1, dispose(lines[n]));
      RunAccounting(respond, writeOk, dispose, st, lines[..n]);
    }
  }

  /** What one pass that raises nothing adds to the counters, the POSTs and the error list. */
  lemma StepAccounting(respond: (nat, Payload) -> Reply, writeOk: nat -> bool, st: FileRun, idx: nat, d: Disposition)
    requires !Step(respond, writeOk, st, idx, d).raised
    ensures var r := Step(respond, writeOk, st, idx, d);
      && !st.raised
      && r.success + r.failed + r.skipped == st.success + st.failed + st.skipped + (if d.Ignored? then 0 else 1)
      && r.skipped == st.skipped + (if d.Skipped? then 1 else 0)
      && r.sent == st.sent + (if d.Post? then [d.payload] else [])
      && |r.errors| + st.failed == |st.errors| + r.failed
      && st.success <= r.success && st.failed <= r.failed
  {
  }

  /** What one pass does to the POSTs, the saves, the cache and the exception flag. */
  lemma StepEffects(respond: (nat, Payload) -> Reply, writeOk: nat -> bool, st: FileRun, idx: nat, d: Disposition)
    requires !st.raised
    ensures var r := Step(respond, writeOk, st, idx, d);
      && r.sent == (if d.Post? then st.sent + [d.payload] else st.sent)
      && (r.raised ==> d.Post? && d.key != "" && !writeOk(st.writes))
      && ((r.saved == st.saved && r.cache == st.cache) ||
          (d.Post? && d.key != "" && r.saved == st.saved + [d.key] && r.cache == SavedFile(st.cache, d.key)))
      && (!r.raised && (d.Post? ==> d.key != "") ==> r.success + |st.saved| == st.success + |r.saved|)
  {
  }

  /**
   * The cache after a run is the start cache with the run's saved keys
   * written one after the other.
   */
  lemma {:induction false} RunCache(respond: (nat, Payload) -> Reply, writeOk: nat -> bool, dispose: string -> Disposition,
                                    st: FileRun, lines: seq<string>)
    requires st.saved == []
    ensures var r := Run(respond, writeOk, dispose, st, lines); r.cache == SaveAll(st.cache, r.saved)
    decreases |lines|
  {
    if lines != [] {
      var n := |lines| - 1;
      RunCache(respond, writeOk, dispose, st, lines[..n]);
      var prev := Run(respond, writeOk, dispose, st, lines[..n]);
      var r := Run(respond, writeOk, dispose, st, lines);
      if !prev.raised {
        StepEffects(respond, writeOk, prev, n + 1, dispose(lines[n]));
        if r.saved != prev.saved {
          assert r.saved[..|r.saved| - 1] == prev.saved;
        }
      }
    }
  }

  /**
   * Every key a run saves is a hex digest, and when no exception escaped,
   * one key was saved per success.
   */
  lemma {:induction false} RunSavedKeys(respond: (nat, Payload) -> Reply, writeOk: nat -> bool, dispose: string -> Disposition,
                                        st: FileRun, lines: seq<string>)
    requires st.saved == [] && KeyedPosts(dispose)
    ensures var r := Run(respond, writeOk, dispose, st, lines);
      && (!r.raised ==> |r.saved| + st.success == r.success)
      && (forall k :: 0 <= k < |r.saved| ==> IsHexDigest(r.saved[k]))
    decreases |lines|
  {
    if lines != [] {
      var n := |lines| - 1;
      RunSavedKeys(respond, writeOk, dispose, st, lines[..n]);
      var prev := Run(respond, writeOk, dispose, st, lines[..n]);
      if !prev.raised {
        StepEffects(respond, writeOk, prev, n + 1, dispose(lines[n]));
      }
    }
  }

  /**
   * In a run in which no POST was rejected, so that every failure is a line
   * refused as not a record, the key of every record the run POSTed is
   * among the keys it saved, and the errors are exactly those refusals.
   */
  lemma {:induction false} RunSavesEveryPush(respond: (nat, Payload) -> Reply, writeOk: nat -> bool, dispose: string -> Disposition,
                                             st: FileRun, lines: seq<string>)
    requires KeyedPosts(dispose)
    requires var r := Run(respond, writeOk, dispose, st, lines); !r.raised && r.failed == st.failed + Invalids(dispose, lines)
    ensures var r := Run(respond, writeOk, dispose, st, lines);
      && r.errors == st.errors + InvalidErrors(dispose, lines)
      && forall j :: 0 <= j < |lines| && dispose(lines[j]).Post? ==> dispose(lines[j]).key in r.saved
    decreases |lines|
  {
    if lines != [] {
      var n := |lines| - 1;
      var prev := Run(respond, writeOk, dispose, st, lines[..n]);
      var r := Run(respond, writeOk, dispose, st, lines);
      var d := dispose(lines[n]);
      assert r == Step(respond, writeOk, prev, n + 1, d);
      assert !prev.raised;
      RunFailsInvalids(respond, writeOk, dispose, st, lines[..n]);
      StepFailsInvalid(respond, writeOk, prev, n + 1, d);
      assert prev.failed == st.failed + Invalids(dispose, lines[..n]);
      StepSavesPush(respond, writeOk, prev, n + 1, d);
      RunSavesEveryPush(respond, writeOk, dispose, st, lines[..n]);
      assert st.errors + InvalidErrors(dispose, lines)
        == (st.errors + InvalidErrors(dispose, lines[..n])) + (if d.Invalid? then [ErrorLine(n + 1, InvalidFormat)] else []);
      SavedGrow(dispose, lines, prev.saved, r.saved);
    }
  }

  /** The step of `RunSavesEveryPush`: what held of all lines but the last, and of the last, holds of all. */
  lemma SavedGrow(dispose: string -> Disposition, lines: seq<string>, before: seq<string>, after: seq<string>)
    requires lines != []
    requires var init := lines[..|lines| - 1];
      forall j :: 0 <= j < |init| && dispose(init[j]).Post? ==> dispose(init[j]).key in before
    requires var d := dispose(lines[|lines| - 1]); d.Post? ==> d.key in after
    requires forall x :: x in before ==> x in after
    ensures forall j :: 0 <= j < |lines| && dispose(lines[j]).Post? ==> dispose(lines[j]).key in after
  {
    var init := lines[..|lines| - 1];
    forall j | 0 <= j < |lines| - 1
      ensures lines[j] == init[j]
    {
    }
  }

  /** The failure count of a run never goes down. */
  lemma {:induction false} RunFailedGrows(respond: (nat, Payload) -> Reply, writeOk: nat -> bool, dispose: string -> Disposition,
                                          st: FileRun, lines: seq<string>)
    ensures st.failed <= Run(respond, writeOk, dispose, st, lines).failed
    decreases |lines|
  {
    if lines != [] {
      RunFailedGrows(respond, writeOk, dispose, st, lines[..|lines| - 1]);
    }
  }

  /** A refused line always counts as a failure. */
  lemma StepFailsInvalid(respond: (nat, Payload) -> Reply, writeOk: nat -> bool, st: FileRun, idx: nat, d: Disposition)
    requires !st.raised
    ensures Step(respond, writeOk, st, idx, d).failed >= st.failed + (if d.Invalid? then 1 else 0)
  {
  }

  /** A run that raises nothing counts at least one failure per refused line. */
  lemma {:induction false} RunFailsInvalids(respond: (nat, Payload) -> Reply, writeOk: nat -> bool, dispose: string -> Disposition,
                                            st: FileRun, lines: seq<string>)
    requires !Run(respond, writeOk, dispose, st, lines).raised
    ensures st.failed + Invalids(dispose, lines) <= Run(respond, writeOk, dispose, st, lines).failed
    decreases |lines|
  {
    if lines != [] {
      var n := |lines| - 1;
      var prev := Run(respond, writeOk, dispose, st, lines[..n]);
      assert Run(respond, writeOk, dispose, st, lines) == Step(respond, writeOk, prev, n + 1, dispose(lines[n]));
      assert !prev.raised;
      RunFailsInvalids(respond, writeOk, dispose, st, lines[..n]);
      StepFailsInvalid(respond, writeOk, prev, n + 1, dispose(lines[n]));
    }
  }

  /**
   * A pass that raises nothing and fails only when it refuses its line saves
   * the key of what it POSTed and reports nothing but that refusal.
   */
  lemma StepSavesPush(respond: (nat, Payload) -> Reply, writeOk: nat -> bool, st: FileRun, idx: nat, d: Disposition)
    requires d.Post? ==> IsHexDigest(d.key)
    requires var r := Step(respond, writeOk, st, idx, d); !r.raised && r.failed == st.failed + (if d.Invalid? then 1 else 0)
    ensures var r := Step(respond, writeOk, st, idx, d);
      && (d.Post? ==> d.key in r.saved)
      && r.errors == st.errors + (if d.Invalid? then [ErrorLine(idx, InvalidFormat)] else [])
      && forall x :: x in st.saved ==> x in r.saved
  {
  }

  /** A run in which every line is ignored or skipped only counts the skips. */
  lemma {:induction false} RunOfSkips(respond: (nat, Payload) -> Reply, writeOk: nat -> bool, dispose: string -> Disposition,
                                      st: FileRun, lines: seq<string>)
    requires !st.raised
    requires forall j :: 0 <= j < |lines| ==> dispose(lines[j]).Ignored? || dispose(lines[j]).Skipped?
    ensures Run(respond, writeOk, dispose, st, lines) == st.(skipped := st.skipped + Counted(dispose, lines))
    decreases |lines|
  {
    if lines != [] {
      var n := |lines| - 1;
      assert forall j :: 0 <= j < n ==> lines[..n][j] == lines[j];
      RunOfSkips(respond, writeOk, dispose, st, lines[..n]);
    }
  }

  /** Two dispositions that ignore the same lines count the same lines. */
  lemma {:induction false} CountedAgree(d1: string -> Disposition, d2: string -> Disposition, lines: seq<string>)
    requires forall j :: 0 <= j < |lines| ==> (d1(lines[j]).Ignored? <==> d2(lines[j]).Ignored?)
    ensures Counted(d1, lines) == Counted(d2, lines)
    decreases |lines|
  {
    if lines != [] {
      var n := |lines| - 1;
      assert forall j :: 0 <= j < n ==> lines[..n][j] == lines[j];
      CountedAgree(d1, d2, lines[..n]);
    }
  }

  /**
   * A run that POSTs no line (each is ignored, skipped or refused as not a
   * record) counts the skips and the refusals, reports each refusal, and
   * changes nothing else.
   */
  lemma {:induction false} RunWithoutPosts(respond: (nat, Payload) -> Reply, writeOk: nat -> bool, dispose: string -> Disposition,
                                           st: FileRun, lines: seq<string>)
    requires !st.raised
    requires forall j :: 0 <= j < |lines| ==> !dispose(lines[j]).Post?
    ensures Run(respond, writeOk, dispose, st, lines)
      == st.(skipped := st.skipped + Skips(dispose, lines), failed := st.failed + Invalids(dispose, lines),
             errors := st.errors + InvalidErrors(dispose, lines))
    decreases |lines|
  {
    if lines != [] {
      var n := |lines| - 1;
      var prev := Run(respond, writeOk, dispose, st, lines[..n]);
      var d := dispose(lines[n]);
      assert forall j :: 0 <= j < n ==> lines[..n][j] == lines[j];
      RunWithoutPosts(respond, writeOk, dispose, st, lines[..n]);
      assert Run(respond, writeOk, dispose, st, lines) == Step(respond, writeOk, prev, n + 1, d);
      assert !d.Post? && !prev.raised;
      assert st.errors + InvalidErrors(dispose, lines)
        == (st.errors + InvalidErrors(dispose, lines[..n])) + (if d.Invalid? then [ErrorLine(n + 1, InvalidFormat)] else []);
    }
  }

  /** When no line is POSTed, every counted line is a skip or a refusal. */
  lemma {:induction false} CountedWithoutPosts(dispose: string -> Disposition, lines: seq<string>)
    requires forall j :: 0 <= j < |lines| ==> !dispose(lines[j]).Post?
    ensures Counted(dispose, lines) == Skips(dispose, lines) + Invalids(dispose, lines)
    decreases |lines|
  {
    if lines != [] {
      var n := |lines| - 1;
      assert forall j :: 0 <= j < n ==> lines[..n][j] == lines[j];
      CountedWithoutPosts(dispose, lines[..n]);
    }
  }

  /** Two dispositions that refuse the same lines count and report the same refusals. */
  lemma {:induction false} InvalidsAgree(d1: string -> Disposition, d2: string -> Disposition, lines: seq<string>)
    requires forall j :: 0 <= j < |lines| ==> (d1(lines[j]).Invalid? <==> d2(lines[j]).Invalid?)
    ensures Invalids(d1, lines) == Invalids(d2, lines)
    ensures InvalidErrors(d1, lines) == InvalidErrors(d2, lines)
    decreases |lines|
  {
    if lines != [] {
      var n := |lines| - 1;
      assert forall j :: 0 <= j < n ==> lines[..n][j] == lines[j];
      InvalidsAgree(d1, d2, lines[..n]);
    }
  }

  /**
   * A line that the first run skipped or POSTed under a key the second
   * snapshot holds is ignored or skipped by the second run; a line refused
   * as not a record is refused again.
   */
  lemma SkippedNextTime(apiKey: string, stationId: string, sha256: string -> HexDigest,
                        snap1: set<string>, snap2: set<string>, line: string)
    requires snap1 - {""} <= snap2
    requires var d1 := Dispose(apiKey, stationId, sha256, snap1, line);
      d1.Post? ==> d1.key in snap2
    ensures var d1, d2 := Dispose(apiKey, stationId, sha256, snap1, line), Dispose(apiKey, stationId, sha256, snap2, line);
      && (d2.Ignored? || d2.Skipped? || d2.Invalid?)
      && (d1.Ignored? <==> d2.Ignored?)
      && (d1.Invalid? <==> d2.Invalid?)
  {
    var t := Strip(line);
    var h := CalculateHash(sha256, t);
    DisposeByKey(apiKey, stationId, sha256, snap1, line, t, h);
    DisposeByKey(apiKey, stationId, sha256, snap2, line, t, h);
  }

  /**
   * Idempotence: a second `push_file` of the same file with duplicate
   * skipping, after a first one in which no POST was rejected, POSTs
   * nothing and writes nothing. It skips every line the first run sent or
   * skipped, and refuses and reports again the lines that are not records.
   */
  lemma SecondRunSendsNothing(respond1: (nat, Payload) -> Reply, respond2: (nat, Payload) -> Reply,
                              writeOk1: nat -> bool, writeOk2: nat -> bool,
                              apiKey: string, stationId: string, sha256: string -> HexDigest,
                              sent0: seq<Payload>, cache0: CacheFile, writes0: nat, lines: seq<string>)
    requires WellFormedCache(cache0)
    requires var d1 := Disposer(apiKey, stationId, sha256, Snapshot(true, cache0));
      var r1 := Run(respond1, writeOk1, d1, Start(sent0, cache0, writes0), lines);
      !r1.raised && r1.failed == Invalids(d1, lines)
    ensures var r1 := Run(respond1, writeOk1, Disposer(apiKey, stationId, sha256, Snapshot(true, cache0)), Start(sent0, cache0, writes0), lines);
      var r2 := Run(respond2, writeOk2, Disposer(apiKey, stationId, sha256, Snapshot(true, r1.cache)), Start(r1.sent, r1.cache, r1.writes), lines);
      r2 == Start(r1.sent, r1.cache, r1.writes).(skipped := r1.success + r1.skipped, failed := r1.failed, errors := r1.errors)
  {
    var snap1 := Snapshot(true, cache0);
    var d1 := Disposer(apiKey, stationId, sha256, snap1);
    var r1 := Run(respond1, writeOk1, d1, Start(sent0, cache0, writes0), lines);
    var snap2 := Snapshot(true, r1.cache);
    var d2 := Disposer(apiKey, stationId, sha256, snap2);
    var st2 := Start(r1.sent, r1.cache, r1.writes);
    FirstRunCovers(respond1, writeOk1, apiKey, stationId, sha256, sent0, cache0, writes0, lines);
    SkippedAllNextTime(apiKey, stationId, sha256, snap1, snap2, lines);
    RunWithoutPosts(respond2, writeOk2, d2, st2, lines);
    CountedWithoutPosts(d2, lines);
    CountedAgree(d1, d2, lines);
    InvalidsAgree(d1, d2, lines);
  }

  /** `SkippedNextTime` for every line of a file. */
  lemma SkippedAllNextTime(apiKey: string, stationId: string, sha256: string -> HexDigest,
                           snap1: set<string>, snap2: set<string>, lines: seq<string>)
    requires snap1 - {""} <= snap2
    requires var d1 := Disposer(apiKey, stationId, sha256, snap1);
      forall j :: 0 <= j < |lines| && d1(lines[j]).Post? ==> d1(lines[j]).key in snap2
    ensures var d1, d2 := Disposer(apiKey, stationId, sha256, snap1), Disposer(apiKey, stationId, sha256, snap2);
      forall j :: 0 <= j < |lines| ==>
        && !d2(lines[j]).Post?
        && (d1(lines[j]).Ignored? <==> d2(lines[j]).Ignored?)
        && (d1(lines[j]).Invalid? <==> d2(lines[j]).Invalid?)
  {
    var d1, d2 := Disposer(apiKey, stationId, sha256, snap1), Disposer(apiKey, stationId, sha256, snap2);
    forall j | 0 <= j < |lines|
      ensures !d2(lines[j]).Post?
      ensures d1(lines[j]).Ignored? <==> d2(lines[j]).Ignored?
      ensures d1(lines[j]).Invalid? <==> d2(lines[j]).Invalid?
    {
      SkippedNextTime(apiKey, stationId, sha256, snap1, snap2, lines[j]);
    }
  }

  /**
   * After a first run in which no POST was rejected, the key of every line
   * it POSTed is in the next snapshot, no key of the old cache is lost, and
   * the failures and errors are exactly the refusals of non-record lines.
   */
  lemma FirstRunCovers(respond1: (nat, Payload) -> Reply, writeOk1: nat -> bool,
                       apiKey: string, stationId: string, sha256: string -> HexDigest,
                       sent0: seq<Payload>, cache0: CacheFile, writes0: nat, lines: seq<string>)
    requires WellFormedCache(cache0)
    requires var d1 := Disposer(apiKey, stationId, sha256, Snapshot(true, cache0));
      var r1 := Run(respond1, writeOk1, d1, Start(sent0, cache0, writes0), lines);
      !r1.raised && r1.failed == Invalids(d1, lines)
    ensures var d1 := Disposer(apiKey, stationId, sha256, Snapshot(true, cache0));
      var r1 := Run(respond1, writeOk1, d1, Start(sent0, cache0, writes0), lines);
      var snap2 := Snapshot(true, r1.cache);
      && Snapshot(true, cache0) - {""} <= snap2
      && r1.success + r1.skipped + Invalids(d1, lines) == Counted(d1, lines)
      && r1.errors == InvalidErrors(d1, lines)
      && forall j :: 0 <= j < |lines| && d1(lines[j]).Post? ==> d1(lines[j]).key in snap2
  {
    var snap1 := Snapshot(true, cache0);
    var d1 := Disposer(apiKey, stationId, sha256, snap1);
    var st1 := Start(sent0, cache0, writes0);
    var r1 := Run(respond1, writeOk1, d1, st1, lines);
    assert KeyedPosts(d1);
    RunAccounting(respond1, writeOk1, d1, st1, lines);
    RunSavesEveryPush(respond1, writeOk1, d1, st1, lines);
    assert st1.errors + InvalidErrors(d1, lines) == InvalidErrors(d1, lines);
    RunKeepsKeys(respond1, writeOk1, d1, sent0, cache0, writes0, lines);
    PostedKeysIn(d1, lines, r1.saved, Snapshot(true, r1.cache));
  }

  /** Keys that are among the saved ones, all of which are in `S`, are in `S`. */
  lemma PostedKeysIn(dispose: string -> Disposition, lines: seq<string>, saved: seq<string>, S: set<string>)
    requires forall j :: 0 <= j < |lines| && dispose(lines[j]).Post? ==> dispose(lines[j]).key in saved
    requires forall k :: 0 <= k < |saved| ==> saved[k] in S
    ensures forall j :: 0 <= j < |lines| && dispose(lines[j]).Post? ==> dispose(lines[j]).key in S
  {
    forall j | 0 <= j < |lines| && dispose(lines[j]).Post?
      ensures dispose(lines[j]).key in S
    {
      var k :| 0 <= k < |saved| && saved[k] == dispose(lines[j]).key;
    }
  }

  /** A run loses no key of the cache it started from, and the cache holds every key it saved. */
  lemma RunKeepsKeys(respond: (nat, Payload) -> Reply, writeOk: nat -> bool, dispose: string -> Disposition,
                     sent0: seq<Payload>, cache0: CacheFile, writes0: nat, lines: seq<string>)
    requires WellFormedCache(cache0) && KeyedPosts(dispose)
    ensures var r := Run(respond, writeOk, dispose, Start(sent0, cache0, writes0), lines);
      && LoadUploadedQsos(cache0) - {""} <= LoadUploadedQsos(r.cache)
      && forall k :: 0 <= k < |r.saved| ==> r.saved[k] in LoadUploadedQsos(r.cache)
  {
    var st := Start(sent0, cache0, writes0);
    var r := Run(respond, writeOk, dispose, st, lines);
    RunCache(respond, writeOk, dispose, st, lines);
    RunSavedKeys(respond, writeOk, dispose, st, lines);
    forall k | 0 <= k < |r.saved| ensures IsCleanKey(r.saved[k]) {
      DigestIsClean(r.saved[k]);
    }
    SavesKeepKeys(cache0, r.saved);
  }

  /**
   * No in-run memory of saved keys: a record that appears twice in one file,
   * and whose key the snapshot lacks, is POSTed twice (as long as the
   * first write to the cache, if any, does not raise).
   */
  lemma RepeatedLinePostedTwice(respond: (nat, Payload) -> Reply, writeOk: nat -> bool, dispose: string -> Disposition,
                                st: FileRun, line: string)
    requires !st.raised && KeyedPosts(dispose) && dispose(line).Post? && writeOk(st.writes)
    ensures Run(respond, writeOk, dispose, st, [line, line]).sent == st.sent + [dispose(line).payload, dispose(line).payload]
  {
    var d := dispose(line);
    assert IsHexDigest(d.key);
    assert [line, line][..1] == [line] && [line][..0] == [];
    assert Run(respond, writeOk, dispose, st, []) == st;
    var first := Run(respond, writeOk, dispose, st, [line]);
    assert first == Step(respond, writeOk, st, 1, d);
    StepEffects(respond, writeOk, st, 1, d);
    assert Run(respond, writeOk, dispose, st, [line, line]) == Step(respond, writeOk, first, 2, d);
    StepEffects(respond, writeOk, first, 2, d);
  }

  /**
   * A refused POST leaves the cache alone: the line is counted as failed,
   * reported, and gets the same disposition on the next run.
   */
  lemma FailureNotCached(respond: (nat, Payload) -> Reply, writeOk: nat -> bool, dispose: string -> Disposition,
                         st: FileRun, line: string)
    requires !st.raised && dispose(line).Post?
    requires Classify(respond(|st.sent|, dispose(line).payload)).Rejected?
    ensures var r := Run(respond, writeOk, dispose, st, [line]);
      && r.cache == st.cache && r.saved == st.saved && !r.raised
      && r.failed == st.failed + 1 && r.success == st.success
      && r.sent == st.sent + [dispose(line).payload]
      && r.errors == st.errors + [ErrorLine(1, Classify(respond(|st.sent|, dispose(line).payload)).reason)]
  {
    assert [line][..0] == [];
  }
}
