/**
 * `WsjtxListener`: the live path. Each UDP datagram is searched for an
 * embedded ADIF record; a record whose key the listener has not seen is
 * pushed, and a successful push is remembered both in the cache file and in
 * the listener's own set of keys.
 */
module Listener {
  import opened Wrappers
  import opened Text
  import opened Adif
  import opened Settings
  import opened Cloudlog

  // ---------------------------------------------------------------------
  // The search for `<QSO_DATE:\d+>\d+.*?<EOR>`
  // ---------------------------------------------------------------------

  const DateOpen := "<QSO_DATE:"
  const CallOpen := "<CALL:"
  const EndOfRecord := "<EOR>"

  /** The cheap test done before the search: both tag openings occur somewhere. */
  predicate Prefilter(text: string)
    ensures Prefilter(text) ==> |text| >= |DateOpen| && |text| >= |CallOpen|
  {
    ContainsLength(text, DateOpen);
    ContainsLength(text, CallOpen);
    Contains(text, DateOpen) && Contains(text, CallOpen)
  }

  /** The end of the run of digits that starts at `i`. */
  function DigitsEnd(s: string, i: nat): (j: nat)
    requires i <= |s|
    ensures i <= j <= |s|
    ensures forall k :: i <= k < j ==> IsDigit(s[k])
    ensures j < |s| ==> !IsDigit(s[j])
    decreases |s| - i
  {
    if i < |s| && IsDigit(s[i]) then DigitsEnd(s, i + 1) else i
  }

  /** `.*?<EOR>` from `i`: the end of the first `<EOR>`, provided no newline comes before it. */
  function LazyEnd(s: string, i: nat): (r: Option<nat>)
    requires i <= |s|
    ensures r.Some? ==> i + 5 <= r.value <= |s| && s[r.value - 5..r.value] == EndOfRecord
    ensures r.Some? ==> forall k :: i <= k < r.value - 5 ==> s[k] != '\n'
    decreases |s| - i
  {
    if i + 5 > |s| then None
    else if s[i..i + 5] == EndOfRecord then Some(i + 5)
    else if s[i] == '\n' then None
    else LazyEnd(s, i + 1)
  }

  /** The end of the match that starts at `p`, if the pattern matches there. */
  function MatchEnd(s: string, p: nat): (e: Option<nat>)
    requires p <= |s|
    ensures e.Some? ==> p + 18 <= e.value <= |s| && s[p..p + 10] == DateOpen && s[e.value - 5..e.value] == EndOfRecord
  {
    if |s| < p + 10 || s[p..p + 10] != DateOpen then None
    else
      var a := DigitsEnd(s, p + 10);
      if a == p + 10 || a == |s| || s[a] != '>' then None
      else
        var b := DigitsEnd(s, a + 1);
        if b == a + 1 then None else LazyEnd(s, b)
  }

  /** `re.search`: the first position from `p` on where the pattern matches, with the end of that match. */
  function SearchFrom(s: string, p: nat): (r: Option<(nat, nat)>)
    requires p <= |s|
    ensures r.Some? ==> p <= r.value.0 <= r.value.1 <= |s| && MatchEnd(s, r.value.0) == Some(r.value.1)
    decreases |s| - p
  {
    if MatchEnd(s, p).Some? then Some((p, MatchEnd(s, p).value))
    else if p == |s| then None
    else SearchFrom(s, p + 1)
  }

  /** Digits at every position of `s[i..j]`, and at least one. */
  ghost predicate DigitRun(s: string, i: nat, j: nat) {
    i < j <= |s| && forall k :: i <= k < j ==> IsDigit(s[k])
  }

  /**
   * `s[p..q]` matches the pattern, read as `<QSO_DATE:` `s[p+10..a]` `>`
   * `s[a+1..b]` `s[b..q-5]` `<EOR>`: two digit runs, then any text without a
   * newline, then the end marker.
   */
  ghost predicate Parses(s: string, p: nat, a: nat, b: nat, q: nat) {
    && p + 10 <= |s| && s[p..p + 10] == DateOpen
    && DigitRun(s, p + 10, a) && a < |s| && s[a] == '>'
    && DigitRun(s, a + 1, b)
    && b + 5 <= q <= |s| && s[q - 5..q] == EndOfRecord
    && forall k :: b <= k < q - 5 ==> s[k] != '\n'
  }

  /** A match found at `p` is a reading of the pattern. */
  lemma MatchEndSound(s: string, p: nat)
    requires p <= |s| && MatchEnd(s, p).Some?
    ensures exists a, b :: Parses(s, p, a, b, MatchEnd(s, p).value)
  {
    var a := DigitsEnd(s, p + 10);
    var b := DigitsEnd(s, a + 1);
    assert Parses(s, p, a, b, MatchEnd(s, p).value);
  }

  /** Past `i`, the lazy scan stops no later than any `<EOR>` not preceded by a newline. */
  lemma {:induction false} LazyEndFirst(s: string, i: nat, e: nat)
    requires i <= e && e + 5 <= |s| && s[e..e + 5] == EndOfRecord
    requires forall k :: i <= k < e ==> s[k] != '\n'
    ensures LazyEnd(s, i).Some? && LazyEnd(s, i).value <= e + 5
    decreases e - i
  {
    if s[i..i + 5] != EndOfRecord {
      assert i != e;
      LazyEndFirst(s, i + 1, e);
    }
  }

  /** The digit run from `i` reaches at least `j` when `s[i..j]` is all digits, and exactly `j` when a non-digit follows. */
  lemma {:induction false} DigitsEndReaches(s: string, i: nat, j: nat)
    requires i <= j <= |s| && forall k :: i <= k < j ==> IsDigit(s[k])
    ensures j <= DigitsEnd(s, i)
    ensures j < |s| && !IsDigit(s[j]) ==> DigitsEnd(s, i) == j
    decreases j - i
  {
    if i < j {
      DigitsEndReaches(s, i + 1, j);
    }
  }

  /** `MatchEnd` once both digit runs are known. */
  lemma MatchEndAfterDigits(s: string, p: nat, a: nat, b: nat)
    requires p + 10 <= |s| && s[p..p + 10] == DateOpen
    requires p + 10 < a < |s| && DigitsEnd(s, p + 10) == a && s[a] == '>'
    requires a + 1 < b <= |s| && DigitsEnd(s, a + 1) == b
    ensures MatchEnd(s, p) == LazyEnd(s, b)
  {
  }

  /** `<EOR>` starts with a character that is neither a digit nor a newline. */
  lemma MarkerNotDigit(s: string, e: nat)
    requires e + 5 <= |s| && s[e..e + 5] == EndOfRecord
    ensures !IsDigit(s[e]) && s[e] != '\n'
  {
    assert s[e] == s[e..e + 5][0];
  }

  /** In a reading of the pattern the digit runs are maximal, so `DigitsEnd` finds `a`, and the second run reaches at least `b` but not into `<EOR>`. */
  lemma ParsedDigits(s: string, p: nat, a: nat, b: nat, q: nat)
    requires Parses(s, p, a, b, q)
    ensures DigitsEnd(s, p + 10) == a
    ensures b <= DigitsEnd(s, a + 1) <= q - 5
  {
    DigitsEndReaches(s, p + 10, a);
    DigitsEndReaches(s, a + 1, b);
    MarkerNotDigit(s, q - 5);
  }

  /** Any reading of the pattern at `p` is found, and the match found ends no later (the shortest one). */
  lemma MatchEndComplete(s: string, p: nat, a: nat, b: nat, q: nat)
    requires Parses(s, p, a, b, q)
    ensures MatchEnd(s, p).Some? && MatchEnd(s, p).value <= q
  {
    ParsedDigits(s, p, a, b, q);
    ParsedTail(s, p, a, b, q);
    MatchEndAfterDigits(s, p, a, DigitsEnd(s, a + 1));
  }

  /** After the second digit run the lazy scan stops at or before the `<EOR>` of the reading. */
  lemma ParsedTail(s: string, p: nat, a: nat, b: nat, q: nat)
    requires Parses(s, p, a, b, q)
    ensures a + 1 <= |s|
    ensures LazyEnd(s, DigitsEnd(s, a + 1)).Some? && LazyEnd(s, DigitsEnd(s, a + 1)).value <= q
  {
    ParsedDigits(s, p, a, b, q);
    LazyEndFirst(s, DigitsEnd(s, a + 1), q - 5);
  }

  /** The search never passes over a position where the pattern matches. */
  lemma {:induction false} SearchFromLeftmost(s: string, i: nat, p: nat, a: nat, b: nat, q: nat)
    requires i <= p && Parses(s, p, a, b, q)
    ensures SearchFrom(s, i).Some?
    ensures SearchFrom(s, i).value.0 <= p
    ensures SearchFrom(s, i).value.0 == p ==> SearchFrom(s, i).value.1 <= q
    decreases p - i
  {
    if i == p {
      MatchEndComplete(s, p, a, b, q);
      assert SearchFrom(s, i) == Some((p, MatchEnd(s, p).value));
    } else if MatchEnd(s, i).None? {
      assert SearchFrom(s, i) == SearchFrom(s, i + 1);
      SearchFromLeftmost(s, i + 1, p, a, b, q);
    }
  }

  /** `re.search(pattern, text)`: the bounds of the leftmost match. */
  function Search(text: string): (r: Option<(nat, nat)>)
    ensures r.Some? ==> r.value.0 <= r.value.1 <= |text|
  {
    SearchFrom(text, 0)
  }

  /**
   * The search is the leftmost, then shortest, reading of the pattern:
   * what it returns is a reading, and every reading starts no earlier, or
   * at the same place and ends no earlier.
   */
  lemma SearchIsLeftmostShortest(text: string, p: nat, a: nat, b: nat, q: nat)
    requires Parses(text, p, a, b, q)
    ensures Search(text).Some?
    ensures exists a', b' :: Parses(text, Search(text).value.0, a', b', Search(text).value.1)
    ensures Search(text).value.0 < p || (Search(text).value.0 == p && Search(text).value.1 <= q)
  {
    SearchFromLeftmost(text, 0, p, a, b, q);
    MatchEndSound(text, Search(text).value.0);
  }

  /** A returned match is a reading of the pattern. */
  lemma SearchSound(text: string)
    requires Search(text).Some?
    ensures exists a, b :: Parses(text, Search(text).value.0, a, b, Search(text).value.1)
  {
    MatchEndSound(text, Search(text).value.0);
  }

  /** `adif_match.group(0)`, when the pre-filter passes and the pattern matches. */
  function Extract(text: string): (r: Option<string>)
    ensures r.Some? ==> Prefilter(text) && Search(text).Some?
    ensures Prefilter(text) && Search(text).Some? ==> r.Some?
  {
    if !Prefilter(text) then None
    else
      match Search(text)
      case None => None
      case Some((p, q)) => Some(text[p..q])
  }

  /** A reading of the pattern lies on one line. */
  lemma ParsedOnOneLine(s: string, p: nat, a: nat, b: nat, q: nat)
    requires Parses(s, p, a, b, q)
    ensures forall k :: p <= k < q ==> s[k] != '\n'
  {
    forall k | p <= k < q ensures s[k] != '\n' {
      if k >= q - 5 {
        assert s[k] == s[q - 5..q][k - (q - 5)];
      } else if k < p + 10 {
        assert s[k] == s[p..p + 10][k - p];
      } else if k < a || a < k < b {
        assert IsDigit(s[k]);
      }
    }
  }

  /** An extracted record starts with `<QSO_DATE:`, ends with `<EOR>` and lies on one line. */
  lemma ExtractedRecord(text: string)
    requires Extract(text).Some?
    ensures var line := Extract(text).value;
      && StartsWith(line, DateOpen)
      && |line| >= 5 && line[|line| - 5..] == EndOfRecord
      && '\n' !in line
  {
    SearchSound(text);
    var (p, q) := Search(text).value;
    var a: nat, b: nat :| Parses(text, p, a, b, q);
    ParsedOnOneLine(text, p, a, b, q);
    var line := text[p..q];
    assert line[..10] == text[p..p + 10];
    assert line[|line| - 5..] == text[q - 5..q];
    assert forall k :: 0 <= k < |line| ==> line[k] == text[p + k];
  }

  /** The record a datagram offers: its line and key, when it is a record at all. */
  function Candidate(sha256: string -> HexDigest, text: string): (c: Option<(string, string)>)
    ensures c.Some? ==> Extract(text) == Some(c.value.0) && ParseRecord(c.value.0).Some?
    ensures c.Some? ==> c.value.1 == CalculateHash(sha256, c.value.0) && IsHexDigest(c.value.1)
    ensures c.None? ==> Extract(text).None? || ParseRecord(Extract(text).value).None?
  {
    match Extract(text)
    case None => None
    case Some(line) => if ParseRecord(line).None? then None else Some((line, CalculateHash(sha256, line)))
  }

  // ---------------------------------------------------------------------
  // `_parse_message` as a state machine
  // ---------------------------------------------------------------------

  /**
   * The state one datagram can change: the listener's set of keys, the
   * POSTs, the cache file and the number of writes tried on it.
   */
  datatype Listening = Listening(known: set<string>, sent: seq<Payload>, cache: CacheFile, writes: nat)

  /**
   * One datagram, whose record (if any) is `c`: a key already known is
   * dropped; otherwise the record is POSTed, and a success is saved to the
   * cache and added to the set, unless the write (the `st.writes`-th)
   * raises, which is swallowed before the set is updated.
   */
  ghost function OnDatagram(respond: (nat, Payload) -> Reply, writeOk: nat -> bool, apiKey: string, stationId: string,
                      st: Listening, c: Option<(string, string)>): (r: Listening)
    ensures st.known <= r.known
    ensures |st.sent| <= |r.sent| <= |st.sent| + 1
    ensures st.writes <= r.writes <= st.writes + 1
  {
    match c
    case None => st
    case Some((line, h)) =>
      if h in st.known then st
      else
        var p := RecordPayload(apiKey, stationId, line);
        var pushed := st.(sent := st.sent + [p]);
        if Classify(respond(|st.sent|, p)).Pushed? && h != "" then
          if writeOk(st.writes) then pushed.(known := st.known + {h}, cache := SavedFile(st.cache, h), writes := st.writes + 1)
          else pushed.(writes := st.writes + 1)
        else pushed
  }

  /** `Candidate` once the extracted line is known. */
  lemma CandidateOf(sha256: string -> HexDigest, text: string, line: string)
    requires Extract(text) == Some(line)
    ensures Candidate(sha256, text) == if ParseRecord(line).None? then None else Some((line, CalculateHash(sha256, line)))
  {
  }

  /** `OnDatagram` for a record whose key is not known yet. */
  lemma OnDatagramPost(respond: (nat, Payload) -> Reply, writeOk: nat -> bool, apiKey: string, stationId: string,
                       st: Listening, line: string, h: string)
    requires h !in st.known
    ensures var p := RecordPayload(apiKey, stationId, line);
      OnDatagram(respond, writeOk, apiKey, stationId, st, Some((line, h)))
        == if !Classify(respond(|st.sent|, p)).Pushed? || h == "" then st.(sent := st.sent + [p])
           else if writeOk(st.writes) then Listening(st.known + {h}, st.sent + [p], SavedFile(st.cache, h), st.writes + 1)
           else st.(sent := st.sent + [p], writes := st.writes + 1)
  {
  }

  /**
   * A datagram POSTs at most once, and only a record whose key is not
   * known; the set and the cache change together, exactly on a successful
   * POST whose save succeeded, and then by that key alone.
   */
  lemma DatagramEffect(respond: (nat, Payload) -> Reply, writeOk: nat -> bool, apiKey: string, stationId: string,
                       st: Listening, c: Option<(string, string)>)
    requires c.Some? ==> c.value.1 != ""
    ensures var r := OnDatagram(respond, writeOk, apiKey, stationId, st, c);
      && (r.sent == st.sent <==> c.None? || c.value.1 in st.known)
      && (r.sent != st.sent ==> r.sent == st.sent + [RecordPayload(apiKey, stationId, c.value.0)])
      && (r.known == st.known ==> r.cache == st.cache)
      && (r.known != st.known <==>
            && c.Some? && c.value.1 !in st.known && writeOk(st.writes)
            && Classify(respond(|st.sent|, RecordPayload(apiKey, stationId, c.value.0))).Pushed?)
      && (r.known != st.known ==>
            r.known == st.known + {c.value.1} && r.cache == SavedFile(st.cache, c.value.1))
      && st.writes <= r.writes <= st.writes + 1
      && (r.writes != st.writes <==>
            && c.Some? && c.value.1 !in st.known
            && Classify(respond(|st.sent|, RecordPayload(apiKey, stationId, c.value.0))).Pushed?)
  {
    var r := OnDatagram(respond, writeOk, apiKey, stationId, st, c);
    if c.Some? && c.value.1 !in st.known {
      assert |r.sent| == |st.sent| + 1;
      if r.known != st.known {
        assert c.value.1 in r.known;
        assert r.cache == Stored(Serialize(LoadUploadedQsos(st.cache) + {c.value.1}));
      }
    }
  }

  /**
   * What the listener knows is on disk: the set holds no key (other than
   * the empty one an empty cache file yields) missing from the cache file.
   */
  ghost predicate Durable(st: Listening) {
    WellFormedCache(st.cache) && st.known - {""} <= LoadUploadedQsos(st.cache)
  }

  /** The listener starts from the cache file, so it starts durable. */
  lemma StartsDurable(cache: CacheFile, sent: seq<Payload>, writes: nat)
    requires WellFormedCache(cache)
    ensures Durable(Listening(LoadUploadedQsos(cache), sent, cache, writes))
  {
  }

  /** Every datagram keeps the listener durable. */
  lemma DatagramKeepsDurable(respond: (nat, Payload) -> Reply, writeOk: nat -> bool, apiKey: string, stationId: string,
                             st: Listening, c: Option<(string, string)>)
    requires Durable(st)
    requires c.Some? ==> IsHexDigest(c.value.1)
    ensures Durable(OnDatagram(respond, writeOk, apiKey, stationId, st, c))
  {
    var r := OnDatagram(respond, writeOk, apiKey, stationId, st, c);
    if r.known != st.known {
      var h := c.value.1;
      DigestIsClean(h);
      LoadAfterSave(st.cache, h);
      assert r.known - {""} <= LoadUploadedQsos(r.cache) by {
        forall x | x in r.known - {""} ensures x in LoadUploadedQsos(r.cache) {
          if x != h {
            assert x in st.known - {""};
          }
        }
      }
    }
  }

  /**
   * A re-broadcast of a contact that was just uploaded and saved changes
   * nothing, whatever the server would answer now.
   */
  lemma RebroadcastIgnored(respond: (nat, Payload) -> Reply, respond2: (nat, Payload) -> Reply, writeOk: nat -> bool,
                           apiKey: string, stationId: string, st: Listening, c: Option<(string, string)>)
    requires c.Some?
    requires OnDatagram(respond, writeOk, apiKey, stationId, st, c).known != st.known
    ensures var r := OnDatagram(respond, writeOk, apiKey, stationId, st, c);
      OnDatagram(respond2, writeOk, apiKey, stationId, r, c) == r
  {
  }

  /** A failed POST leaves the contact unknown, so a re-broadcast is POSTed again. */
  lemma FailedPushRetried(respond: (nat, Payload) -> Reply, respond2: (nat, Payload) -> Reply, writeOk: nat -> bool,
                          apiKey: string, stationId: string, st: Listening, line: string, h: string)
    requires h != "" && h !in st.known
    requires Classify(respond(|st.sent|, RecordPayload(apiKey, stationId, line))).Rejected?
    ensures var r := OnDatagram(respond, writeOk, apiKey, stationId, st, Some((line, h)));
      && r.known == st.known && r.cache == st.cache
      && OnDatagram(respond2, writeOk, apiKey, stationId, r, Some((line, h))).sent
           == st.sent + [RecordPayload(apiKey, stationId, line), RecordPayload(apiKey, stationId, line)]
  {
  }

  /**
   * A successful POST whose write to the cache raises leaves the contact
   * unknown, so a re-broadcast is POSTed again; if that POST succeeds and
   * the next write does not raise, the contact is then saved and known.
   */
  lemma FailedSaveRetried(respond: (nat, Payload) -> Reply, writeOk: nat -> bool,
                          apiKey: string, stationId: string, st: Listening, line: string, h: string)
    requires h != "" && h !in st.known
    requires Classify(respond(|st.sent|, RecordPayload(apiKey, stationId, line))).Pushed? && !writeOk(st.writes)
    ensures var p, r := RecordPayload(apiKey, stationId, line), OnDatagram(respond, writeOk, apiKey, stationId, st, Some((line, h)));
      var r2 := OnDatagram(respond, writeOk, apiKey, stationId, r, Some((line, h)));
      && r.known == st.known && r.cache == st.cache && r.writes == st.writes + 1
      && r2.sent == st.sent + [p, p]
      && (Classify(respond(|st.sent| + 1, p)).Pushed? && writeOk(st.writes + 1) ==>
            r2.known == st.known + {h} && r2.cache == SavedFile(st.cache, h))
  {
  }

  /** The records the datagrams offer, as `Candidate` finds them for a given digest. */
  function Offers(sha256: string -> HexDigest): string -> Option<(string, string)> {
    text => Candidate(sha256, text)
  }

  /** Every record offered carries a hex-digest key. */
  ghost predicate KeyedOffers(offer: string -> Option<(string, string)>) {
    forall text :: offer(text).Some? ==> IsHexDigest(offer(text).value.1)
  }

  lemma OffersKeyed(sha256: string -> HexDigest)
    ensures KeyedOffers(Offers(sha256))
  {
  }

  /** The receive loop of `start`, over the datagrams received before the interrupt. */
  ghost function Listen(respond: (nat, Payload) -> Reply, writeOk: nat -> bool, apiKey: string, stationId: string,
                        offer: string -> Option<(string, string)>, st: Listening, texts: seq<string>): (r: Listening)
    ensures st.known <= r.known
    ensures st.writes <= r.writes <= st.writes + |texts|
    decreases |texts|
  {
    if texts == [] then st
    else
      var n := |texts| - 1;
      OnDatagram(respond, writeOk, apiKey, stationId, Listen(respond, writeOk, apiKey, stationId, offer, st, texts[..n]), offer(texts[n]))
  }

  /** Over any sequence of datagrams the listener stays durable. */
  lemma {:induction false} ListenDurable(respond: (nat, Payload) -> Reply, writeOk: nat -> bool, apiKey: string, stationId: string,
                                         offer: string -> Option<(string, string)>, st: Listening, texts: seq<string>)
    requires Durable(st) && KeyedOffers(offer)
    ensures Durable(Listen(respond, writeOk, apiKey, stationId, offer, st, texts))
    decreases |texts|
  {
    if texts != [] {
      var n := |texts| - 1;
      ListenDurable(respond, writeOk, apiKey, stationId, offer, st, texts[..n]);
      DatagramKeepsDurable(respond, writeOk, apiKey, stationId,
                           Listen(respond, writeOk, apiKey, stationId, offer, st, texts[..n]), offer(texts[n]));
    }
  }

  /**
   * Over any sequence of datagrams the listener POSTs at most once per
   * datagram, appending to what was sent before, and forgets no key.
   */
  lemma {:induction false} ListenSends(respond: (nat, Payload) -> Reply, writeOk: nat -> bool, apiKey: string, stationId: string,
                                       offer: string -> Option<(string, string)>, st: Listening, texts: seq<string>)
    requires KeyedOffers(offer)
    ensures var r := Listen(respond, writeOk, apiKey, stationId, offer, st, texts);
      && |st.sent| <= |r.sent| <= |st.sent| + |texts| && r.sent[..|st.sent|] == st.sent
      && st.known <= r.known
    decreases |texts|
  {
    if texts != [] {
      var n := |texts| - 1;
      var prev := Listen(respond, writeOk, apiKey, stationId, offer, st, texts[..n]);
      ListenSends(respond, writeOk, apiKey, stationId, offer, st, texts[..n]);
      DatagramEffect(respond, writeOk, apiKey, stationId, prev, offer(texts[n]));
      var r := OnDatagram(respond, writeOk, apiKey, stationId, prev, offer(texts[n]));
      assert r.sent[..|prev.sent|] == prev.sent;
      assert r.sent[..|st.sent|] == prev.sent[..|st.sent|];
    }
  }

  // ---------------------------------------------------------------------
  // The listener object
  // ---------------------------------------------------------------------

  class WsjtxListener {
    const pusher: CloudlogPusher
    const config: Config
    const sha256: string -> HexDigest
    var lastUploaded: set<string>

    /** The part of the world a datagram can change. */
    ghost function State(): Listening
      reads this, pusher, pusher.server, config
    {
      Listening(lastUploaded, pusher.server.sent, config.cache, config.writes)
    }

    /** `WsjtxListener(pusher)`: the set starts as the cache file's keys. */
    constructor (pusher: CloudlogPusher, config: Config, sha256: string -> HexDigest)
      ensures this.pusher == pusher && this.config == config && this.sha256 == sha256
      ensures lastUploaded == LoadUploadedQsos(config.cache)
    {
      this.pusher := pusher;
      this.config := config;
      this.sha256 := sha256;
      lastUploaded := LoadUploadedQsos(config.cache);
    }

    /** `_parse_message`, on the datagram already decoded to text. */
    method ParseMessage(text: string)
      modifies this, pusher.server, config
      ensures State() == OnDatagram(pusher.server.respond, config.writeOk, pusher.apiKey, pusher.stationId,
                                    old(State()), Candidate(sha256, text))
      ensures config.configFile == old(config.configFile)
    {
      if !(Contains(text, DateOpen) && Contains(text, CallOpen)) {
        return;
      }
      var found := Search(text);
      if found.None? {
        return;
      }
      var adifLine := text[found.value.0..found.value.1];
      assert Extract(text) == Some(adifLine);
      var qsoHash := CalculateHash(sha256, adifLine);
      CandidateOf(sha256, text, adifLine);
      if qsoHash in lastUploaded {
        return;
      }
      var record := ParseLine(adifLine);
      if record.None? {
        return;
      }
      Deliver(adifLine, qsoHash);
    }

    /** The rest of `_parse_message` for a record whose key is not known: POST, then save on success. */
    method Deliver(adifLine: string, qsoHash: string)
      requires qsoHash !in lastUploaded && ParseRecord(adifLine).Some?
      modifies this, pusher.server, config
      ensures State() == OnDatagram(pusher.server.respond, config.writeOk, pusher.apiKey, pusher.stationId,
                                    old(State()), Some((adifLine, qsoHash)))
      ensures config.configFile == old(config.configFile)
    {
      OnDatagramPost(pusher.server.respond, config.writeOk, pusher.apiKey, pusher.stationId, State(), adifLine, qsoHash);
      var result := pusher.PushRecord(adifLine);
      if result.Pushed? {
        if qsoHash != "" {
          var raised := config.SaveUploadedQso(qsoHash);
          if !raised {
            lastUploaded := lastUploaded + {qsoHash};
          }
        }
      }
    }

    /** The receive loop of `start`, applied to the datagrams received before the interrupt. */
    method Start(texts: seq<string>)
      modifies this, pusher.server, config
      ensures State() == Listen(pusher.server.respond, config.writeOk, pusher.apiKey, pusher.stationId, Offers(sha256),
                                old(State()), texts)
      ensures config.configFile == old(config.configFile)
    {
      for i := 0 to |texts|
        invariant State() == Listen(pusher.server.respond, config.writeOk, pusher.apiKey, pusher.stationId, Offers(sha256),
                                    old(State()), texts[..i])
        invariant config.configFile == old(config.configFile)
      {
        assert texts[..i + 1][..i] == texts[..i];
        ParseMessage(texts[i]);
      }
      assert texts[..|texts|] == texts;
    }
  }
}
