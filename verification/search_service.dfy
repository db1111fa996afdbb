/** The server's search service (server/src/services/torrentSearchService.js): a rate
    limiter in front of the YTS movie API, the request it sends, the flattening of the
    movie list into one result per torrent, magnet-link construction and the error
    messages it rethrows. The HTTP call itself is outside the model: its outcome is a
    parameter, as are the clock readings and `encodeURIComponent`. */
module TorrentSearch {
  import opened Wrappers
  import opened Strings

  /** One torrent of a movie as the YTS API lists it; an absent or non-numeric number is
      None. */
  datatype YtsTorrent = YtsTorrent(
    hash: string, quality: string, sizeBytes: Option<int>, seeds: Option<int>, peers: Option<int>)

  datatype YtsMovie = YtsMovie(
    title: string, year: nat, dateUploaded: Option<string>, rating: Option<real>,
    torrents: Option<seq<YtsTorrent>>)

  /** The body of a `list_movies.json` reply: its status word and `data.movies`. */
  datatype YtsReply = YtsReply(status: string, movies: Option<seq<YtsMovie>>)

  /** A failed HTTP call: the client's error code (absent for most errors) and message. */
  datatype TransportError = TransportError(code: Option<string>, message: string)

  datatype SearchResult = SearchResult(
    name: string, magnetURI: string, size: int, seeders: int, leechers: int,
    category: string, uploadDate: string, quality: string, rating: Option<real>)

  /** The options object handed to `searchTorrents`; a limit that is absent or NaN is None. */
  datatype SearchOptions = SearchOptions(category: Option<string>, limit: Option<int>, sort: Option<string>)

  /** The query string of the API request. */
  datatype RequestParams = RequestParams(queryTerm: string, limit: int, sortBy: string, orderBy: string)

  const RequestDelay := 1000
  const DefaultLimit := 20
  const MaxLimit := 50
  const MagnetPrefix := "magnet:?"
  /** What every link built here starts with, before the info hash. */
  const TopicPrefix := MagnetPrefix + "xt=urn:btih:"
  const TimedOutMessage := "Search request timed out." + " The API may be slow or blocked."
  const FailedPrefix := "Failed to search: "
  const ErrorStatusMessage := "API returned error status"

  /** The five announce URLs every magnet link carries, in order. */
  const Trackers: seq<string> := [
    "udp://open.demonii.com:1337/announce",
    "udp://tracker.openbittorrent.com:80",
    "udp://tracker.coppersurfer.tk:6969",
    "udp://glotorrents.pw:6969/announce",
    "udp://tracker.opentrackr.org:1337/announce"
  ]

  /** `x || 0` for a number that may be absent. */
  function OrZero(n: Option<int>): int {
    n.GetOr(0)
  }

  /** How long `waitForRateLimit` sleeps when the previous request started at `last` and
      the clock now reads `now`: whatever is left of the delay, and nothing once it has
      passed. Sleeping that long always brings the clock to at least `last + delay`. */
  function WaitTime(last: int, now: int, delay: nat): (w: int)
    ensures w >= 0
    ensures w == 0 <==> now - last >= delay
    ensures now + w >= last + delay
    ensures now >= last ==> w <= delay
    ensures w > 0 ==> now + w == last + delay
  {
    if now - last < delay then delay - (now - last) else 0
  }

  /** The request limit: an absent, NaN or zero limit becomes 20, and none exceeds 50. */
  function RequestLimit(limit: Option<int>): (n: int)
    ensures n <= MaxLimit
    ensures (limit.None? || limit == Some(0)) ==> n == DefaultLimit
    ensures limit.Some? && limit.value != 0 ==> n == if limit.value < MaxLimit then limit.value else MaxLimit
  {
    var asked := if limit.Some? && limit.value != 0 then limit.value else DefaultLimit;
    if asked < MaxLimit then asked else MaxLimit
  }

  /** The parameters sent for a query: the query as is, the capped limit, the sort key
      (an absent or empty one becomes "seeds") and always descending order. */
  function RequestFor(query: string, options: SearchOptions): (p: RequestParams)
    ensures p.queryTerm == query && p.orderBy == "desc" && p.limit <= MaxLimit
    ensures p.limit == RequestLimit(options.limit)
    ensures options.sort.Some? && options.sort.value != "" ==> p.sortBy == options.sort.value
    ensures p.sortBy == "seeds" <==> options.sort.None? || options.sort == Some("") || options.sort == Some("seeds")
  {
    RequestParams(
      query, RequestLimit(options.limit),
      if options.sort.Some? && options.sort.value != "" then options.sort.value else "seeds",
      "desc")
  }

  /** `tr=` parameters for the trackers, each announce URL encoded. */
  function TrackerParams(encode: string -> string): (ps: seq<string>)
    ensures |ps| == |Trackers|
    ensures forall k :: 0 <= k < |ps| ==> ps[k] == "tr=" + encode(Trackers[k])
  {
    seq(|Trackers|, k requires 0 <= k < |Trackers| => "tr=" + encode(Trackers[k]))
  }

  /** `buildMagnetLink`: the info hash as exact topic, the encoded title as display name,
      then the trackers, joined by '&'. */
  function BuildMagnetLink(hash: string, name: string, encode: string -> string): (link: string)
    ensures StartsWith(link, TopicPrefix + hash + "&dn=")
  {
    var head := TopicPrefix + hash + "&dn=";
    var link := head + encode(name) + "&" + Join(TrackerParams(encode), "&");
    assert link == head + (encode(name) + "&" + Join(TrackerParams(encode), "&"));
    StartsWithConcat(head, encode(name) + "&" + Join(TrackerParams(encode), "&"));
    link
  }

  /** The '&'-separated fields of a magnet link built here, as a reader of the link sees
      them. */
  function MagnetFields(hash: string, name: string, encode: string -> string): seq<string> {
    [TopicPrefix + hash, "dn=" + encode(name)] + TrackerParams(encode)
  }

  /** When neither the hash nor any encoded text contains '&' (which
      `encodeURIComponent` always escapes), splitting the link at '&' recovers the
      exact topic, the display name and the five tracker parameters. */
  lemma MagnetLinkFields(hash: string, name: string, encode: string -> string)
    requires '&' !in hash
    requires forall t :: '&' !in encode(t)
    ensures Split(BuildMagnetLink(hash, name, encode), '&') == MagnetFields(hash, name, encode)
  {
    FieldsHaveNoAmpersand(hash, name, encode);
    SplitJoin(MagnetFields(hash, name, encode), '&');
    MagnetLinkIsJoin(hash, name, encode);
  }

  /** The link is its fields joined by '&'. */
  lemma MagnetLinkIsJoin(hash: string, name: string, encode: string -> string)
    ensures BuildMagnetLink(hash, name, encode) == Join(MagnetFields(hash, name, encode), "&")
  {
    var fields := MagnetFields(hash, name, encode);
    var ts := TrackerParams(encode);
    var topic := TopicPrefix + hash;
    var shown := encode(name);
    var tail := Join(ts, "&");
    assert fields == [topic] + ([("dn=" + shown)] + ts);
    JoinCons(topic, [("dn=" + shown)] + ts, "&");
    JoinCons("dn=" + shown, ts, "&");
    assert "&dn=" == "&" + "dn=";
  }

  lemma FieldsHaveNoAmpersand(hash: string, name: string, encode: string -> string)
    requires '&' !in hash
    requires forall t :: '&' !in encode(t)
    ensures forall k :: 0 <= k < |MagnetFields(hash, name, encode)| ==> '&' !in MagnetFields(hash, name, encode)[k]
  {
    var fields := MagnetFields(hash, name, encode);
    var ts := TrackerParams(encode);
    forall k | 0 <= k < |fields| ensures '&' !in fields[k] {
      if k == 0 {
        assert fields[0] == TopicPrefix + hash;
      } else if k == 1 {
        assert fields[1] == "dn=" + encode(name);
      } else {
        assert fields[k] == ts[k - 2] == "tr=" + encode(Trackers[k - 2]);
      }
    }
  }

  /** Joining a head onto at least one more part puts the separator after the head. */
  lemma JoinCons(head: string, rest: seq<string>, sep: string)
    requires |rest| >= 1
    ensures Join([head] + rest, sep) == head + sep + Join(rest, sep)
  {
    assert ([head] + rest)[1..] == rest;
  }

  function MovieTorrents(m: YtsMovie): seq<YtsTorrent> {
    m.torrents.GetOr([])
  }

  /** The result for one torrent of one movie. */
  function ToResult(m: YtsMovie, t: YtsTorrent, now: string, encode: string -> string): SearchResult {
    SearchResult(
      m.title + " (" + DecimalText(m.year) + ") [" + t.quality + "]",
      BuildMagnetLink(t.hash, m.title, encode),
      OrZero(t.sizeBytes), OrZero(t.seeds), OrZero(t.peers),
      "Movies",
      if m.dateUploaded.Some? && m.dateUploaded.value != "" then m.dateUploaded.value else now,
      t.quality, m.rating)
  }

  function MovieResults(m: YtsMovie, now: string, encode: string -> string): (rs: seq<SearchResult>)
    ensures |rs| == |MovieTorrents(m)|
    ensures forall k :: 0 <= k < |rs| ==> rs[k] == ToResult(m, MovieTorrents(m)[k], now, encode)
  {
    var ts := MovieTorrents(m);
    seq(|ts|, k requires 0 <= k < |ts| => ToResult(m, ts[k], now, encode))
  }

  /** One result per torrent, movie after movie and torrent after torrent; every result
      is in the Movies category and carries a magnet link. `now` is the timestamp used
      for a movie without an upload date. */
  function Flatten(movies: seq<YtsMovie>, now: string, encode: string -> string): (rs: seq<SearchResult>)
    ensures forall k :: 0 <= k < |rs| ==> rs[k].category == "Movies" && StartsWith(rs[k].magnetURI, MagnetPrefix)
    decreases |movies|
  {
    if |movies| == 0 then []
    else
      var last := movies[|movies| - 1];
      var rs := Flatten(movies[..|movies| - 1], now, encode) + MovieResults(last, now, encode);
      assert forall k :: 0 <= k < |MovieResults(last, now, encode)| ==>
        StartsWith(MovieResults(last, now, encode)[k].magnetURI, MagnetPrefix) by {
        forall k | 0 <= k < |MovieResults(last, now, encode)|
          ensures StartsWith(MovieResults(last, now, encode)[k].magnetURI, MagnetPrefix)
        {
          var t := MovieTorrents(last)[k];
          var link := BuildMagnetLink(t.hash, last.title, encode);
          assert link[..|MagnetPrefix|] == (TopicPrefix + t.hash + "&dn=")[..|MagnetPrefix|];
        }
      }
      rs
  }

  /** The number of torrents over all movies. */
  function TorrentCount(movies: seq<YtsMovie>): nat
    decreases |movies|
  {
    if |movies| == 0 then 0
    else TorrentCount(movies[..|movies| - 1]) + |MovieTorrents(movies[|movies| - 1])|
  }

  lemma {:induction false} FlattenLength(movies: seq<YtsMovie>, now: string, encode: string -> string)
    ensures |Flatten(movies, now, encode)| == TorrentCount(movies)
    decreases |movies|
  {
    if |movies| > 0 {
      FlattenLength(movies[..|movies| - 1], now, encode);
    }
  }

  /** `r` is the result of some torrent of some movie. */
  predicate FromSomeTorrent(movies: seq<YtsMovie>, now: string, encode: string -> string, r: SearchResult) {
    exists i, k :: 0 <= i < |movies| && 0 <= k < |MovieTorrents(movies[i])| &&
      r == ToResult(movies[i], MovieTorrents(movies[i])[k], now, encode)
  }

  /** A result is in the flattening exactly when it is the result of some torrent of
      some movie. */
  lemma FlattenMembers(movies: seq<YtsMovie>, now: string, encode: string -> string, r: SearchResult)
    ensures r in Flatten(movies, now, encode) <==> FromSomeTorrent(movies, now, encode, r)
  {
    if r in Flatten(movies, now, encode) {
      FlattenSound(movies, now, encode, r);
    }
    if FromSomeTorrent(movies, now, encode, r) {
      FlattenComplete(movies, now, encode, r);
    }
  }

  lemma {:induction false} FlattenSound(movies: seq<YtsMovie>, now: string, encode: string -> string, r: SearchResult)
    requires r in Flatten(movies, now, encode)
    ensures FromSomeTorrent(movies, now, encode, r)
    decreases |movies|
  {
    var init := movies[..|movies| - 1];
    var last := movies[|movies| - 1];
    if r in MovieResults(last, now, encode) {
      var k :| 0 <= k < |MovieResults(last, now, encode)| && MovieResults(last, now, encode)[k] == r;
      assert r == ToResult(movies[|movies| - 1], MovieTorrents(movies[|movies| - 1])[k], now, encode);
    } else {
      assert r in Flatten(init, now, encode);
      FlattenSound(init, now, encode, r);
      var i, k :| 0 <= i < |init| && 0 <= k < |MovieTorrents(init[i])| &&
        r == ToResult(init[i], MovieTorrents(init[i])[k], now, encode);
      assert movies[i] == init[i];
    }
  }

  lemma {:induction false} FlattenComplete(movies: seq<YtsMovie>, now: string, encode: string -> string, r: SearchResult)
    requires FromSomeTorrent(movies, now, encode, r)
    ensures r in Flatten(movies, now, encode)
    decreases |movies|
  {
    var i, k :| 0 <= i < |movies| && 0 <= k < |MovieTorrents(movies[i])| &&
      r == ToResult(movies[i], MovieTorrents(movies[i])[k], now, encode);
    var init := movies[..|movies| - 1];
    var last := movies[|movies| - 1];
    if i == |movies| - 1 {
      assert MovieResults(last, now, encode)[k] == r;
    } else {
      assert init[i] == movies[i];
      FlattenComplete(init, now, encode, r);
    }
  }

  /** The message `searchTorrents` rejects with when the HTTP call fails. */
  function FailureMessage(e: TransportError): (msg: string)
    ensures msg == TimedOutMessage <==> e.code == Some("ECONNABORTED") || e.code == Some("ETIMEDOUT")
    ensures msg != TimedOutMessage ==> msg == FailedPrefix + e.message
  {
    if e.code == Some("ECONNABORTED") || e.code == Some("ETIMEDOUT") then TimedOutMessage
    else
      var msg := FailedPrefix + e.message;
      assert msg[0] == 'F';
      msg
  }

  /** What `searchTorrents` settles to, given the HTTP outcome: results exactly when the
      call succeeded with status "ok" (no movies at all is no results), otherwise an
      error message that is either the time-out message or starts with "Failed to
      search: ". */
  function SearchOutcome(reply: Result<YtsReply, TransportError>, now: string, encode: string -> string)
    : (r: Result<seq<SearchResult>, string>)
    ensures r.Success? <==> reply.Success? && reply.value.status == "ok"
    ensures r.Success? ==> r.value == Flatten(reply.value.movies.GetOr([]), now, encode)
    ensures r.Failure? ==> r.error == TimedOutMessage || StartsWith(r.error, FailedPrefix)
    ensures reply.Success? && reply.value.status != "ok" ==> r == Failure(FailedPrefix + ErrorStatusMessage)
  {
    match reply
    case Failure(e) =>
      StartsWithConcat(FailedPrefix, e.message);
      Failure(FailureMessage(e))
    case Success(body) =>
      if body.status != "ok" then
        var e := TransportError(None, ErrorStatusMessage);
        StartsWithConcat(FailedPrefix, ErrorStatusMessage);
        Failure(FailureMessage(e))
      else Success(Flatten(body.movies.GetOr([]), now, encode))
  }

  /** The nested loops of `searchTorrents` that push one result per torrent. */
  method CollectResults(movies: seq<YtsMovie>, now: string, encode: string -> string)
    returns (results: seq<SearchResult>)
    ensures results == Flatten(movies, now, encode)
  {
    results := [];
    var i := 0;
    while i < |movies|
      invariant 0 <= i <= |movies|
      invariant results == Flatten(movies[..i], now, encode)
    {
      var movie := movies[i];
      if movie.torrents.Some? && |movie.torrents.value| > 0 {
        var ts := movie.torrents.value;
        var j := 0;
        while j < |ts|
          invariant 0 <= j <= |ts|
          invariant results == Flatten(movies[..i], now, encode) + MovieResults(movie, now, encode)[..j]
        {
          results := results + [ToResult(movie, ts[j], now, encode)];
          j := j + 1;
        }
      }
      assert movies[..i + 1][..i] == movies[..i];
      i := i + 1;
    }
    assert movies[..|movies|] == movies;
  }

  class TorrentSearchService {
    /** Clock reading, in milliseconds, when the last request was let through. */
    var lastRequest: int
    const requestDelay: nat

    constructor ()
      ensures lastRequest == 0 && requestDelay == RequestDelay
    {
      lastRequest := 0;
      requestDelay := RequestDelay;
    }

    /** `waitForRateLimit`: the clock reads `now` on entry and `resumedAt` after the
        sleep; the sleep is `WaitTime` and the new request time is `resumedAt`. */
    method WaitForRateLimit(now: int, resumedAt: int) returns (waitTime: int)
      modifies this`lastRequest
      ensures waitTime == WaitTime(old(lastRequest), now, requestDelay)
      ensures lastRequest == resumedAt
    {
      var sinceLast := now - lastRequest;
      waitTime := 0;
      if sinceLast < requestDelay {
        waitTime := requestDelay - sinceLast;
      }
      lastRequest := resumedAt;
    }

    /** `searchTorrents`: wait for the rate limiter, send `RequestFor(query, options)`,
        and settle to `SearchOutcome` of the reply. `isoNow` is the current time as an
        ISO string. */
    method SearchTorrents(
      query: string, options: SearchOptions, now: int, resumedAt: int,
      reply: Result<YtsReply, TransportError>, isoNow: string, encode: string -> string)
      returns (params: RequestParams, waitTime: int, outcome: Result<seq<SearchResult>, string>)
      modifies this`lastRequest
      ensures waitTime == WaitTime(old(lastRequest), now, requestDelay)
      ensures lastRequest == resumedAt
      ensures params == RequestFor(query, options)
      ensures outcome == SearchOutcome(reply, isoNow, encode)
    {
      waitTime := WaitForRateLimit(now, resumedAt);
      params := RequestFor(query, options);
      match reply
      case Failure(e) =>
        outcome := Failure(FailureMessage(e));
      case Success(body) =>
        if body.status != "ok" {
          outcome := Failure(FailureMessage(TransportError(None, ErrorStatusMessage)));
        } else {
          var movies := body.movies.GetOr([]);
          if |movies| == 0 {
            outcome := Success([]);
          } else {
            var results := CollectResults(movies, isoNow, encode);
            outcome := Success(results);
          }
        }
    }
  }
}
