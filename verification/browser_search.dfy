/** The browser's direct YTS search (src/services/browserSearchClient.ts): the same
    movie list flattened the same way as on the server, but with its own request
    parameters (no cap on the limit, the limit sent as text) and its own error texts.
    `fetch`, the CORS proxy and the JSON decoding are outside the model: the response
    is a parameter. */
module BrowserSearch {
  import opened Wrappers
  import opened Strings
  import TorrentSearch

  datatype BrowserOptions = BrowserOptions(limit: Option<int>, sort: Option<string>)

  /** The URL query of the request, every value as text. */
  datatype QueryParams = QueryParams(queryTerm: string, limit: string, sortBy: string, orderBy: string)

  /** A response that arrived: whether its HTTP status is 2xx, the status, and the body. */
  datatype HttpResponse = HttpResponse(ok: bool, status: nat, body: TorrentSearch.YtsReply)

  const StatusPrefix := "API returned "

  /** `n.toString()` for an integer. */
  function IntText(n: int): (r: string)
    ensures |r| >= 1
    ensures n >= 0 ==> r == DecimalText(n)
    ensures n < 0 ==> r == "-" + DecimalText(-n)
  {
    if n < 0 then "-" + DecimalText(-n) else DecimalText(n)
  }

  /** The limit asked for: an absent, NaN or zero limit becomes 20; there is no cap. */
  function AskedLimit(options: Option<BrowserOptions>): (n: int)
    ensures options.Some? && options.value.limit.Some? && options.value.limit.value != 0 ==>
      n == options.value.limit.value
    ensures !(options.Some? && options.value.limit.Some? && options.value.limit.value != 0) ==>
      n == TorrentSearch.DefaultLimit
  {
    if options.Some? && options.value.limit.Some? && options.value.limit.value != 0
    then options.value.limit.value else TorrentSearch.DefaultLimit
  }

  function RequestFor(query: string, options: Option<BrowserOptions>): (p: QueryParams)
    ensures p.queryTerm == query && p.orderBy == "desc" && p.limit == IntText(AskedLimit(options))
    ensures p.sortBy == (if options.Some? && options.value.sort.Some? && options.value.sort.value != ""
                         then options.value.sort.value else "seeds")
  {
    QueryParams(
      query, IntText(AskedLimit(options)),
      if options.Some? && options.value.sort.Some? && options.value.sort.value != ""
      then options.value.sort.value else "seeds",
      "desc")
  }

  /** The browser asks for what it is given, where the server caps at 50: the search
      panel's limit of 200 reaches the browser's API request unchanged. */
  lemma BrowserLimitIsUncapped(n: int)
    requires n > TorrentSearch.MaxLimit
    ensures AskedLimit(Some(BrowserOptions(Some(n), None))) == n
    ensures TorrentSearch.RequestFor("", TorrentSearch.SearchOptions(None, Some(n), None)).limit == TorrentSearch.MaxLimit
  {
  }

  /** The browser's own `buildMagnetLink`. */
  function BuildMagnetLink(hash: string, name: string, encode: string -> string): (link: string)
    ensures link == TorrentSearch.BuildMagnetLink(hash, name, encode)
  {
    var trackerParams := seq(|TorrentSearch.Trackers|, k requires 0 <= k < |TorrentSearch.Trackers| =>
      "tr=" + encode(TorrentSearch.Trackers[k]));
    assert trackerParams == TorrentSearch.TrackerParams(encode);
    "magnet:?xt=urn:btih:" + hash + "&dn=" + encode(name) + "&" + Join(trackerParams, "&")
  }

  /** The result the browser pushes for one torrent of one movie. */
  function ToResult(m: TorrentSearch.YtsMovie, t: TorrentSearch.YtsTorrent, now: string, encode: string -> string)
    : (r: TorrentSearch.SearchResult)
    ensures r == TorrentSearch.ToResult(m, t, now, encode)
  {
    TorrentSearch.SearchResult(
      m.title + " (" + DecimalText(m.year) + ") [" + t.quality + "]",
      BuildMagnetLink(t.hash, m.title, encode),
      t.sizeBytes.GetOr(0), t.seeds.GetOr(0), t.peers.GetOr(0),
      "Movies",
      if m.dateUploaded.Some? && m.dateUploaded.value != "" then m.dateUploaded.value else now,
      t.quality, m.rating)
  }

  /** The browser's nested loops, proved to build the server's flattening. */
  method CollectResults(movies: seq<TorrentSearch.YtsMovie>, now: string, encode: string -> string)
    returns (results: seq<TorrentSearch.SearchResult>)
    ensures results == TorrentSearch.Flatten(movies, now, encode)
  {
    results := [];
    var i := 0;
    while i < |movies|
      invariant 0 <= i <= |movies|
      invariant results == TorrentSearch.Flatten(movies[..i], now, encode)
    {
      var movie := movies[i];
      if movie.torrents.Some? && |movie.torrents.value| > 0 {
        var ts := movie.torrents.value;
        var j := 0;
        while j < |ts|
          invariant 0 <= j <= |ts|
          invariant results == TorrentSearch.Flatten(movies[..i], now, encode)
                               + TorrentSearch.MovieResults(movie, now, encode)[..j]
        {
          results := results + [ToResult(movie, ts[j], now, encode)];
          j := j + 1;
        }
      }
      assert movies[..i + 1][..i] == movies[..i];
      i := i + 1;
    }
    assert movies[..|movies|] == movies;
  }

  /** What `searchTorrentsBrowser` settles to: a failed fetch rethrows its message, a
      non-2xx response fails with "API returned <status>", a body whose status is not
      "ok" fails with "API returned error status", and otherwise the flattened results. */
  function SearchOutcome(response: Result<HttpResponse, string>, now: string, encode: string -> string)
    : (r: Result<seq<TorrentSearch.SearchResult>, string>)
    ensures r.Success? <==> response.Success? && response.value.ok && response.value.body.status == "ok"
    ensures r.Success? ==> r.value == TorrentSearch.Flatten(response.value.body.movies.GetOr([]), now, encode)
    ensures response.Failure? ==> r == Failure(response.error)
    ensures response.Success? && !response.value.ok ==> r == Failure(StatusPrefix + DecimalText(response.value.status))
    ensures response.Success? && response.value.ok && response.value.body.status != "ok" ==>
      r == Failure(TorrentSearch.ErrorStatusMessage)
  {
    match response
    case Failure(message) => Failure(message)
    case Success(resp) =>
      if !resp.ok then Failure(StatusPrefix + DecimalText(resp.status))
      else if resp.body.status != "ok" then Failure(TorrentSearch.ErrorStatusMessage)
      else Success(TorrentSearch.Flatten(resp.body.movies.GetOr([]), now, encode))
  }

  /** `searchTorrentsBrowser`: the request it sends and what it settles to. */
  method SearchTorrentsBrowser(
    query: string, options: Option<BrowserOptions>, response: Result<HttpResponse, string>,
    now: string, encode: string -> string)
    returns (params: QueryParams, outcome: Result<seq<TorrentSearch.SearchResult>, string>)
    ensures params == RequestFor(query, options)
    ensures outcome == SearchOutcome(response, now, encode)
  {
    params := RequestFor(query, options);
    match response
    case Failure(message) =>
      outcome := Failure(message);
    case Success(resp) =>
      if !resp.ok {
        outcome := Failure(StatusPrefix + DecimalText(resp.status));
      } else if resp.body.status != "ok" {
        outcome := Failure(TorrentSearch.ErrorStatusMessage);
      } else {
        var movies := resp.body.movies.GetOr([]);
        if |movies| == 0 {
          outcome := Success([]);
        } else {
          var results := CollectResults(movies, now, encode);
          outcome := Success(results);
        }
      }
  }

  /** For the same API body, the browser and the server find the same results, and
      either both succeed or both fail; only their error texts differ. */
  lemma BrowserAgreesWithServer(body: TorrentSearch.YtsReply, status: nat, now: string, encode: string -> string)
    ensures var b := SearchOutcome(Success(HttpResponse(true, status, body)), now, encode);
            var s := TorrentSearch.SearchOutcome(Success(body), now, encode);
            b.Success? == s.Success? && (b.Success? ==> b.value == s.value)
  {
  }
}
