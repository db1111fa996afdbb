/** The search endpoints (server/src/controllers/searchController.js): validation of the
    query string, the options handed to the search service, the response, and the fixed
    category list. The service is a parameter: the function from (query, options) to
    what its promise settles to. */
module SearchApi {
  import opened Wrappers
  import opened Strings
  import opened Http
  import TorrentSearch

  /** `req.query`: each field is absent or a single string. */
  datatype SearchQuery = SearchQuery(q: Option<string>, category: Option<string>, limit: Option<string>, sort: Option<string>)

  datatype SearchBody =
    | Invalid(error: string)
    | Found(query: string, results: seq<TorrentSearch.SearchResult>, count: nat)

  datatype Category = Category(id: string, name: string, value: nat)

  const MaxQueryLength := 200
  const ControllerLimit := 200
  const RequiredMessage := "Search query is required"
  const TooLongMessage := "Search query is too long (max 200 characters)"

  /** The characters `String.prototype.trim` and `parseInt` skip: the ECMAScript white
      space and line terminators. */
  predicate IsJsSpace(c: char) {
    var n := c as int;
    (0x09 <= n <= 0x0D) || n == 0x20 || n == 0xA0 || n == 0x1680 || (0x2000 <= n <= 0x200A)
    || n == 0x2028 || n == 0x2029 || n == 0x202F || n == 0x205F || n == 0x3000 || n == 0xFEFF
  }

  /** `s` without its leading white space. */
  function TrimStart(s: string): (r: string)
    ensures |r| <= |s| && r == s[|s| - |r|..]
    ensures |r| > 0 ==> !IsJsSpace(r[0])
    ensures forall k :: 0 <= k < |s| - |r| ==> IsJsSpace(s[k])
    decreases |s|
  {
    if |s| > 0 && IsJsSpace(s[0]) then TrimStart(s[1..]) else s
  }

  /** `s` without its trailing white space. */
  function TrimEnd(s: string): (r: string)
    ensures |r| <= |s| && r == s[..|r|]
    ensures |r| > 0 ==> !IsJsSpace(r[|r| - 1])
    ensures forall k :: |r| <= k < |s| ==> IsJsSpace(s[k])
    decreases |s|
  {
    if |s| > 0 && IsJsSpace(s[|s| - 1]) then TrimEnd(s[..|s| - 1]) else s
  }

  /** `String.prototype.trim`. */
  function Trim(s: string): string {
    TrimEnd(TrimStart(s))
  }

  /** A string trims to nothing exactly when it is all white space. */
  lemma TrimEmptyIff(s: string)
    ensures |Trim(s)| == 0 <==> forall k :: 0 <= k < |s| ==> IsJsSpace(s[k])
  {
    var t := TrimStart(s);
    if |Trim(s)| == 0 {
      assert |t| == 0;
    } else {
      var k := |s| - |t|;
      assert !IsJsSpace(t[0]) && t[0] == s[k];
    }
  }

  /** The value of a radix-10 or radix-16 digit. */
  function DigitValue(c: char, hex: bool): Option<nat> {
    if '0' <= c <= '9' then Some(c as nat - '0' as nat)
    else if hex && 'a' <= c <= 'f' then Some(c as nat - 'a' as nat + 10)
    else if hex && 'A' <= c <= 'F' then Some(c as nat - 'A' as nat + 10)
    else None
  }

  /** The length of the run of digits at the start of `s`. */
  function DigitRun(s: string, hex: bool): (n: nat)
    ensures n <= |s|
    ensures forall k :: 0 <= k < n ==> DigitValue(s[k], hex).Some?
    ensures n < |s| ==> DigitValue(s[n], hex).None?
    decreases |s|
  {
    if |s| > 0 && DigitValue(s[0], hex).Some? then 1 + DigitRun(s[1..], hex) else 0
  }

  /** The number written by a run of digits, most significant first. */
  function DigitsValue(s: string, hex: bool): nat
    requires forall k :: 0 <= k < |s| ==> DigitValue(s[k], hex).Some?
    decreases |s|
  {
    if |s| == 0 then 0
    else DigitsValue(s[..|s| - 1], hex) * (if hex then 16 else 10) + DigitValue(s[|s| - 1], hex).value
  }

  /** `parseInt(s)` with no radix: leading white space and one sign are skipped, a "0x"
      or "0X" prefix selects hexadecimal, and the longest run of digits that follows is
      read; None stands for NaN, when there is no such digit. */
  function ParseInt(s: string): (r: Option<int>)
    ensures r.None? <==> var u := Unsigned(s); var hex := HasHexPrefix(u);
                        DigitRun(if hex then u[2..] else u, hex) == 0
  {
    var u := Unsigned(s);
    var hex := HasHexPrefix(u);
    var body := if hex then u[2..] else u;
    var n := DigitRun(body, hex);
    if n == 0 then None
    else
      var v: int := DigitsValue(body[..n], hex);
      Some(if IsNegative(s) then -v else v)
  }

  /** What follows the white space and the sign. */
  function Unsigned(s: string): string {
    var t := TrimStart(s);
    if |t| > 0 && (t[0] == '-' || t[0] == '+') then t[1..] else t
  }

  predicate IsNegative(s: string) {
    var t := TrimStart(s);
    |t| > 0 && t[0] == '-'
  }

  predicate HasHexPrefix(u: string) {
    |u| >= 2 && u[0] == '0' && (u[1] == 'x' || u[1] == 'X')
  }

  /** `DecimalText` writes digits that `DigitsValue` reads back. */
  lemma {:induction false} DecimalDigitsValue(n: nat)
    ensures forall k :: 0 <= k < |DecimalText(n)| ==> DigitValue(DecimalText(n)[k], false).Some?
    ensures DigitsValue(DecimalText(n), false) == n
    decreases n
  {
    var t := DecimalText(n);
    if n >= 10 {
      DecimalDigitsValue(n / 10);
      assert t[..|t| - 1] == DecimalText(n / 10);
    }
  }

  /** Reading back a written number: `parseInt(String(n)) == n`. */
  lemma ParseIntDecimal(n: nat)
    ensures ParseInt(DecimalText(n)) == Some(n)
  {
    DecimalDigitsValue(n);
    ParseIntOfDigits(DecimalText(n));
  }

  /** A text of decimal digits reads as the number it writes. */
  lemma ParseIntOfDigits(s: string)
    requires |s| > 0
    requires forall k :: 0 <= k < |s| ==> DigitValue(s[k], false).Some?
    ensures ParseInt(s) == Some(DigitsValue(s, false))
  {
    NothingBeforeDigits(s);
    DigitRunAll(s, false);
    var n := DigitRun(s, false);
    assert s[..n] == s;
    var v := DigitsValue(s[..n], false);
    assert ParseInt(s) == Some(v);
  }

  /** Before a leading digit there is no space or sign to skip and no "0x" prefix. */
  lemma NothingBeforeDigits(s: string)
    requires |s| > 0 && DigitValue(s[0], false).Some?
    requires |s| >= 2 ==> DigitValue(s[1], false).Some?
    ensures Unsigned(s) == s && !IsNegative(s) && !HasHexPrefix(s)
  {
    assert !IsJsSpace(s[0]) && s[0] != '-' && s[0] != '+';
    assert TrimStart(s) == s;
  }

  /** ... and `parseInt("-" + String(n)) == -n`. */
  lemma ParseIntNegative(n: nat)
    ensures ParseInt("-" + DecimalText(n)) == Some(-(n as int))
  {
    var t := DecimalText(n);
    DigitsReadBack(n);
    var m := "-" + t;
    assert !IsJsSpace(m[0]);
    assert TrimStart(m) == m;
    assert m[1..] == t;
  }

  /** The digits of `DecimalText(n)` form one decimal run, with no "0x" before it, whose
      value is n. */
  lemma DigitsReadBack(n: nat)
    ensures !HasHexPrefix(DecimalText(n))
    ensures DigitRun(DecimalText(n), false) == |DecimalText(n)|
    ensures DigitsValue(DecimalText(n)[..|DecimalText(n)|], false) == n
  {
    var t := DecimalText(n);
    DecimalDigitsValue(n);
    DigitRunAll(t, false);
    assert t[..|t|] == t;
  }

  lemma {:induction false} DigitRunAll(s: string, hex: bool)
    requires forall k :: 0 <= k < |s| ==> DigitValue(s[k], hex).Some?
    ensures DigitRun(s, hex) == |s|
    decreases |s|
  {
    if |s| > 0 {
      DigitRunAll(s[1..], hex);
    }
  }

  /** JavaScript's `length` of a string: its count of UTF-16 code units, where a
      character outside the Basic Multilingual Plane takes two. */
  function Utf16Length(s: string): (n: nat)
    ensures |s| <= n <= 2 * |s|
    ensures n == |s| <==> forall k :: 0 <= k < |s| ==> s[k] as int < 0x1_0000
    ensures (forall k :: 0 <= k < |s| ==> s[k] as int >= 0x1_0000) ==> n == 2 * |s|
  {
    if |s| == 0 then 0
    else
      var rest := Utf16Length(s[1..]);
      assert forall k :: 1 <= k < |s| ==> s[k] == s[1..][k - 1];
      (if s[0] as int < 0x1_0000 then 1 else 2) + rest
  }

  /** The error a query string is refused with, if any: absent, empty or white space
      only, or longer than 200 UTF-16 code units. */
  function QueryError(q: Option<string>): (e: Option<string>)
    ensures e == Some(RequiredMessage) <==> q.None? || forall k :: 0 <= k < |q.value| ==> IsJsSpace(q.value[k])
    ensures e == Some(TooLongMessage) <==>
      q.Some? && (exists k :: 0 <= k < |q.value| && !IsJsSpace(q.value[k])) && Utf16Length(q.value) > MaxQueryLength
    ensures e.None? ==> q.Some? && 0 < |q.value| <= Utf16Length(q.value) <= MaxQueryLength
  {
    if q.None? then Some(RequiredMessage)
    else
      TrimEmptyIff(q.value);
      if |q.value| == 0 || |Trim(q.value)| == 0 then Some(RequiredMessage)
      else if Utf16Length(q.value) > MaxQueryLength then Some(TooLongMessage)
      else None
  }

  /** The limit handed to the service: 200 when absent or empty, otherwise the parsed
      number capped at 200 (NaN stays NaN). */
  function ControllerLimitFor(limit: Option<string>): (n: Option<int>)
    ensures limit.None? || limit == Some("") ==> n == Some(ControllerLimit)
    ensures n.Some? ==> n.value <= ControllerLimit
    ensures limit.Some? && limit.value != "" ==> (n.None? <==> ParseInt(limit.value).None?)
    ensures limit.Some? && limit.value != "" && ParseInt(limit.value).Some? ==>
      var v := ParseInt(limit.value).value; n == Some(if v < ControllerLimit then v else ControllerLimit)
  {
    if limit.None? || limit.value == "" then Some(ControllerLimit)
    else match ParseInt(limit.value)
      case None => None
      case Some(v) => Some(if v < ControllerLimit then v else ControllerLimit)
  }

  /** The options object: the category as given, the limit as above, and the sort key,
      "seeders" when absent or empty. */
  function OptionsFor(query: SearchQuery): (o: TorrentSearch.SearchOptions)
    ensures o.category == query.category
    ensures o.limit == ControllerLimitFor(query.limit)
    ensures o.sort.Some?
    ensures query.sort.None? || query.sort == Some("") ==> o.sort == Some("seeders")
    ensures query.sort.Some? && query.sort.value != "" ==> o.sort == query.sort
  {
    TorrentSearch.SearchOptions(
      query.category, ControllerLimitFor(query.limit),
      if query.sort.Some? && query.sort.value != "" then query.sort else Some("seeders"))
  }

  /** `searchTorrents`: a refused query answers 400 without calling the service; an
      accepted one calls it with the query and `OptionsFor`, answers 200 with the results
      and their count, or passes the service's error on. */
  function SearchTorrents(
    query: SearchQuery, search: (string, TorrentSearch.SearchOptions) -> Result<seq<TorrentSearch.SearchResult>, string>)
    : (r: Reply<SearchBody>)
    ensures r.Json? && r.status == 400 <==> QueryError(query.q).Some?
    ensures QueryError(query.q).Some? ==> r == Json(400, false, Invalid(QueryError(query.q).value))
    ensures QueryError(query.q).None? ==>
      match search(query.q.value, OptionsFor(query))
      case Success(rs) => r == Json(200, true, Found(query.q.value, rs, |rs|))
      case Failure(e) => r == ToErrorHandler(e)
  {
    match QueryError(query.q)
    case Some(e) => Json(400, false, Invalid(e))
    case None =>
      match search(query.q.value, OptionsFor(query))
      case Success(rs) => Json(200, true, Found(query.q.value, rs, |rs|))
      case Failure(e) => ToErrorHandler(e)
  }

  /** Through the controller a search without a limit asks the API for 50 results, not
      the service's default of 20, and no request ever asks for more than 50. */
  lemma ControllerSearchLimit(query: SearchQuery)
    ensures query.limit.None? ==> TorrentSearch.RequestFor(query.q.GetOr(""), OptionsFor(query)).limit == TorrentSearch.MaxLimit
    ensures TorrentSearch.RequestFor(query.q.GetOr(""), OptionsFor(query)).limit <= TorrentSearch.MaxLimit
  {
  }

  /** The sort key reaching the API is never the service's default "seeds": without a
      sort parameter the controller sends "seeders". */
  lemma ControllerSortKey(query: SearchQuery)
    requires query.sort.None?
    ensures TorrentSearch.RequestFor(query.q.GetOr(""), OptionsFor(query)).sortBy == "seeders"
  {
  }

  /** `getCategories`: the six fixed categories, with distinct ids and increasing
      values. */
  function Categories(): (cs: seq<Category>)
    ensures |cs| == 6
    ensures cs[0] == Category("movies", "Movies", 14) && cs[1] == Category("tv", "TV Shows", 18)
    ensures cs[2] == Category("music", "Music", 23) && cs[3] == Category("games", "Games", 27)
    ensures cs[4] == Category("software", "Software", 33) && cs[5] == Category("ebook", "eBooks", 35)
    ensures forall i, j :: 0 <= i < j < |cs| ==> cs[i].id != cs[j].id && cs[i].value < cs[j].value
  {
    [ Category("movies", "Movies", 14), Category("tv", "TV Shows", 18),
      Category("music", "Music", 23), Category("games", "Games", 27),
      Category("software", "Software", 33), Category("ebook", "eBooks", 35) ]
  }
}
