/**
 * ID discovery (scripts/monster-all/counter.ts): follow a paginated list endpoint
 * and collect the numeric ID at the end of every result URL.
 */
module IdDiscovery {
  import opened Wrappers
  import opened Json
  import opened Io
  import Strings

  const FirstPageQuery := "?limit=50"
  const PokemonIdsPath := "data/meta/pokemon_ids.json"
  const SpeciesIdsPath := "data/meta/species_ids.json"

  // ---------------------------------------------------------------------------
  // URL -> ID  (`url.match(/\/(\d+)\/?$/)` then `Number(match[1])`)
  // ---------------------------------------------------------------------------

  /** Number of decimal digits at the end of `s`. */
  function TrailingDigitCount(s: string): (k: nat)
    ensures k <= |s|
    ensures Strings.AllDigits(s[|s| - k..])
    ensures k < |s| ==> !Strings.IsDigit(s[|s| - k - 1])
  {
    if |s| > 0 && Strings.IsDigit(s[|s| - 1]) then
      var rest := TrailingDigitCount(s[..|s| - 1]);
      assert forall i | |s| - 1 - rest <= i < |s| - 1 :: s[i] == s[..|s| - 1][|s| - 1 - rest..][i - (|s| - 1 - rest)];
      rest + 1
    else 0
  }

  /** `url` with one final `/` removed, if it has one. */
  function DropFinalSlash(url: string): string {
    if |url| > 0 && url[|url| - 1] == '/' then url[..|url| - 1] else url
  }

  /**
   * The ID a result URL names: the run of digits right after the last `/`-delimited
   * segment start, optionally followed by one final `/`. `None` is the
   * "Invalid URL format" throw.
   */
  function UrlId(url: string): Option<nat> {
    var t := DropFinalSlash(url);
    var k := TrailingDigitCount(t);
    if 0 < k < |t| && t[|t| - k - 1] == '/' then Some(Strings.DigitsValue(t[|t| - k..]))
    else None
  }

  /** Every URL of the shape `…/<digits>` or `…/<digits>/` yields those digits' value. */
  lemma UrlIdOfShape(prefix: string, digits: string, finalSlash: bool)
    requires |digits| > 0 && Strings.AllDigits(digits)
    ensures UrlId(prefix + "/" + digits + (if finalSlash then "/" else "")) == Some(Strings.DigitsValue(digits))
  {
    var t := prefix + "/" + digits;
    var url := t + (if finalSlash then "/" else "");
    assert DropFinalSlash(url) == t;
    TrailingRunOfShape(prefix + "/", digits);
  }

  lemma {:induction false} TrailingRunOfShape(head: string, digits: string)
    requires |head| > 0 && head[|head| - 1] == '/'
    requires Strings.AllDigits(digits)
    ensures TrailingDigitCount(head + digits) == |digits|
    decreases |digits|
  {
    var s := head + digits;
    if |digits| == 0 {
      assert s == head;
    } else {
      assert s[..|s| - 1] == head + digits[..|digits| - 1];
      TrailingRunOfShape(head, digits[..|digits| - 1]);
    }
  }

  /** The `/25/` example: a PokeAPI resource URL yields its numeric ID. */
  lemma UrlIdOfResourceUrl(base: string, n: nat)
    ensures UrlId(base + "/" + Strings.NatToString(n) + "/") == Some(n)
  {
    UrlIdOfShape(base, Strings.NatToString(n), true);
    Strings.NatToStringRoundTrip(n);
  }

  /** The pieces of an accepted URL: what precedes the last `/`, the digits, the final `/`. */
  datatype UrlParts = UrlParts(prefix: string, digits: string, finalSlash: bool)

  function SplitUrl(url: string): UrlParts
    requires UrlId(url).Some?
  {
    var t := DropFinalSlash(url);
    var k := TrailingDigitCount(t);
    var cut := if k < |t| then |t| - k - 1 else 0;
    UrlParts(t[..cut], t[|t| - k..], |url| > 0 && url[|url| - 1] == '/')
  }

  /** Conversely, an accepted URL has exactly that shape. */
  lemma UrlIdSound(url: string)
    requires UrlId(url).Some?
    ensures var p := SplitUrl(url);
      && |p.digits| > 0 && Strings.AllDigits(p.digits) && Strings.DigitsValue(p.digits) == UrlId(url).value
      && url == p.prefix + "/" + p.digits + (if p.finalSlash then "/" else "")
  {
    var t := DropFinalSlash(url);
    var p := SplitUrl(url);
    assert t == p.prefix + "/" + p.digits;
  }

  /** URLs without a trailing number are rejected. */
  lemma UrlIdRejectsNonNumeric()
    ensures UrlId("/a/") == None
    ensures UrlId("25") == None
    ensures UrlId("/25//") == None
  {
    assert DropFinalSlash("/a/") == "/a";
    assert !Strings.IsDigit('a');
    assert DropFinalSlash("25") == "25";
    assert DropFinalSlash("/25//") == "/25/";
    assert !Strings.IsDigit('/');
  }

  // ---------------------------------------------------------------------------
  // One page
  // ---------------------------------------------------------------------------

  /** `({ url }) => …` applied to one element of `results`. */
  function ResultId(entry: Json): Result<nat> {
    match Member(entry, "url")
    case Some(JStr(url)) =>
      (match UrlId(url)
       case Some(id) => Ok(id)
       case None => Err("Invalid URL format: " + url))
    case _ => Err("TypeError: url.match is not a function")
  }

  /** The IDs of one page and its `next` cursor. */
  datatype Page = Page(ids: seq<nat>, next: Value)

  /**
   * One loop iteration after `fetch`: a non-ok status or an unparsable body throws,
   * `data.results.map(…)` throws unless `results` is an array of well-formed URLs.
   */
  function PageOf(resp: FetchResult): (r: Result<Page>)
    ensures r.Ok? ==> resp.Response? && resp.ok && resp.body.Some?
    ensures r.Ok? ==> match Member(resp.body.value, "results")
      case Some(JArr(items)) =>
        |r.value.ids| == |items| && forall i | 0 <= i < |items| :: ResultId(items[i]) == Ok(r.value.ids[i])
      case _ => false
  {
    match resp
    case NetworkError => Err("TypeError: fetch failed")
    case Response(ok, status, body) =>
      if !ok then Err("Fetch failed: " + Strings.IntToString(status))
      else if body.None? then Err("SyntaxError: invalid JSON")
      else
        var results :- Get(body, Field("results"));
        match results
        case Some(JArr(items)) =>
          var ids :- MapResult(items, ResultId);
          Ok(Page(ids, Member(body.value, "next")))
        case _ => Err("TypeError: data.results.map is not a function")
  }

  // ---------------------------------------------------------------------------
  // The pagination loop
  // ---------------------------------------------------------------------------

  /** What a successful run requested, in order, and the IDs it collected. */
  datatype Discovery = Discovery(requests: seq<Json>, ids: seq<nat>)

  /** Each response as the loop body reads it: a page, or the reason it throws. */
  function Pages(responses: seq<FetchResult>): (pages: seq<Result<Page>>)
    ensures |pages| == |responses|
    ensures forall i | 0 <= i < |responses| :: pages[i] == PageOf(responses[i])
  {
    seq(|responses|, i requires 0 <= i < |responses| => PageOf(responses[i]))
  }

  /** IDs of a parsed page, or none when it is not well formed. */
  function PageIds(page: Result<Page>): seq<nat> {
    if page.Ok? then page.value.ids else []
  }

  /** The `next` cursor of a parsed page, `undefined` when it is not well formed. */
  function PageNext(page: Result<Page>): Value {
    if page.Ok? then page.value.next else None
  }

  /** IDs of a page, or none when the page is not well formed. */
  function IdsOf(resp: FetchResult): seq<nat> {
    PageIds(PageOf(resp))
  }

  /** The `next` cursor of a page, `undefined` when the page is not well formed. */
  function NextOf(resp: FetchResult): Value {
    PageNext(PageOf(resp))
  }

  /** The concatenation of the pages' ID lists, in page order; its length is the result count. */
  function ConcatIds(pages: seq<FetchResult>): (ids: seq<nat>)
    ensures |ids| == ResultCount(pages)
    ensures forall x :: x in ids <==> exists k | 0 <= k < |pages| :: x in IdsOf(pages[k])
  {
    if |pages| == 0 then []
    else
      var rest := ConcatIds(pages[1..]);
      assert forall x :: x in IdsOf(pages[0]) + rest <==> exists k | 0 <= k < |pages| :: x in IdsOf(pages[k]) by {
        forall x ensures x in IdsOf(pages[0]) + rest <==> exists k | 0 <= k < |pages| :: x in IdsOf(pages[k]) {
          if x in rest {
            var k :| 0 <= k < |pages[1..]| && x in IdsOf(pages[1..][k]);
            assert pages[1..][k] == pages[k + 1];
          }
          if exists k | 0 <= k < |pages| :: x in IdsOf(pages[k]) {
            var k :| 0 <= k < |pages| && x in IdsOf(pages[k]);
            if k > 0 {
              assert pages[1..][k - 1] == pages[k];
            }
          }
        }
      }
      IdsOf(pages[0]) + rest
  }

  /** The total number of results over the pages. */
  function ResultCount(pages: seq<FetchResult>): nat {
    if |pages| == 0 then 0 else |IdsOf(pages[0])| + ResultCount(pages[1..])
  }

  /** `ConcatIds` over parsed pages. */
  function ConcatPageIds(pages: seq<Result<Page>>): seq<nat> {
    if |pages| == 0 then [] else PageIds(pages[0]) + ConcatPageIds(pages[1..])
  }

  /**
   * `while (nextUrl) { … }` from cursor `nextUrl` over the parsed responses; the
   * i-th request from here is answered by `pages[i]`. When they run out while a
   * cursor is still truthy, the fetch rejects.
   */
  function Walk(nextUrl: Value, pages: seq<Result<Page>>): (r: Result<Discovery>)
    ensures r.Ok? ==> |r.value.requests| <= |pages|
    ensures r.Ok? ==> (|r.value.requests| == 0 <==> !Truthy(nextUrl))
    ensures r.Ok? && Truthy(nextUrl) ==> r.value.requests[0] == nextUrl.value
    decreases |pages|
  {
    if !Truthy(nextUrl) then Ok(Discovery([], []))
    else if |pages| == 0 then Err("TypeError: fetch failed")
    else
      var page :- pages[0];
      var rest :- Walk(page.next, pages[1..]);
      Ok(Discovery([nextUrl.value] + rest.requests, page.ids + rest.ids))
  }

  /** The loop over the raw responses: each is parsed when its turn comes. */
  function Paginate(nextUrl: Value, responses: seq<FetchResult>): (r: Result<Discovery>)
    ensures r.Ok? ==> |r.value.requests| <= |responses|
    ensures r.Ok? ==> (|r.value.requests| == 0 <==> !Truthy(nextUrl))
    ensures r.Ok? && Truthy(nextUrl) ==> r.value.requests[0] == nextUrl.value
  {
    Walk(nextUrl, Pages(responses))
  }

  /** One round of the loop: a truthy cursor met a well-formed page, and the rest ran from its `next`. */
  lemma WalkStep(nextUrl: Value, pages: seq<Result<Page>>)
    requires Walk(nextUrl, pages).Ok? && Truthy(nextUrl)
    ensures |pages| > 0 && pages[0].Ok?
    ensures Walk(pages[0].value.next, pages[1..]).Ok?
    ensures var rest := Walk(pages[0].value.next, pages[1..]).value;
      Walk(nextUrl, pages).value == Discovery([nextUrl.value] + rest.requests, pages[0].value.ids + rest.ids)
  {
  }

  lemma {:induction false} WalkPagesWellFormed(nextUrl: Value, pages: seq<Result<Page>>)
    requires Walk(nextUrl, pages).Ok?
    ensures forall i | 0 <= i < |Walk(nextUrl, pages).value.requests| :: pages[i].Ok?
    decreases |pages|
  {
    if Truthy(nextUrl) {
      WalkStep(nextUrl, pages);
      var tail := pages[1..];
      var next := pages[0].value.next;
      WalkPagesWellFormed(next, tail);
      var n := |Walk(next, tail).value.requests|;
      forall i | 1 <= i < n + 1
        ensures pages[i].Ok?
      {
        assert pages[i] == tail[i - 1];
      }
    }
  }

  lemma {:induction false} WalkCursorsChain(nextUrl: Value, pages: seq<Result<Page>>)
    requires Walk(nextUrl, pages).Ok?
    ensures var d := Walk(nextUrl, pages).value;
      forall i | 0 <= i < |d.requests| - 1 ::
        Truthy(PageNext(pages[i])) && d.requests[i + 1] == PageNext(pages[i]).value
    decreases |pages|
  {
    if Truthy(nextUrl) {
      WalkStep(nextUrl, pages);
      var d := Walk(nextUrl, pages).value;
      var tail := pages[1..];
      var next := pages[0].value.next;
      WalkCursorsChain(next, tail);
      var rest := Walk(next, tail).value;
      forall i | 1 <= i < |rest.requests|
        ensures Truthy(PageNext(pages[i])) && d.requests[i + 1] == PageNext(pages[i]).value
      {
        assert pages[i] == tail[i - 1];
        assert d.requests[i + 1] == rest.requests[i];
      }
    }
  }

  lemma {:induction false} WalkLastCursorFalsy(nextUrl: Value, pages: seq<Result<Page>>)
    requires Walk(nextUrl, pages).Ok?
    ensures var n := |Walk(nextUrl, pages).value.requests|;
      n > 0 ==> !Truthy(PageNext(pages[n - 1]))
    decreases |pages|
  {
    if Truthy(nextUrl) {
      WalkStep(nextUrl, pages);
      var tail := pages[1..];
      var next := pages[0].value.next;
      WalkLastCursorFalsy(next, tail);
      var n := |Walk(next, tail).value.requests|;
      if n > 0 {
        assert pages[n] == tail[n - 1];
      }
    }
  }

  lemma {:induction false} WalkIds(nextUrl: Value, pages: seq<Result<Page>>)
    requires Walk(nextUrl, pages).Ok?
    ensures var d := Walk(nextUrl, pages).value;
      d.ids == ConcatPageIds(pages[..|d.requests|])
    decreases |pages|
  {
    if Truthy(nextUrl) {
      WalkStep(nextUrl, pages);
      var tail := pages[1..];
      var next := pages[0].value.next;
      WalkIds(next, tail);
      var n := |Walk(next, tail).value.requests|;
      assert pages[..n + 1][1..] == tail[..n];
      assert ConcatPageIds(pages[..n + 1]) == PageIds(pages[0]) + ConcatPageIds(tail[..n]);
    }
  }

  /** Concatenating the raw pages' IDs is concatenating the parsed pages' IDs. */
  lemma {:induction false} ConcatIdsOfPages(responses: seq<FetchResult>)
    ensures ConcatIds(responses) == ConcatPageIds(Pages(responses))
    decreases |responses|
  {
    if |responses| > 0 {
      ConcatIdsOfPages(responses[1..]);
      assert Pages(responses)[1..] == Pages(responses[1..]);
    }
  }

  /**
   * A successful run fetched pages `0..n-1`, each well formed; each request after
   * the first is the previous page's `next`; the loop stopped exactly at the first
   * page whose `next` is falsy; and the IDs are the pages' lists concatenated.
   */
  lemma PaginateTrace(nextUrl: Value, responses: seq<FetchResult>)
    requires Paginate(nextUrl, responses).Ok?
    ensures var d := Paginate(nextUrl, responses).value;
      && (forall i | 0 <= i < |d.requests| :: PageOf(responses[i]).Ok?)
      && (forall i | 0 <= i < |d.requests| - 1 ::
            Truthy(NextOf(responses[i])) && d.requests[i + 1] == NextOf(responses[i]).value)
      && (|d.requests| > 0 ==> !Truthy(NextOf(responses[|d.requests| - 1])))
      && d.ids == ConcatIds(responses[..|d.requests|])
  {
    var pages := Pages(responses);
    var n := |Walk(nextUrl, pages).value.requests|;
    WalkPagesWellFormed(nextUrl, pages);
    WalkCursorsChain(nextUrl, pages);
    WalkLastCursorFalsy(nextUrl, pages);
    WalkIds(nextUrl, pages);
    ConcatIdsOfPages(responses[..n]);
    assert Pages(responses[..n]) == pages[..n];
  }

  /** `fetchAllItemIds(endpoint)`: the first request is `endpoint + '?limit=50'`. */
  function FetchAllItemIds(endpoint: string, responses: seq<FetchResult>): (r: Result<Discovery>)
    ensures r.Ok? ==> 1 <= |r.value.requests| <= |responses|
    ensures r.Ok? ==> r.value.requests[0] == JStr(endpoint + FirstPageQuery)
    ensures r.Ok? ==> |r.value.ids| == ResultCount(responses[..|r.value.requests|])
  {
    var r := Paginate(Some(JStr(endpoint + FirstPageQuery)), responses);
    if r.Ok? then PaginateTrace(Some(JStr(endpoint + FirstPageQuery)), responses); r else r
  }

  lemma {:induction false} WalkAborts(nextUrl: Value, pages: seq<Result<Page>>, bad: nat)
    requires Truthy(nextUrl)
    requires bad < |pages|
    requires forall j | 0 <= j < bad :: pages[j].Ok? && Truthy(PageNext(pages[j]))
    requires pages[bad].Err?
    ensures Walk(nextUrl, pages).Err?
    decreases bad
  {
    if bad > 0 {
      var tail := pages[1..];
      assert forall j | 0 <= j < bad - 1 :: tail[j] == pages[j + 1];
      WalkAborts(PageNext(pages[0]), tail, bad - 1);
    }
  }

  /**
   * A page that is reached and is not well formed (non-ok status, bad body, a
   * result URL without a trailing number) fails the whole discovery.
   */
  lemma MalformedPageAborts(nextUrl: Value, responses: seq<FetchResult>, bad: nat)
    requires Truthy(nextUrl)
    requires bad < |responses|
    requires forall j | 0 <= j < bad :: PageOf(responses[j]).Ok? && Truthy(NextOf(responses[j]))
    requires PageOf(responses[bad]).Err?
    ensures Paginate(nextUrl, responses).Err?
  {
    WalkAborts(nextUrl, Pages(responses), bad);
  }

  // ---------------------------------------------------------------------------
  // The script body
  // ---------------------------------------------------------------------------

  function IdsJson(ids: seq<nat>): (j: Json)
    ensures j.JArr? && |j.items| == |ids|
    ensures forall i | 0 <= i < |ids| :: j.items[i] == JNum(ids[i])
  {
    JArr(seq(|ids|, i requires 0 <= i < |ids| => JNum(ids[i])))
  }

  /** Files written and the process exit code (`0` when the script ends normally). */
  datatype CounterRun = CounterRun(writes: seq<Write>, exitCode: int)

  /**
   * The script: discover pokemon IDs and save them, then discover species IDs and
   * save them; any throw ends the process with exit code 1. `pokemonDiskOk` is false
   * when creating `data/meta` or writing `pokemon_ids.json` throws (either way nothing
   * is written and the script stops), `speciesDiskOk` when writing `species_ids.json` does.
   */
  function RunCounter(pokemonEndpoint: string, speciesEndpoint: string,
                      pokemonResponses: seq<FetchResult>, speciesResponses: seq<FetchResult>,
                      pokemonDiskOk: bool, speciesDiskOk: bool): (r: CounterRun)
    ensures r.exitCode == 0 || r.exitCode == 1
    ensures r.exitCode == 0 <==>
      && FetchAllItemIds(pokemonEndpoint, pokemonResponses).Ok? && pokemonDiskOk
      && FetchAllItemIds(speciesEndpoint, speciesResponses).Ok? && speciesDiskOk
    ensures |r.writes| <= 2
    ensures |r.writes| >= 1 <==> FetchAllItemIds(pokemonEndpoint, pokemonResponses).Ok? && pokemonDiskOk
    ensures |r.writes| >= 1 ==>
      r.writes[0] == Write(PokemonIdsPath, IdsJson(FetchAllItemIds(pokemonEndpoint, pokemonResponses).value.ids))
    ensures |r.writes| == 2 <==> r.exitCode == 0
    ensures |r.writes| == 2 ==>
      r.writes[1] == Write(SpeciesIdsPath, IdsJson(FetchAllItemIds(speciesEndpoint, speciesResponses).value.ids))
  {
    match FetchAllItemIds(pokemonEndpoint, pokemonResponses)
    case Err(_) => CounterRun([], 1)
    case Ok(pokemon) =>
      if !pokemonDiskOk then CounterRun([], 1)
      else
        var first := Write(PokemonIdsPath, IdsJson(pokemon.ids));
        match FetchAllItemIds(speciesEndpoint, speciesResponses)
        case Err(_) => CounterRun([first], 1)
        case Ok(species) =>
          if !speciesDiskOk then CounterRun([first], 1)
          else CounterRun([first, Write(SpeciesIdsPath, IdsJson(species.ids))], 0)
  }
}
