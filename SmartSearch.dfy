/** The smart web search: the query built from the user's words (intent,
    language and timeframe filters), the cached Google Custom Search call,
    and the scoring and ordering of the pages it finds. */
module SmartSearch {
  import opened Wrappers
  import opened Text

  // ---------------------------------------------------------------------------
  // Intent
  // ---------------------------------------------------------------------------

  datatype Intent = Documentation | Example | Tutorial | Solution | General

  predicate AsksForDocumentation(q: string) {
    Includes(q, "documentation") || Includes(q, "docs") || Includes(q, "api")
  }

  predicate AsksForExample(q: string) {
    Includes(q, "example") || Includes(q, "sample") || Includes(q, "how to")
  }

  predicate AsksForTutorial(q: string) {
    Includes(q, "tutorial") || Includes(q, "guide") || Includes(q, "learn")
  }

  predicate AsksForSolution(q: string) {
    Includes(q, "error") || Includes(q, "fix") || Includes(q, "solve")
  }

  /** `detectSearchIntent`: case-sensitive keyword tests, documentation
      first, then example, tutorial and solution. */
  function DetectSearchIntent(q: string): (intent: Intent)
    ensures intent == Documentation <==> AsksForDocumentation(q)
    ensures intent == Example <==> !AsksForDocumentation(q) && AsksForExample(q)
    ensures intent == Tutorial <==> !AsksForDocumentation(q) && !AsksForExample(q) && AsksForTutorial(q)
    ensures intent == Solution <==>
      !AsksForDocumentation(q) && !AsksForExample(q) && !AsksForTutorial(q) && AsksForSolution(q)
  {
    if AsksForDocumentation(q) then Documentation
    else if AsksForExample(q) then Example
    else if AsksForTutorial(q) then Tutorial
    else if AsksForSolution(q) then Solution
    else General
  }

  /** A keyword anywhere in the query wins over every later rule: a query
      that asks for documentation and also mentions an error is a
      documentation search. */
  lemma IntentPriority(q: string, w: string)
    requires w in ["documentation", "docs", "api"]
    requires Includes(q, w)
    ensures DetectSearchIntent(q) == Documentation
    ensures DetectSearchIntent(q + " error") == Documentation
  {
    IncludesOccurs(q, w);
    var i :| OccursAt(q, w, i);
    var q' := q + " error";
    assert q'[i..i + |w|] == q[i..i + |w|];
    assert OccursAt(q', w, i);
    IncludesOccurs(q', w);
  }

  // ---------------------------------------------------------------------------
  // Filters
  // ---------------------------------------------------------------------------

  /** The alternatives of the language pattern, in order. */
  const Languages: seq<string> := ["javascript", "typescript", "python", "java", "c++", "ruby", "go", "rust"]

  /** A character of `\w`. */
  predicate IsWordChar(c: char) {
    ('a' <= c <= 'z') || ('A' <= c <= 'Z') || ('0' <= c <= '9') || c == '_'
  }

  /** `\b` at index `j`: a word character on exactly one side. */
  predicate WordBoundary(s: string, j: int)
    requires 0 <= j <= |s|
  {
    (j > 0 && IsWordChar(s[j - 1])) != (j < |s| && IsWordChar(s[j]))
  }

  /** No word character follows index `j`. */
  predicate TokenEnd(s: string, j: int)
    requires 0 <= j <= |s|
  {
    j == |s| || !IsWordChar(s[j])
  }

  /** The end of a language name as evidently intended: a `\b`, as written,
      or a token end, which `\b` misses after the `+` of `c++`. For a name
      ending in a word character it is the same as `\b`. */
  predicate LanguageEnd(s: string, j: int)
    requires 0 <= j <= |s|
  {
    WordBoundary(s, j) || TokenEnd(s, j)
  }

  /** `lang` matches case-insensitively at `i`, after a `\b`, and ends at a
      `\b` (`asWritten`) or at a `LanguageEnd`. */
  predicate LanguageAt(s: string, i: int, lang: string, asWritten: bool) {
    LanguageStart(s, i, lang) && EndsAt(s, i + |lang|, asWritten)
  }

  /** `lang` occurs case-insensitively at `i`, after a `\b`. */
  predicate LanguageStart(s: string, i: int, lang: string)
    ensures LanguageStart(s, i, lang) ==> 0 <= i && i + |lang| <= |s|
  {
    && 0 <= i && i + |lang| <= |s|
    && WordBoundary(s, i)
    && ToLower(s[i..i + |lang|]) == lang
  }

  /** The end of a match: `\b` as written, `LanguageEnd` corrected. */
  predicate EndsAt(s: string, j: int, asWritten: bool)
    requires 0 <= j <= |s|
  {
    if asWritten then WordBoundary(s, j) else LanguageEnd(s, j)
  }

  /** The first alternative, from index `k` on, that matches at `i`. */
  function LanguageAtFrom(s: string, i: int, k: nat, asWritten: bool): (r: Option<string>)
    requires k <= |Languages|
    ensures r.Some? ==> r.value in Languages && LanguageAt(s, i, r.value, asWritten)
    ensures r.Some? ==>
      exists m :: k <= m < |Languages| && Languages[m] == r.value &&
        forall m' :: k <= m' < m ==> !LanguageAt(s, i, Languages[m'], asWritten)
    ensures r.None? ==> forall j :: k <= j < |Languages| ==> !LanguageAt(s, i, Languages[j], asWritten)
    decreases |Languages| - k
  {
    if k == |Languages| then None
    else if LanguageAt(s, i, Languages[k], asWritten) then Some(Languages[k])
    else LanguageAtFrom(s, i, k + 1, asWritten)
  }

  /** No alternative of the pattern matches at `j`. */
  predicate NoLanguageAt(s: string, j: int, asWritten: bool) {
    forall k :: 0 <= k < |Languages| ==> !LanguageAt(s, j, Languages[k], asWritten)
  }

  /** The leftmost match of the language pattern at or after `i`. */
  function FindLanguage(s: string, i: nat, asWritten: bool): (r: Option<string>)
    requires i <= |s| + 1
    ensures r.Some? ==> r.value in Languages && exists j :: i <= j && LanguageAt(s, j, r.value, asWritten)
    ensures r.Some? ==>
      exists j :: i <= j <= |s| && LanguageAtFrom(s, j, 0, asWritten) == r &&
        forall j' :: i <= j' < j ==> NoLanguageAt(s, j', asWritten)
    ensures r.None? ==> forall j :: i <= j ==> NoLanguageAt(s, j, asWritten)
    decreases |s| + 1 - i
  {
    if i == |s| + 1 then None
    else
      var here := LanguageAtFrom(s, i, 0, asWritten);
      if here.Some? then here
      else FindLanguage(s, i + 1, asWritten)
  }

  /** `query.match(/\b(javascript|…|c\+\+|…)\b/i)` as written, lower-cased. */
  function LanguageAsWritten(q: string): Option<string> {
    FindLanguage(q, 0, true)
  }

  /** The language filter, with `c++` ending where the token ends. */
  function Language(q: string): Option<string> {
    FindLanguage(q, 0, false)
  }

  /** As written, `c++` followed by a space or the end of the query is never
      found, since `\b` after `+` needs a word character next; the corrected
      pattern finds it. */
  lemma CppMissedAsWritten(q: string, i: int)
    requires 0 <= i && i + 3 <= |q| && q[i..i + 3] == "c++"
    requires i == 0 || !IsWordChar(q[i - 1])
    requires i + 3 == |q| || !IsWordChar(q[i + 3])
    ensures !LanguageAt(q, i, "c++", true)
    ensures LanguageAt(q, i, "c++", false)
  {
    assert q[i] == 'c' && q[i + 2] == '+';
    assert ToLower(q[i..i + 3]) == "c++";
  }

  /** The query `c++` sets no language filter as written, and `c++` with
      the corrected pattern. */
  lemma CppQuery()
    ensures LanguageAsWritten("c++") == None
    ensures Language("c++") == Some("c++")
  {
    CppQueryAsWritten();
    CppQueryCorrected();
  }

  lemma CppQueryAsWritten()
    ensures LanguageAsWritten("c++") == None
  {
    forall j, k | 0 <= k < |Languages|
      ensures !LanguageAt("c++", j, Languages[k], true)
    {
      CppNoMatchAsWritten(j, k);
    }
  }

  lemma CppNoMatchAsWritten(j: int, k: int)
    requires 0 <= k < |Languages|
    ensures !LanguageAt("c++", j, Languages[k], true)
  {
    var q := "c++";
    if 0 <= j && j + |Languages[k]| <= |q| {
      // only `c++` and `go` are short enough
      assert k == 4 || k == 6;
      if k == 4 {
        assert !WordBoundary(q, 3);
      } else {
        assert ToLower(q[j..j + 2])[0] == LowerChar(q[j]) != 'g';
      }
    }
  }

  lemma CppQueryCorrected()
    ensures Language("c++") == Some("c++")
  {
    var q := "c++";
    assert ToLower(q[0..3]) == "c++";
    assert Languages[4] == "c++";
    assert LanguageAt(q, 0, "c++", false);
    assert LanguageAtFrom(q, 0, 4, false) == Some("c++");
    assert |Languages[0]| > 3 && |Languages[1]| > 3 && |Languages[2]| > 3 && |Languages[3]| > 3;
    assert LanguageAtFrom(q, 0, 0, false) == Some("c++");
  }

  /** For every other language the two patterns agree. */
  lemma WordLanguagesAgree(q: string, i: int, lang: string)
    requires lang in Languages && lang != "c++"
    ensures LanguageAt(q, i, lang, true) <==> LanguageAt(q, i, lang, false)
  {
    LastCharIsWordChar(lang);
    EndingInWordCharAgree(q, i, lang);
  }

  /** The two patterns agree on every name that ends in a word character. */
  lemma EndingInWordCharAgree(q: string, i: int, lang: string)
    requires |lang| > 0 && IsWordChar(lang[|lang| - 1])
    ensures LanguageAt(q, i, lang, true) <==> LanguageAt(q, i, lang, false)
  {
    if LanguageStart(q, i, lang) {
      MatchEndsInWordChar(q, i, lang);
      BoundaryAfterWordChar(q, i + |lang|);
    }
  }

  lemma MatchEndsInWordChar(q: string, i: int, lang: string)
    requires |lang| > 0 && IsWordChar(lang[|lang| - 1])
    requires 0 <= i && i + |lang| <= |q| && ToLower(q[i..i + |lang|]) == lang
    ensures IsWordChar(q[i + |lang| - 1])
  {
    var t := q[i..i + |lang|];
    LowerKeepsLastWordChar(t, lang);
    assert t[|lang| - 1] == q[i + |lang| - 1];
  }

  lemma LastCharIsWordChar(lang: string)
    requires lang in Languages && lang != "c++"
    ensures |lang| > 0 && IsWordChar(lang[|lang| - 1])
  {
  }

  lemma LowerKeepsLastWordChar(t: string, lang: string)
    requires ToLower(t) == lang && |lang| > 0 && IsWordChar(lang[|lang| - 1])
    ensures IsWordChar(t[|t| - 1])
  {
    assert LowerChar(t[|t| - 1]) == lang[|lang| - 1];
  }

  /** After a word character, `\b` is exactly a token end, and so exactly
      the corrected end. */
  lemma BoundaryAfterWordChar(s: string, j: int)
    requires 0 < j <= |s| && IsWordChar(s[j - 1])
    ensures WordBoundary(s, j) == TokenEnd(s, j) == LanguageEnd(s, j)
    ensures EndsAt(s, j, true) == EndsAt(s, j, false)
  {
  }

  /** Every match of the pattern as written is a match of the corrected one. */
  lemma AsWrittenMatchIsMatch(s: string, i: int, lang: string)
    requires LanguageAt(s, i, lang, true)
    ensures LanguageAt(s, i, lang, false)
  {
  }

  /** The correction only adds matches: a query that sets a language filter
      as written still sets one. */
  lemma AsWrittenFoundIsFound(q: string)
    requires LanguageAsWritten(q).Some?
    ensures Language(q).Some?
  {
    var lang := LanguageAsWritten(q).value;
    var j :| 0 <= j && LanguageAt(q, j, lang, true);
    AsWrittenMatchIsMatch(q, j, lang);
    var k :| 0 <= k < |Languages| && Languages[k] == lang;
    assert !NoLanguageAt(q, j, false);
  }

  /** Where `\b` does hold after `c++`, as in `c++17`, both patterns find it. */
  lemma CppVersionQuery()
    ensures LanguageAsWritten("c++17") == Some("c++")
    ensures Language("c++17") == Some("c++")
  {
    CppVersionAt(true);
    CppVersionAt(false);
  }

  lemma CppVersionAt(asWritten: bool)
    ensures FindLanguage("c++17", 0, asWritten) == Some("c++")
  {
    var q := "c++17";
    CppVersionMatches(asWritten);
    assert LanguageAtFrom(q, 0, 4, asWritten) == Some("c++");
    CppVersionNotEarlier(3, asWritten);
    assert LanguageAtFrom(q, 0, 3, asWritten) == Some("c++");
    CppVersionNotEarlier(2, asWritten);
    assert LanguageAtFrom(q, 0, 2, asWritten) == Some("c++");
    CppVersionNotEarlier(1, asWritten);
    assert LanguageAtFrom(q, 0, 1, asWritten) == Some("c++");
    CppVersionNotEarlier(0, asWritten);
    assert LanguageAtFrom(q, 0, 0, asWritten) == Some("c++");
  }

  lemma CppVersionMatches(asWritten: bool)
    ensures LanguageAt("c++17", 0, Languages[4], asWritten)
  {
    var q := "c++17";
    assert Languages[4] == "c++" && q[0..3] == "c++";
    assert WordBoundary(q, 0) && WordBoundary(q, 3);
  }

  lemma CppVersionNotEarlier(k: nat, asWritten: bool)
    requires k < 4
    ensures !LanguageAt("c++17", 0, Languages[k], asWritten)
  {
    var q := "c++17";
    if k == 3 {
      assert ToLower(q[0..4])[0] == 'c';
    }
  }

  /** The search filters; `domain` is never set. */
  datatype SearchFilters = SearchFilters(language: Option<string>, timeframe: Option<string>)

  /** The timeframe phrases, the longest period first. */
  function Timeframe(q: string): (t: Option<string>)
    ensures t == Some("y1") <==> Includes(q, "last year")
    ensures t == Some("m1") <==> !Includes(q, "last year") && Includes(q, "last month")
    ensures t == Some("w1") <==> !Includes(q, "last year") && !Includes(q, "last month") && Includes(q, "last week")
    ensures t.None? <==> !Includes(q, "last year") && !Includes(q, "last month") && !Includes(q, "last week")
  {
    if Includes(q, "last year") then Some("y1")
    else if Includes(q, "last month") then Some("m1")
    else if Includes(q, "last week") then Some("w1")
    else None
  }

  /** `extractSearchFilters`. */
  function ExtractSearchFilters(q: string): (f: SearchFilters)
    ensures f.language == Language(q) && f.timeframe == Timeframe(q)
    ensures f.language.Some? ==> f.language.value in Languages
    ensures f.timeframe.Some? ==> f.timeframe.value in ["y1", "m1", "w1"]
  {
    SearchFilters(Language(q), Timeframe(q))
  }

  // ---------------------------------------------------------------------------
  // Query
  // ---------------------------------------------------------------------------

  datatype SmartSearchQuery = SmartSearchQuery(query: string, context: string, intent: Intent, filters: SearchFilters)

  const QuerySuffix: string := " programming code example documentation"

  /** `generateSmartQuery`: the user's words with a fixed suffix, the context
      or `''`, and intent and filters read from the user's words alone. */
  function GenerateSmartQuery(userInput: string, context: Option<string>): (q: SmartSearchQuery)
    ensures |q.query| == |userInput| + |QuerySuffix|
    ensures q.query[..|userInput|] == userInput && q.query[|userInput|..] == QuerySuffix
    ensures context.None? ==> q.context == ""
    ensures context.Some? ==> q.context == context.value
    ensures q.intent == DetectSearchIntent(userInput) && q.filters == ExtractSearchFilters(userInput)
  {
    SmartSearchQuery(userInput + QuerySuffix, context.GetOr(""), DetectSearchIntent(userInput), ExtractSearchFilters(userInput))
  }

  /** The context does not change the query, the intent or the filters. */
  lemma ContextOnlySetsContext(userInput: string, c1: Option<string>, c2: Option<string>)
    ensures GenerateSmartQuery(userInput, c1).(context := "") == GenerateSmartQuery(userInput, c2).(context := "")
  {
  }

  // ---------------------------------------------------------------------------
  // Google Custom Search
  // ---------------------------------------------------------------------------

  const ResultsPerPage: int := 10
  const MaxResults: int := 20

  datatype SearchResult = SearchResult(title: string, link: string, snippet: string)

  /** The body of a response; `items` may be absent. */
  datatype ResponseBody = ResponseBody(errorMessage: Option<string>, items: Option<seq<SearchResult>>)

  /** What `fetch` produced: a network failure, or a response whose body is
      `None` when it is not JSON. */
  datatype FetchOutcome =
    | NetworkError(message: string)
    | Response(ok: bool, statusText: string, body: Option<ResponseBody>)

  /** The index of the first result of a page, counting from 1. */
  function StartIndex(page: int): int {
    (page - 1) * ResultsPerPage + 1
  }

  /** Consecutive pages ask for consecutive runs of ten results. */
  lemma PagesTile(page: int)
    ensures StartIndex(1) == 1
    ensures StartIndex(page + 1) == StartIndex(page) + ResultsPerPage
  {
  }

  function CacheKey(query: string, page: int): string {
    query + "_" + IntToString(page)
  }

  /** The query parameters of the request, in order; the language and
      timeframe are added only when present and not empty. */
  function RequestParams(apiKey: string, engineId: string, q: SmartSearchQuery, page: int): (params: seq<(string, string)>)
    ensures |params| >= 5
    ensures params[..5] == [("key", apiKey), ("cx", engineId), ("q", q.query),
                            ("start", IntToString(StartIndex(page))), ("num", IntToString(ResultsPerPage))]
    ensures var language, timeframe := q.filters.language.GetOr(""), q.filters.timeframe.GetOr("");
      && |params| == 5 + (if |language| > 0 then 1 else 0) + (if |timeframe| > 0 then 1 else 0)
      && (|language| > 0 ==> params[5] == ("lr", "lang_" + language))
      && (|timeframe| > 0 ==> params[|params| - 1] == ("dateRestrict", timeframe))
  {
    var language := q.filters.language.GetOr("");
    var timeframe := q.filters.timeframe.GetOr("");
    [("key", apiKey), ("cx", engineId), ("q", q.query),
     ("start", IntToString(StartIndex(page))), ("num", IntToString(ResultsPerPage))]
    + (if |language| > 0 then [("lr", "lang_" + language)] else [])
    + (if |timeframe| > 0 then [("dateRestrict", timeframe)] else [])
  }

  /** The results or the error of one fetch. */
  function Interpret(outcome: FetchOutcome): (r: Result<seq<SearchResult>, string>)
    ensures r.Ok? <==> outcome.Response? && outcome.ok && outcome.body.Some?
    ensures r.Ok? ==> r.value == outcome.body.value.items.GetOr([])
  {
    match outcome
    case NetworkError(message) => Err(message)
    case Response(ok, statusText, body) =>
      if body.None? then Err("invalid json")
      else if !ok then
        var m := body.value.errorMessage.GetOr("");
        Err("Google search failed: " + (if |m| > 0 then m else statusText))
      else Ok(body.value.items.GetOr([]))
  }

  class SmartSearchService {
    const apiKey: string
    const searchEngineId: string
    var resultsCache: map<string, seq<SearchResult>>

    constructor(apiKey: string, searchEngineId: string)
      ensures this.apiKey == apiKey && this.searchEngineId == searchEngineId && resultsCache == map[]
    {
      this.apiKey := apiKey;
      this.searchEngineId := searchEngineId;
      resultsCache := map[];
    }

    /** `searchGoogle`: a cached page is returned without fetching (an empty
        list too); otherwise the page is fetched and, only on success,
        cached under `query_page`. */
    method SearchGoogle(q: SmartSearchQuery, page: int, fetch: seq<(string, string)> -> FetchOutcome)
      returns (r: Result<seq<SearchResult>, string>)
      modifies this
      ensures r == PageResults(old(resultsCache), apiKey, searchEngineId, q, page, fetch)
      ensures resultsCache == CacheAfter(old(resultsCache), apiKey, searchEngineId, q, page, fetch)
    {
      var cacheKey := CacheKey(q.query, page);
      if cacheKey in resultsCache {
        return Ok(resultsCache[cacheKey]);
      }
      var response := fetch(RequestParams(apiKey, searchEngineId, q, page));
      r := Interpret(response);
      if r.Ok? {
        resultsCache := resultsCache[cacheKey := r.value];
      }
    }
  }

  /** The results of `searchGoogle` for a page, given the cache it starts
      from and what a fetch of each request returns. */
  function PageResults(cache: map<string, seq<SearchResult>>, apiKey: string, engineId: string,
                       q: SmartSearchQuery, page: int, fetch: seq<(string, string)> -> FetchOutcome)
    : (r: Result<seq<SearchResult>, string>)
    ensures CacheKey(q.query, page) in cache ==> r == Ok(cache[CacheKey(q.query, page)])
    ensures CacheKey(q.query, page) !in cache ==> r == Interpret(fetch(RequestParams(apiKey, engineId, q, page)))
  {
    var key := CacheKey(q.query, page);
    if key in cache then Ok(cache[key]) else Interpret(fetch(RequestParams(apiKey, engineId, q, page)))
  }

  /** The cache after `searchGoogle` for a page: the fetched results are
      added under the page's key only when the page was not cached and the
      fetch succeeded. Entries are never replaced or removed, and the key is
      present afterwards exactly when the call succeeded. */
  function CacheAfter(cache: map<string, seq<SearchResult>>, apiKey: string, engineId: string,
                      q: SmartSearchQuery, page: int, fetch: seq<(string, string)> -> FetchOutcome)
    : (c: map<string, seq<SearchResult>>)
    ensures forall k :: k in cache ==> k in c && c[k] == cache[k]
    ensures forall k :: k in c ==> k in cache || k == CacheKey(q.query, page)
    ensures var r := PageResults(cache, apiKey, engineId, q, page, fetch);
      (CacheKey(q.query, page) in c <==> r.Ok?) && (r.Ok? ==> c[CacheKey(q.query, page)] == r.value)
  {
    var key := CacheKey(q.query, page);
    var r := PageResults(cache, apiKey, engineId, q, page, fetch);
    if key !in cache && r.Ok? then cache[key := r.value] else cache
  }

  /** Pages 1 and 2 of a query are cached under different keys. */
  lemma CacheKeysOfPagesDiffer(query: string)
    ensures CacheKey(query, 1) != CacheKey(query, 2)
  {
    assert IntToString(1) == "1" && IntToString(2) == "2";
    assert CacheKey(query, 1)[|query| + 1] == '1';
    assert CacheKey(query, 2)[|query| + 1] == '2';
  }

  /** Once a page is cached, asking again returns the same results without a
      fetch, whatever the fetch would now return. */
  lemma CachedPageStable(cache: map<string, seq<SearchResult>>, apiKey: string, engineId: string,
                         q: SmartSearchQuery, page: int, fetch: seq<(string, string)> -> FetchOutcome,
                         fetch': seq<(string, string)> -> FetchOutcome)
    requires PageResults(cache, apiKey, engineId, q, page, fetch).Ok?
    ensures var cache' := CacheAfter(cache, apiKey, engineId, q, page, fetch);
      PageResults(cache', apiKey, engineId, q, page, fetch') == PageResults(cache, apiKey, engineId, q, page, fetch)
  {
  }

  // ---------------------------------------------------------------------------
  // Content scoring and ordering
  // ---------------------------------------------------------------------------

  /** What the page script returns: the text of the main element and the
      text of each `pre`/`code` element. */
  datatype PageContent = PageContent(text: string, code: seq<string>)

  datatype ContentType = TextType | CodeType | MixedType

  datatype ExtractedResult = ExtractedResult(title: string, content: string, kind: ContentType, relevance: int, source: string)

  predicate MentionsDocumentation(title: string) {
    var t := ToLower(title);
    Includes(t, "documentation") || Includes(t, "guide") || Includes(t, "reference")
  }

  /** `calculateRelevance`: two points per code block, three for a text
      longer than 1000 characters, two for a title that looks like
      documentation. */
  function CalculateRelevance(text: string, code: seq<string>, title: string): (score: int)
    ensures 2 * |code| <= score <= 2 * |code| + 5
    ensures score - 2 * |code| == (if |text| > 1000 then 3 else 0) + (if MentionsDocumentation(title) then 2 else 0)
  {
    var score := |code| * 2;
    var score := if |text| > 1000 then score + 3 else score;
    if MentionsDocumentation(title) then score + 2 else score
  }

  /** One more code block adds two points. */
  lemma RelevanceCodeBlock(text: string, code: seq<string>, block: string, title: string)
    ensures CalculateRelevance(text, code + [block], title) == CalculateRelevance(text, code, title) + 2
  {
  }

  /** The text kept from a page: its first 5000 characters. */
  function Clip(text: string): (r: string)
    ensures |r| <= 5000 && |r| <= |text| && r == text[..|r|]
    ensures |text| <= 5000 ==> r == text
  {
    if |text| > 5000 then text[..5000] else text
  }

  function TypeOf(text: string, code: seq<string>): (t: ContentType)
    ensures t == MixedType <==> |code| > 0 && |text| > 0
    ensures t == CodeType <==> |code| > 0 && |text| == 0
    ensures t == TextType <==> |code| == 0
  {
    if |code| > 0 then (if |text| > 0 then MixedType else CodeType) else TextType
  }

  /** The entry for one page whose content could be read. */
  function Extract(result: SearchResult, page: PageContent): (e: ExtractedResult)
    ensures e.title == result.title && e.source == result.link
    ensures e.kind == CodeType ==> e.content == Join(page.code, "\n\n")
    ensures e.kind != CodeType ==> e.content == Clip(page.text)
  {
    var text := Clip(page.text);
    var kind := TypeOf(text, page.code);
    ExtractedResult(result.title, if kind == CodeType then Join(page.code, "\n\n") else text, kind,
                    CalculateRelevance(text, page.code, result.title), result.link)
  }

  /** The indices of the pages that could be read, in increasing order. */
  function Loaded<T>(pages: seq<Option<T>>): (ks: seq<nat>)
    ensures forall m :: 0 <= m < |ks| ==> ks[m] < |pages| && pages[ks[m]].Some?
    ensures forall k :: 0 <= k < |pages| && pages[k].Some? ==> k in ks
    ensures forall m, m' :: 0 <= m < m' < |ks| ==> ks[m] < ks[m']
  {
    if |pages| == 0 then []
    else
      var n := |pages| - 1;
      Loaded(pages[..n]) + (if pages[n].Some? then [n] else [])
  }

  /** The entries before sorting: one per page that could be read, in the
      order of the results; pages that failed to load are skipped. */
  function ExtractAll(results: seq<SearchResult>, pages: seq<Option<PageContent>>): (es: seq<ExtractedResult>)
    requires |pages| == |results|
    ensures |es| == |Loaded(pages)| <= |results|
    ensures forall m :: 0 <= m < |es| ==>
      es[m] == Extract(results[Loaded(pages)[m]], pages[Loaded(pages)[m]].value)
  {
    if |results| == 0 then []
    else
      var n := |results| - 1;
      ExtractAll(results[..n], pages[..n]) + (if pages[n].Some? then [Extract(results[n], pages[n].value)] else [])
  }

  lemma ExtractAllStep(results: seq<SearchResult>, pages: seq<Option<PageContent>>, i: int)
    requires |pages| == |results| && 0 <= i < |results|
    ensures ExtractAll(results[..i + 1], pages[..i + 1]) ==
      ExtractAll(results[..i], pages[..i]) + (if pages[i].Some? then [Extract(results[i], pages[i].value)] else [])
  {
    assert results[..i + 1][..i] == results[..i] && pages[..i + 1][..i] == pages[..i];
  }

  /** Puts `x` before the first entry it is at least as relevant as. */
  function Insert(x: ExtractedResult, s: seq<ExtractedResult>): (r: seq<ExtractedResult>)
    ensures |r| == |s| + 1
    ensures multiset(r) == multiset(s) + multiset{x}
  {
    if |s| == 0 || x.relevance >= s[0].relevance then [x] + s
    else
      assert s == [s[0]] + s[1..];
      [s[0]] + Insert(x, s[1..])
  }

  /** `sort((a, b) => b.relevance - a.relevance)`: a stable sort by
      relevance, most relevant first. */
  function SortByRelevance(xs: seq<ExtractedResult>): (r: seq<ExtractedResult>)
    ensures multiset(r) == multiset(xs)
  {
    if |xs| == 0 then []
    else
      assert xs == [xs[0]] + xs[1..];
      Insert(xs[0], SortByRelevance(xs[1..]))
  }

  predicate SortedByRelevance(s: seq<ExtractedResult>) {
    forall i, j :: 0 <= i < j < |s| ==> s[i].relevance >= s[j].relevance
  }

  lemma {:induction false} InsertSorted(x: ExtractedResult, s: seq<ExtractedResult>)
    requires SortedByRelevance(s)
    ensures SortedByRelevance(Insert(x, s))
    decreases |s|
  {
    if |s| == 0 || x.relevance >= s[0].relevance {
      ConsSorted(x, s);
    } else {
      var t := s[1..];
      SortedTail(s);
      InsertSorted(x, t);
      InsertBelow(x, t, s[0].relevance);
      assert Insert(x, s) == [s[0]] + Insert(x, t);
      ConsSorted(s[0], Insert(x, t));
    }
  }

  /** Inserting below a bound keeps every entry below it. */
  lemma {:induction false} InsertBelow(x: ExtractedResult, s: seq<ExtractedResult>, bound: int)
    requires x.relevance <= bound
    requires forall k :: 0 <= k < |s| ==> s[k].relevance <= bound
    ensures forall k :: 0 <= k < |Insert(x, s)| ==> Insert(x, s)[k].relevance <= bound
    decreases |s|
  {
    if |s| > 0 && x.relevance < s[0].relevance {
      InsertBelow(x, s[1..], bound);
    }
  }

  lemma ConsSorted(h: ExtractedResult, t: seq<ExtractedResult>)
    requires SortedByRelevance(t)
    requires forall k :: 0 <= k < |t| ==> t[k].relevance <= h.relevance
    ensures SortedByRelevance([h] + t)
  {
    var r := [h] + t;
    forall i, j | 0 <= i < j < |r|
      ensures r[i].relevance >= r[j].relevance
    {
      assert r[j] == t[j - 1];
      if i > 0 {
        assert r[i] == t[i - 1];
      }
    }
  }

  /** The entries come out most relevant first. */
  lemma {:induction false} SortSorted(xs: seq<ExtractedResult>)
    ensures SortedByRelevance(SortByRelevance(xs))
    decreases |xs|
  {
    if |xs| > 0 {
      SortSorted(xs[1..]);
      InsertSorted(xs[0], SortByRelevance(xs[1..]));
    }
  }

  /** The entries with relevance `v`, in order. */
  function WithRelevance(s: seq<ExtractedResult>, v: int): (r: seq<ExtractedResult>)
    ensures |r| <= |s|
  {
    if |s| == 0 then []
    else (if s[0].relevance == v then [s[0]] else []) + WithRelevance(s[1..], v)
  }

  lemma {:induction false} InsertStable(x: ExtractedResult, s: seq<ExtractedResult>, v: int)
    requires SortedByRelevance(s)
    ensures WithRelevance(Insert(x, s), v) == (if x.relevance == v then [x] else []) + WithRelevance(s, v)
    decreases |s|
  {
    if |s| == 0 || x.relevance >= s[0].relevance {
      WithRelevanceCons(x, s, v);
    } else {
      var t := s[1..];
      SortedTail(s);
      InsertStable(x, t, v);
      assert Insert(x, s) == [s[0]] + Insert(x, t);
      WithRelevanceCons(s[0], Insert(x, t), v);
      assert s == [s[0]] + t;
      WithRelevanceCons(s[0], t, v);
      SwapPastEmpty(if s[0].relevance == v then [s[0]] else [], if x.relevance == v then [x] else [], WithRelevance(t, v));
    }
  }

  lemma SwapPastEmpty<T>(a: seq<T>, b: seq<T>, c: seq<T>)
    requires a == [] || b == []
    ensures a + (b + c) == b + (a + c)
  {
  }

  lemma WithRelevanceCons(h: ExtractedResult, t: seq<ExtractedResult>, v: int)
    ensures WithRelevance([h] + t, v) == (if h.relevance == v then [h] else []) + WithRelevance(t, v)
  {
    assert ([h] + t)[0] == h && ([h] + t)[1..] == t;
  }

  lemma SortedTail(s: seq<ExtractedResult>)
    requires |s| > 0 && SortedByRelevance(s)
    ensures SortedByRelevance(s[1..])
  {
    var t := s[1..];
    forall i, j | 0 <= i < j < |t|
      ensures t[i].relevance >= t[j].relevance
    {
      assert t[i] == s[i + 1] && t[j] == s[j + 1];
    }
  }

  /** Entries of equal relevance keep their order: the sort is stable. */
  lemma {:induction false} SortStable(xs: seq<ExtractedResult>, v: int)
    ensures WithRelevance(SortByRelevance(xs), v) == WithRelevance(xs, v)
    decreases |xs|
  {
    if |xs| > 0 {
      SortStable(xs[1..], v);
      SortSorted(xs[1..]);
      InsertStable(xs[0], SortByRelevance(xs[1..]), v);
    }
  }

  /** `extractContent`: one entry per page that could be read, in result
      order, then sorted by relevance. */
  method ExtractContent(results: seq<SearchResult>, pages: seq<Option<PageContent>>)
    returns (extracted: seq<ExtractedResult>)
    requires |pages| == |results|
    ensures extracted == SortByRelevance(ExtractAll(results, pages))
  {
    var extractedResults: seq<ExtractedResult> := [];
    for i := 0 to |results|
      invariant extractedResults == ExtractAll(results[..i], pages[..i])
    {
      if pages[i].Some? {
        var content := pages[i].value;
        var text := Clip(content.text);
        var kind := if |content.code| > 0 then (if |text| > 0 then MixedType else CodeType) else TextType;
        var relevance := CalculateRelevance(text, content.code, results[i].title);
        var body := if kind == CodeType then Join(content.code, "\n\n") else text;
        var entry := ExtractedResult(results[i].title, body, kind, relevance, results[i].link);
        assert entry == Extract(results[i], content);
        extractedResults := extractedResults + [entry];
      }
      ExtractAllStep(results, pages, i);
    }
    assert results[..|results|] == results && pages[..|pages|] == pages;
    extracted := SortByRelevance(extractedResults);
  }
}
