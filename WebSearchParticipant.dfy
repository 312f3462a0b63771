/** The `@web` chat participant: it reads the command from the request,
    clones a website or runs a smart search over two result pages, and
    renders what it found as response fragments. */
module WebSearchParticipant {
  import opened Wrappers
  import opened Text
  import opened SmartSearch

  /** What a request asks for. */
  datatype Route = CloneRoute(url: string) | SearchRoute(query: string)

  /** `request.trim().split(/\s+/)`: the command and its arguments. */
  function Command(request: string): string {
    Words(request)[0]
  }

  function Args(request: string): seq<string> {
    Words(request)[1..]
  }

  /** The dispatch of `provideReply`: `/clone` clones all of the arguments,
      `@web clone` the arguments after `clone`, and everything else searches
      for the arguments, so the first word is always dropped. */
  function RouteOf(request: string): (r: Route)
    ensures Command(request) == "/clone" ==> r == CloneRoute(Join(Args(request), " "))
    ensures Command(request) == "@web" && |Args(request)| > 0 && Args(request)[0] == "clone" ==>
      r == CloneRoute(Join(Args(request)[1..], " "))
    ensures r.SearchRoute? <==>
      Command(request) != "/clone" && !(Command(request) == "@web" && |Args(request)| > 0 && Args(request)[0] == "clone")
    ensures r.SearchRoute? ==> r.query == Join(Args(request), " ")
  {
    var command, args := Command(request), Args(request);
    if command == "/clone" || (command == "@web" && |args| > 0 && args[0] == "clone") then
      CloneRoute(Join(args[if command == "@web" then 1 else 0..], " "))
    else SearchRoute(Join(args, " "))
  }

  /** The query, split again, gives back the arguments: it is the words
      after the first, joined by single spaces. */
  lemma SearchQueryWords(request: string)
    requires |Args(request)| > 0
    ensures Words(Join(Args(request), " ")) == Args(request)
  {
    var ws := Words(request);
    assert !IsBlank(request);
    forall w | w in Args(request)
      ensures |w| > 0 && NoSpace(w)
    {
      assert w in ws;
    }
    WordsOfJoin(Args(request));
  }

  /** A one-word request searches for nothing. */
  lemma OneWordSearchesNothing(request: string)
    requires |Words(request)| == 1 && Command(request) != "/clone"
    ensures RouteOf(request) == SearchRoute("")
  {
  }

  // ---------------------------------------------------------------------------
  // Smart search
  // ---------------------------------------------------------------------------

  /** Page 1 then page 2, at most twenty results. */
  function CombineResults(page1: seq<SearchResult>, page2: seq<SearchResult>): (all: seq<SearchResult>)
    ensures |all| == if |page1| + |page2| <= MaxResults then |page1| + |page2| else MaxResults
    ensures all == (page1 + page2)[..|all|]
  {
    var all := page1 + page2;
    if |all| > MaxResults then all[..MaxResults] else all
  }

  /** Two pages holding at most twenty results together are kept whole,
      page 1 first; two full pages of ten are such a pair. */
  lemma CombineFullPages(page1: seq<SearchResult>, page2: seq<SearchResult>)
    requires |page1| + |page2| <= MaxResults
    ensures CombineResults(page1, page2) == page1 + page2
  {
  }

  /** The page content read for each result, by its link. */
  function PagesOf(results: seq<SearchResult>, load: string -> Option<PageContent>): (pages: seq<Option<PageContent>>)
    ensures |pages| == |results|
  {
    seq(|results|, i requires 0 <= i < |results| => load(results[i].link))
  }

  datatype Fragment =
    | TextFragment(value: string)
    | CodeFragment(language: string, value: string)
    | ImageFragment(value: string, altText: string)

  function IntentName(intent: Intent): string {
    match intent
    case Documentation => "documentation"
    case Example => "example"
    case Tutorial => "tutorial"
    case Solution => "solution"
    case General => "general"
  }

  function Header(count: nat, intent: Intent): string {
    "Found " + NatToString(count) + " relevant results for your " + IntentName(intent) + " query:\n\n"
  }

  /** The heading of the result at `index`, numbered from 1. */
  function Heading(index: nat, result: ExtractedResult): string {
    "## " + NatToString(index + 1) + ". " + result.title + "\nSource: " + result.source + "\n"
  }

  predicate UsesJavaScriptWords(code: string) {
    Includes(code, "function") || Includes(code, "const") || Includes(code, "let")
  }

  predicate UsesTypeScriptWords(code: string) {
    Includes(code, "interface") || Includes(code, "type ") || Includes(code, "<T>")
  }

  predicate UsesJavaWords(code: string) {
    Includes(code, "class") || Includes(code, "public") || Includes(code, "private")
  }

  predicate UsesPythonWords(code: string) {
    Includes(code, "def ") || Includes(code, "import ") || Includes(code, "print(")
  }

  /** `detectLanguage`: keyword tests, javascript first, then typescript,
      java and python; `plaintext` when none applies. */
  function DetectLanguage(code: string): (language: string)
    ensures language == "javascript" <==> UsesJavaScriptWords(code)
    ensures language == "typescript" <==> !UsesJavaScriptWords(code) && UsesTypeScriptWords(code)
    ensures language == "java" <==> !UsesJavaScriptWords(code) && !UsesTypeScriptWords(code) && UsesJavaWords(code)
    ensures language == "python" <==>
      !UsesJavaScriptWords(code) && !UsesTypeScriptWords(code) && !UsesJavaWords(code) && UsesPythonWords(code)
    ensures language in ["javascript", "typescript", "java", "python", "plaintext"]
  {
    if UsesJavaScriptWords(code) then "javascript"
    else if UsesTypeScriptWords(code) then "typescript"
    else if UsesJavaWords(code) then "java"
    else if UsesPythonWords(code) then "python"
    else "plaintext"
  }

  /** The blocks that are not blank, in order. */
  function NonBlank(blocks: seq<string>): (nb: seq<string>)
    ensures |nb| <= |blocks|
    ensures forall b :: b in nb ==> b in blocks && !IsBlank(b)
    ensures forall b :: b in blocks && !IsBlank(b) ==> b in nb
  {
    if |blocks| == 0 then []
    else
      var n := |blocks| - 1;
      assert blocks == blocks[..n] + [blocks[n]];
      NonBlank(blocks[..n]) + (if IsBlank(blocks[n]) then [] else [blocks[n]])
  }

  /** Filtering keeps the order of the blocks: it distributes over
      concatenation. */
  lemma {:induction false} NonBlankAppend(a: seq<string>, b: seq<string>)
    ensures NonBlank(a + b) == NonBlank(a) + NonBlank(b)
    decreases |b|
  {
    if |b| == 0 {
      assert a + b == a;
    } else {
      var n := |b| - 1;
      var x := b[n];
      NonBlankAppend(a, b[..n]);
      AppendSnoc(a, b);
      NonBlankSnoc(a + b[..n], x);
      NonBlankSnoc(b[..n], x);
      Regroup(NonBlank(a + b), NonBlank(a + b[..n]), NonBlank(a), NonBlank(b[..n]), NonBlank(b),
              if IsBlank(x) then [] else [x]);
    }
  }

  lemma Regroup<T>(whole: seq<T>, init: seq<T>, left: seq<T>, mid: seq<T>, right: seq<T>, last: seq<T>)
    requires whole == init + last && init == left + mid && right == mid + last
    ensures whole == left + right
  {
  }

  lemma AppendSnoc<T>(a: seq<T>, b: seq<T>)
    requires |b| > 0
    ensures b == b[..|b| - 1] + [b[|b| - 1]]
    ensures a + b == (a + b[..|b| - 1]) + [b[|b| - 1]]
  {
  }

  lemma NonBlankSnoc(xs: seq<string>, x: string)
    ensures NonBlank(xs + [x]) == NonBlank(xs) + (if IsBlank(x) then [] else [x])
  {
    assert (xs + [x])[..|xs|] == xs;
  }

  /** One code fragment per block that is not blank, in order: the m-th
      fragment holds the m-th non-blank block, tagged with its detected
      language; so every non-blank block has its fragment and every
      fragment comes from a non-blank block. */
  function CodeFragments(blocks: seq<string>): (fs: seq<Fragment>)
    ensures |fs| == |NonBlank(blocks)|
    ensures forall m :: 0 <= m < |fs| ==>
      fs[m] == CodeFragment(DetectLanguage(NonBlank(blocks)[m]), NonBlank(blocks)[m])
    ensures forall f :: f in fs ==>
      (f.CodeFragment? && !IsBlank(f.value) && f.value in blocks && f.language == DetectLanguage(f.value))
    ensures forall b :: b in blocks && !IsBlank(b) ==> CodeFragment(DetectLanguage(b), b) in fs
  {
    if |blocks| == 0 then []
    else
      var n := |blocks| - 1;
      var fs := CodeFragments(blocks[..n]);
      var r := fs + (if IsBlank(blocks[n]) then [] else [CodeFragment(DetectLanguage(blocks[n]), blocks[n])]);
      CodeFragmentsComplete(blocks, r);
      r
  }

  lemma CodeFragmentsSnoc(blocks: seq<string>, j: int)
    requires 0 <= j < |blocks|
    ensures CodeFragments(blocks[..j + 1]) == CodeFragments(blocks[..j]) +
      (if IsBlank(blocks[j]) then [] else [CodeFragment(DetectLanguage(blocks[j]), blocks[j])])
  {
    assert blocks[..j + 1][..j] == blocks[..j];
  }

  /** Each non-blank block has its fragment, given the fragments by index. */
  lemma CodeFragmentsComplete(blocks: seq<string>, fs: seq<Fragment>)
    requires |fs| == |NonBlank(blocks)|
    requires forall m :: 0 <= m < |fs| ==>
      fs[m] == CodeFragment(DetectLanguage(NonBlank(blocks)[m]), NonBlank(blocks)[m])
    ensures forall f :: f in fs ==>
      (f.CodeFragment? && !IsBlank(f.value) && f.value in blocks && f.language == DetectLanguage(f.value))
    ensures forall b :: b in blocks && !IsBlank(b) ==> CodeFragment(DetectLanguage(b), b) in fs
  {
    var nb := NonBlank(blocks);
    forall b | b in blocks && !IsBlank(b)
      ensures CodeFragment(DetectLanguage(b), b) in fs
    {
      var m :| 0 <= m < |nb| && nb[m] == b;
      assert fs[m] == CodeFragment(DetectLanguage(b), b);
    }
    forall f | f in fs
      ensures f.CodeFragment? && !IsBlank(f.value) && f.value in blocks && f.language == DetectLanguage(f.value)
    {
      var m :| 0 <= m < |fs| && fs[m] == f;
      assert nb[m] in nb;
    }
  }

  predicate HasCode(result: ExtractedResult) {
    result.kind == CodeType || result.kind == MixedType
  }

  predicate HasText(result: ExtractedResult) {
    result.kind == TextType || result.kind == MixedType
  }

  /** The fragments of one result: its heading, a code fragment per
      non-blank block of a code or mixed result, and the text of a text or
      mixed result. */
  function ResultFragments(index: nat, result: ExtractedResult): seq<Fragment> {
    [TextFragment(Heading(index, result))]
    + (if HasCode(result) then CodeFragments(Split(result.content, "\n\n")) else [])
    + (if HasText(result) then [TextFragment(result.content + "\n\n---\n")] else [])
  }

  function AllResultFragments(results: seq<ExtractedResult>): seq<Fragment> {
    if |results| == 0 then []
    else
      var n := |results| - 1;
      AllResultFragments(results[..n]) + ResultFragments(n, results[n])
  }

  /** One more result appends just its own fragments. */
  lemma AllResultFragmentsSnoc(results: seq<ExtractedResult>, i: nat)
    requires i < |results|
    ensures AllResultFragments(results[..i + 1]) == AllResultFragments(results[..i]) + ResultFragments(i, results[i])
  {
    assert results[..i + 1][..i] == results[..i];
    assert results[..i + 1][i] == results[i];
  }

  lemma FormatStep(results: seq<ExtractedResult>, index: nat, header: Fragment, fragments: seq<Fragment>, more: seq<Fragment>)
    requires index < |results|
    requires fragments == [header] + AllResultFragments(results[..index])
    requires more == ResultFragments(index, results[index])
    ensures fragments + more == [header] + AllResultFragments(results[..index + 1])
  {
    AllResultFragmentsSnoc(results, index);
    AppendAfter(header, AllResultFragments(results[..index]), more, AllResultFragments(results[..index + 1]));
  }

  lemma AppendAfter<T>(head: T, a: seq<T>, b: seq<T>, c: seq<T>)
    requires c == a + b
    ensures [head] + a + b == [head] + c
  {
  }

  /** What `formatSearchResults` returns. */
  function SearchFragments(results: seq<ExtractedResult>, intent: Intent): seq<Fragment> {
    [TextFragment(Header(|results|, intent))] + AllResultFragments(results)
  }

  /** `formatSearchResults`. */
  method FormatSearchResults(results: seq<ExtractedResult>, intent: Intent) returns (fragments: seq<Fragment>)
    ensures fragments == SearchFragments(results, intent)
  {
    var header := TextFragment(Header(|results|, intent));
    fragments := [header];
    for index := 0 to |results|
      invariant fragments == [header] + AllResultFragments(results[..index])
    {
      var more := FormatResult(index, results[index]);
      FormatStep(results, index, header, fragments, more);
      fragments := fragments + more;
    }
    assert results[..|results|] == results;
  }

  /** The body of the `forEach` of `formatSearchResults` for one result. */
  method FormatResult(index: nat, result: ExtractedResult) returns (fragments: seq<Fragment>)
    ensures fragments == ResultFragments(index, result)
  {
    fragments := [TextFragment(Heading(index, result))];
    if result.kind == CodeType || result.kind == MixedType {
      var codeBlocks := Split(result.content, "\n\n");
      var code: seq<Fragment> := [];
      for j := 0 to |codeBlocks|
        invariant code == CodeFragments(codeBlocks[..j])
      {
        if !IsBlank(codeBlocks[j]) {
          code := code + [CodeFragment(DetectLanguage(codeBlocks[j]), codeBlocks[j])];
        }
        CodeFragmentsSnoc(codeBlocks, j);
      }
      assert codeBlocks[..|codeBlocks|] == codeBlocks;
      fragments := fragments + code;
    }
    if result.kind == TextType || result.kind == MixedType {
      fragments := fragments + [TextFragment(result.content + "\n\n---\n")];
    }
  }

  /** Every result gets its numbered heading, and every code fragment holds
      a non-blank block of a code or mixed result's content, tagged with the
      detected language; no fragment is an image. */
  lemma ResultFragmentsShape(results: seq<ExtractedResult>)
    ensures forall i :: 0 <= i < |results| ==> TextFragment(Heading(i, results[i])) in AllResultFragments(results)
    ensures forall f :: f in AllResultFragments(results) ==>
      (&& !f.ImageFragment?
       && (f.CodeFragment? ==>
            (!IsBlank(f.value) && f.language == DetectLanguage(f.value)
             && exists r :: r in results && HasCode(r) && f.value in Split(r.content, "\n\n"))))
  {
    HeadingsPresent(results);
    FragmentKinds(results);
  }

  lemma ThreeParts<T>(head: T, mid: seq<T>, tail: seq<T>)
    ensures var all := [head] + mid + tail;
      && |all| == 1 + |mid| + |tail|
      && all[0] == head
      && (forall m :: 0 <= m < |mid| ==> all[1 + m] == mid[m])
      && (|tail| > 0 ==> all[|all| - 1] == tail[|tail| - 1])
  {
  }

  /** The fragments of one result, by kind: the heading, then the code
      fragments of the non-blank blocks in order (code and mixed results),
      then the text (text and mixed results). */
  lemma ResultFragmentsByKind(index: nat, result: ExtractedResult)
    ensures var fs := ResultFragments(index, result);
      var code := if HasCode(result) then NonBlank(Split(result.content, "\n\n")) else [];
      && |fs| == 1 + |code| + (if HasText(result) then 1 else 0)
      && fs[0] == TextFragment(Heading(index, result))
      && (forall m :: 0 <= m < |code| ==> fs[1 + m] == CodeFragment(DetectLanguage(code[m]), code[m]))
      && (HasText(result) ==> fs[|fs| - 1] == TextFragment(result.content + "\n\n---\n"))
  {
    var code := if HasCode(result) then CodeFragments(Split(result.content, "\n\n")) else [];
    var text := if HasText(result) then [TextFragment(result.content + "\n\n---\n")] else [];
    ThreeParts(TextFragment(Heading(index, result)), code, text);
  }

  lemma {:induction false} HeadingsPresent(results: seq<ExtractedResult>)
    ensures forall i :: 0 <= i < |results| ==> TextFragment(Heading(i, results[i])) in AllResultFragments(results)
    decreases |results|
  {
    if |results| > 0 {
      var n := |results| - 1;
      HeadingsPresent(results[..n]);
      AllResultFragmentsSnoc(results, n);
      assert results[..n + 1] == results;
      HeadingFirst(n, results[n]);
      HeadingsStep(results, results[..n], AllResultFragments(results[..n]), ResultFragments(n, results[n]), AllResultFragments(results));
    }
  }

  lemma HeadingFirst(n: nat, r: ExtractedResult)
    ensures |ResultFragments(n, r)| > 0 && ResultFragments(n, r)[0] == TextFragment(Heading(n, r))
  {
  }

  lemma HeadingsStep(results: seq<ExtractedResult>, prefix: seq<ExtractedResult>,
                     before: seq<Fragment>, last: seq<Fragment>, all: seq<Fragment>)
    requires |results| > 0 && prefix == results[..|results| - 1] && all == before + last
    requires forall i :: 0 <= i < |prefix| ==> TextFragment(Heading(i, prefix[i])) in before
    requires |last| > 0 && last[0] == TextFragment(Heading(|results| - 1, results[|results| - 1]))
    ensures forall i :: 0 <= i < |results| ==> TextFragment(Heading(i, results[i])) in all
  {
    var n := |results| - 1;
    forall i | 0 <= i < |results|
      ensures TextFragment(Heading(i, results[i])) in all
    {
      if i < n {
        assert prefix[i] == results[i];
      } else {
        assert all[|before|] == last[0];
      }
    }
  }

  /** The fragments of one result: no image, and each code fragment is a
      non-blank block of that result's content with its detected language. */
  lemma OneResultShape(n: nat, r: ExtractedResult)
    ensures forall f :: f in ResultFragments(n, r) ==>
      (&& !f.ImageFragment?
       && (f.CodeFragment? ==>
            (!IsBlank(f.value) && f.language == DetectLanguage(f.value)
             && HasCode(r) && f.value in Split(r.content, "\n\n"))))
  {
  }

  lemma {:induction false} FragmentKinds(results: seq<ExtractedResult>)
    ensures forall f :: f in AllResultFragments(results) ==>
      (&& !f.ImageFragment?
       && (f.CodeFragment? ==>
            (!IsBlank(f.value) && f.language == DetectLanguage(f.value)
             && exists r :: r in results && HasCode(r) && f.value in Split(r.content, "\n\n"))))
    decreases |results|
  {
    if |results| > 0 {
      var n := |results| - 1;
      var prefix := results[..n];
      FragmentKinds(prefix);
      OneResultShape(n, results[n]);
      var before := AllResultFragments(prefix);
      var last := ResultFragments(n, results[n]);
      assert AllResultFragments(results) == before + last;
      forall f: Fragment | f in before + last
        ensures !f.ImageFragment?
        ensures f.CodeFragment? ==>
          (!IsBlank(f.value) && f.language == DetectLanguage(f.value)
           && exists r :: r in results && HasCode(r) && f.value in Split(r.content, "\n\n"))
      {
        if f in before {
          if f.CodeFragment? {
            var r :| r in prefix && HasCode(r) && f.value in Split(r.content, "\n\n");
            assert r in results;
          }
        } else if f.CodeFragment? {
          assert results[n] in results;
        }
      }
    }
  }

  /** The reply opens with the count of the results and the intent, and
      then carries the fragments of every result. */
  lemma SearchFragmentsShape(results: seq<ExtractedResult>, intent: Intent)
    ensures SearchFragments(results, intent)[0] == TextFragment(Header(|results|, intent))
    ensures forall i :: 0 <= i < |results| ==> TextFragment(Heading(i, results[i])) in SearchFragments(results, intent)
    ensures forall f :: f in SearchFragments(results, intent) ==> !f.ImageFragment?
  {
    ResultFragmentsShape(results);
  }
  /** A text result gives exactly its heading and its text. */
  lemma TextResultFragments(index: nat, result: ExtractedResult)
    requires result.kind == TextType
    ensures ResultFragments(index, result) ==
      [TextFragment(Heading(index, result)), TextFragment(result.content + "\n\n---\n")]
  {
  }

  /** The fragments replied for the two result pages of a smart search. */
  function RepliedFragments(page1: seq<SearchResult>, page2: seq<SearchResult>, intent: Intent,
                            load: string -> Option<PageContent>): (fs: seq<Fragment>)
    ensures |fs| > 0 && exists n: nat :: n <= MaxResults && fs[0] == TextFragment(Header(n, intent))
  {
    var all := CombineResults(page1, page2);
    var sorted := SortByRelevance(ExtractAll(all, PagesOf(all, load)));
    assert |multiset(sorted)| == |sorted|;
    var n: nat := |sorted|;
    assert n <= MaxResults;
    SearchFragments(sorted, intent)
  }

  /** The reply of a smart search, given the cache it starts from, what each
      fetch returns and the content of each page: an error of either page
      search is the reply's error. */
  function SmartSearchReply(cache: map<string, seq<SearchResult>>, apiKey: string, engineId: string,
                            query: string, requestId: string,
                            fetch: seq<(string, string)> -> FetchOutcome, load: string -> Option<PageContent>)
    : Result<seq<Fragment>, string>
  {
    var q := GenerateSmartQuery(query, Some(requestId));
    var first := PageResults(cache, apiKey, engineId, q, 1, fetch);
    if first.Err? then Err(first.error)
    else
      var second := PageResults(cache, apiKey, engineId, q, 2, fetch);
      if second.Err? then Err(second.error)
      else Ok(RepliedFragments(first.value, second.value, q.intent, load))
  }

  /** A successful reply opens by counting at most twenty results and
      naming the intent detected in the user's query. */
  lemma SmartSearchReplyHeader(cache: map<string, seq<SearchResult>>, apiKey: string, engineId: string,
                               query: string, requestId: string,
                               fetch: seq<(string, string)> -> FetchOutcome, load: string -> Option<PageContent>)
    requires SmartSearchReply(cache, apiKey, engineId, query, requestId, fetch, load).Ok?
    ensures var fs := SmartSearchReply(cache, apiKey, engineId, query, requestId, fetch, load).value;
      |fs| > 0 && exists n: nat :: n <= MaxResults && fs[0] == TextFragment(Header(n, DetectSearchIntent(query)))
  {
    var q := GenerateSmartQuery(query, Some(requestId));
    var first := PageResults(cache, apiKey, engineId, q, 1, fetch);
    var second := PageResults(cache, apiKey, engineId, q, 2, fetch);
    assert SmartSearchReply(cache, apiKey, engineId, query, requestId, fetch, load).value
        == RepliedFragments(first.value, second.value, q.intent, load);
  }

  /** A failed first page is the reply, whatever the second page holds. */
  lemma FirstPageErrorWins(cache: map<string, seq<SearchResult>>, apiKey: string, engineId: string,
                           query: string, requestId: string,
                           fetch: seq<(string, string)> -> FetchOutcome, load: string -> Option<PageContent>)
    requires PageResults(cache, apiKey, engineId, GenerateSmartQuery(query, Some(requestId)), 1, fetch).Err?
    ensures SmartSearchReply(cache, apiKey, engineId, query, requestId, fetch, load)
      == Err(PageResults(cache, apiKey, engineId, GenerateSmartQuery(query, Some(requestId)), 1, fetch).error)
  {
  }
  /** `handleSmartSearch`. */
  /** The search service's cache after `handleSmartSearch`: page 1 is
      looked up (and cached on success), and page 2 only when page 1
      succeeded. Nothing cached before is replaced or removed. */
  function CacheAfterSearch(cache: map<string, seq<SearchResult>>, apiKey: string, engineId: string,
                            query: string, requestId: string, fetch: seq<(string, string)> -> FetchOutcome)
    : (c: map<string, seq<SearchResult>>)
    ensures forall k :: k in cache ==> k in c && c[k] == cache[k]
    ensures var key := GenerateSmartQuery(query, Some(requestId)).query;
      forall k :: k in c ==> k in cache || k == CacheKey(key, 1) || k == CacheKey(key, 2)
  {
    var q := GenerateSmartQuery(query, Some(requestId));
    var c1 := CacheAfter(cache, apiKey, engineId, q, 1, fetch);
    if PageResults(cache, apiKey, engineId, q, 1, fetch).Err? then c1
    else CacheAfter(c1, apiKey, engineId, q, 2, fetch)
  }

  /** After a search that succeeded, both of its pages are cached, so the
      same search again gives the same reply whatever a fetch would now
      return. */
  lemma RepeatedSearchIsCached(cache: map<string, seq<SearchResult>>, apiKey: string, engineId: string,
                               query: string, requestId: string,
                               fetch: seq<(string, string)> -> FetchOutcome,
                               fetch': seq<(string, string)> -> FetchOutcome, load: string -> Option<PageContent>)
    requires SmartSearchReply(cache, apiKey, engineId, query, requestId, fetch, load).Ok?
    ensures var cache' := CacheAfterSearch(cache, apiKey, engineId, query, requestId, fetch);
      SmartSearchReply(cache', apiKey, engineId, query, requestId, fetch', load)
        == SmartSearchReply(cache, apiKey, engineId, query, requestId, fetch, load)
  {
    var q := GenerateSmartQuery(query, Some(requestId));
    BothPagesCached(cache, apiKey, engineId, q, fetch, fetch');
  }

  /** After pages 1 and 2 were looked up successfully, both are answered
      from the cache. */
  lemma BothPagesCached(cache: map<string, seq<SearchResult>>, apiKey: string, engineId: string,
                        q: SmartSearchQuery, fetch: seq<(string, string)> -> FetchOutcome,
                        fetch': seq<(string, string)> -> FetchOutcome)
    requires PageResults(cache, apiKey, engineId, q, 1, fetch).Ok?
    requires PageResults(cache, apiKey, engineId, q, 2, fetch).Ok?
    ensures var c2 := CacheAfter(CacheAfter(cache, apiKey, engineId, q, 1, fetch), apiKey, engineId, q, 2, fetch);
      && PageResults(c2, apiKey, engineId, q, 1, fetch') == PageResults(cache, apiKey, engineId, q, 1, fetch)
      && PageResults(c2, apiKey, engineId, q, 2, fetch') == PageResults(cache, apiKey, engineId, q, 2, fetch)
  {
    CacheKeysOfPagesDiffer(q.query);
    var c1 := CacheAfter(cache, apiKey, engineId, q, 1, fetch);
    assert PageResults(c1, apiKey, engineId, q, 2, fetch) == PageResults(cache, apiKey, engineId, q, 2, fetch);
  }

  method HandleSmartSearch(search: SmartSearchService, query: string, requestId: string,
                           fetch: seq<(string, string)> -> FetchOutcome, load: string -> Option<PageContent>)
    returns (r: Result<seq<Fragment>, string>)
    modifies search
    ensures r == SmartSearchReply(old(search.resultsCache), search.apiKey, search.searchEngineId, query, requestId, fetch, load)
    ensures search.resultsCache ==
      CacheAfterSearch(old(search.resultsCache), search.apiKey, search.searchEngineId, query, requestId, fetch)
  {
    var smartQuery := GenerateSmartQuery(query, Some(requestId));
    ghost var cache := search.resultsCache;
    var page1Results := search.SearchGoogle(smartQuery, 1, fetch);
    if page1Results.Err? {
      return Err(page1Results.error);
    }
    CacheKeysOfPagesDiffer(smartQuery.query);
    assert PageResults(search.resultsCache, search.apiKey, search.searchEngineId, smartQuery, 2, fetch)
        == PageResults(cache, search.apiKey, search.searchEngineId, smartQuery, 2, fetch);
    var page2Results := search.SearchGoogle(smartQuery, 2, fetch);
    if page2Results.Err? {
      return Err(page2Results.error);
    }
    var allResults := CombineResults(page1Results.value, page2Results.value);
    var extractedContent := ExtractContent(allResults, PagesOf(allResults, load));
    var fragments := FormatSearchResults(extractedContent, smartQuery.intent);
    r := Ok(fragments);
  }

  // ---------------------------------------------------------------------------
  // Clone
  // ---------------------------------------------------------------------------

  /** What cloning a website returns; `styles` is the JSON text of the
      styles when there are any. */
  datatype CloneResult =
    | TextResult(url: string, content: string)
    | ImageResult(url: string, content: string)
    | CodeResult(url: string)
    | StructuredResult(url: string, html: string, styles: Option<string>)

  /** The fragments of one clone result. */
  function CloneFragments(result: CloneResult): (fs: seq<Fragment>)
    ensures result.TextResult? || result.ImageResult? ==> |fs| == 1
    ensures result.CodeResult? ==> fs == []
    ensures result.StructuredResult? ==>
      (|fs| == (if result.styles.Some? then 3 else 2) && fs[1] == CodeFragment("html", result.html))
  {
    match result
    case TextResult(url, content) => [TextFragment("Content from " + url + ":\n" + content)]
    case ImageResult(url, content) => [ImageFragment(content, "Screenshot from " + url)]
    case CodeResult(_) => []
    case StructuredResult(url, html, styles) =>
      [TextFragment("Structure from " + url + ":"), CodeFragment("html", html)]
      + (if styles.Some? then [CodeFragment("css", styles.value)] else [])
  }

  function AllCloneFragments(results: seq<CloneResult>): seq<Fragment> {
    if |results| == 0 then []
    else
      var n := |results| - 1;
      AllCloneFragments(results[..n]) + CloneFragments(results[n])
  }

  /** `formatCloneResults`. */
  method FormatCloneResults(results: seq<CloneResult>) returns (fragments: seq<Fragment>)
    ensures fragments == AllCloneFragments(results)
  {
    fragments := [];
    for i := 0 to |results|
      invariant fragments == AllCloneFragments(results[..i])
    {
      match results[i] {
        case TextResult(url, content) =>
          fragments := fragments + [TextFragment("Content from " + url + ":\n" + content)];
        case ImageResult(url, content) =>
          fragments := fragments + [ImageFragment(content, "Screenshot from " + url)];
        case CodeResult(_) =>
        case StructuredResult(url, html, styles) =>
          fragments := fragments + [TextFragment("Structure from " + url + ":")];
          fragments := fragments + [CodeFragment("html", html)];
          if styles.Some? {
            fragments := fragments + [CodeFragment("css", styles.value)];
          }
      }
      assert results[..i + 1][..i] == results[..i];
    }
    assert results[..|results|] == results;
  }

  /** Weight of a clone result in fragments. */
  function CloneWeight(result: CloneResult): nat {
    match result
    case TextResult(_, _) => 1
    case ImageResult(_, _) => 1
    case CodeResult(_) => 0
    case StructuredResult(_, _, styles) => if styles.Some? then 3 else 2
  }

  function TotalCloneWeight(results: seq<CloneResult>): nat {
    if |results| == 0 then 0 else TotalCloneWeight(results[..|results| - 1]) + CloneWeight(results[|results| - 1])
  }

  /** The number of clone fragments is the sum of the results' weights. */
  lemma {:induction false} CloneFragmentCount(results: seq<CloneResult>)
    ensures |AllCloneFragments(results)| == TotalCloneWeight(results)
    decreases |results|
  {
    if |results| > 0 {
      CloneFragmentCount(results[..|results| - 1]);
    }
  }

  /** `provideReply`: clone through `clone`, or a smart search. */
  method ProvideReply(request: string, requestId: string, search: SmartSearchService,
                      fetch: seq<(string, string)> -> FetchOutcome, load: string -> Option<PageContent>,
                      clone: string -> seq<CloneResult>)
    returns (r: Result<seq<Fragment>, string>)
    modifies search
    ensures RouteOf(request).CloneRoute? ==>
      r == Ok(AllCloneFragments(clone(RouteOf(request).url))) && search.resultsCache == old(search.resultsCache)
    ensures RouteOf(request).SearchRoute? ==>
      && r == SmartSearchReply(old(search.resultsCache), search.apiKey, search.searchEngineId,
                               RouteOf(request).query, requestId, fetch, load)
      && search.resultsCache == CacheAfterSearch(old(search.resultsCache), search.apiKey, search.searchEngineId,
                                                 RouteOf(request).query, requestId, fetch)
  {
    var words := Words(request);
    var command, args := words[0], words[1..];
    var query := Join(args, " ");
    if command == "/clone" || (command == "@web" && |args| > 0 && args[0] == "clone") {
      var url := Join(args[if command == "@web" then 1 else 0..], " ");
      var fragments := FormatCloneResults(clone(url));
      return Ok(fragments);
    }
    r := HandleSmartSearch(search, query, requestId, fetch, load);
  }
}
