/** The reference service: it resolves the `@` references of a chat message
    into contexts, offers completions for the token being typed, and keeps
    the link contexts it builds in a cache keyed by the raw URL text. */
module AtSymbolServiceImpl {
  import opened Wrappers
  import opened Text
  import opened AtSymbol
  import opened FileExplorer

  /** A JavaScript optional string in a condition: present and non-empty. */
  predicate Truthy(s: Option<string>) {
    s.Some? && |s.value| > 0
  }

  // ---------------------------------------------------------------------------
  // Link contexts
  // ---------------------------------------------------------------------------

  /** The text handed to `URI.parse`: `https://` is put in front unless the
      URL already starts with `http`. */
  function LinkTarget(url: string): (t: string)
    ensures StartsWith(t, "http")
    ensures StartsWith(url, "http") ==> t == url
    ensures !StartsWith(url, "http") ==> t == "https://" + url
  {
    if StartsWith(url, "http") then url else "https://" + url
  }

  /** Adding the scheme once is enough: a target is its own target. */
  lemma LinkTargetIdempotent(url: string)
    ensures LinkTarget(LinkTarget(url)) == LinkTarget(url)
  {
  }

  /** `replace(/^https?:\/\//, '')`. */
  function StripScheme(s: string): string {
    if StartsWith(s, "https://") then s[8..]
    else if StartsWith(s, "http://") then s[7..]
    else s
  }

  /** `replace(/^www\./, '')`. */
  function StripWww(s: string): string {
    if StartsWith(s, "www.") then s[4..] else s
  }

  /** `formatDisplayUrl` applied to the rendered URI: the scheme and then a
      `www.` are removed, and a result longer than 50 characters is cut to
      its first 47 characters followed by `...`. */
  function FormatDisplayUrl(rendered: string): (d: string)
    ensures |d| <= 50
    ensures |StripWww(StripScheme(rendered))| <= 50 ==> d == StripWww(StripScheme(rendered))
    ensures |StripWww(StripScheme(rendered))| > 50 ==>
      |d| == 50 && d[..47] == StripWww(StripScheme(rendered))[..47] && d[47..] == "..."
  {
    var display := StripWww(StripScheme(rendered));
    if |display| > 50 then display[..47] + "..." else display
  }

  /** What is stripped is exactly one of the six prefixes the two patterns
      allow, and the rest of the URL is kept. */
  lemma StrippedPrefix(rendered: string)
    ensures exists p :: (IsUrlPrefix(p) && rendered == p + StripWww(StripScheme(rendered)))
  {
    var s := StripScheme(rendered);
    var schemePart := SchemeSplit(rendered);
    var wwwPart := WwwSplit(s);
    JoinPrefixes(rendered, schemePart, s, wwwPart, StripWww(s));
    assert IsUrlPrefix(schemePart + wwwPart);
  }

  lemma SchemeSplit(rendered: string) returns (schemePart: string)
    ensures schemePart in ["", "http://", "https://"]
    ensures rendered == schemePart + StripScheme(rendered)
  {
    if StartsWith(rendered, "https://") {
      schemePart := "https://";
      assert rendered == rendered[..8] + rendered[8..];
    } else if StartsWith(rendered, "http://") {
      schemePart := "http://";
      assert rendered == rendered[..7] + rendered[7..];
    } else {
      schemePart := "";
      assert rendered == "" + rendered;
    }
  }

  lemma WwwSplit(s: string) returns (wwwPart: string)
    ensures wwwPart in ["", "www."]
    ensures s == wwwPart + StripWww(s)
  {
    if StartsWith(s, "www.") {
      wwwPart := "www.";
      assert s == s[..4] + s[4..];
    } else {
      wwwPart := "";
      assert s == "" + s;
    }
  }

  lemma JoinPrefixes(r: string, a: string, s: string, b: string, t: string)
    requires r == a + s && s == b + t
    ensures r == (a + b) + t
  {
  }

  /** The six prefixes the two patterns can remove together. */
  predicate IsUrlPrefix(p: string) {
    p == "" || p == "www." || p == "http://" || p == "http://www." || p == "https://" || p == "https://www."
  }

  /** A short display form without scheme or `www.` is shown unchanged. */
  lemma DisplayUrlPlain(rendered: string)
    requires |rendered| <= 50
    requires !StartsWith(rendered, "http://") && !StartsWith(rendered, "https://") && !StartsWith(rendered, "www.")
    ensures FormatDisplayUrl(rendered) == rendered
  {
  }

  /** Every cache entry is the link context of its key: a link whose URI is
      what the key's target parses to, and whose value is that URI rendered. */
  ghost predicate CachedFor(pf: Platform, url: string, c: AtSymbolContext) {
    && c.kind == Link
    && pf.parse(LinkTarget(url)).Some?
    && c.metadata.uri == pf.parse(LinkTarget(url))
    && c.value == pf.render(c.metadata.uri.value, true)
  }

  ghost predicate CacheValid(pf: Platform, cache: map<string, AtSymbolContext>) {
    forall url :: url in cache ==> CachedFor(pf, url, cache[url])
  }

  /** `createLinkContext(url, {title, description})` as a function of the
      cache: the context it returns and the cache afterwards. */
  function LinkContextFor(pf: Platform, cache: map<string, AtSymbolContext>, url: string,
                          title: Option<string>, description: Option<string>): (r: (AtSymbolContext, map<string, AtSymbolContext>))
  {
    if url in cache then (cache[url], cache)
    else match pf.parse(LinkTarget(url))
      case None =>
        (AtSymbolContext(Link, url, url, Metadata(None, title, description)), cache)
      case Some(u) =>
        var rendered := pf.render(u, true);
        var c := AtSymbolContext(Link, rendered,
          if Truthy(title) then title.value else FormatDisplayUrl(rendered),
          Metadata(Some(u), title, description));
        (c, cache[url := c])
  }

  /** A cached URL returns the cached context and ignores the new metadata. */
  lemma LinkCacheHit(pf: Platform, cache: map<string, AtSymbolContext>, url: string,
                     title: Option<string>, description: Option<string>)
    requires url in cache
    ensures LinkContextFor(pf, cache, url, title, description) == (cache[url], cache)
  {
  }

  /** A target that does not parse gives the raw URL as value and display
      name, no URI, and leaves the cache alone. */
  lemma LinkParseFailure(pf: Platform, cache: map<string, AtSymbolContext>, url: string,
                         title: Option<string>, description: Option<string>)
    requires url !in cache && pf.parse(LinkTarget(url)).None?
    ensures var r := LinkContextFor(pf, cache, url, title, description);
      r.1 == cache && r.0.kind == Link && r.0.value == url && r.0.displayName == url &&
      r.0.metadata == Metadata(None, title, description)
  {
  }

  /** A target that parses is stored under the raw URL; the display name is
      the given title when it is non-empty and the display form of the URL
      (at most 50 characters) otherwise. */
  lemma LinkParseSuccess(pf: Platform, cache: map<string, AtSymbolContext>, url: string,
                         title: Option<string>, description: Option<string>)
    requires url !in cache && pf.parse(LinkTarget(url)).Some?
    ensures var r := LinkContextFor(pf, cache, url, title, description);
      var u := pf.parse(LinkTarget(url)).value;
      && r.1 == cache[url := r.0]
      && r.0.value == pf.render(u, true)
      && r.0.metadata == Metadata(Some(u), title, description)
      && (Truthy(title) ==> r.0.displayName == title.value)
      && (!Truthy(title) ==> r.0.displayName == FormatDisplayUrl(pf.render(u, true)) && |r.0.displayName| <= 50)
  {
  }

  /** The cache only grows: existing entries are never replaced, and the one
      new key, if any, is the URL asked for. */
  lemma LinkCacheGrows(pf: Platform, cache: map<string, AtSymbolContext>, url: string,
                       title: Option<string>, description: Option<string>)
    ensures var r := LinkContextFor(pf, cache, url, title, description);
      && (forall k :: k in cache ==> k in r.1 && r.1[k] == cache[k])
      && (forall k :: k in r.1 && k !in cache ==> k == url)
  {
  }

  /** Building a link context keeps the cache invariant, and what it returns
      is always a link. */
  lemma LinkContextValid(pf: Platform, cache: map<string, AtSymbolContext>, url: string,
                         title: Option<string>, description: Option<string>)
    requires CacheValid(pf, cache)
    ensures var r := LinkContextFor(pf, cache, url, title, description);
      r.0.kind == Link && CacheValid(pf, r.1)
  {
  }

  /** Asking twice for a URL that parses gives the same context and cache the
      second time, whatever metadata comes with the second request. */
  lemma LinkContextRepeat(pf: Platform, cache: map<string, AtSymbolContext>, url: string,
                          t1: Option<string>, d1: Option<string>, t2: Option<string>, d2: Option<string>)
    requires url in cache || pf.parse(LinkTarget(url)).Some?
    ensures var r1 := LinkContextFor(pf, cache, url, t1, d1);
      LinkContextFor(pf, r1.1, url, t2, d2) == r1
  {
    var r1 := LinkContextFor(pf, cache, url, t1, d1);
    assert url in r1.1 && r1.1[url] == r1.0;
  }

  // ---------------------------------------------------------------------------
  // Resolving the references of a text
  // ---------------------------------------------------------------------------

  /** The context one match contributes, and the cache after it: links always
      give one, files and folders only when the resolver finds an entry of
      that type, and untyped matches none. */
  function ResolveMatch(pf: Platform, ws: Workspace, cache: map<string, AtSymbolContext>, m: AtSymbolMatch)
    : (r: (Option<AtSymbolContext>, map<string, AtSymbolContext>))
  {
    match m.kind
    case None => (None, cache)
    case Some(Link) =>
      var lc := LinkContextFor(pf, cache, m.value, None, None);
      (Some(lc.0), lc.1)
    case Some(File) => (CreateFileContext(pf, ws, m.value), cache)
    case Some(Folder) => (CreateFolderContext(pf, ws, m.value), cache)
  }

  function OptionToSeq<T>(o: Option<T>): (s: seq<T>)
    ensures |s| <= 1
  {
    if o.Some? then [o.value] else []
  }

  /** The contexts of `ms`, in match order, and the final cache. */
  function ResolveAll(pf: Platform, ws: Workspace, cache: map<string, AtSymbolContext>, ms: seq<AtSymbolMatch>)
    : (r: (seq<AtSymbolContext>, map<string, AtSymbolContext>))
  {
    if ms == [] then ([], cache)
    else
      var prev := ResolveAll(pf, ws, cache, ms[..|ms| - 1]);
      var one := ResolveMatch(pf, ws, prev.1, ms[|ms| - 1]);
      (prev.0 + OptionToSeq(one.0), one.1)
  }

  /** One more match extends the contexts by what that match contributes. */
  lemma ResolveAllSnoc(pf: Platform, ws: Workspace, cache: map<string, AtSymbolContext>, ms: seq<AtSymbolMatch>, i: nat,
                       prev: (seq<AtSymbolContext>, map<string, AtSymbolContext>),
                       one: (Option<AtSymbolContext>, map<string, AtSymbolContext>))
    requires i < |ms|
    requires prev == ResolveAll(pf, ws, cache, ms[..i])
    requires one == ResolveMatch(pf, ws, prev.1, ms[i])
    ensures ResolveAll(pf, ws, cache, ms[..i + 1]) == (prev.0 + OptionToSeq(one.0), one.1)
  {
    assert ms[..i + 1][..i] == ms[..i];
  }

  function CountKind(cs: seq<AtSymbolContext>, k: AtSymbolType): nat {
    if cs == [] then 0
    else CountKind(cs[..|cs| - 1], k) + (if cs[|cs| - 1].kind == k then 1 else 0)
  }

  function CountTyped(ms: seq<AtSymbolMatch>, k: AtSymbolType): nat {
    if ms == [] then 0
    else CountTyped(ms[..|ms| - 1], k) + (if ms[|ms| - 1].kind == Some(k) then 1 else 0)
  }

  /** The number of `file` (`directory == false`) or `folder` matches of `ms`
      whose value the resolver turns into a context. */
  function CountResolved(pf: Platform, ws: Workspace, ms: seq<AtSymbolMatch>, directory: bool): nat {
    if ms == [] then 0
    else
      var m := ms[|ms| - 1];
      CountResolved(pf, ws, ms[..|ms| - 1], directory) +
      (if m.kind == Some(EntryKind(directory)) && CreateEntryContext(pf, ws, m.value, directory).Some? then 1 else 0)
  }

  lemma CountKindAppend(cs: seq<AtSymbolContext>, extra: seq<AtSymbolContext>, k: AtSymbolType)
    requires |extra| <= 1
    ensures CountKind(cs + extra, k) == CountKind(cs, k) + CountKind(extra, k)
  {
    if extra == [] {
      assert cs + extra == cs;
    } else {
      assert (cs + extra)[..|cs + extra| - 1] == cs;
      assert (cs + extra)[|cs + extra| - 1] == extra[0];
      assert extra[..0] == [];
    }
  }

  /** What one match contributes, counted by kind. */
  lemma ResolveMatchCounts(pf: Platform, ws: Workspace, cache: map<string, AtSymbolContext>, m: AtSymbolMatch)
    requires CacheValid(pf, cache)
    ensures var one := ResolveMatch(pf, ws, cache, m);
      var extra := OptionToSeq(one.0);
      && CacheValid(pf, one.1)
      && CountKind(extra, Link) == (if m.kind == Some(Link) then 1 else 0)
      && CountKind(extra, File) ==
         (if m.kind == Some(File) && CreateEntryContext(pf, ws, m.value, false).Some? then 1 else 0)
      && CountKind(extra, Folder) ==
         (if m.kind == Some(Folder) && CreateEntryContext(pf, ws, m.value, true).Some? then 1 else 0)
      && |extra| == CountKind(extra, Link) + CountKind(extra, File) + CountKind(extra, Folder)
  {
    var one := ResolveMatch(pf, ws, cache, m);
    ResolveMatchKind(pf, ws, cache, m);
    CountOption(one.0);
  }

  /** Which matches give a context, and of which kind. */
  lemma ResolveMatchKind(pf: Platform, ws: Workspace, cache: map<string, AtSymbolContext>, m: AtSymbolMatch)
    requires CacheValid(pf, cache)
    ensures var one := ResolveMatch(pf, ws, cache, m);
      && CacheValid(pf, one.1)
      && (one.0.Some? <==>
           m.kind == Some(Link)
           || (m.kind == Some(File) && CreateEntryContext(pf, ws, m.value, false).Some?)
           || (m.kind == Some(Folder) && CreateEntryContext(pf, ws, m.value, true).Some?))
      && (one.0.Some? ==> m.kind == Some(one.0.value.kind))
  {
    if m.kind == Some(Link) {
      LinkContextValid(pf, cache, m.value, None, None);
    }
  }

  lemma CountOption(o: Option<AtSymbolContext>)
    ensures CountKind(OptionToSeq(o), Link) == (if o.Some? && o.value.kind == Link then 1 else 0)
    ensures CountKind(OptionToSeq(o), File) == (if o.Some? && o.value.kind == File then 1 else 0)
    ensures CountKind(OptionToSeq(o), Folder) == (if o.Some? && o.value.kind == Folder then 1 else 0)
    ensures |OptionToSeq(o)| == (if o.Some? then 1 else 0)
  {
    if o.Some? {
      assert OptionToSeq(o)[..0] == [];
    }
  }

  /** Every link match contributes exactly one link context; every file or
      folder match contributes one context exactly when the resolver finds
      it; nothing else contributes; and the cache invariant is kept. */
  lemma {:induction false} ResolveAllCounts(pf: Platform, ws: Workspace, cache: map<string, AtSymbolContext>, ms: seq<AtSymbolMatch>)
    requires CacheValid(pf, cache)
    ensures var r := ResolveAll(pf, ws, cache, ms);
      && CacheValid(pf, r.1)
      && CountKind(r.0, Link) == CountTyped(ms, Link)
      && CountKind(r.0, File) == CountResolved(pf, ws, ms, false)
      && CountKind(r.0, Folder) == CountResolved(pf, ws, ms, true)
      && |r.0| == CountKind(r.0, Link) + CountKind(r.0, File) + CountKind(r.0, Folder)
    decreases |ms|
  {
    if ms != [] {
      var init := ms[..|ms| - 1];
      var m := ms[|ms| - 1];
      var prev := ResolveAll(pf, ws, cache, init);
      ResolveAllCounts(pf, ws, cache, init);
      var one := ResolveMatch(pf, ws, prev.1, m);
      var extra := OptionToSeq(one.0);
      ResolveMatchCounts(pf, ws, prev.1, m);
      CountKindAppend(prev.0, extra, Link);
      CountKindAppend(prev.0, extra, File);
      CountKindAppend(prev.0, extra, Folder);
      assert ResolveAll(pf, ws, cache, ms) == (prev.0 + extra, one.1);
    }
  }

  /** Resolution never yields more contexts than there are typed matches. */
  lemma ResolveAllBound(pf: Platform, ws: Workspace, cache: map<string, AtSymbolContext>, ms: seq<AtSymbolMatch>)
    requires CacheValid(pf, cache)
    ensures |ResolveAll(pf, ws, cache, ms).0| <= CountTyped(ms, Link) + CountTyped(ms, File) + CountTyped(ms, Folder)
  {
    ResolveAllCounts(pf, ws, cache, ms);
    CountResolvedBound(pf, ws, ms, false);
    CountResolvedBound(pf, ws, ms, true);
  }

  lemma {:induction false} CountResolvedBound(pf: Platform, ws: Workspace, ms: seq<AtSymbolMatch>, directory: bool)
    ensures CountResolved(pf, ws, ms, directory) <= CountTyped(ms, EntryKind(directory))
    decreases |ms|
  {
    if ms != [] {
      CountResolvedBound(pf, ws, ms[..|ms| - 1], directory);
    }
  }

  // ---------------------------------------------------------------------------
  // The token being typed
  // ---------------------------------------------------------------------------

  /** `p` can start a match of `/@…([^\s]*)$/`: an `@` followed by nothing
      but non-whitespace up to the end. */
  ghost predicate IsAnchor(s: string, p: int) {
    0 <= p < |s| && s[p] == '@' && NoSpace(s[p + 1..])
  }

  /** The leftmost anchor at or after `i`, where a non-global regex match
      of a `$`-anchored pattern starts. */
  function FirstAnchorFrom(s: string, i: nat): (r: Option<nat>)
    requires i <= |s|
    ensures r.Some? ==> i <= r.value && IsAnchor(s, r.value)
    ensures r.Some? ==> forall j :: i <= j < r.value ==> !IsAnchor(s, j)
    ensures r.None? ==> forall j :: i <= j ==> !IsAnchor(s, j)
    decreases |s| - i
  {
    if i == |s| then None
    else if s[i] == '@' && RunEnd(s, i + 1) == |s| then
      assert NoSpace(s[i + 1..]) by { assert s[i + 1..] == s[i + 1..RunEnd(s, i + 1)]; }
      Some(i)
    else
      assert !IsAnchor(s, i) by {
        if s[i] == '@' && NoSpace(s[i + 1..]) { RunEndAll(s, i + 1); }
      }
      FirstAnchorFrom(s, i + 1)
  }

  /** Where the trailing `@` token of the text before the cursor starts. */
  function TrailingAnchor(before: string): Option<nat>
  {
    FirstAnchorFrom(before, 0)
  }

  /** The groups of `/@(file|folder|link)?:?([^\s]*)$/` on the text before
      the cursor: the kind, taken greedily, and the prefix after an
      optional colon. */
  function TrailingToken(before: string): (t: Option<(Option<AtSymbolType>, string)>)
    ensures t.Some? <==> exists p :: IsAnchor(before, p)
    ensures t.Some? ==>
      (&& TrailingAnchor(before).Some?
       && t.value.0 == KindAt(before, TrailingAnchor(before).value + 1)
       && NoSpace(t.value.1)
       && TokenParts(before[TrailingAnchor(before).value..], t.value.0, t.value.1))
  {
    match TrailingAnchor(before)
    case None => None
    case Some(p) =>
      var k := KindAt(before, p + 1);
      var r := p + 1 + |KindText(k)|;
      var r' := if r < |before| && before[r] == ':' then r + 1 else r;
      TokenSplit(before, p, k, r, r');
      Some((k, before[r'..]))
  }

  /** `token` is `@`, the kind name, an optional colon and the prefix; the
      colon is taken whenever one follows the kind name, so a prefix
      without it never starts with `:`. */
  predicate TokenParts(token: string, k: Option<AtSymbolType>, prefix: string) {
    || (token == "@" + KindText(k) + prefix && (|prefix| == 0 || prefix[0] != ':'))
    || token == "@" + KindText(k) + ":" + prefix
  }

  /** The text from the anchor splits into `@`, the kind name, the optional
      colon and the prefix. */
  lemma TokenSplit(before: string, p: nat, k: Option<AtSymbolType>, r: nat, r': nat)
    requires IsAnchor(before, p) && k == KindAt(before, p + 1) && r == p + 1 + |KindText(k)|
    requires r' == if r < |before| && before[r] == ':' then r + 1 else r
    ensures r' <= |before| && NoSpace(before[r'..])
    ensures TokenParts(before[p..], k, before[r'..])
  {
    assert StartsWith(before[p + 1..], KindText(k));
    assert before[p + 1..r] == KindText(k);
    if r' == r + 1 {
      assert before[p..] == [before[p]] + before[p + 1..r] + [before[r]] + before[r'..];
    } else {
      assert before[p..] == [before[p]] + before[p + 1..r] + before[r'..];
    }
    assert before[r'..] == before[p + 1..][r' - p - 1..];
  }

  /** `text.substring(0, position)` clamps the position into the text. */
  function Clamp(position: int, n: nat): (c: nat)
    ensures c <= n
    ensures 0 <= position <= n ==> c == position
  {
    if position < 0 then 0 else if position > n then n else position
  }

  /** The link heuristic: the prefix starts with `http://` or `https://`, or contains a dot. */
  predicate LooksLikeUrl(prefix: string) {
    StartsWith(prefix, "http://") || StartsWith(prefix, "https://") || Includes(prefix, ".")
  }

  /** `getCompletions(text, position)` as a function of the cache: the list
      it returns and the cache afterwards. */
  function CompletionsFor(pf: Platform, ws: Workspace, cache: map<string, AtSymbolContext>, text: string, position: int)
    : (r: (seq<AtSymbolContext>, map<string, AtSymbolContext>))
  {
    match TrailingToken(text[..Clamp(position, |text|)])
    case None => ([], cache)
    case Some(token) =>
      var prefix := ToLower(token.1);
      match token.0
      case Some(File) => (Completions(pf, ws, ws.folders, prefix, false), cache)
      case Some(Folder) => (Completions(pf, ws, ws.folders, prefix, true), cache)
      case Some(Link) =>
        if LooksLikeUrl(prefix) then
          var lc := LinkContextFor(pf, cache, prefix, None, None);
          ([lc.0], lc.1)
        else ([], cache)
      case None =>
        var found := Completions(pf, ws, ws.folders, prefix, false) + Completions(pf, ws, ws.folders, prefix, true);
        if LooksLikeUrl(prefix) then
          var lc := LinkContextFor(pf, cache, prefix, None, None);
          (found + [lc.0], lc.1)
        else (found, cache)
  }

  /** Without an `@` followed only by non-whitespace up to the cursor there
      are no completions and the cache is untouched. */
  lemma NoTokenNoCompletions(pf: Platform, ws: Workspace, cache: map<string, AtSymbolContext>, text: string, position: int)
    requires forall p :: !IsAnchor(text[..Clamp(position, |text|)], p)
    ensures CompletionsFor(pf, ws, cache, text, position) == ([], cache)
  {
  }

  /** For an untyped token the list is the file completions, then the folder
      completions, then at most one link, which is there exactly when the
      lower-cased prefix looks like a URL. */
  lemma UntypedCompletions(pf: Platform, ws: Workspace, cache: map<string, AtSymbolContext>, text: string, position: int)
    requires CacheValid(pf, cache)
    requires var t := TrailingToken(text[..Clamp(position, |text|)]); t.Some? && t.value.0.None?
    ensures var t := TrailingToken(text[..Clamp(position, |text|)]);
      var prefix := ToLower(t.value.1);
      var files := Completions(pf, ws, ws.folders, prefix, false);
      var folders := Completions(pf, ws, ws.folders, prefix, true);
      var r := CompletionsFor(pf, ws, cache, text, position).0;
      && |r| == |files| + |folders| + (if LooksLikeUrl(prefix) then 1 else 0)
      && r[..|files|] == files
      && r[|files|..|files| + |folders|] == folders
      && (forall i :: 0 <= i < |files| + |folders| ==> r[i].kind != Link)
      && (LooksLikeUrl(prefix) ==> r[|r| - 1].kind == Link)
  {
    var t := TrailingToken(text[..Clamp(position, |text|)]);
    var prefix := ToLower(t.value.1);
    var files := Completions(pf, ws, ws.folders, prefix, false);
    var folders := Completions(pf, ws, ws.folders, prefix, true);
    var r := CompletionsFor(pf, ws, cache, text, position).0;
    assert r[..|files| + |folders|] == files + folders;
    forall i | 0 <= i < |files| + |folders|
      ensures r[i].kind != Link
    {
      if i < |files| {
        assert r[i] == files[i];
        CompletionsKind(pf, ws, ws.folders, prefix, false, files[i]);
      } else {
        assert r[i] == folders[i - |files|];
        CompletionsKind(pf, ws, ws.folders, prefix, true, folders[i - |files|]);
      }
    }
    if LooksLikeUrl(prefix) {
      LinkContextValid(pf, cache, prefix, None, None);
    }
  }

  /** The groups of the trailing token on a few inputs: the kind and an
      optional colon are split off the prefix, the token starts at the
      leftmost `@` with no whitespace after it up to the cursor, and
      whitespace after every `@` means no token. */
  lemma TrailingTokenExamples()
    ensures TrailingToken("see @file:src") == Some((Some(File), "src"))
    ensures TrailingToken("@a @fo") == Some((None, "fo"))
    ensures TrailingToken("@docs ") == None
  {
    TypedTrailingToken();
    LastTrailingToken();
    SpaceEndsTrailingToken();
  }

  lemma TypedTrailingToken()
    ensures TrailingToken("see @file:src") == Some((Some(File), "src"))
  {
    var a := "see @file:src";
    TypedAnchor();
    assert KindAt(a, 5) == Some(File) by {
      assert a[5..][..4] == "file";
    }
    assert a[9] == ':' && a[10..] == "src";
  }

  lemma TypedAnchor()
    ensures TrailingAnchor("see @file:src") == Some(4)
  {
    var a := "see @file:src";
    forall j | 0 <= j < 4
      ensures !IsAnchor(a, j)
    {
      assert a[j] != '@';
    }
    assert a[5..] == "file:src";
    PrintableNoSpace(a[5..]);
    AnchorIsFirst(a, 4);
  }

  /** An anchor with none before it is the one the pattern finds. */
  lemma AnchorIsFirst(s: string, p: nat)
    requires IsAnchor(s, p)
    requires forall j :: 0 <= j < p ==> !IsAnchor(s, j)
    ensures TrailingAnchor(s) == Some(p)
  {
  }

  lemma LastTrailingToken()
    ensures TrailingToken("@a @fo") == Some((None, "fo"))
  {
    var b := "@a @fo";
    assert b[1..][1] == ' ';
    assert !IsAnchor(b, 0) && !IsAnchor(b, 1) && !IsAnchor(b, 2);
    assert b[4..] == "fo";
    PrintableNoSpace(b[4..]);
    assert IsAnchor(b, 3);
    assert TrailingAnchor(b) == Some(3);
    assert !StartsWith(b[4..], "file") && !StartsWith(b[4..], "folder") && !StartsWith(b[4..], "link");
  }

  lemma SpaceEndsTrailingToken()
    ensures TrailingToken("@docs ") == None
  {
    var c := "@docs ";
    forall p ensures !IsAnchor(c, p) {
      if 0 <= p < 5 {
        assert c[p + 1..][|c| - p - 2] == ' ';
      }
    }
  }


  // ---------------------------------------------------------------------------
  // Enrichment from scraped content
  // ---------------------------------------------------------------------------

  /** What a page scrape yields that the patch uses. */
  datatype ScrapedContent = ScrapedContent(title: string, description: string)

  /** `updateContextWithScrapedContent`: a non-empty scraped title fills in a
      missing title (and becomes the display name); a non-empty scraped
      description fills in a missing description; nothing is overwritten. */
  function PatchWithScrapedContent(c: AtSymbolContext, content: ScrapedContent): (r: AtSymbolContext)
    ensures r.kind == c.kind && r.value == c.value && r.metadata.uri == c.metadata.uri
    ensures Truthy(c.metadata.title) ==> r.metadata.title == c.metadata.title && r.displayName == c.displayName
    ensures Truthy(c.metadata.description) ==> r.metadata.description == c.metadata.description
    ensures |content.title| > 0 && !Truthy(c.metadata.title) ==>
      r.metadata.title == Some(content.title) && r.displayName == content.title
    ensures |content.title| == 0 ==> r.metadata.title == c.metadata.title && r.displayName == c.displayName
    ensures |content.description| > 0 && !Truthy(c.metadata.description) ==>
      r.metadata.description == Some(content.description)
    ensures |content.description| == 0 ==> r.metadata.description == c.metadata.description
  {
    var withTitle :=
      if |content.title| > 0 && !Truthy(c.metadata.title)
      then c.(displayName := content.title, metadata := c.metadata.(title := Some(content.title)))
      else c;
    if |content.description| > 0 && !Truthy(withTitle.metadata.description)
    then withTitle.(metadata := withTitle.metadata.(description := Some(content.description)))
    else withTitle
  }

  /** Applying the same scrape twice changes nothing the second time. */
  lemma PatchIdempotent(c: AtSymbolContext, content: ScrapedContent)
    ensures PatchWithScrapedContent(PatchWithScrapedContent(c, content), content) == PatchWithScrapedContent(c, content)
  {
  }

  // ---------------------------------------------------------------------------
  // The service object
  // ---------------------------------------------------------------------------

  class AtSymbolService {
    const pf: Platform
    /** `linkContextCache`, keyed by the raw URL text. */
    var linkContextCache: map<string, AtSymbolContext>
    /** The headless browser handle, if one is open. */
    var browser: Option<nat>
    /** The browser handles closed so far, oldest first. */
    var closedBrowsers: seq<nat>

    ghost predicate Valid()
      reads this
    {
      CacheValid(pf, linkContextCache)
    }

    constructor(pf: Platform)
      ensures this.pf == pf && linkContextCache == map[] && browser == None && closedBrowsers == []
      ensures Valid()
    {
      this.pf := pf;
      linkContextCache := map[];
      browser := None;
      closedBrowsers := [];
    }

    /** `createLinkContext(url, metadata)`. */
    method CreateLinkContext(url: string, title: Option<string>, description: Option<string>) returns (ctx: AtSymbolContext)
      requires Valid()
      modifies this
      ensures Valid()
      ensures (ctx, linkContextCache) == LinkContextFor(pf, old(linkContextCache), url, title, description)
      ensures browser == old(browser) && closedBrowsers == old(closedBrowsers)
    {
      LinkContextValid(pf, linkContextCache, url, title, description);
      if url in linkContextCache {
        return linkContextCache[url];
      }
      var parsed := pf.parse(LinkTarget(url));
      if parsed.None? {
        return AtSymbolContext(Link, url, url, Metadata(None, title, description));
      }
      var u := parsed.value;
      var rendered := pf.render(u, true);
      var displayName := if Truthy(title) then title.value else FormatDisplayUrl(rendered);
      ctx := AtSymbolContext(Link, rendered, displayName, Metadata(Some(u), title, description));
      linkContextCache := linkContextCache[url := ctx];
    }

    /** The `switch` of `processText` on one match: the context it
      contributes, if any. */
    method ResolveOne(m: AtSymbolMatch, ws: Workspace) returns (context: Option<AtSymbolContext>)
      requires Valid()
      modifies this
      ensures Valid()
      ensures (context, linkContextCache) == ResolveMatch(pf, ws, old(linkContextCache), m)
      ensures browser == old(browser) && closedBrowsers == old(closedBrowsers)
    {
      match m.kind {
        case None =>
          context := None;
        case Some(Link) =>
          var link := CreateLinkContext(m.value, None, None);
          context := Some(link);
        case Some(File) =>
          context := CreateFileContext(pf, ws, m.value);
        case Some(Folder) =>
          context := CreateFolderContext(pf, ws, m.value);
      }
    }

    /** `processText`: the text comes back unchanged, with the contexts of
      its references in match order. */
    method ProcessText(text: string, ws: Workspace) returns (outText: string, contexts: seq<AtSymbolContext>)
      requires Valid()
      modifies this
      ensures Valid()
      ensures outText == text
      ensures (contexts, linkContextCache) == ResolveAll(pf, ws, old(linkContextCache), Scan(text))
      ensures browser == old(browser) && closedBrowsers == old(closedBrowsers)
    {
      var matches := FindAtSymbolMatches(text);
      contexts := [];
      for i := 0 to |matches|
        invariant Valid()
        invariant (contexts, linkContextCache) == ResolveAll(pf, ws, old(linkContextCache), matches[..i])
        invariant browser == old(browser) && closedBrowsers == old(closedBrowsers)
      {
        ghost var prev := (contexts, linkContextCache);
        var context := ResolveOne(matches[i], ws);
        if context.Some? {
          contexts := contexts + [context.value];
        } else {
          assert contexts == contexts + OptionToSeq(context);
        }
        ResolveAllSnoc(pf, ws, old(linkContextCache), matches, i, prev, (context, linkContextCache));
      }
      assert matches[..|matches|] == matches;
      outText := text;
    }

    /** `getCompletions(text, position)`. */
    method GetCompletions(text: string, position: int, ws: Workspace) returns (results: seq<AtSymbolContext>)
      requires Valid()
      modifies this
      ensures Valid()
      ensures (results, linkContextCache) == CompletionsFor(pf, ws, old(linkContextCache), text, position)
      ensures browser == old(browser) && closedBrowsers == old(closedBrowsers)
    {
      var beforeCursor := text[..Clamp(position, |text|)];
      var token := TrailingToken(beforeCursor);
      if token.None? {
        assert CompletionsFor(pf, ws, linkContextCache, text, position) == ([], linkContextCache);
        return [];
      }
      var prefix := ToLower(token.value.1);
      match token.value.0 {
        case Some(File) =>
          results := GetFileCompletions(pf, ws, prefix);
        case Some(Folder) =>
          results := GetFolderCompletions(pf, ws, prefix);
        case Some(Link) =>
          results := [];
          if LooksLikeUrl(prefix) {
            var context := CreateLinkContext(prefix, None, None);
            results := results + [context];
            assert results == [context];
          }
        case None =>
          var files := GetFileCompletions(pf, ws, prefix);
          var folders := GetFolderCompletions(pf, ws, prefix);
          results := files + folders;
          if LooksLikeUrl(prefix) {
            var linkContext := CreateLinkContext(prefix, None, None);
            results := results + [linkContext];
          }
      }
    }

    /** The enrichment a finished scrape applies to the link context cached
      under `url` (the cache holds the very object that is patched). */
    method EnrichCachedLink(url: string, content: ScrapedContent)
      requires Valid()
      modifies this
      ensures Valid()
      ensures url in old(linkContextCache) ==>
        linkContextCache == old(linkContextCache)[url := PatchWithScrapedContent(old(linkContextCache)[url], content)]
      ensures url !in old(linkContextCache) ==> linkContextCache == old(linkContextCache)
      ensures browser == old(browser) && closedBrowsers == old(closedBrowsers)
    {
      if url in linkContextCache {
        linkContextCache := linkContextCache[url := PatchWithScrapedContent(linkContextCache[url], content)];
      }
    }

    /** The start of a scrape: a browser is launched only when none is open. */
    method EnsureBrowser(launched: nat)
      modifies this
      ensures old(browser).None? ==> browser == Some(launched)
      ensures old(browser).Some? ==> browser == old(browser)
      ensures linkContextCache == old(linkContextCache) && closedBrowsers == old(closedBrowsers)
    {
      if browser.None? {
        browser := Some(launched);
      }
    }

    /** `dispose`: an open browser is closed and forgotten; with none open
      nothing happens, so a second call changes nothing. */
    method Dispose()
      modifies this
      ensures browser == None
      ensures old(browser).Some? ==> closedBrowsers == old(closedBrowsers) + [old(browser).value]
      ensures old(browser).None? ==> closedBrowsers == old(closedBrowsers)
      ensures linkContextCache == old(linkContextCache)
    {
      if browser.Some? {
        closedBrowsers := closedBrowsers + [browser.value];
        browser := None;
      }
    }
  }
}
