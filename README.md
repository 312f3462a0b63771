# Void chat references, web search and images — a Dafny model

This project models the parts of the Void editor's chat that turn what the
user types, pastes or drops into the context sent to a model:

- **@-references** (`AtSymbol`, `AtSymbolServiceImpl`, `FileExplorer`):
  the scanner that finds `@file:…`, `@folder:…`, `@link:…` and bare `@…`
  tokens in chat text, its inverse `formatContextReference`, the service
  that resolves matches to contexts (with its link-context cache, display
  urls, scraped-content patch and browser lifetime), completions for the
  token before the cursor, and the file and folder resolver over the
  workspace roots.
- **The chat input** (`AtSymbolCompletions`, `ChatInputWithSymbols`): the
  completion popup's state machine (cyclic arrow keys, Enter, Escape,
  click) and the splice that replaces the `@` token with the chosen
  reference and moves the cursor.
- **Provider settings** (`VoidSettingsTypes`): default model lists, model
  selection equality, feature labels, the "disabled reason" rules for
  providers and features, and the settings display table.
- **Images** (`Base64`, `ImageService`, `SidebarPane`, `ImageAttachment`,
  `ImageUpload`): base64 per section 4 of RFC 4648 as `btoa`/`atob` do it
  (including the whitespace removal and padding rules of `atob`), data urls
  per section 3 of RFC 2397, per-provider image parts and message content,
  the sidebar's paste/drop handling that appends an image to the last user
  message, the attachment drop zone's MIME mapping, and the upload helpers'
  validation and settling.
- **Web search** (`SmartSearch`, `WebSearchParticipant`): search intent,
  language and timeframe filters, the query, request parameters and the
  per-page result cache, relevance scores, content extraction and the
  stable sort by relevance, command routing, merging two pages capped at
  20, language detection and the reply fragments for searches and clones.

`Wrappers` holds `Option`/`Result`, and `Text` the JavaScript string
operations the code relies on (`split(/\s+/)`, `join`, `includes`,
`startsWith`, `trim`, `toLowerCase`, number formatting).

Everything the code gets from outside — the file service, `URI.parse`,
the label service, `fetch`, the headless browser, `FileReader`,
`XMLHttpRequest`, the clock — is a parameter: a function value or an
outcome datatype (`ReadOutcome`, `XhrOutcome`, `FetchOutcome`) that the
caller supplies. Loops of the code are methods with loop invariants,
proved equal to a specification function about which the properties are
proved as lemmas; objects whose fields the code updates (the reference
service, the popup, the chat input, the thread store, the search service
with its cache, the drop zone, the upload hook and component) are classes.

The pattern `/@(file|folder|link)?:?([^\s]+)/g` also matches a bare `@:`
and `@file:`, both with value `:` (`AtSymbol.ColonValue`).

## Model

| member | source | states |
|---|---|---|
| AtSymbol.TypeName | src/vs/workbench/contrib/void/common/atSymbolService.ts:9 | each kind is named by a non-empty word of lower-case letters |
| AtSymbol.FormatContextReference | src/vs/workbench/contrib/void/common/atSymbolService.ts:51-62 | a reference is `@`, the kind's name, `:` and the value, at exactly those positions |
| AtSymbol.KindAt | src/vs/workbench/contrib/void/common/atSymbolService.ts:76 | the optional kind group is taken only when the text goes on with that kind's name |
| AtSymbol.ValueSpan | src/vs/workbench/contrib/void/common/atSymbolService.ts:76 | the value starts right after an optional `:` and runs to the next whitespace; there is none exactly when whitespace or the end of text comes first |
| AtSymbol.TypedMatch | src/vs/workbench/contrib/void/common/atSymbolService.ts:76-86 | a match with a kind starts at the `@` and ends inside the text |
| AtSymbol.UntypedMatch | src/vs/workbench/contrib/void/common/atSymbolService.ts:76-86 | a match without a kind starts at the `@` and ends inside the text |
| AtSymbol.MatchAt | src/vs/workbench/contrib/void/common/atSymbolService.ts:76-86 | a match tried at one position starts there and ends inside the text |
| AtSymbol.TypedMatchWellFormed | src/vs/workbench/contrib/void/common/atSymbolService.ts:76-86 | a match with a kind has `@` at its start, a non-empty whitespace-free value and `end` = start + token length |
| AtSymbol.UntypedMatchWellFormed | src/vs/workbench/contrib/void/common/atSymbolService.ts:76-86 | the same shape for a match without a kind |
| AtSymbol.MatchAtWellFormed | src/vs/workbench/contrib/void/common/atSymbolService.ts:76-86 | every match found at a position is well formed |
| AtSymbol.NextMatch | src/vs/workbench/contrib/void/common/atSymbolService.ts:79 | the global pattern's next match from `lastIndex` is the leftmost position where a match starts |
| AtSymbol.Exec | src/vs/workbench/contrib/void/common/atSymbolService.ts:79 | one `exec` call returns the leftmost match from `lastIndex` |
| AtSymbol.FindAtSymbolMatches | src/vs/workbench/contrib/void/common/atSymbolService.ts:74-89 | the `exec` loop returns exactly the scan of the text |
| AtSymbol.NoAtNoMatches | src/vs/workbench/contrib/void/common/atSymbolService.ts:74-89 | text without `@` has no matches |
| AtSymbol.MatchesFromOrdered | src/vs/workbench/contrib/void/common/atSymbolService.ts:76-86 | matches found from an index are well formed, in increasing order and do not overlap |
| AtSymbol.ScanOrdered | src/vs/workbench/contrib/void/common/atSymbolService.ts:74-89 | all matches of a text are well formed, in increasing order and do not overlap |
| AtSymbol.MatchAtSome | src/vs/workbench/contrib/void/common/atSymbolService.ts:76 | an `@` followed by a non-whitespace character always starts a match |
| AtSymbol.MatchesFromCover | src/vs/workbench/contrib/void/common/atSymbolService.ts:79-86 | every such `@` after the scan start lies inside some match found |
| AtSymbol.ScanCovers | src/vs/workbench/contrib/void/common/atSymbolService.ts:74-89 | every `@` followed by a non-whitespace character lies inside one of the text's matches |
| AtSymbol.ReferenceMatchAt | src/vs/workbench/contrib/void/common/atSymbolService.ts:51-62 | a formatted reference placed in a text matches at its `@` with its kind and value |
| AtSymbol.FormatScanRoundTrip | src/vs/workbench/contrib/void/common/atSymbolService.ts:51-89 | scanning a formatted reference with a non-empty, whitespace-free value gives exactly one match covering it, with the same kind and value |
| AtSymbol.GreedyKind | src/vs/workbench/contrib/void/common/atSymbolService.ts:76 | `@filename` scans as kind `file` with value `name`; a bare `@file` has no kind and value `file` |
| AtSymbol.ColonValue | src/vs/workbench/contrib/void/common/atSymbolService.ts:76 | `@:` matches with value `:`, and `@file:` with kind `file` and value `:` |
| AtSymbolServiceImpl.LinkTarget | src/vs/workbench/contrib/void/browser/atSymbolServiceImpl.ts:128 | `https://` is prepended only to a url not starting with `http`; the result always starts with `http` |
| AtSymbolServiceImpl.LinkTargetIdempotent | src/vs/workbench/contrib/void/browser/atSymbolServiceImpl.ts:128 | adding the scheme twice changes nothing more |
| AtSymbolServiceImpl.FormatDisplayUrl | src/vs/workbench/contrib/void/browser/atSymbolServiceImpl.ts:160-170 | the display url has the scheme and `www.` removed and is at most 50 characters; one of at most 50 is kept whole |
| AtSymbolServiceImpl.StrippedPrefix | src/vs/workbench/contrib/void/browser/atSymbolServiceImpl.ts:161-163 | only a scheme prefix and a `www.` prefix are ever removed |
| AtSymbolServiceImpl.DisplayUrlPlain | src/vs/workbench/contrib/void/browser/atSymbolServiceImpl.ts:160-170 | a short url with neither prefix is displayed unchanged |
| AtSymbolServiceImpl.LinkCacheHit | src/vs/workbench/contrib/void/browser/atSymbolServiceImpl.ts:124-125 | a cached url returns the cached context and leaves the cache alone, whatever new metadata is given |
| AtSymbolServiceImpl.LinkParseFailure | src/vs/workbench/contrib/void/browser/atSymbolServiceImpl.ts:143-153 | when the url does not parse, value and display name are the url and nothing is cached |
| AtSymbolServiceImpl.LinkParseSuccess | src/vs/workbench/contrib/void/browser/atSymbolServiceImpl.ts:127-142 | a parsed url is stored under the raw url; the display name is the title if given, else the display url |
| AtSymbolServiceImpl.LinkCacheGrows | src/vs/workbench/contrib/void/browser/atSymbolServiceImpl.ts:141 | creating a link context never removes or changes a cached entry |
| AtSymbolServiceImpl.LinkContextValid | src/vs/workbench/contrib/void/browser/atSymbolServiceImpl.ts:123-154 | every cached context stays a link context with a uri |
| AtSymbolServiceImpl.LinkContextRepeat | src/vs/workbench/contrib/void/browser/atSymbolServiceImpl.ts:124-142 | asking twice for the same url gives the same context, even with other metadata |
| AtSymbolServiceImpl.ResolveAllSnoc | src/vs/workbench/contrib/void/browser/atSymbolServiceImpl.ts:53-78 | resolving one more match appends just that match's context |
| AtSymbolServiceImpl.ResolveMatchCounts | src/vs/workbench/contrib/void/browser/atSymbolServiceImpl.ts:55-77 | a link match gives exactly one context; a file or folder match gives one only when the resolver finds it; an untyped match gives none |
| AtSymbolServiceImpl.ResolveAllCounts | src/vs/workbench/contrib/void/browser/atSymbolServiceImpl.ts:53-80 | the contexts of a text hold as many links as it has link matches, and as many files and folders as resolve |
| AtSymbolServiceImpl.ResolveAllBound | src/vs/workbench/contrib/void/browser/atSymbolServiceImpl.ts:53-80 | there are never more contexts than typed matches |
| AtSymbolServiceImpl.CountResolvedBound | src/vs/workbench/contrib/void/browser/atSymbolServiceImpl.ts:68-76 | no more files or folders resolve than there are matches of that kind |
| AtSymbolServiceImpl.FirstAnchorFrom | src/vs/workbench/contrib/void/browser/atSymbolServiceImpl.ts:85 | finds the first position from which `@…` runs to the end of the text before the cursor |
| AtSymbolServiceImpl.TrailingToken | src/vs/workbench/contrib/void/browser/atSymbolServiceImpl.ts:84-89 | there is a trailing token exactly when some `@` has no whitespace after it up to the cursor; the token starts at the leftmost such `@`, its kind is the kind name read greedily after it, and the prefix is the whitespace-free rest after an optional colon |
| AtSymbolServiceImpl.TokenSplit | src/vs/workbench/contrib/void/browser/atSymbolServiceImpl.ts:85-89 | the text from the `@` is exactly `@`, the kind name, an optional colon and the prefix |
| AtSymbolServiceImpl.Clamp | src/vs/workbench/contrib/void/browser/atSymbolServiceImpl.ts:84 | `substring(0, position)` cuts at a position clamped into the text |
| AtSymbolServiceImpl.NoTokenNoCompletions | src/vs/workbench/contrib/void/browser/atSymbolServiceImpl.ts:84-86 | no trailing `@` token gives no completions and leaves the cache alone |
| AtSymbolServiceImpl.UntypedCompletions | src/vs/workbench/contrib/void/browser/atSymbolServiceImpl.ts:108-117 | an untyped token gives file completions, then folder completions, then at most one link, added only for a prefix starting `http(s)://` or holding `.` |
| AtSymbolServiceImpl.TrailingTokenExamples | src/vs/workbench/contrib/void/browser/atSymbolServiceImpl.ts:85-89 | `see @file:src` gives kind file and prefix `src`; the token starts at the leftmost `@` with no whitespace after it up to the cursor; a token followed by a space gives none |
| AtSymbolServiceImpl.PatchWithScrapedContent | src/vs/workbench/contrib/void/browser/atSymbolServiceImpl.ts:222-233 | scraped title and description fill in only fields that were empty; kind, value and uri never change |
| AtSymbolServiceImpl.PatchIdempotent | src/vs/workbench/contrib/void/browser/atSymbolServiceImpl.ts:222-233 | applying the same scraped content twice is the same as once |
| AtSymbolServiceImpl.AtSymbolService.constructor | src/vs/workbench/contrib/void/browser/atSymbolServiceImpl.ts:28-47 | the service starts with an empty link cache and no browser |
| AtSymbolServiceImpl.AtSymbolService.CreateLinkContext | src/vs/workbench/contrib/void/browser/atSymbolServiceImpl.ts:123-154 | returns the context and new cache the cache rules give, keeping the cache invariant |
| AtSymbolServiceImpl.AtSymbolService.ResolveOne | src/vs/workbench/contrib/void/browser/atSymbolServiceImpl.ts:55-77 | resolves one match as the resolution rules say |
| AtSymbolServiceImpl.AtSymbolService.ProcessText | src/vs/workbench/contrib/void/browser/atSymbolServiceImpl.ts:49-81 | returns the text unchanged and the contexts of its matches in match order |
| AtSymbolServiceImpl.AtSymbolService.GetCompletions | src/vs/workbench/contrib/void/browser/atSymbolServiceImpl.ts:83-121 | returns the completions of the trailing token, dispatching on its kind |
| AtSymbolServiceImpl.AtSymbolService.EnrichCachedLink | src/vs/workbench/contrib/void/browser/atSymbolServiceImpl.ts:222-241 | patches the cached context of a url with scraped content and changes nothing else |
| AtSymbolServiceImpl.AtSymbolService.EnsureBrowser | src/vs/workbench/contrib/void/browser/atSymbolServiceImpl.ts:178-183 | launches a browser only when none is open |
| AtSymbolServiceImpl.AtSymbolService.Dispose | src/vs/workbench/contrib/void/browser/atSymbolServiceImpl.ts:243-248 | closes the open browser, if any, and forgets it |
| FileExplorer.EntryKind | src/vs/workbench/contrib/void/browser/fileExplorerSymbolProvider.ts:27-29 | a directory is a folder and anything else a file, never a link |
| FileExplorer.ResourceContext | src/vs/workbench/contrib/void/browser/fileExplorerSymbolProvider.ts:28-37 | value is the rendered uri, display name and title its basename, description its relative label |
| FileExplorer.CreateEntryContext | src/vs/workbench/contrib/void/browser/fileExplorerSymbolProvider.ts:22-66 | a context exists exactly when the path parses and names an entry of the wanted kind, and it carries that uri |
| FileExplorer.FileOrFolder | src/vs/workbench/contrib/void/browser/fileExplorerSymbolProvider.ts:22-66 | no path is both a file and a folder; an existing entry is one of the two |
| FileExplorer.MatchingChildren | src/vs/workbench/contrib/void/browser/fileExplorerSymbolProvider.ts:76-92 | never more completions than children |
| FileExplorer.CollectCompletions | src/vs/workbench/contrib/void/browser/fileExplorerSymbolProvider.ts:68-134 | the loop over workspace folders returns the completions of all roots in order |
| FileExplorer.AppendMatching | src/vs/workbench/contrib/void/browser/fileExplorerSymbolProvider.ts:77-91 | the loop over one root's children pushes exactly the qualifying children, in order, after what was collected before |
| FileExplorer.GetFileCompletions | src/vs/workbench/contrib/void/browser/fileExplorerSymbolProvider.ts:68-100 | file completions are the completions of every root for files |
| FileExplorer.GetFolderCompletions | src/vs/workbench/contrib/void/browser/fileExplorerSymbolProvider.ts:102-134 | folder completions are the completions of every root for folders |
| FileExplorer.MatchingChildrenSound | src/vs/workbench/contrib/void/browser/fileExplorerSymbolProvider.ts:77-90 | every completion comes from a child of the right kind whose lower-cased basename contains the prefix |
| FileExplorer.MatchingChildrenComplete | src/vs/workbench/contrib/void/browser/fileExplorerSymbolProvider.ts:77-90 | every such child gives a completion |
| FileExplorer.CompletionsSound | src/vs/workbench/contrib/void/browser/fileExplorerSymbolProvider.ts:73-97 | every completion comes from a qualifying child of some workspace root |
| FileExplorer.CompletionsComplete | src/vs/workbench/contrib/void/browser/fileExplorerSymbolProvider.ts:73-97 | every qualifying child of every root is offered |
| FileExplorer.CompletionsAppend | src/vs/workbench/contrib/void/browser/fileExplorerSymbolProvider.ts:73-97 | completions of two lists of roots are those of the first followed by those of the second |
| FileExplorer.SkipFailingRoot | src/vs/workbench/contrib/void/browser/fileExplorerSymbolProvider.ts:93-96 | a root that fails to resolve is skipped and the other roots still contribute |
| FileExplorer.FailingRootEmpty | src/vs/workbench/contrib/void/browser/fileExplorerSymbolProvider.ts:93-96 | a failing root alone contributes nothing |
| FileExplorer.EmptyPrefixQualifies | src/vs/workbench/contrib/void/browser/fileExplorerSymbolProvider.ts:79 | the empty prefix accepts every child of the right kind |
| FileExplorer.CompletionsKind | src/vs/workbench/contrib/void/browser/fileExplorerSymbolProvider.ts:80-89 | every completion has the wanted kind, its basename as title and display name, and its rendered uri as value |
| FileExplorer.LoweredPrefix | src/vs/workbench/contrib/void/browser/fileExplorerSymbolProvider.ts:79 | the prefix's case does not matter |
| FileExplorer.MatchingChildrenLowered | src/vs/workbench/contrib/void/browser/fileExplorerSymbolProvider.ts:79 | per root, the prefix's case does not matter |
| AtSymbolCompletions.NextIndex | src/vs/workbench/contrib/void/browser/react/src/chat/AtSymbolCompletions.tsx:40 | ArrowDown moves to the next index and wraps from the last to the first |
| AtSymbolCompletions.PrevIndex | src/vs/workbench/contrib/void/browser/react/src/chat/AtSymbolCompletions.tsx:45 | ArrowUp moves to the previous index and wraps from the first to the last |
| AtSymbolCompletions.ArrowKeysInverse | src/vs/workbench/contrib/void/browser/react/src/chat/AtSymbolCompletions.tsx:40-45 | ArrowUp undoes ArrowDown and the other way round |
| AtSymbolCompletions.Down | src/vs/workbench/contrib/void/browser/react/src/chat/AtSymbolCompletions.tsx:40 | k presses of ArrowDown stay inside the list |
| AtSymbolCompletions.DownWraps | src/vs/workbench/contrib/void/browser/react/src/chat/AtSymbolCompletions.tsx:40 | k presses (k at most the list length) land on i + k, wrapped once |
| AtSymbolCompletions.DownFullCircle | src/vs/workbench/contrib/void/browser/react/src/chat/AtSymbolCompletions.tsx:40 | pressing ArrowDown as many times as there are entries returns to the start |
| AtSymbolCompletions.CompletionPopup.constructor | src/vs/workbench/contrib/void/browser/react/src/chat/AtSymbolCompletions.tsx:18-20 | the popup starts empty, hidden, at index 0 |
| AtSymbolCompletions.CompletionPopup.Refresh | src/vs/workbench/contrib/void/browser/react/src/chat/AtSymbolCompletions.tsx:23-32 | new results replace the list, show the popup exactly when non-empty, and reset the selection |
| AtSymbolCompletions.CompletionPopup.KeyDown | src/vs/workbench/contrib/void/browser/react/src/chat/AtSymbolCompletions.tsx:34-61 | a hidden popup ignores keys; the arrows move cyclically; Enter selects the current entry and hides; Escape hides |
| AtSymbolCompletions.CompletionPopup.Click | src/vs/workbench/contrib/void/browser/react/src/chat/AtSymbolCompletions.tsx:99-106 | clicking an entry of a visible popup selects it and hides the popup |
| ChatInputWithSymbols.Splice | src/vs/workbench/contrib/void/browser/react/src/chat/ChatInputWithSymbols.tsx:50-51 | there is nothing to replace exactly when the text before the cursor does not end in an `@` token |
| ChatInputWithSymbols.SpliceShape | src/vs/workbench/contrib/void/browser/react/src/chat/ChatInputWithSymbols.tsx:50-66 | the new text is the text before the `@`, the reference, a space and the text after the cursor; the cursor lands after the space |
| ChatInputWithSymbols.SpliceLeftmost | src/vs/workbench/contrib/void/browser/react/src/chat/ChatInputWithSymbols.tsx:51-54 | the replaced token starts at the leftmost `@` from which the pattern reaches the cursor |
| ChatInputWithSymbols.SpliceScansBack | src/vs/workbench/contrib/void/browser/react/src/chat/ChatInputWithSymbols.tsx:45-72 | the spliced reference scans back as one match with the chosen kind and value |
| ChatInputWithSymbols.SelectionAsWrittenFails | src/vs/workbench/contrib/void/browser/react/src/chat/ChatInputWithSymbols.tsx:59 | as written, every selection that finds an `@` token fails on the missing import |
| ChatInputWithSymbols.ChatInput.constructor | src/vs/workbench/contrib/void/browser/react/src/chat/ChatInputWithSymbols.tsx:18-24 | the input starts empty, cursor 0, no contexts |
| ChatInputWithSymbols.ChatInput.InputChange | src/vs/workbench/contrib/void/browser/react/src/chat/ChatInputWithSymbols.tsx:26-29 | typing sets the text and the cursor and keeps the contexts |
| ChatInputWithSymbols.ChatInput.SelectCompletion | src/vs/workbench/contrib/void/browser/react/src/chat/ChatInputWithSymbols.tsx:45-72 | a selection splices the reference into the text, adds the context and moves the cursor after the space; otherwise nothing changes |
| ChatInputWithSymbols.ChatInput.KeyDown | src/vs/workbench/contrib/void/browser/react/src/chat/ChatInputWithSymbols.tsx:31-43 | Enter without Shift on non-blank input submits the processed text and contexts and clears the input; other keys change nothing |
| VoidSettingsTypes.ProviderIdInjective | src/vs/workbench/contrib/void/common/voidSettingsTypes.ts:11-17 | distinct providers have distinct ids |
| VoidSettingsTypes.AllProvidersComplete | src/vs/workbench/contrib/void/common/voidSettingsTypes.ts:13-17 | every provider is listed, and is local exactly when it is not non-local |
| VoidSettingsTypes.ModelInfoOfDefaultModelNames | src/vs/workbench/contrib/void/common/voidSettingsTypes.ts:230-238 | one default model per name, in order, all hidden exactly when there are 10 or more |
| VoidSettingsTypes.ModelNames | src/vs/workbench/contrib/void/common/voidSettingsTypes.ts:230-238 | reads back the names of a model list |
| VoidSettingsTypes.DefaultModelNamesRoundTrip | src/vs/workbench/contrib/void/common/voidSettingsTypes.ts:230-238 | the default models carry back exactly the names they were made from |
| VoidSettingsTypes.ModelSelectionsEqual | src/vs/workbench/contrib/void/common/voidSettingsTypes.ts:345-347 | two selections are equal exactly when provider and model name agree |
| VoidSettingsTypes.ModelSelectionsEqualIsEquivalence | src/vs/workbench/contrib/void/common/voidSettingsTypes.ts:345-347 | selection equality is reflexive, symmetric and transitive |
| VoidSettingsTypes.DisplayInfoOfFeatureName | src/vs/workbench/contrib/void/common/voidSettingsTypes.ts:354-367 | Ctrl+K is shown as Quick Edit and every other feature under its own name |
| VoidSettingsTypes.FeatureLabelsDistinct | src/vs/workbench/contrib/void/common/voidSettingsTypes.ts:354-367 | no two features share a label |
| VoidSettingsTypes.IsProviderNameDisabled | src/vs/workbench/contrib/void/common/voidSettingsTypes.ts:386-397 | a provider is enabled exactly when it has models |
| VoidSettingsTypes.ProviderDisabledReasons | src/vs/workbench/contrib/void/common/voidSettingsTypes.ts:386-397 | without models, a local provider is not auto-detected, another is not filled in or needs a model |
| VoidSettingsTypes.FeatureFollowsSelectedProvider | src/vs/workbench/contrib/void/common/voidSettingsTypes.ts:399-406 | a feature with a selection is disabled exactly as its provider |
| VoidSettingsTypes.FeatureWithoutSelection | src/vs/workbench/contrib/void/common/voidSettingsTypes.ts:408-420 | without a selection: a hidden model means enable a model, else a filled-in provider means add a model, else add a provider |
| VoidSettingsTypes.FeatureEnabledIff | src/vs/workbench/contrib/void/common/voidSettingsTypes.ts:399-421 | a feature is enabled exactly when it has a selection whose provider has models |
| VoidSettingsTypes.DisplayInfoOfSettingName | src/vs/workbench/contrib/void/common/voidSettingsTypes.ts:179-217 | only the API key is a password field |
| VoidSettingsTypes.ApiKeyDisplay | src/vs/workbench/contrib/void/common/voidSettingsTypes.ts:152-163 | the API key row is titled `API Key`, is a password field, and shows the provider's placeholder or nothing |
| VoidSettingsTypes.EndpointDisplay | src/vs/workbench/contrib/void/common/voidSettingsTypes.ts:170-177 | Ollama shows its default endpoint, the OpenAI-compatible ones a `baseURL`, providers without an endpoint `(never)` |
| Base64.DecodeChar | src/vs/workbench/contrib/void/common/imageService.ts:18 | decoding an alphabet character gives the sextet that encodes back to it |
| Base64.DecodeEncodeChar | src/vs/workbench/contrib/void/common/imageService.ts:18-38 | encoding a sextet and decoding it gives it back |
| Base64.EncodeShape | src/vs/workbench/contrib/void/common/imageService.ts:38 | the body is alphabet only, padding is at most two `=`, and together they fill whole quanta |
| Base64.EncodeLength | src/vs/workbench/contrib/void/common/imageService.ts:38 | the encoding of n bytes is 4 × ceil(n / 3) characters long |
| Base64.RemoveAsciiWhitespace | src/vs/workbench/contrib/void/common/imageService.ts:18 | the decoder's input has no ASCII whitespace left |
| Base64.RemoveAsciiWhitespaceNone | src/vs/workbench/contrib/void/common/imageService.ts:18 | input without ASCII whitespace is kept as is |
| Base64.GroupRoundTrip | src/vs/workbench/contrib/void/common/imageService.ts:18-38 | three bytes survive the split into four sextets and back |
| Base64.DecodeFirstGroup | src/vs/workbench/contrib/void/common/imageService.ts:18 | a full quantum decodes to its three bytes followed by the rest |
| Base64.DecodeShortGroup | src/vs/workbench/contrib/void/common/imageService.ts:18-38 | one or two trailing bytes survive encoding and decoding |
| Base64.DecodeEncodeUnpadded | src/vs/workbench/contrib/void/common/imageService.ts:18-38 | the unpadded body decodes back to the bytes |
| Base64.EncodeNoWhitespace | src/vs/workbench/contrib/void/common/imageService.ts:18-38 | an encoding has no whitespace for the decoder to drop |
| Base64.StripPaddingAfterAlphabet | src/vs/workbench/contrib/void/common/imageService.ts:18 | the decoder drops exactly the `=` after the body |
| Base64.StripEncoded | src/vs/workbench/contrib/void/common/imageService.ts:18-38 | an encoding is a whole number of quanta and loses only its padding |
| Base64.DecodeEncode | src/vs/workbench/contrib/void/common/imageService.ts:18-38 | `atob(btoa(bytes))` gives the bytes back |
| ImageService.ParseMimeType | src/vs/workbench/contrib/void/common/imageMessageTypes.ts:11-17 | a string names a member exactly when it is that member's MIME type |
| ImageService.ParseMimeTypeRoundTrip | src/vs/workbench/contrib/void/common/imageMessageTypes.ts:11-17 | every member's MIME type parses back to it |
| ImageService.SplitAtComma | src/vs/workbench/contrib/void/common/imageService.ts:16 | a string with a comma splits into at least two pieces |
| ImageService.SplitNoComma | src/vs/workbench/contrib/void/common/imageService.ts:16 | a string without a comma splits into itself |
| ImageService.PayloadOfDataUrl | src/vs/workbench/contrib/void/common/imageService.ts:16-39 | the decoder's payload of a data url is the part after the comma |
| ImageService.EncodeNoComma | src/vs/workbench/contrib/void/common/imageService.ts:38 | base64 text holds no comma |
| ImageService.MimeNoComma | src/vs/workbench/contrib/void/common/imageMessageTypes.ts:11-17 | no supported MIME type holds a comma |
| ImageService.BinaryString | src/vs/workbench/contrib/void/common/imageService.ts:32-37 | one character per byte, with that byte's code |
| ImageService.CharCodes | src/vs/workbench/contrib/void/common/imageService.ts:20-23 | one byte per character, the character's code |
| ImageService.AtobBinary | src/vs/workbench/contrib/void/common/imageService.ts:18 | `atob` yields a binary string |
| ImageService.VsBufferToBase64 | src/vs/workbench/contrib/void/common/imageService.ts:30-40 | the loop builds `data:<mime>;base64,` followed by the base64 of the bytes |
| ImageService.Base64ToVSBuffer | src/vs/workbench/contrib/void/common/imageService.ts:14-25 | the loop decodes the part after the comma, or the whole string |
| ImageService.CopyCharCodes | src/vs/workbench/contrib/void/common/imageService.ts:20-23 | the `Uint8Array` holds the char code of every character of the binary string, in order |
| ImageService.DataUrlRoundTrip | src/vs/workbench/contrib/void/common/imageService.ts:14-40 | decoding the data url of some bytes gives the bytes back |
| ImageService.ImageRoundTrip | src/vs/workbench/contrib/void/common/imageService.ts:14-40 | an image's data survives its data url |
| ImageService.ImageDialect | src/vs/workbench/contrib/void/common/imageService.ts:53-88 | OpenAI, Anthropic and Gemini each get their own format and no other provider gets one |
| ImageService.DialectAsWrittenMissesOpenAI | src/vs/workbench/contrib/void/common/imageService.ts:105 | as written, no provider id is `openai`, so OpenAI gets no format; every other provider is unaffected |
| ImageService.OpenAIImagePartDecodes | src/vs/workbench/contrib/void/common/imageService.ts:55-63 | an `image_url` part with high detail whose url starts with the image's own data-url prefix and whose payload decodes back to the image's bytes |
| ImageService.AnthropicImagePart | src/vs/workbench/contrib/void/common/imageService.ts:66-75 | a base64 source with the media type and the payload after the comma |
| ImageService.GeminiImagePart | src/vs/workbench/contrib/void/common/imageService.ts:78-85 | inline data with the MIME type and the payload after the comma |
| ImageService.FormatImageForProvider | src/vs/workbench/contrib/void/common/imageService.ts:45-90 | fails with `Provider <id> does not support images` exactly for providers without a format; OpenAI gets one high-detail `image_url` part holding the data url, Anthropic one base64 source part and Gemini one inline-data part, each holding the MIME type and exactly the base64 of the image; the payload decodes to the image |
| ImageService.OpenAIParts | src/vs/workbench/contrib/void/common/imageService.ts:109-119 | one OpenAI part per image, in order |
| ImageService.AnthropicParts | src/vs/workbench/contrib/void/common/imageService.ts:136-147 | one Anthropic part per image, in order |
| ImageService.GeminiParts | src/vs/workbench/contrib/void/common/imageService.ts:164-173 | one Gemini part per image, in order |
| ImageService.CollectOpenAIParts | src/vs/workbench/contrib/void/common/imageService.ts:109-119 | the loop collects the OpenAI parts |
| ImageService.CollectAnthropicParts | src/vs/workbench/contrib/void/common/imageService.ts:136-147 | the loop collects the Anthropic parts |
| ImageService.CollectGeminiParts | src/vs/workbench/contrib/void/common/imageService.ts:164-173 | the loop collects the Gemini parts |
| ImageService.CreateContentWithImages | src/vs/workbench/contrib/void/common/imageService.ts:95-188 | builds the content for the provider's format |
| ImageService.SplitAtCommaOfImage | src/vs/workbench/contrib/void/common/imageService.ts:72 | the piece after the comma of an image's data url is its base64 |
| ImageService.ContentWithImagesShape | src/vs/workbench/contrib/void/common/imageService.ts:104-183 | with images, the images come first, then a text part only for non-empty text |
| ImageService.TextOnlyContent | src/vs/workbench/contrib/void/common/imageService.ts:100-102 | no images, or a provider without a format, gives the text alone |
| ImageService.OpenAIImagesDropped | src/vs/workbench/contrib/void/common/imageService.ts:105 | as written, images sent to OpenAI are dropped and only the text is kept |
| SmartSearch.DetectSearchIntent | src/vs/workbench/contrib/void/browser/smartSearchServiceImpl.ts:162-176 | the intent is the first of documentation, example, tutorial, solution whose words occur, else general |
| SmartSearch.IntentPriority | src/vs/workbench/contrib/void/browser/smartSearchServiceImpl.ts:163-165 | a documentation word wins even when an error word is added |
| SmartSearch.LanguageAtFrom | src/vs/workbench/contrib/void/browser/smartSearchServiceImpl.ts:182 | the alternative found at a position matches there, and no earlier alternative of the list does; none means no alternative matches there |
| SmartSearch.FindLanguage | src/vs/workbench/contrib/void/browser/smartSearchServiceImpl.ts:182-185 | the language found is the first alternative at the leftmost position where any alternative matches; none means no alternative matches anywhere |
| SmartSearch.AsWrittenFoundIsFound | src/vs/workbench/contrib/void/browser/smartSearchServiceImpl.ts:182-185 | the corrected pattern only adds matches: a query with a language as written still has one |
| SmartSearch.CppVersionQuery | src/vs/workbench/contrib/void/browser/smartSearchServiceImpl.ts:182-185 | `c++17` gets the language `c++` both as written and corrected, since `\b` holds between `+` and a digit |
| SmartSearch.CppMissedAsWritten | src/vs/workbench/contrib/void/browser/smartSearchServiceImpl.ts:182 | as written, `c++` followed by a space or the end is never matched; the corrected pattern matches it |
| SmartSearch.CppQuery | src/vs/workbench/contrib/void/browser/smartSearchServiceImpl.ts:182-185 | the query `c++` gets no language as written and `c++` when corrected |
| SmartSearch.WordLanguagesAgree | src/vs/workbench/contrib/void/browser/smartSearchServiceImpl.ts:182 | for every other language both patterns match the same |
| SmartSearch.Timeframe | src/vs/workbench/contrib/void/browser/smartSearchServiceImpl.ts:188-194 | last year, else last month, else last week, else none |
| SmartSearch.ExtractSearchFilters | src/vs/workbench/contrib/void/browser/smartSearchServiceImpl.ts:178-197 | the language is the corrected language match and the timeframe the timeframe rule's; the language is one of the listed languages and the timeframe one of y1, m1, w1 |
| SmartSearch.GenerateSmartQuery | src/vs/workbench/contrib/void/browser/smartSearchServiceImpl.ts:36-57 | the query is the input plus the fixed suffix, the context defaults to empty, intent and filters come from the input |
| SmartSearch.ContextOnlySetsContext | src/vs/workbench/contrib/void/browser/smartSearchServiceImpl.ts:51-56 | the context changes nothing but the context field |
| SmartSearch.PagesTile | src/vs/workbench/contrib/void/browser/smartSearchServiceImpl.ts:67 | page 1 starts at 1 and each page starts 10 results after the previous |
| SmartSearch.RequestParams | src/vs/workbench/contrib/void/browser/smartSearchServiceImpl.ts:68-81 | key, cx, q, start and num, then lr and dateRestrict only when those filters are set |
| SmartSearch.Interpret | src/vs/workbench/contrib/void/browser/smartSearchServiceImpl.ts:84-99 | a response gives results exactly when it is ok with a body; missing items give none |
| SmartSearch.SmartSearchService.constructor | src/vs/workbench/contrib/void/browser/smartSearchServiceImpl.ts:21-34 | the service starts with an empty cache |
| SmartSearch.SmartSearchService.SearchGoogle | src/vs/workbench/contrib/void/browser/smartSearchServiceImpl.ts:59-105 | returns a cached page as is; otherwise fetches, and caches only a successful page |
| SmartSearch.CacheAfter | src/vs/workbench/contrib/void/browser/smartSearchServiceImpl.ts:59-105 | entries are never replaced or removed, only the page's key can be added, and it is present afterwards exactly when the call succeeded, holding the results returned |
| SmartSearch.PageResults | src/vs/workbench/contrib/void/browser/smartSearchServiceImpl.ts:59-105 | a cached key gives the cached results, any other the interpreted response |
| SmartSearch.CacheKeysOfPagesDiffer | src/vs/workbench/contrib/void/browser/smartSearchServiceImpl.ts:60 | pages 1 and 2 of a query have different cache keys |
| SmartSearch.CachedPageStable | src/vs/workbench/contrib/void/browser/smartSearchServiceImpl.ts:60-63 | once a page is cached, asking again returns the same results |
| SmartSearch.CalculateRelevance | src/vs/workbench/contrib/void/browser/smartSearchServiceImpl.ts:199-218 | 2 per code block, plus 3 for text over 1000 characters, plus 2 for a documentation-like title |
| SmartSearch.RelevanceCodeBlock | src/vs/workbench/contrib/void/browser/smartSearchServiceImpl.ts:203 | one more code block adds 2 |
| SmartSearch.Clip | src/vs/workbench/contrib/void/browser/smartSearchServiceImpl.ts:131 | the text is cut to its first 5000 characters |
| SmartSearch.TypeOf | src/vs/workbench/contrib/void/browser/smartSearchServiceImpl.ts:136 | mixed with code and text, code with code only, text without code |
| SmartSearch.Extract | src/vs/workbench/contrib/void/browser/smartSearchServiceImpl.ts:139-145 | title and source come from the result; code-only content is the blocks joined by blank lines, else the clipped text |
| SmartSearch.Loaded | src/vs/workbench/contrib/void/browser/smartSearchServiceImpl.ts:119-151 | the indices of exactly the pages that could be read, in increasing order |
| SmartSearch.ExtractAll | src/vs/workbench/contrib/void/browser/smartSearchServiceImpl.ts:119-151 | one entry per page that could be read, in result order: the m-th entry is the extraction of the m-th loaded result and its page |
| SmartSearch.Insert | src/vs/workbench/contrib/void/browser/smartSearchServiceImpl.ts:154 | inserting adds exactly one element |
| SmartSearch.SortByRelevance | src/vs/workbench/contrib/void/browser/smartSearchServiceImpl.ts:154 | sorting is a permutation |
| SmartSearch.InsertSorted | src/vs/workbench/contrib/void/browser/smartSearchServiceImpl.ts:154 | inserting into a sorted list keeps it sorted by decreasing relevance |
| SmartSearch.SortSorted | src/vs/workbench/contrib/void/browser/smartSearchServiceImpl.ts:154 | the result is sorted by decreasing relevance |
| SmartSearch.WithRelevance | src/vs/workbench/contrib/void/browser/smartSearchServiceImpl.ts:154 | selects the entries of one relevance |
| SmartSearch.InsertStable | src/vs/workbench/contrib/void/browser/smartSearchServiceImpl.ts:154 | insertion keeps the order among equal relevances |
| SmartSearch.SortStable | src/vs/workbench/contrib/void/browser/smartSearchServiceImpl.ts:154 | the sort is stable |
| SmartSearch.ExtractContent | src/vs/workbench/contrib/void/browser/smartSearchServiceImpl.ts:107-160 | the loop extracts every loaded page and returns them sorted by relevance |
| WebSearchParticipant.RouteOf | src/vs/workbench/contrib/void/browser/webSearchParticipant.ts:65-74 | `/clone` and `@web clone` clone the joined rest; everything else searches the joined arguments |
| WebSearchParticipant.SearchQueryWords | src/vs/workbench/contrib/void/browser/webSearchParticipant.ts:65-66 | the search query splits back into the arguments |
| WebSearchParticipant.OneWordSearchesNothing | src/vs/workbench/contrib/void/browser/webSearchParticipant.ts:65-74 | a one-word request searches for the empty query |
| WebSearchParticipant.CombineResults | src/vs/workbench/contrib/void/browser/webSearchParticipant.ts:90 | page 1 followed by page 2, cut to the first 20 |
| WebSearchParticipant.CombineFullPages | src/vs/workbench/contrib/void/browser/webSearchParticipant.ts:90 | two pages holding at most 20 results together are kept whole |
| WebSearchParticipant.PagesOf | src/vs/workbench/contrib/void/browser/webSearchParticipant.ts:93 | one load outcome per result |
| WebSearchParticipant.DetectLanguage | src/vs/workbench/contrib/void/browser/webSearchParticipant.ts:196-211 | javascript, then typescript, then java, then python by their words, else plaintext |
| WebSearchParticipant.NonBlank | src/vs/workbench/contrib/void/browser/webSearchParticipant.ts:129-131 | the blocks kept are exactly the non-blank ones |
| WebSearchParticipant.NonBlankAppend | src/vs/workbench/contrib/void/browser/webSearchParticipant.ts:129-138 | filtering keeps the order of the blocks |
| WebSearchParticipant.CodeFragments | src/vs/workbench/contrib/void/browser/webSearchParticipant.ts:129-138 | one fragment per non-blank block, in order, with its detected language; every non-blank block has its fragment and every fragment comes from a non-blank block |
| WebSearchParticipant.FormatSearchResults | src/vs/workbench/contrib/void/browser/webSearchParticipant.ts:107-150 | the loop builds the header followed by each result's fragments |
| WebSearchParticipant.FormatResult | src/vs/workbench/contrib/void/browser/webSearchParticipant.ts:122-146 | the loop builds one result's heading, code blocks and text |
| WebSearchParticipant.ResultFragmentsByKind | src/vs/workbench/contrib/void/browser/webSearchParticipant.ts:122-146 | a result gives its heading, then one code fragment per non-blank block in order for code and mixed results, then its text for text and mixed results |
| WebSearchParticipant.ResultFragmentsShape | src/vs/workbench/contrib/void/browser/webSearchParticipant.ts:122-147 | every result has its numbered heading; no image fragments; code comes only from code or mixed results |
| WebSearchParticipant.SearchFragmentsShape | src/vs/workbench/contrib/void/browser/webSearchParticipant.ts:115-147 | the reply starts with `Found N relevant results for your <intent> query`, has every heading and no image |
| WebSearchParticipant.TextResultFragments | src/vs/workbench/contrib/void/browser/webSearchParticipant.ts:122-146 | a text result gives its heading then its content followed by a rule |
| WebSearchParticipant.RepliedFragments | src/vs/workbench/contrib/void/browser/webSearchParticipant.ts:90-97 | the reply starts with the header for at most 20 results |
| WebSearchParticipant.SmartSearchReplyHeader | src/vs/workbench/contrib/void/browser/webSearchParticipant.ts:81-98 | a successful search replies with the header for at most 20 results |
| WebSearchParticipant.FirstPageErrorWins | src/vs/workbench/contrib/void/browser/webSearchParticipant.ts:86 | an error on page 1 is the reply's error |
| WebSearchParticipant.CacheAfterSearch | src/vs/workbench/contrib/void/browser/webSearchParticipant.ts:81-88 | a search keeps every cached entry and adds at most the keys of its pages 1 and 2 |
| WebSearchParticipant.RepeatedSearchIsCached | src/vs/workbench/contrib/void/browser/webSearchParticipant.ts:81-88 | after a successful search, the same search again gives the same reply whatever a fetch would now return |
| WebSearchParticipant.BothPagesCached | src/vs/workbench/contrib/void/browser/webSearchParticipant.ts:86-88 | after pages 1 and 2 were found, both are answered from the cache |
| WebSearchParticipant.HandleSmartSearch | src/vs/workbench/contrib/void/browser/webSearchParticipant.ts:81-98 | fetches pages 1 and 2 through the cache, replies as the smart search reply says, and leaves the cache as the search's cache rule says |
| WebSearchParticipant.CloneFragments | src/vs/workbench/contrib/void/browser/webSearchParticipant.ts:155-190 | text and image results give one fragment; code results none; structured results text, html and css only with styles |
| WebSearchParticipant.FormatCloneResults | src/vs/workbench/contrib/void/browser/webSearchParticipant.ts:152-194 | the loop concatenates each result's fragments |
| WebSearchParticipant.CloneFragmentCount | src/vs/workbench/contrib/void/browser/webSearchParticipant.ts:152-194 | the number of fragments is the sum of the results' weights |
| WebSearchParticipant.ProvideReply | src/vs/workbench/contrib/void/browser/webSearchParticipant.ts:64-79 | the reply is the clone reply, with the cache untouched, or the search reply with the cache after the search, as the route names |
| SidebarPane.ChatThreadService.constructor | src/vs/workbench/contrib/void/browser/sidebarPane.ts:181-196 | the thread store holds the threads and the current thread id |
| SidebarPane.ChatThreadService.SetAllThreads | src/vs/workbench/contrib/void/browser/sidebarPane.ts:181-196 | replacing the threads keeps the current thread id |
| SidebarPane.CurrentThreadOf | src/vs/workbench/contrib/void/browser/sidebarPane.ts:149-153 | the current thread is present exactly when its id is in the store |
| SidebarPane.AddImage | src/vs/workbench/contrib/void/browser/sidebarPane.ts:155-193 | the image is appended once to the last message, which keeps everything else; the thread gets the new time |
| SidebarPane.AddImageAsWrittenAppendsTwice | src/vs/workbench/contrib/void/browser/sidebarPane.ts:172-192 | as written, the last message gets the image twice |
| SidebarPane.HandleImage | src/vs/workbench/contrib/void/browser/sidebarPane.ts:131-214 | info exactly when the type is supported, the file reads, a thread exists and the last message is the user's; only then does the store change |
| SidebarPane.HandleImageOnlyTouchesThread | src/vs/workbench/contrib/void/browser/sidebarPane.ts:181-196 | only the current thread changes |
| SidebarPane.HandleImageFile | src/vs/workbench/contrib/void/browser/sidebarPane.ts:131-214 | the note and new store are those of the handling rules |
| SidebarPane.PastedImages | src/vs/workbench/contrib/void/browser/sidebarPane.ts:89-97 | only pasted image items with a file are handled |
| SidebarPane.FileItems | src/vs/workbench/contrib/void/browser/sidebarPane.ts:114 | exactly the items of kind `file` |
| SidebarPane.PastedImagesSnoc | src/vs/workbench/contrib/void/browser/sidebarPane.ts:89-97 | one more item adds its file only when it is an image with a file |
| SidebarPane.DroppedImagesSnoc | src/vs/workbench/contrib/void/browser/sidebarPane.ts:113-121 | one more dropped item adds its file only when it is an image file |
| SidebarPane.DroppedArePastedFiles | src/vs/workbench/contrib/void/browser/sidebarPane.ts:89-121 | a drop handles the images of the file items that a paste would |
| SidebarPane.NonImageItemIgnored | src/vs/workbench/contrib/void/browser/sidebarPane.ts:90 | an item that is not an image changes nothing |
| SidebarPane.HandleAll | src/vs/workbench/contrib/void/browser/sidebarPane.ts:89-121 | one note per file |
| SidebarPane.HandleAllSnoc | src/vs/workbench/contrib/void/browser/sidebarPane.ts:89-121 | one more file handles it against the store the others left |
| SidebarPane.UnsupportedFilesChangeNothing | src/vs/workbench/contrib/void/browser/sidebarPane.ts:133-136 | files of unsupported types leave the store untouched |
| SidebarPane.HandlePaste | src/vs/workbench/contrib/void/browser/sidebarPane.ts:85-98 | the loop handles exactly the pasted images, in order |
| SidebarPane.HandleDrop | src/vs/workbench/contrib/void/browser/sidebarPane.ts:106-122 | the loop handles exactly the dropped images, in order |
| ImageAttachment.MimeTypeOfFile | src/vs/workbench/contrib/void/browser/react/src/chat/ImageAttachment.tsx:39-67 | only `image/…` types are attached; the five known types map to themselves, others to PNG |
| ImageAttachment.MimeTypeOfFileRoundTrip | src/vs/workbench/contrib/void/browser/react/src/chat/ImageAttachment.tsx:47-62 | each known type maps to itself |
| ImageAttachment.UnknownImageTypeIsPng | src/vs/workbench/contrib/void/browser/react/src/chat/ImageAttachment.tsx:63-66 | `image/svg+xml` is attached as PNG |
| ImageAttachment.AttachmentOf | src/vs/workbench/contrib/void/browser/react/src/chat/ImageAttachment.tsx:39-80 | one attachment exactly when the type is an image and the reader delivers data |
| ImageAttachment.FirstFileAttachment | src/vs/workbench/contrib/void/browser/react/src/chat/ImageAttachment.tsx:22-37 | only the first file is processed |
| ImageAttachment.LaterFilesIgnored | src/vs/workbench/contrib/void/browser/react/src/chat/ImageAttachment.tsx:22-37 | files after the first never matter |
| ImageAttachment.ImageAttachmentZone.constructor | src/vs/workbench/contrib/void/browser/react/src/chat/ImageAttachment.tsx:10-11 | not dragging, nothing attached |
| ImageAttachment.ImageAttachmentZone.HandleDragOver | src/vs/workbench/contrib/void/browser/react/src/chat/ImageAttachment.tsx:13-16 | sets dragging |
| ImageAttachment.ImageAttachmentZone.HandleDragLeave | src/vs/workbench/contrib/void/browser/react/src/chat/ImageAttachment.tsx:18-20 | clears dragging |
| ImageAttachment.ImageAttachmentZone.HandleDrop | src/vs/workbench/contrib/void/browser/react/src/chat/ImageAttachment.tsx:22-30 | clears dragging and attaches the first file's attachment |
| ImageAttachment.ImageAttachmentZone.HandleFileChange | src/vs/workbench/contrib/void/browser/react/src/chat/ImageAttachment.tsx:32-37 | attaches the first file's attachment |
| ImageAttachment.ImageAttachmentZone.ProcessImageFile | src/vs/workbench/contrib/void/browser/react/src/chat/ImageAttachment.tsx:39-80 | appends the file's attachment, if any |
| ImageUpload.ValidateFile | src/vs/workbench/contrib/void/browser/react/src/util/imageUpload.tsx:284-293 | accepted exactly when the type is listed and the size is at most the limit in bytes; the type is checked first |
| ImageUpload.DefaultLimits | src/vs/workbench/contrib/void/browser/react/src/util/imageUpload.tsx:279-281 | by default webp is refused and png is accepted up to 5 MiB |
| ImageUpload.TypeCheckedFirst | src/vs/workbench/contrib/void/browser/react/src/util/imageUpload.tsx:285-293 | an unlisted type gives the type error whatever the size |
| ImageUpload.TypeAndSizeMessagesDiffer | src/vs/workbench/contrib/void/browser/react/src/util/imageUpload.tsx:286-292 | the type and size messages differ |
| ImageUpload.RequestResult | src/vs/workbench/contrib/void/browser/react/src/util/imageUpload.tsx:308-323 | success exactly for a 2xx status with an image url; other statuses, a bad body and network errors give their messages |
| ImageUpload.UploadImage | src/vs/workbench/contrib/void/browser/react/src/util/imageUpload.tsx:268-328 | a validation error wins; otherwise the request's outcome |
| ImageUpload.Settle | src/vs/workbench/contrib/void/browser/react/src/util/imageUpload.tsx:227-242 | settling always ends the upload, reports the error it sets, and agrees with the request outcome |
| ImageUpload.SettleAsWrittenStaysUploading | src/vs/workbench/contrib/void/browser/react/src/util/imageUpload.tsx:227-235 | as written, a non-2xx status leaves the upload running with no error |
| ImageUpload.SettleAgreesOnSuccessAndNetworkError | src/vs/workbench/contrib/void/browser/react/src/util/imageUpload.tsx:227-242 | on success and network error the written code already settles correctly |
| ImageUpload.SettleMatchesUploadImage | src/vs/workbench/contrib/void/browser/react/src/util/imageUpload.tsx:308-323 | the corrected hook completes exactly when the promise helper resolves, with the same url or message |
| ImageUpload.ImageUploadHook.constructor | src/vs/workbench/contrib/void/browser/react/src/util/imageUpload.tsx:171-188 | not uploading, progress 0, no error |
| ImageUpload.ImageUploadHook.UploadImage | src/vs/workbench/contrib/void/browser/react/src/util/imageUpload.tsx:190-252 | a file failing validation sets and reports the error; otherwise the upload settles |
| ImageUpload.ImageUploadHook.Reset | src/vs/workbench/contrib/void/browser/react/src/util/imageUpload.tsx:259-263 | clears uploading, progress and error |
| ImageUpload.ImageUploadComponent.constructor | src/vs/workbench/contrib/void/browser/react/src/util/imageUpload.tsx:14-28 | not uploading, progress 0, no preview, no error |
| ImageUpload.ImageUploadComponent.HandleFileChange | src/vs/workbench/contrib/void/browser/react/src/util/imageUpload.tsx:30-66 | no file changes nothing; an invalid file sets and reports the error; a valid one is previewed and uploaded |
| ImageUpload.ImageUploadComponent.UploadFile | src/vs/workbench/contrib/void/browser/react/src/util/imageUpload.tsx:68-109 | the upload settles and reports its outcome |
| ImageUpload.ImageUploadComponent.ResetUpload | src/vs/workbench/contrib/void/browser/react/src/util/imageUpload.tsx:115-122 | clears preview, error and progress but not uploading |

## Left out

- Case folding: `toLowerCase` and the `/i` flag are modelled for ASCII letters only; strings are sequences of `char`, not UTF-16 code units.
- `AtSymbolServiceImpl.FormatDisplayUrl`: takes the uri's rendered string as given; `URI.toString(true)` is a parameter of the platform, as are `URI.parse`, `basename` and `getUriLabel`.
- Scraping with puppeteer (`scrapeWebContent`'s page work) and `webSearchService.clone` are not modelled; the scraped content and the clone results are inputs, and only the browser's launch and close are state.
- `SmartSearch.ExtractContent`: a failure to load a page is an absent page content; a failure to launch the browser, timeouts and the DOM queries are not modelled.
- `SmartSearch.GenerateSmartQuery`: the AI prompt the code builds and never uses is left out; its filters use the corrected language pattern (see Findings).
- `SmartSearch.ExtractSearchFilters`: uses the corrected language pattern `SmartSearch.Language` (see Findings); the pattern as written is `SmartSearch.LanguageAsWritten`.
- `SmartSearch.SmartSearchService.constructor`: the API key and engine id are constructor parameters; their literal values are not reproduced.
- `WebSearchParticipant.CloneFragments`: `JSON.stringify(styles, null, 2)` is taken as a given string on the structured result.
- `WebSearchParticipant.SmartSearchReply` has no contract of its own; its header is stated by `WebSearchParticipant.SmartSearchReplyHeader` and its error case by `WebSearchParticipant.FirstPageErrorWins`.
- Logging, the `throw` after logging in `provideReply`, and the async ordering of the handlers are not modelled; each handler runs to completion.
- The cursor move after a selection runs in a `setTimeout`; the model applies it at once.
- `webSearchServiceImpl.ts`, `webSearchContribution.ts`, `smartSearchService.ts`, `webSearchService.ts` and `chatThreadService.ts` are not part of this model; the thread store is reduced to `allThreads` and the current thread id, and `getCurrentThread` to a lookup.
- `VoidSettingsTypes`: `modelCapabilities.ts` is not part of this model, so provider defaults are parameters; provider display names and sub-texts are left out; `providerNames` is used only as a set, since only membership matters to the rules.
- `VoidSettingsTypes.IsProviderNameDisabled`: an unset `_didFillInProviderSettings` is read as false.
- `SidebarPane.HandleImage`: the notification service's side effects are returned as a note; exceptions from `dangerousSetState` are not modelled; the warning text names PNG, JPEG, GIF and WEBP although BMP is accepted too.
- `SidebarPane.AddImage`: the model uses the corrected single append (see Findings).
- `ImageService.FormatImageForProvider`: uses the corrected provider key `openAI` (see Findings); the dispatch as written is `ImageService.DialectAsWritten`.
- `ImageService.CreateContentWithImages`: uses the corrected provider key `openAI` (see Findings), so OpenAI images are kept rather than dropped.
- `ChatInputWithSymbols.ChatInput.SelectCompletion`: uses the corrected behaviour with `formatContextReference` imported (see Findings); as written the call fails, modelled by `ChatInputWithSymbols.SelectionAsWritten`.
- `AtSymbolServiceImpl.AtSymbolService.EnrichCachedLink`: contexts are values, so patching the cached context does not reach the contexts `processText` or `getCompletions` returned earlier, which in the code are the same objects and change with it; the `webSearchService.clone` call it starts is not modelled.
- `ImageAttachment.AttachmentOf`: a reader result that is null is modelled as no contents; an empty buffer is still an attachment.
- `ImageUpload`: upload progress events, the float division and `Math.round` are not modelled (progress is only reset); FormData, the endpoint and the XHR transport are replaced by the `XhrOutcome`.
- `ImageUpload.RequestResult`: a 2xx body without `imageUrl` is treated as the invalid-response error; the code would pass `undefined` on.
- `ImageUpload.ImageUploadHook.UploadImage`: uses the corrected `ImageUpload.Settle` (see Findings).
- `ImageUpload.ImageUploadComponent.UploadFile`: uses the corrected `ImageUpload.Settle` (see Findings), so a non-2xx status sets the error and ends the upload.
- `ImageUpload.ValidateFile`: the limit `maxSizeInMB` is a whole number of megabytes; a fractional limit, and its decimal rendering in the size message, are not modelled.
- `ImageUpload.ImageUploadComponent.HandleFileChange`: the preview url is set at once rather than when the reader finishes.
- Build scripts, React rendering, styles and icons are not modelled.

## Findings

| source | as written | input that shows it | evidently intended | confidence | as-written member | corrected member |
|---|---|---|---|---|---|---|
| src/vs/workbench/contrib/void/common/imageService.ts:54,105 | `case 'openai'` while the provider key is `openAI` | provider OpenAI with one image | OpenAI gets `image_url` parts | not executed | ImageService.DialectAsWritten | ImageService.ImageDialect |
| src/vs/workbench/contrib/void/browser/smartSearchServiceImpl.ts:182 | `c\+\+\b` needs a word character right after `+` | query `c++` | language filter `c++`: the name ends at a `\b` or where no word character follows, so `c++17` still matches | not executed | SmartSearch.LanguageAsWritten | SmartSearch.Language |
| src/vs/workbench/contrib/void/browser/react/src/chat/ChatInputWithSymbols.tsx:1-5,59 | `formatContextReference` is called but never imported | text `@fo`, cursor 3, any selection | the reference is spliced in | not executed | ChatInputWithSymbols.SelectionAsWritten | ChatInputWithSymbols.ChatInput.SelectCompletion |
| src/vs/workbench/contrib/void/browser/sidebarPane.ts:172-192 | the image is added to the copied message and then again in the map | any image added to a user message | the image appended once | not executed | SidebarPane.AddImageAsWritten | SidebarPane.AddImage |
| src/vs/workbench/contrib/void/browser/react/src/util/imageUpload.tsx:84-92,227-235 | a non-2xx status throws inside the load listener, outside the `try` | upload answered with status 404 | error set, upload ended, error reported | not executed | ImageUpload.SettleAsWritten | ImageUpload.Settle |
