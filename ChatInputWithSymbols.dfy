/** The chat composer's text box: typing, choosing a completion (which
    replaces the `@` token before the cursor with the formatted reference),
    and submitting with Enter. */
module ChatInputWithSymbols {
  import opened Wrappers
  import opened Text
  import opened AtSymbol
  import opened FileExplorer
  import opened AtSymbolServiceImpl

  /** The splice of `handleAtSymbolSelection`: the `@` token that ends at
      the cursor (the match of `/@([^\s]*)$/` on the text before it) is
      replaced by `reference` and one space, and the cursor goes right
      after that space. `None` when there is no such token. */
  function Splice(text: string, cursor: int, reference: string): (r: Option<(string, nat)>)
    ensures r.None? <==> forall p :: !IsAnchor(text[..Clamp(cursor, |text|)], p)
  {
    var c := Clamp(cursor, |text|);
    match TrailingAnchor(text[..c])
    case None => None
    case Some(start) => Some((text[..start] + reference + " " + text[c..], start + |reference| + 1))
  }

  /** What the splice replaces and what it keeps: the token runs from an
      `@` to the cursor with no whitespace in it; the text before the token
      and after the cursor is kept exactly; the reference and one space sit
      in between; and the new cursor is right after that space. */
  lemma SpliceShape(text: string, cursor: int, reference: string)
    requires Splice(text, cursor, reference).Some?
    ensures
      var c := Clamp(cursor, |text|);
      var start := TrailingAnchor(text[..c]).value;
      var t := Splice(text, cursor, reference).value.0;
      var pos := Splice(text, cursor, reference).value.1;
      && start < c && text[start] == '@' && NoSpace(text[start + 1..c])
      && |t| == start + |reference| + 1 + (|text| - c)
      && t[..start] == text[..start]
      && t[start..start + |reference|] == reference
      && t[start + |reference|] == ' '
      && pos == start + |reference| + 1
      && t[pos..] == text[c..]
  {
    var c := Clamp(cursor, |text|);
    var before := text[..c];
    var start := TrailingAnchor(before).value;
    assert text[start] == before[start];
    assert text[start + 1..c] == before[start + 1..];
    var t := Splice(text, cursor, reference).value.0;
    assert t == text[..start] + reference + " " + text[c..];
    assert t[start..start + |reference|] == reference;
  }

  /** The token replaced is the longest one: no `@` further left is
      followed only by non-whitespace up to the cursor. */
  lemma SpliceLeftmost(text: string, cursor: int, reference: string, j: int)
    requires Splice(text, cursor, reference).Some?
    requires 0 <= j < TrailingAnchor(text[..Clamp(cursor, |text|)]).value
    ensures !IsAnchor(text[..Clamp(cursor, |text|)], j)
  {
  }

  /** The inserted reference is read back by the scanner at the token's
      position, with the chosen kind and value. */
  lemma SpliceScansBack(text: string, cursor: int, ctx: AtSymbolContext)
    requires |ctx.value| > 0 && NoSpace(ctx.value)
    requires Splice(text, cursor, FormatContextReference(ctx)).Some?
    ensures
      var start := TrailingAnchor(text[..Clamp(cursor, |text|)]).value;
      var t := Splice(text, cursor, FormatContextReference(ctx)).value.0;
      MatchAt(t, start) ==
        Some(AtSymbolMatch(start, start + |FormatContextReference(ctx)|, ctx.value, Some(ctx.kind)))
  {
    var reference := FormatContextReference(ctx);
    SpliceShape(text, cursor, reference);
    var start := TrailingAnchor(text[..Clamp(cursor, |text|)]).value;
    var t := Splice(text, cursor, reference).value.0;
    assert IsSpace(t[start + |reference|]);
    ReferenceMatchAt(t, start, ctx);
  }

  /** As written, `handleAtSymbolSelection` calls `formatContextReference`,
      which the component does not import: once a token is found the call
      throws a `ReferenceError` before any state is set. */
  function SelectionAsWritten(text: string, cursor: int, textareaMounted: bool): (r: Result<Option<(string, nat)>, string>)
  {
    if !textareaMounted then Ok(None)
    else if TrailingAnchor(text[..Clamp(cursor, |text|)]).None? then Ok(None)
    else Err("ReferenceError: formatContextReference is not defined")
  }

  /** Whenever there is a token to replace, the selection as written fails. */
  lemma SelectionAsWrittenFails(text: string, cursor: int, ctx: AtSymbolContext)
    requires Splice(text, cursor, FormatContextReference(ctx)).Some?
    ensures SelectionAsWritten(text, cursor, true).Err?
  {
  }

  class ChatInput {
    var inputText: string
    var cursorPosition: int
    var contexts: seq<AtSymbolContext>

    constructor()
      ensures inputText == "" && cursorPosition == 0 && contexts == []
    {
      inputText := "";
      cursorPosition := 0;
      contexts := [];
    }

    /** `handleInputChange`: the text box's value and selection start. */
    method InputChange(value: string, selectionStart: int)
      modifies this
      ensures inputText == value && cursorPosition == selectionStart && contexts == old(contexts)
    {
      inputText := value;
      cursorPosition := selectionStart;
    }

    /** `handleAtSymbolSelection` with `formatContextReference` in scope:
      nothing happens without a mounted text box or a token before the
      cursor; otherwise the token is replaced, the context appended and
      the cursor moved after the inserted space. */
    method SelectCompletion(ctx: AtSymbolContext, textareaMounted: bool)
      modifies this
      ensures var r := Splice(old(inputText), old(cursorPosition), FormatContextReference(ctx));
        if textareaMounted && r.Some? then
          inputText == r.value.0 && cursorPosition == r.value.1 && contexts == old(contexts) + [ctx]
        else
          inputText == old(inputText) && cursorPosition == old(cursorPosition) && contexts == old(contexts)
    {
      if !textareaMounted {
        return;
      }
      var beforeCursor := inputText[..Clamp(cursorPosition, |inputText|)];
      var atMatch := TrailingAnchor(beforeCursor);
      if atMatch.Some? {
        var startIndex := atMatch.value;
        var beforeAt := inputText[..startIndex];
        var afterCursor := inputText[Clamp(cursorPosition, |inputText|)..];
        var contextText := FormatContextReference(ctx);
        var newText := beforeAt + contextText + " " + afterCursor;
        inputText := newText;
        contexts := contexts + [ctx];
        var newPosition := startIndex + |contextText| + 1;
        cursorPosition := newPosition;
      }
    }

    /** `handleKeyDown`: Enter without Shift on text that is not blank hands
      the processed text and its contexts to `onSubmit` (returned here) and
      clears the text and the contexts; anything else does nothing. */
    method KeyDown(isEnter: bool, shiftKey: bool, service: AtSymbolService, ws: Workspace)
      returns (submitted: Option<(string, seq<AtSymbolContext>)>)
      requires service.Valid()
      modifies this, service
      ensures service.Valid()
      ensures isEnter && !shiftKey && !IsBlank(old(inputText)) ==>
        && submitted.Some?
        && submitted.value.0 == old(inputText)
        && (submitted.value.1, service.linkContextCache) ==
           ResolveAll(service.pf, ws, old(service.linkContextCache), Scan(old(inputText)))
        && inputText == "" && contexts == [] && cursorPosition == old(cursorPosition)
      ensures !(isEnter && !shiftKey && !IsBlank(old(inputText))) ==>
        && submitted.None?
        && inputText == old(inputText) && contexts == old(contexts) && cursorPosition == old(cursorPosition)
        && service.linkContextCache == old(service.linkContextCache)
      ensures service.browser == old(service.browser) && service.closedBrowsers == old(service.closedBrowsers)
    {
      submitted := None;
      if isEnter && !shiftKey {
        if !IsBlank(inputText) {
          var text, resolved := service.ProcessText(inputText, ws);
          submitted := Some((text, resolved));
          inputText := "";
          contexts := [];
        }
      }
    }
  }
}
