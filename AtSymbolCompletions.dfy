/** The completion popup of the chat composer: the list of completions, the
    highlighted entry and whether the popup shows, driven by refreshes, the
    arrow keys, Enter, Escape and clicks. */
module AtSymbolCompletions {
  import opened Wrappers
  import opened AtSymbol

  datatype Key = ArrowDown | ArrowUp | Enter | Escape | OtherKey

  /** `(i + 1) % n`: the next entry, wrapping to the first. */
  function NextIndex(i: nat, n: nat): (j: nat)
    requires i < n
    ensures j < n
    ensures j == if i + 1 == n then 0 else i + 1
  {
    (i + 1) % n
  }

  /** `(i - 1 + n) % n`: the previous entry, wrapping to the last. */
  function PrevIndex(i: nat, n: nat): (j: nat)
    requires i < n
    ensures j < n
    ensures j == if i == 0 then n - 1 else i - 1
  {
    (i - 1 + n) % n
  }

  /** ArrowUp undoes ArrowDown and the other way round. */
  lemma ArrowKeysInverse(i: nat, n: nat)
    requires i < n
    ensures PrevIndex(NextIndex(i, n), n) == i
    ensures NextIndex(PrevIndex(i, n), n) == i
  {
  }

  /** `k` presses of ArrowDown from `i`. */
  function Down(i: nat, n: nat, k: nat): (j: nat)
    requires i < n
    ensures j < n
  {
    if k == 0 then i else NextIndex(Down(i, n, k - 1), n)
  }

  /** Pressing ArrowDown `k <= n` times moves the highlight `k` places,
      wrapping past the last entry to the first. */
  lemma {:induction false} DownWraps(i: nat, n: nat, k: nat)
    requires i < n && k <= n
    ensures Down(i, n, k) == if i + k < n then i + k else i + k - n
  {
    if k > 0 {
      DownWraps(i, n, k - 1);
    }
  }

  /** `n` presses of ArrowDown bring the highlight back where it started. */
  lemma DownFullCircle(i: nat, n: nat)
    requires i < n
    ensures Down(i, n, n) == i
  {
    DownWraps(i, n, n);
  }

  class CompletionPopup {
    var completions: seq<AtSymbolContext>
    var selectedIndex: int
    var isVisible: bool

    /** The highlight is never negative and lies in the list unless the list
        is empty; the popup shows only a non-empty list. */
    ghost predicate Valid()
      reads this
    {
      && 0 <= selectedIndex
      && (selectedIndex < |completions| || selectedIndex == 0)
      && (isVisible ==> |completions| > 0)
    }

    constructor()
      ensures completions == [] && selectedIndex == 0 && !isVisible
      ensures Valid()
    {
      completions := [];
      selectedIndex := 0;
      isVisible := false;
    }

    /** The effect that runs when the text or cursor changes, given what
        `getCompletions` returned. */
    method Refresh(results: seq<AtSymbolContext>)
      modifies this
      ensures completions == results
      ensures isVisible <==> |results| > 0
      ensures selectedIndex == 0
      ensures Valid()
    {
      completions := results;
      isVisible := |results| > 0;
      selectedIndex := 0;
    }

    /** `handleKeyDown`: the completion chosen with Enter, if any. */
    method KeyDown(key: Key) returns (selected: Option<AtSymbolContext>)
      requires Valid()
      modifies this
      ensures Valid()
      ensures completions == old(completions)
      ensures !old(isVisible) ==>
        selected.None? && selectedIndex == old(selectedIndex) && isVisible == old(isVisible)
      ensures old(isVisible) && key == ArrowDown ==>
        selected.None? && isVisible && selectedIndex == NextIndex(old(selectedIndex), |completions|)
      ensures old(isVisible) && key == ArrowUp ==>
        selected.None? && isVisible && selectedIndex == PrevIndex(old(selectedIndex), |completions|)
      ensures old(isVisible) && key == Enter ==>
        selected == Some(completions[old(selectedIndex)]) && !isVisible && selectedIndex == old(selectedIndex)
      ensures old(isVisible) && key == Escape ==>
        selected.None? && !isVisible && selectedIndex == old(selectedIndex)
      ensures key == OtherKey ==>
        selected.None? && isVisible == old(isVisible) && selectedIndex == old(selectedIndex)
    {
      selected := None;
      if !isVisible {
        return;
      }
      match key {
        case ArrowDown =>
          selectedIndex := NextIndex(selectedIndex, |completions|);
        case ArrowUp =>
          selectedIndex := PrevIndex(selectedIndex, |completions|);
        case Enter =>
          if 0 <= selectedIndex < |completions| {
            selected := Some(completions[selectedIndex]);
            isVisible := false;
          }
        case Escape =>
          isVisible := false;
        case OtherKey =>
      }
    }

    /** A click on the entry at `index`; entries exist only while the popup shows. */
    method Click(index: int) returns (selected: Option<AtSymbolContext>)
      requires Valid()
      modifies this
      ensures Valid()
      ensures completions == old(completions) && selectedIndex == old(selectedIndex)
      ensures old(isVisible) && 0 <= index < |completions| ==>
        selected == Some(completions[index]) && !isVisible
      ensures !(old(isVisible) && 0 <= index < |completions|) ==>
        selected.None? && isVisible == old(isVisible)
    {
      selected := None;
      if isVisible && 0 <= index < |completions| {
        selected := Some(completions[index]);
        isVisible := false;
      }
    }
  }
}
