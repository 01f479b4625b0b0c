/** The searchable topic dropdown of statics/searchable-dropdown.js: typing
    filters and highlights the items, the arrow keys move a focus over the
    visible items, Enter picks the focused item and copies it into the
    hidden select element, Escape closes the list. The page elements the
    script reads and writes are the fields of `Dropdown`. */
module Dropdown {
  import opened Wrappers
  import opened Text

  const OpenTag := "<span class='highlight'>"
  const CloseTag := "</span>"

  const KeyDown := 40
  const KeyUp := 38
  const KeyEnter := 13
  const KeyEscape := 27

  // ----- highlightMatch -----

  /** Wraps the first case-insensitive occurrence of `filter` (upper case)
      in `text` in a highlight span; text without one is returned as is. */
  function HighlightMatch(text: string, filter: string): (r: string)
    ensures IndexOf(ToUpper(text), filter).None? ==> r == text
    ensures IndexOf(ToUpper(text), filter).Some? ==>
      var i := IndexOf(ToUpper(text), filter).value;
      i + |filter| <= |text|
      && r == text[..i] + OpenTag + text[i..i + |filter|] + CloseTag + text[i + |filter|..]
      && ToUpper(text[i..i + |filter|]) == filter
  {
    var start := IndexOf(ToUpper(text), filter);
    if start.Some? then
      var end := start.value + |filter|;
      assert ToUpper(text[start.value..end]) == ToUpper(text)[start.value..end];
      text[..start.value] + OpenTag + text[start.value..end] + CloseTag + text[end..]
    else text
  }

  /** `s` with its first occurrence of `pat` removed. */
  function RemoveFirst(s: string, pat: string): (r: string)
    ensures |r| <= |s|
  {
    match IndexOf(s, pat)
    case Some(i) => s[..i] + s[i + |pat|..]
    case None => s
  }

  /** The markup with the highlight span taken out again. */
  function Unhighlight(markup: string): string {
    RemoveFirst(RemoveFirst(markup, OpenTag), CloseTag)
  }

  lemma RemoveFirstAt(a: string, pat: string, b: string, k: nat)
    requires k < |pat| && pat[k] !in a && pat[k] !in pat[..k]
    ensures RemoveFirst(a + pat + b, pat) == a + b
  {
    FirstOccurrenceByChar(a, pat, k);
    var s := a + pat + b;
    assert s[|a|..|a| + |pat|] == pat;
    forall j | 0 <= j < |a| ensures !OccursAt(s, pat, j) {
      assert !OccursAt(a + pat, pat, j);
      assert s[j..j + |pat|] == (a + pat)[j..j + |pat|];
    }
    FirstOccurrence(s, pat, |a|);
    assert s[..|a|] == a && s[|a| + |pat|..] == b;
  }

  lemma RemoveOpenTag(pre: string, rest: string)
    requires '<' !in pre
    ensures RemoveFirst(pre + OpenTag + rest, OpenTag) == pre + rest
  {
    RemoveFirstAt(pre, OpenTag, rest, 0);
  }

  lemma RemoveCloseTag(pre: string, post: string)
    requires '<' !in pre
    ensures RemoveFirst(pre + CloseTag + post, CloseTag) == pre + post
  {
    RemoveFirstAt(pre, CloseTag, post, 0);
  }

  lemma UnhighlightParts(pre: string, mid: string, post: string)
    requires '<' !in pre && '<' !in mid
    ensures Unhighlight(pre + OpenTag + mid + CloseTag + post) == pre + mid + post
  {
    var rest := mid + CloseTag + post;
    assert pre + OpenTag + mid + CloseTag + post == pre + OpenTag + rest;
    RemoveOpenTag(pre, rest);
    assert pre + rest == (pre + mid) + CloseTag + post;
    assert '<' !in pre + mid;
    RemoveCloseTag(pre + mid, post);
  }

  /** Taking the span out of the highlighted text gives the text back, as
      long as the text has no '<' of its own; an item's text content is
      thus unchanged by highlighting. */
  lemma UnhighlightRoundTrip(text: string, filter: string)
    requires '<' !in text
    ensures Unhighlight(HighlightMatch(text, filter)) == text
  {
    var start := IndexOf(ToUpper(text), filter);
    if start.Some? {
      var i := start.value;
      var n := |filter|;
      var pre, mid, post := text[..i], text[i..i + n], text[i + n..];
      assert text == pre + mid + post;
      assert '<' !in pre && '<' !in mid by {
        assert forall c :: c in pre || c in mid ==> c in text;
      }
      UnhighlightParts(pre, mid, post);
    } else {
      assert '<' == OpenTag[0];
      AbsentByChar(text, OpenTag, 0);
      AbsentByChar(text, CloseTag, 0);
    }
  }

  /** An empty filter matches at the start: an empty span is put in front. */
  lemma EmptyFilterHighlight(text: string)
    ensures HighlightMatch(text, "") == OpenTag + CloseTag + text
  {
    assert OccursAt(ToUpper(text), "", 0);
    FirstOccurrence(ToUpper(text), "", 0);
    assert text[..0] + OpenTag + text[0..0] + CloseTag + text[0..] == OpenTag + CloseTag + text;
  }

  /** `filterFunction` keeps an item visible exactly when its upper-cased
      text contains the upper-cased input. */
  predicate Visible(text: string, input: string) {
    Contains(ToUpper(text), ToUpper(input))
  }

  // ----- focus movement -----

  /** The focus `addActive` settles on among `n` visible items: past the
      end wraps to the first, before the start to the last. */
  function Settle(f: int, n: nat): int {
    var g := if f >= n then 0 else f;
    if g < 0 then n - 1 else g
  }

  /** The focus after an arrow key moved it from `f` over `n` items. */
  function Moved(f: int, n: nat, key: int): (r: int)
    requires key == KeyDown || key == KeyUp
    ensures n > 0 ==> 0 <= r < n
  {
    Settle(if key == KeyDown then f + 1 else f - 1, n)
  }

  /** Down steps forward and wraps from the last item to the first; Up
      steps back and wraps from the first item, or from no focus, to the
      last. */
  lemma ArrowKeysCycle(f: int, n: nat)
    requires n > 0 && -1 <= f < n
    ensures Moved(f, n, KeyDown) == (f + 1) % n
    ensures Moved(f, n, KeyUp) == if f <= 0 then n - 1 else f - 1
  {
  }

  /** Down then Up, from a focused item, comes back to it. */
  lemma DownThenUp(f: int, n: nat)
    requires 0 <= f < n
    ensures Moved(Moved(f, n, KeyDown), n, KeyUp) == f
  {
  }

  /** The visible items' positions, in page order. */
  function VisibleIndices(displayed: seq<bool>): (r: seq<nat>)
    ensures forall j :: 0 <= j < |r| ==> r[j] < |displayed| && displayed[r[j]]
    ensures forall j, k :: 0 <= j < k < |r| ==> r[j] < r[k]
    ensures forall i :: 0 <= i < |displayed| && displayed[i] ==> i in r
    decreases |displayed|
  {
    if displayed == [] then []
    else
      var init := displayed[..|displayed| - 1];
      var last := |displayed| - 1;
      VisibleIndices(init) + (if displayed[last] then [last] else [])
  }

  /** The "selected" classes after `removeActive` has cleared them on the
      items at `ks`. */
  function Cleared(sel: seq<bool>, ks: seq<nat>): (r: seq<bool>)
    ensures |r| == |sel|
    ensures forall k :: 0 <= k < |sel| ==> r[k] == (k !in ks && sel[k])
  {
    seq(|sel|, k requires 0 <= k < |sel| => k !in ks && sel[k])
  }

  /** The outcome of a key press: handled, or a TypeError thrown by
      `addActive` when there is no visible item to focus. */
  datatype KeyOutcome = Handled | Threw

  class Dropdown {
    /** The items' text content, taken as fixed while the list is shown;
        re-reading it after a highlight gives it back when it holds no markup
        (see `UnhighlightRoundTrip`). */
    var texts: seq<string>
    /** `style.display !== "none"` per item. */
    var displayed: seq<bool>
    /** The items' inner HTML. */
    var markup: seq<string>
    /** The "selected" class per item. */
    var selected: seq<bool>
    /** The "show" class on the dropdown. */
    var open: bool
    var currentFocus: int
    /** The text input's value. */
    var inputValue: string
    /** The hidden select element's option texts and selected index. */
    var options: seq<string>
    var selectedIndex: int

    /** One display state, markup and class flag per item. */
    ghost predicate Shaped()
      reads this
    {
      |displayed| == |texts| && |markup| == |texts| && |selected| == |texts|
    }

    ghost predicate Valid()
      reads this
    {
      Shaped() && currentFocus >= -1
    }

    /** The page as loaded: every item visible and unfocused. */
    constructor (items: seq<string>, selectOptions: seq<string>, initialIndex: int)
      ensures Valid()
      ensures texts == items && markup == items && options == selectOptions
      ensures displayed == seq(|items|, i => true) && selected == seq(|items|, i => false)
      ensures !open && currentFocus == -1 && inputValue == "" && selectedIndex == initialIndex
    {
      texts := items;
      displayed := seq(|items|, i => true);
      markup := items;
      selected := seq(|items|, i => false);
      open := false;
      currentFocus := -1;
      inputValue := "";
      options := selectOptions;
      selectedIndex := initialIndex;
    }

    /** Closes the list and clears the keyboard focus. */
    method CloseDropdown()
      modifies this
      ensures !open && currentFocus == -1
      ensures texts == old(texts) && displayed == old(displayed) && markup == old(markup)
      ensures selected == old(selected) && inputValue == old(inputValue)
      ensures options == old(options) && selectedIndex == old(selectedIndex)
    {
      open := false;
      currentFocus := -1;
    }

    /** `filterFunction`: filters the items by the text typed into the
        input field. */
    method FilterFunction()
      requires Valid()
      modifies this
      ensures Valid()
      ensures texts == old(texts) && selected == old(selected)
      ensures inputValue == old(inputValue) && options == old(options) && selectedIndex == old(selectedIndex)
      ensures forall i :: 0 <= i < |texts| ==> displayed[i] == Visible(texts[i], inputValue)
      ensures forall i :: 0 <= i < |texts| ==>
        markup[i] == if displayed[i] then HighlightMatch(texts[i], ToUpper(inputValue)) else old(markup)[i]
      ensures open == (ToUpper(inputValue) == [] || exists i :: 0 <= i < |texts| && displayed[i])
      ensures currentFocus == if open then old(currentFocus) else -1
    {
      var input := inputValue;
      var filter := ToUpper(input);
      for i := 0 to |texts|
        invariant Valid() && texts == old(texts) && selected == old(selected)
        invariant currentFocus == old(currentFocus) && open == old(open)
        invariant inputValue == old(inputValue) && options == old(options) && selectedIndex == old(selectedIndex)
        invariant forall k :: 0 <= k < i ==> displayed[k] == Visible(texts[k], input)
        invariant forall k :: 0 <= k < i ==>
          markup[k] == if displayed[k] then HighlightMatch(texts[k], filter) else old(markup)[k]
        invariant forall k :: i <= k < |texts| ==> markup[k] == old(markup)[k]
      {
        var txtValue := texts[i];
        if IndexOf(ToUpper(txtValue), filter).Some? {
          displayed := displayed[i := true];
          markup := markup[i := HighlightMatch(txtValue, filter)];
        } else {
          displayed := displayed[i := false];
        }
      }
      if filter == [] || exists i :: 0 <= i < |texts| && displayed[i] {
        open := true;
      } else {
        CloseDropdown();
      }
    }

    /** `removeActive` over the visible items `vis`. */
    method RemoveActive(vis: seq<nat>)
      requires Shaped()
      modifies this
      ensures Shaped()
      ensures selected == Cleared(old(selected), vis)
      ensures texts == old(texts) && displayed == old(displayed) && markup == old(markup)
      ensures open == old(open) && currentFocus == old(currentFocus) && inputValue == old(inputValue)
      ensures options == old(options) && selectedIndex == old(selectedIndex)
    {
      for i := 0 to |vis|
        invariant Shaped() && |selected| == |old(selected)|
        invariant selected == Cleared(old(selected), vis[..i])
        invariant texts == old(texts) && displayed == old(displayed) && markup == old(markup)
        invariant open == old(open) && currentFocus == old(currentFocus) && inputValue == old(inputValue)
        invariant options == old(options) && selectedIndex == old(selectedIndex)
      {
        if vis[i] < |selected| {
          selected := selected[vis[i] := false];
        }
        assert vis[..i + 1] == vis[..i] + [vis[i]];
      }
      assert vis[..|vis|] == vis;
    }

    /** `addActive` over the visible items `vis`. */
    method AddActive(vis: seq<nat>) returns (outcome: KeyOutcome)
      requires Shaped()
      requires forall j :: 0 <= j < |vis| ==> vis[j] < |texts|
      modifies this
      ensures Valid()
      ensures currentFocus == Settle(old(currentFocus), |vis|)
      ensures outcome == (if |vis| == 0 then Threw else Handled)
      ensures selected == if |vis| == 0 then old(selected)
                          else Cleared(old(selected), vis)[vis[currentFocus] := true]
      ensures texts == old(texts) && displayed == old(displayed) && markup == old(markup)
      ensures open == old(open) && inputValue == old(inputValue)
      ensures options == old(options) && selectedIndex == old(selectedIndex)
    {
      RemoveActive(vis);
      if currentFocus >= |vis| {
        currentFocus := 0;
      }
      if currentFocus < 0 {
        currentFocus := |vis| - 1;
      }
      if |vis| == 0 {
        assert Cleared(old(selected), vis) == old(selected);
        return Threw;
      }
      selected := selected[vis[currentFocus] := true];
      outcome := Handled;
    }

    /** `updateSelectElement`: select the first option whose text is
        `value`, if any. */
    method UpdateSelectElement(value: string)
      modifies this
      ensures selectedIndex == match FirstIndex(options, value)
                               case Some(i) => i as int
                               case None => old(selectedIndex)
      ensures texts == old(texts) && displayed == old(displayed) && markup == old(markup)
      ensures selected == old(selected) && open == old(open) && currentFocus == old(currentFocus)
      ensures inputValue == old(inputValue) && options == old(options)
    {
      var i := 0;
      while i < |options|
        invariant 0 <= i <= |options|
        invariant value !in options[..i]
        invariant selectedIndex == old(selectedIndex)
      {
        if options[i] == value {
          selectedIndex := i;
          FirstIndexAt(options, value, i);
          return;
        }
        assert options[..i + 1] == options[..i] + [options[i]];
        i := i + 1;
      }
      assert options[..i] == options;
      FirstIndexAbsent(options, value);
    }

    /** `selectItem` for an item with text `text`. */
    method SelectItem(text: string)
      requires Valid()
      modifies this
      ensures Valid()
      ensures inputValue == text && !open && currentFocus == -1
      ensures selectedIndex == match FirstIndex(options, text)
                               case Some(i) => i as int
                               case None => old(selectedIndex)
      ensures texts == old(texts) && displayed == old(displayed) && markup == old(markup)
      ensures selected == old(selected) && options == old(options)
    {
      inputValue := text;
      CloseDropdown();
      UpdateSelectElement(inputValue);
    }

    /** `handleKeyDown` for a key with code `key`. */
    method HandleKeyDown(key: int) returns (outcome: KeyOutcome)
      requires Valid()
      modifies this
      ensures Valid()
      ensures texts == old(texts) && displayed == old(displayed) && markup == old(markup)
      ensures options == old(options)
      ensures var vis := VisibleIndices(old(displayed));
        if key == KeyDown || key == KeyUp then
          && currentFocus == Moved(old(currentFocus), |vis|, key)
          && outcome == (if |vis| == 0 then Threw else Handled)
          && selected == (if |vis| == 0 then old(selected)
                          else Cleared(old(selected), vis)[vis[currentFocus] := true])
          && open == old(open) && inputValue == old(inputValue) && selectedIndex == old(selectedIndex)
        else if key == KeyEnter && 0 <= old(currentFocus) < |vis| then
          && outcome == Handled && selected == old(selected)
          && inputValue == old(texts)[vis[old(currentFocus)]] && !open && currentFocus == -1
          && selectedIndex == match FirstIndex(old(options), inputValue)
                              case Some(i) => i as int
                              case None => old(selectedIndex)
        else if key == KeyEscape then
          && outcome == Handled && selected == old(selected)
          && !open && currentFocus == -1
          && inputValue == old(inputValue) && selectedIndex == old(selectedIndex)
        else
          && outcome == Handled && selected == old(selected)
          && open == old(open) && currentFocus == old(currentFocus)
          && inputValue == old(inputValue) && selectedIndex == old(selectedIndex)
    {
      var items := VisibleIndices(displayed);
      outcome := Handled;
      if key == KeyDown {
        currentFocus := currentFocus + 1;
        outcome := AddActive(items);
      } else if key == KeyUp {
        currentFocus := currentFocus - 1;
        outcome := AddActive(items);
      } else if key == KeyEnter {
        if currentFocus > -1 {
          if currentFocus < |items| {
            SelectItem(texts[items[currentFocus]]);
            CloseDropdown();
          }
        }
      } else if key == KeyEscape {
        CloseDropdown();
      }
    }
  }

  /** The position of the first occurrence of `x` in `xs`. */
  function FirstIndex(xs: seq<string>, x: string): (r: Option<nat>)
    ensures r.None? <==> x !in xs
    ensures r.Some? ==> r.value < |xs| && xs[r.value] == x && x !in xs[..r.value]
    decreases |xs|
  {
    if xs == [] then None
    else if xs[0] == x then Some(0)
    else match FirstIndex(xs[1..], x)
      case Some(i) => assert xs[..i + 1] == [xs[0]] + xs[1..][..i]; Some(i + 1)
      case None => None
  }

  lemma FirstIndexAt(xs: seq<string>, x: string, i: nat)
    requires i < |xs| && xs[i] == x && x !in xs[..i]
    ensures FirstIndex(xs, x) == Some(i)
  {
    assert x in xs;
    var r := FirstIndex(xs, x).value;
    assert forall k :: 0 <= k < i ==> xs[k] != x by {
      forall k | 0 <= k < i ensures xs[k] != x {
        assert xs[..i][k] == xs[k] && xs[..i][k] in xs[..i];
      }
    }
    assert forall k :: 0 <= k < r ==> xs[k] != x by {
      forall k | 0 <= k < r ensures xs[k] != x {
        assert xs[..r][k] == xs[k] && xs[..r][k] in xs[..r];
      }
    }
  }

  lemma FirstIndexAbsent(xs: seq<string>, x: string)
    requires x !in xs
    ensures FirstIndex(xs, x) == None
  {
  }

  /** After an arrow key over a non-empty list, exactly the focused visible
      item carries the "selected" class. */
  lemma ExactlyFocusedSelected(sel: seq<bool>, vis: seq<nat>, f: nat)
    requires f < |vis|
    requires forall j :: 0 <= j < |vis| ==> vis[j] < |sel|
    requires forall j, k :: 0 <= j < k < |vis| ==> vis[j] < vis[k]
    ensures forall j :: 0 <= j < |vis| ==> Cleared(sel, vis)[vis[f] := true][vis[j]] == (j == f)
  {
    forall j | 0 <= j < |vis| ensures Cleared(sel, vis)[vis[f] := true][vis[j]] == (j == f) {
      if j != f {
        assert vis[j] != vis[f];
        assert vis[j] in vis;
      }
    }
  }
}
