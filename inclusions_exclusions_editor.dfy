/** The inclusions (or exclusions) editor: catalogue items ticked on and
    off, custom items typed in, and items removed from the selection. */
module InclusionsExclusionsEditor {
  import opened JsValue
  import opened JsText
  import opened Collections

  /** A catalogue item's checkbox is ticked exactly when the item is selected. */
  predicate IsChecked(items: seq<string>, item: string) {
    item in items
  }

  /** `handleToggleItem`: a selected item is taken out, every copy of it;
      an unselected one is appended. Either way its checkbox flips and no
      other item's does. */
  function Toggle(items: seq<string>, item: string): (r: seq<string>)
    ensures IsChecked(r, item) <==> !IsChecked(items, item)
    ensures forall other :: other != item ==> (IsChecked(r, other) <==> IsChecked(items, other))
    ensures item in items ==> r == RemoveAll(items, item)
    ensures item !in items ==> r == items + [item]
  {
    RemoveAllMembership(items, item);
    if item in items then RemoveAll(items, item) else items + [item]
  }

  /** Ticking an unselected item and unticking it again restores the list. */
  lemma ToggleTwiceRestores(items: seq<string>, item: string)
    requires item !in items
    ensures Toggle(Toggle(items, item), item) == items
  {
    assert item in items + [item];
    RemoveAllOfAppended(items, item);
  }

  lemma {:induction false} RemoveAllOfAppended(items: seq<string>, item: string)
    requires item !in items
    ensures RemoveAll(items + [item], item) == items
    decreases |items|
  {
    if items == [] {
      assert items + [item] == [item];
    } else {
      var t := items[1..] + [item];
      assert items + [item] == [items[0]] + t;
      RemoveAllCons(items[0], t, item);
      RemoveAllOfAppended(items[1..], item);
      assert items == [items[0]] + items[1..];
    }
  }

  /** An element other than the removed one stays in front. */
  lemma RemoveAllCons(h: string, t: seq<string>, item: string)
    requires h != item
    ensures RemoveAll([h] + t, item) == [h] + RemoveAll(t, item)
  {
    assert ([h] + t)[1..] == t;
  }

  /** Unticking a selected item and ticking it again leaves exactly one
      copy of it, moved to the end. */
  lemma ToggleTwiceMovesToEnd(items: seq<string>, item: string)
    requires item in items
    ensures Toggle(Toggle(items, item), item) == RemoveAll(items, item) + [item]
    ensures Count(Toggle(Toggle(items, item), item), item) == 1
  {
    RemoveAllThenAppend(items, item);
  }

  /** `handleRemoveItem`: every copy of the item goes, the other items stay
      in order with their multiplicities. */
  function RemoveItem(items: seq<string>, item: string): (r: seq<string>)
    ensures item !in r
    ensures multiset(r) == multiset(items)[item := 0]
    ensures IsSubsequence(r, items)
  {
    RemoveAllKeepsOthers(items, item);
    RemoveAll(items, item)
  }

  /** Removing a selected item is the same as unticking it. */
  lemma RemoveIsUntick(items: seq<string>, item: string)
    requires IsChecked(items, item)
    ensures RemoveItem(items, item) == Toggle(items, item)
  {
  }

  /** `handleAddCustomItem` on the list: a non-blank input is appended
      trimmed, a blank one changes nothing. */
  function AddCustomItem(items: seq<string>, newItem: string): (r: seq<string>)
    ensures IsBlank(newItem) ==> r == items
    ensures !IsBlank(newItem) ==> |r| == |items| + 1 && r[..|items|] == items && r[|items|] == Trim(newItem)
  {
    if !IsBlank(newItem) then items + [Trim(newItem)] else items
  }

  /** What a custom item adds is never blank and carries no white space at
      either end. */
  lemma CustomItemIsTrimmed(items: seq<string>, newItem: string)
    requires !IsBlank(newItem)
    ensures var added := AddCustomItem(items, newItem)[|items|];
      added != "" && !IsWhitespace(added[0]) && !IsWhitespace(added[|added| - 1])
  {
    TrimProperties(newItem);
  }

  /** There is no de-duplication: a custom item equal to a selected one,
      typed with a space on either side, is added a second time. */
  lemma CustomItemMayDuplicate(items: seq<string>, w: string)
    requires w in items && w != [] && !IsWhitespace(w[0]) && !IsWhitespace(w[|w| - 1])
    ensures AddCustomItem(items, [' '] + w + [' ']) == items + [w]
  {
    TrimOfPadded(w);
    var s := [' '] + w + [' '];
    assert s[1] == w[0];
  }

  /** One space on either side of a word is trimmed away. */
  lemma TrimOfPadded(w: string)
    requires w != [] && !IsWhitespace(w[0]) && !IsWhitespace(w[|w| - 1])
    ensures Trim([' '] + w + [' ']) == w
  {
    var s := [' '] + w + [' '];
    TrimStartAt(s, 1);
    assert s[1..] == w + [' '];
    assert (w + [' '])[..|w|] == w;
  }

  /** The editor's own state: the text of the custom-item input. */
  class CustomItemInput {
    var newItem: string

    constructor ()
      ensures newItem == ""
    {
      newItem := "";
    }

    /** Typing into the input. */
    method SetNewItem(text: string)
      modifies this
      ensures newItem == text
    {
      newItem := text;
    }

    /** The Add button is disabled while the input is blank. */
    predicate AddDisabled()
      reads this
    {
      IsBlank(newItem)
    }

    /** `handleAddCustomItem` (the Add button or Enter): with a non-blank
        input, hand the list with the trimmed text appended to the parent
        and clear the input; with a blank one, do nothing. */
    method HandleAddCustomItem(items: seq<string>) returns (emitted: Option<seq<string>>)
      modifies this
      ensures old(IsBlank(newItem)) ==> emitted.None? && newItem == old(newItem)
      ensures !old(IsBlank(newItem)) ==> emitted == Some(AddCustomItem(items, old(newItem))) && newItem == ""
    {
      if !IsBlank(newItem) {
        emitted := Some(items + [Trim(newItem)]);
        newItem := "";
      } else {
        emitted := None;
      }
    }
  }
}
