/** The main command: only enabled prompts are listed; create, toggle and delete act on the stored
    list. Each handler gives the list it stores and the search text it sets. */
module IndexCommand {
  import opened Wrappers
  import opened Prompts

  /** The stored list (absent while storage holds none) and the search text. */
  datatype Screen = Screen(prompts: Option<seq<Prompt>>, searchText: string)

  /** `filteredPrompts`: exactly the enabled stored prompts, in stored order. */
  function Shown(screen: Screen): (r: seq<Prompt>)
    ensures screen.prompts.None? ==> r == []
    ensures IsSubsequence(r, OrEmpty(screen.prompts))
    ensures forall p :: p in r <==> p in OrEmpty(screen.prompts) && p.enabled
    ensures forall p :: multiset(r)[p] == if p.enabled then multiset(OrEmpty(screen.prompts))[p] else 0
  {
    WithStatusKeepsOrder(OrEmpty(screen.prompts), true);
    WithStatusCounts(OrEmpty(screen.prompts), true);
    WithStatusMembers(OrEmpty(screen.prompts), true);
    WithStatus(OrEmpty(screen.prompts), true)
  }

  /** `handleCreate`: stores the list with the new prompt at the end and clears the search; the new
      prompt is listed last exactly when it was created enabled. */
  function HandleCreate(screen: Screen, freshId: string, values: PromptValues): (r: Screen)
    ensures r.searchText == ""
    ensures r.prompts == Some(OrEmpty(screen.prompts) + [NewPrompt(freshId, values)])
    ensures Shown(r) == Shown(screen) + (if values.enabled then [NewPrompt(freshId, values)] else [])
  {
    var p := NewPrompt(freshId, values);
    WithStatusConcat(OrEmpty(screen.prompts), [p], true);
    assert WithStatus([p], true) == (if values.enabled then [p] else []) by {
      assert [p][1..] == [];
    }
    Screen(Some(Append(screen.prompts, p)), "")
  }

  /** A create with a fresh id keeps the stored ids unique. */
  lemma CreateKeepsUnique(screen: Screen, freshId: string, values: PromptValues)
    requires UniqueIds(OrEmpty(screen.prompts)) && freshId !in Ids(OrEmpty(screen.prompts))
    ensures UniqueIds(OrEmpty(HandleCreate(screen, freshId, values).prompts))
  {
    AppendKeepsUnique(OrEmpty(screen.prompts), NewPrompt(freshId, values));
  }

  /** The toggle action: flips `enabled` at position `index` of the whole stored list, though `index`
      is the item's position among the enabled prompts. Every id, title, content and tags stays. */
  function OnToggle(screen: Screen, index: int): (r: Screen)
    ensures r.searchText == screen.searchText
    ensures r.prompts == Some(ToggleAt(OrEmpty(screen.prompts), index))
    ensures r.prompts.Some? && |r.prompts.value| == |OrEmpty(screen.prompts)|
    ensures forall j :: 0 <= j < |OrEmpty(screen.prompts)| ==>
      var q, p := r.prompts.value[j], OrEmpty(screen.prompts)[j];
      q.id == p.id && q.title == p.title && q.content == p.content && q.tags == p.tags &&
      (q.enabled == p.enabled <==> j != index)
  {
    ToggleKeepsFields(OrEmpty(screen.prompts), index);
    Screen(Some(ToggleAt(OrEmpty(screen.prompts), index)), screen.searchText)
  }

  /** The delete action: removes position `index` of the whole stored list. */
  function OnDelete(screen: Screen, index: int): (r: Screen)
    ensures r.searchText == screen.searchText
    ensures r.prompts == Some(RemoveAt(OrEmpty(screen.prompts), index))
    ensures r.prompts.Some? && IsSubsequence(r.prompts.value, OrEmpty(screen.prompts))
    ensures |r.prompts.value| ==
      if 0 <= index < |OrEmpty(screen.prompts)| then |OrEmpty(screen.prompts)| - 1 else |OrEmpty(screen.prompts)|
  {
    RemoveKeepsOrder(OrEmpty(screen.prompts), index);
    Screen(Some(RemoveAt(OrEmpty(screen.prompts), index)), screen.searchText)
  }

  /** As written, deleting the first listed prompt of [disabled "a", enabled "b"] deletes the hidden
      "a" and "b" stays listed. */
  lemma DeleteFromListHitsAnother()
    ensures var a := Prompt("a", "A", "", None, false);
      var b := Prompt("b", "B", "", None, true);
      var screen := Screen(Some([a, b]), "");
      Shown(screen) == [b] &&
      OnDelete(screen, 0).prompts == Some([b]) &&
      Shown(OnDelete(screen, 0)) == [b]
  {
    var a := Prompt("a", "A", "", None, false);
    var b := Prompt("b", "B", "", None, true);
    assert [a, b][1..] == [b] && [b][1..] == [];
    assert WithStatus([b], true) == [b];
    assert RemoveAt([a, b], 0) == [b];
  }

  /** The toggle as intended: it disables the listed prompt at `k`, which leaves the list. */
  function ToggleShown(screen: Screen, k: nat): (r: Screen)
    requires k < |Shown(screen)|
    ensures var i := StoreIndex(OrEmpty(screen.prompts), true, k);
      OrEmpty(screen.prompts)[i] == Shown(screen)[k] && r == OnToggle(screen, i)
    ensures |Shown(r)| == |Shown(screen)| - 1
  {
    var s := OrEmpty(screen.prompts);
    var i := StoreIndex(s, true, k);
    ToggleMovesOne(s, i);
    OnToggle(screen, i)
  }

  /** The delete as intended: it removes the listed prompt at `k` and nothing else. */
  function DeleteShown(screen: Screen, k: nat): (r: Screen)
    requires k < |Shown(screen)|
    ensures r.prompts.Some?
    ensures multiset(r.prompts.value) + multiset{Shown(screen)[k]} == multiset(OrEmpty(screen.prompts))
    ensures multiset(Shown(r)) + multiset{Shown(screen)[k]} == multiset(Shown(screen))
    ensures r == OnDelete(screen, StoreIndex(OrEmpty(screen.prompts), true, k))
    ensures IsSubsequence(r.prompts.value, OrEmpty(screen.prompts))
  {
    var s := OrEmpty(screen.prompts);
    var i := StoreIndex(s, true, k);
    RemoveFromStatus(s, i, true);
    OnDelete(screen, i)
  }
}
