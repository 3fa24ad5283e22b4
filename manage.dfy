/** The "manage prompts" command: the stored list with a status filter, create, edit, toggle and
    delete. Each handler gives the list it stores and the view state it sets. */
module ManageCommand {
  import opened Wrappers
  import opened Prompts

  datatype Filter = All | Enabled | Disabled

  datatype State = State(filter: Filter, searchText: string)

  /** The stored list (absent while storage holds none) and the view state. */
  datatype Screen = Screen(prompts: Option<seq<Prompt>>, state: State)

  /** Whether the status filter lets `p` through. */
  predicate Passes(filter: Filter, p: Prompt)
  {
    match filter
    case All => true
    case Enabled => p.enabled
    case Disabled => !p.enabled
  }

  /** `filteredPrompts`: the stored prompts the status filter lets through, in stored order. */
  function FilteredPrompts(screen: Screen): (r: seq<Prompt>)
    ensures IsSubsequence(r, OrEmpty(screen.prompts))
    ensures forall p :: p in r <==> p in OrEmpty(screen.prompts) && Passes(screen.state.filter, p)
    ensures forall p :: multiset(r)[p] == if Passes(screen.state.filter, p) then multiset(OrEmpty(screen.prompts))[p] else 0
    ensures screen.state.filter == All ==> r == OrEmpty(screen.prompts)
  {
    var s := OrEmpty(screen.prompts);
    match screen.state.filter
    case Enabled =>
      WithStatusKeepsOrder(s, true); WithStatusMembers(s, true); WithStatusCounts(s, true);
      WithStatus(s, true)
    case Disabled =>
      WithStatusKeepsOrder(s, false); WithStatusMembers(s, false); WithStatusCounts(s, false);
      WithStatus(s, false)
    case All => SubsequenceReflexive(s); s
  }

  /** The Enabled view and the Disabled view split the All view between them. */
  lemma ViewsPartition(prompts: Option<seq<Prompt>>, searchText: string)
    ensures var all := FilteredPrompts(Screen(prompts, State(All, searchText)));
      var enabled := FilteredPrompts(Screen(prompts, State(Enabled, searchText)));
      var disabled := FilteredPrompts(Screen(prompts, State(Disabled, searchText)));
      |enabled| + |disabled| == |all| && multiset(enabled) + multiset(disabled) == multiset(all)
  {
    StatusPartition(OrEmpty(prompts));
  }

  /** `handleCreate`: stores the list with the new prompt at the end and resets the view to every
      prompt with an empty search, so the new prompt is the last one shown. */
  function HandleCreate(screen: Screen, freshId: string, values: PromptValues): (r: Screen)
    ensures r.state == State(All, "")
    ensures r.prompts.Some?
    ensures FilteredPrompts(r) == OrEmpty(screen.prompts) + [NewPrompt(freshId, values)]
  {
    Screen(Some(Append(screen.prompts, NewPrompt(freshId, values))), State(All, ""))
  }

  /** A create with a fresh id keeps the stored ids unique. */
  lemma CreateKeepsUnique(screen: Screen, freshId: string, values: PromptValues)
    requires UniqueIds(OrEmpty(screen.prompts)) && freshId !in Ids(OrEmpty(screen.prompts))
    ensures UniqueIds(OrEmpty(HandleCreate(screen, freshId, values).prompts))
  {
    AppendKeepsUnique(OrEmpty(screen.prompts), NewPrompt(freshId, values));
  }

  /** The `map` in `handleEdit`: every entry with the edited id takes its title, content, enabled and
      tags, which makes it equal to the edited prompt. */
  function Edit(s: seq<Prompt>, edited: Prompt): (r: seq<Prompt>)
    ensures |r| == |s| && Ids(r) == Ids(s)
    ensures forall i :: 0 <= i < |s| ==> r[i] == if s[i].id == edited.id then edited else s[i]
  {
    seq(|s|, i requires 0 <= i < |s| =>
      if s[i].id == edited.id
      then s[i].(title := edited.title, content := edited.content, enabled := edited.enabled, tags := edited.tags)
      else s[i])
  }

  /** `handleEdit`: an absent list becomes `[]`; the view state is kept. */
  function HandleEdit(screen: Screen, edited: Prompt): (r: Screen)
    ensures r.state == screen.state
    ensures r.prompts == Some(Edit(OrEmpty(screen.prompts), edited))
    ensures r.prompts.Some? && |r.prompts.value| == |OrEmpty(screen.prompts)|
    ensures UniqueIds(r.prompts.value) <==> UniqueIds(OrEmpty(screen.prompts))
  {
    Screen(Some(Edit(OrEmpty(screen.prompts), edited)), screen.state)
  }

  /** Editing twice with the same prompt is editing once. */
  lemma EditIdempotent(s: seq<Prompt>, edited: Prompt)
    ensures Edit(Edit(s, edited), edited) == Edit(s, edited)
  {
  }

  /** After an edit of a stored id, the edited prompt shows in the view of its new status and no
      prompt with that id shows in the other. */
  lemma EditMovesToItsStatus(s: seq<Prompt>, edited: Prompt)
    requires edited.id in Ids(s)
    ensures edited in WithStatus(Edit(s, edited), edited.enabled)
    ensures forall p :: p in WithStatus(Edit(s, edited), !edited.enabled) ==> p.id != edited.id
  {
    var r := Edit(s, edited);
    WithStatusMembers(r, edited.enabled);
    WithStatusMembers(r, !edited.enabled);
    var i :| 0 <= i < |s| && Ids(s)[i] == edited.id;
    assert r[i] == edited;
    forall p | p in WithStatus(r, !edited.enabled) ensures p.id != edited.id {
      var j :| 0 <= j < |r| && r[j] == p;
      assert Ids(r)[j] == Ids(s)[j];
    }
  }

  /** The toggle action: flips `enabled` at position `index` of the whole stored list. `index` is
      the item's position in the filtered view. */
  function OnToggle(screen: Screen, index: int): (r: Screen)
    ensures r.state == screen.state
    ensures r.prompts == Some(ToggleAt(OrEmpty(screen.prompts), index))
    ensures r.prompts.Some? && |r.prompts.value| == |OrEmpty(screen.prompts)|
    ensures Ids(r.prompts.value) == Ids(OrEmpty(screen.prompts))
  {
    ToggleKeepsFields(OrEmpty(screen.prompts), index);
    Screen(Some(ToggleAt(OrEmpty(screen.prompts), index)), screen.state)
  }

  /** The delete action: removes position `index` of the whole stored list, `index` being the item's
      position in the filtered view. */
  function OnDelete(screen: Screen, index: int): (r: Screen)
    ensures r.state == screen.state
    ensures r.prompts == Some(RemoveAt(OrEmpty(screen.prompts), index))
    ensures r.prompts.Some? && IsSubsequence(r.prompts.value, OrEmpty(screen.prompts))
    ensures |r.prompts.value| ==
      if 0 <= index < |OrEmpty(screen.prompts)| then |OrEmpty(screen.prompts)| - 1 else |OrEmpty(screen.prompts)|
  {
    RemoveKeepsOrder(OrEmpty(screen.prompts), index);
    Screen(Some(RemoveAt(OrEmpty(screen.prompts), index)), screen.state)
  }

  /** Under the All filter the view position is the stored position, so the toggle and the delete
      reach the prompt that is shown. */
  lemma ActionsHitShownUnderAll(screen: Screen, k: nat)
    requires screen.state.filter == All && k < |FilteredPrompts(screen)|
    ensures OrEmpty(screen.prompts)[k] == FilteredPrompts(screen)[k]
  {
  }

  /** As written, toggling the first item of the Enabled view of [disabled "a", enabled "b"] enables
      "a" and leaves the shown "b" enabled, so the view grows instead of losing "b". */
  lemma ToggleFromEnabledViewHitsAnother()
    ensures var a := Prompt("a", "A", "", None, false);
      var b := Prompt("b", "B", "", None, true);
      var screen := Screen(Some([a, b]), State(Enabled, ""));
      FilteredPrompts(screen) == [b] &&
      OnToggle(screen, 0).prompts == Some([a.(enabled := true), b]) &&
      |FilteredPrompts(OnToggle(screen, 0))| == 2
  {
    var a := Prompt("a", "A", "", None, false);
    var b := Prompt("b", "B", "", None, true);
    var screen := Screen(Some([a, b]), State(Enabled, ""));
    assert [a, b][1..] == [b] && [b][1..] == [];
    assert WithStatus([b], true) == [b];
    assert FilteredPrompts(screen) == [b];
    var toggled := [a.(enabled := true), b];
    assert ToggleAt([a, b], 0) == toggled;
    assert toggled[1..] == [b];
    assert WithStatus(toggled, true) == [a.(enabled := true)] + WithStatus([b], true);
  }

  /** The stored position of the prompt shown at position `k` of the view. */
  function ShownStoreIndex(screen: Screen, k: nat): (i: nat)
    requires k < |FilteredPrompts(screen)|
    ensures i < |OrEmpty(screen.prompts)| && OrEmpty(screen.prompts)[i] == FilteredPrompts(screen)[k]
    ensures var s := OrEmpty(screen.prompts);
      Passes(screen.state.filter, s[i]) && |FilteredPrompts(Screen(Some(s[..i]), screen.state))| == k
  {
    match screen.state.filter
    case All => k
    case Enabled => StoreIndex(OrEmpty(screen.prompts), true, k)
    case Disabled => StoreIndex(OrEmpty(screen.prompts), false, k)
  }

  /** The toggle as intended: it flips the prompt shown at `k`, which then leaves a status view. */
  function ToggleShown(screen: Screen, k: nat): (r: Screen)
    requires k < |FilteredPrompts(screen)|
    ensures var s := OrEmpty(screen.prompts); var i := ShownStoreIndex(screen, k);
      s[i] == FilteredPrompts(screen)[k] && r == OnToggle(screen, i)
    ensures screen.state.filter != All ==> |FilteredPrompts(r)| == |FilteredPrompts(screen)| - 1
  {
    var s := OrEmpty(screen.prompts);
    var i := ShownStoreIndex(screen, k);
    ToggleMovesOne(s, i);
    StatusPartition(s);
    StatusPartition(ToggleAt(s, i));
    OnToggle(screen, i)
  }

  /** The delete as intended: it removes the prompt shown at `k` and nothing else. */
  function DeleteShown(screen: Screen, k: nat): (r: Screen)
    requires k < |FilteredPrompts(screen)|
    ensures r.prompts.Some?
    ensures multiset(r.prompts.value) + multiset{FilteredPrompts(screen)[k]} == multiset(OrEmpty(screen.prompts))
    ensures IsSubsequence(r.prompts.value, OrEmpty(screen.prompts))
    ensures r == OnDelete(screen, ShownStoreIndex(screen, k))
  {
    OnDelete(screen, ShownStoreIndex(screen, k))
  }
}
