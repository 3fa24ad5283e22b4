/** The prompt record and the list operations both list commands apply to the stored prompts. */
module Prompts {
  import opened Wrappers
  import opened Json
  import Strings

  /** A stored prompt. `tags` is absent on an imported prompt that had none; its items are
      JSON values because an import checks only that `tags` is an array. */
  datatype Prompt = Prompt(id: string, title: string, content: string, tags: Option<seq<Json>>, enabled: bool)

  /** The values of the create form: the tags are typed as one comma-separated string. */
  datatype PromptValues = PromptValues(title: string, content: string, tags: string, enabled: bool)

  /** `prompts ?? []`: storage that holds no list reads as the empty list. */
  function OrEmpty(stored: Option<seq<Prompt>>): seq<Prompt>
  {
    match stored
    case Some(s) => s
    case None => []
  }

  function Ids(s: seq<Prompt>): (ids: seq<string>)
    ensures |ids| == |s|
    ensures forall i :: 0 <= i < |s| ==> ids[i] == s[i].id
  {
    seq(|s|, i requires 0 <= i < |s| => s[i].id)
  }

  predicate Distinct(xs: seq<string>)
  {
    forall i, j :: 0 <= i < j < |xs| ==> xs[i] != xs[j]
  }

  /** No two prompts of the collection share an id. */
  predicate UniqueIds(s: seq<Prompt>)
  {
    Distinct(Ids(s))
  }

  /** `sub` is `s` with some elements deleted and the rest kept in order. */
  predicate IsSubsequence(sub: seq<Prompt>, s: seq<Prompt>)
    decreases |s|
  {
    sub == [] ||
    (s != [] &&
     ((sub[0] == s[0] && IsSubsequence(sub[1..], s[1..])) || IsSubsequence(sub, s[1..])))
  }

  lemma {:induction false} SubsequenceReflexive(s: seq<Prompt>)
    ensures IsSubsequence(s, s)
    decreases |s|
  {
    if s != [] {
      SubsequenceReflexive(s[1..]);
    }
  }

  /** Deleting one element from the middle leaves a subsequence. */
  lemma {:induction false} SubsequenceSkip(a: seq<Prompt>, x: Prompt, b: seq<Prompt>)
    ensures IsSubsequence(a + b, a + [x] + b)
    decreases |a|
  {
    var s := a + [x] + b;
    if a == [] {
      SubsequenceReflexive(b);
      assert a + b == b && s == [x] + b && s[1..] == b;
    } else {
      SubsequenceSkip(a[1..], x, b);
      assert (a + b)[1..] == a[1..] + b;
      assert s[1..] == a[1..] + [x] + b;
    }
  }

  // ----- status filter -----

  /** `prompts.filter(p => p.enabled)` when `enabled` holds, `prompts.filter(p => !p.enabled)` otherwise. */
  function WithStatus(s: seq<Prompt>, enabled: bool): (r: seq<Prompt>)
    ensures |r| <= |s|
    ensures forall i :: 0 <= i < |r| ==> r[i].enabled == enabled
    decreases |s|
  {
    if s == [] then []
    else if s[0].enabled == enabled then [s[0]] + WithStatus(s[1..], enabled)
    else WithStatus(s[1..], enabled)
  }

  /** The filter passes exactly the prompts of the given status. */
  lemma {:induction false} WithStatusMembers(s: seq<Prompt>, enabled: bool)
    ensures forall p :: p in WithStatus(s, enabled) <==> p in s && p.enabled == enabled
    decreases |s|
  {
    if s != [] {
      WithStatusMembers(s[1..], enabled);
      assert s == [s[0]] + s[1..];
    }
  }

  /** The filter keeps every copy of a prompt of the given status and no copy of any other. */
  lemma {:induction false} WithStatusCounts(s: seq<Prompt>, enabled: bool)
    ensures forall p :: multiset(WithStatus(s, enabled))[p] == if p.enabled == enabled then multiset(s)[p] else 0
    decreases |s|
  {
    if s != [] {
      WithStatusCounts(s[1..], enabled);
      assert s == [s[0]] + s[1..];
    }
  }

  /** The filter keeps the order of the prompts it passes. */
  lemma {:induction false} WithStatusKeepsOrder(s: seq<Prompt>, enabled: bool)
    ensures IsSubsequence(WithStatus(s, enabled), s)
    decreases |s|
  {
    if s != [] {
      WithStatusKeepsOrder(s[1..], enabled);
      if s[0].enabled == enabled {
        assert ([s[0]] + WithStatus(s[1..], enabled))[1..] == WithStatus(s[1..], enabled);
      }
    }
  }

  lemma {:induction false} WithStatusConcat(a: seq<Prompt>, b: seq<Prompt>, enabled: bool)
    ensures WithStatus(a + b, enabled) == WithStatus(a, enabled) + WithStatus(b, enabled)
    decreases |a|
  {
    if a == [] {
      assert a + b == b;
    } else {
      WithStatusConcat(a[1..], b, enabled);
      assert (a + b)[0] == a[0] && (a + b)[1..] == a[1..] + b;
    }
  }

  /** The enabled prompts and the disabled prompts together are the whole collection. */
  lemma {:induction false} StatusPartition(s: seq<Prompt>)
    ensures |WithStatus(s, true)| + |WithStatus(s, false)| == |s|
    ensures multiset(WithStatus(s, true)) + multiset(WithStatus(s, false)) == multiset(s)
    decreases |s|
  {
    if s != [] {
      StatusPartition(s[1..]);
      assert s == [s[0]] + s[1..];
    }
  }

  /** The position in the whole collection of the prompt shown at position `k` of the filtered view. */
  function StoreIndex(s: seq<Prompt>, enabled: bool, k: nat): (i: nat)
    requires k < |WithStatus(s, enabled)|
    ensures i < |s| && s[i] == WithStatus(s, enabled)[k]
    ensures s[i].enabled == enabled && |WithStatus(s[..i], enabled)| == k
    decreases |s|
  {
    if s[0].enabled == enabled && k == 0 then
      assert s[..0] == [];
      0
    else
      var j := StoreIndex(s[1..], enabled, if s[0].enabled == enabled then k - 1 else k);
      assert s[..j + 1] == [s[0]] + s[1..][..j];
      1 + j
  }

  // ----- create -----

  /** A prompt built from the create form: the given id and fields, tags split at commas. */
  function NewPrompt(id: string, values: PromptValues): Prompt
  {
    Prompt(id, values.title, values.content, Some(StrItems(Strings.Split(values.tags, ','))), values.enabled)
  }

  /** The tags of a created prompt are never empty and join back to the typed string. */
  lemma NewPromptTags(id: string, values: PromptValues)
    ensures var p := NewPrompt(id, values);
      p.tags.Some? && |p.tags.value| >= 1 &&
      exists parts :: p.tags.value == StrItems(parts) && Strings.Join(parts, ',') == values.tags &&
        forall k :: 0 <= k < |parts| ==> ',' !in parts[k]
  {
    Strings.JoinSplit(values.tags, ',');
    var parts := Strings.Split(values.tags, ',');
    assert NewPrompt(id, values).tags.value == StrItems(parts);
  }

  /** `[...(prompts ?? []), newPrompt]`. */
  function Append(stored: Option<seq<Prompt>>, p: Prompt): (r: seq<Prompt>)
    ensures |r| == |OrEmpty(stored)| + 1
    ensures r[..|r| - 1] == OrEmpty(stored) && r[|r| - 1] == p
  {
    OrEmpty(stored) + [p]
  }

  /** Appending a prompt whose id is fresh keeps the ids unique. */
  lemma AppendKeepsUnique(s: seq<Prompt>, p: Prompt)
    requires UniqueIds(s) && p.id !in Ids(s)
    ensures UniqueIds(Append(Some(s), p))
  {
    var r := Append(Some(s), p);
    forall i, j | 0 <= i < j < |r| ensures Ids(r)[i] != Ids(r)[j] {
      if j == |s| {
        assert Ids(s)[i] == s[i].id;
      } else {
        assert Ids(s)[i] != Ids(s)[j];
      }
    }
  }

  // ----- toggle -----

  /** `prompts.map((p, j) => j === i ? { ...p, enabled: !p.enabled } : p)`. */
  function ToggleAt(s: seq<Prompt>, i: int): (r: seq<Prompt>)
    ensures |r| == |s|
    ensures forall j :: 0 <= j < |s| && j != i ==> r[j] == s[j]
    ensures 0 <= i < |s| ==> r[i] == s[i].(enabled := !s[i].enabled)
  {
    if 0 <= i < |s| then s[i := s[i].(enabled := !s[i].enabled)] else s
  }

  /** Toggling the same position twice restores the collection. */
  lemma ToggleTwice(s: seq<Prompt>, i: int)
    ensures ToggleAt(ToggleAt(s, i), i) == s
  {
  }

  /** A toggle changes no id, title, content or tags, so id uniqueness is kept. */
  lemma ToggleKeepsFields(s: seq<Prompt>, i: int)
    ensures Ids(ToggleAt(s, i)) == Ids(s)
    ensures forall j :: 0 <= j < |s| ==>
      var q := ToggleAt(s, i)[j];
      q.id == s[j].id && q.title == s[j].title && q.content == s[j].content && q.tags == s[j].tags
    ensures UniqueIds(ToggleAt(s, i)) <==> UniqueIds(s)
  {
    assert Ids(ToggleAt(s, i)) == Ids(s);
  }

  /** Toggling a stored position moves exactly one prompt between the enabled and the disabled view. */
  lemma ToggleMovesOne(s: seq<Prompt>, i: int)
    requires 0 <= i < |s|
    ensures |WithStatus(ToggleAt(s, i), true)| ==
      if s[i].enabled then |WithStatus(s, true)| - 1 else |WithStatus(s, true)| + 1
  {
    var t := s[i].(enabled := !s[i].enabled);
    var before, after := s[..i], s[i + 1..];
    assert s == before + [s[i]] + after;
    assert ToggleAt(s, i) == before + [t] + after;
    WithStatusConcat(before + [s[i]], after, true);
    WithStatusConcat(before, [s[i]], true);
    WithStatusConcat(before + [t], after, true);
    WithStatusConcat(before, [t], true);
  }

  // ----- delete -----

  /** `prompts.filter((_, j) => j !== i)`. */
  function RemoveAt(s: seq<Prompt>, i: int): (r: seq<Prompt>)
    ensures 0 <= i < |s| ==> |r| == |s| - 1 && multiset(r) + multiset{s[i]} == multiset(s)
    ensures 0 <= i < |s| ==> forall j :: 0 <= j < |r| ==> r[j] == s[if j < i then j else j + 1]
    ensures !(0 <= i < |s|) ==> r == s
  {
    if 0 <= i < |s| then
      assert s == s[..i] + [s[i]] + s[i + 1..];
      s[..i] + s[i + 1..]
    else s
  }

  /** Deleting keeps the order of the other prompts. */
  lemma RemoveKeepsOrder(s: seq<Prompt>, i: int)
    ensures IsSubsequence(RemoveAt(s, i), s)
  {
    if 0 <= i < |s| {
      SubsequenceSkip(s[..i], s[i], s[i + 1..]);
      assert s == s[..i] + [s[i]] + s[i + 1..];
    } else {
      SubsequenceReflexive(s);
    }
  }

  /** Deleting keeps the ids unique, and the deleted prompt's id is then gone from the collection. */
  lemma RemoveKeepsUnique(s: seq<Prompt>, i: int)
    requires UniqueIds(s)
    ensures UniqueIds(RemoveAt(s, i))
    ensures 0 <= i < |s| ==> s[i].id !in Ids(RemoveAt(s, i))
  {
    if 0 <= i < |s| {
      var r := RemoveAt(s, i);
      forall a, b | 0 <= a < b < |r| ensures Ids(r)[a] != Ids(r)[b] {
        var a', b' := if a < i then a else a + 1, if b < i then b else b + 1;
        assert Ids(s)[a'] != Ids(s)[b'];
      }
      forall j | 0 <= j < |r| ensures Ids(r)[j] != s[i].id {
        var j' := if j < i then j else j + 1;
        assert j' != i;
        assert Ids(s)[j'] != Ids(s)[i];
      }
    }
  }

  /** Deleting a prompt of the given status removes exactly that one copy from the filtered view. */
  lemma RemoveFromStatus(s: seq<Prompt>, i: nat, enabled: bool)
    requires i < |s| && s[i].enabled == enabled
    ensures multiset(WithStatus(RemoveAt(s, i), enabled)) + multiset{s[i]} == multiset(WithStatus(s, enabled))
  {
    var before, after := s[..i], s[i + 1..];
    assert s == before + [s[i]] + after;
    assert RemoveAt(s, i) == before + after;
    WithStatusConcat(before + [s[i]], after, enabled);
    WithStatusConcat(before, [s[i]], enabled);
    WithStatusConcat(before, after, enabled);
    assert WithStatus([s[i]], enabled) == [s[i]] by {
      assert [s[i]][1..] == [];
    }
  }
}
