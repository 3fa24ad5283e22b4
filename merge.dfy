/** `mergePrompts`: reconciles an imported list with the current one by id. */
module Merge {
  import opened Wrappers
  import opened Prompts

  datatype Stats = Stats(added: nat, updated: nat)

  /** `{ mergedPrompts, stats }` as `mergePrompts` returns it. */
  datatype MergeResult = MergeResult(mergedPrompts: seq<Prompt>, stats: Stats)

  /** `s.findIndex(p => p.id === id)`: the first position holding `id`, or -1. */
  function FindIndex(s: seq<Prompt>, id: string): (r: int)
    ensures -1 <= r < |s|
    ensures r == -1 <==> id !in Ids(s)
    ensures 0 <= r ==> s[r].id == id && forall j :: 0 <= j < r ==> s[j].id != id
    decreases |s|
  {
    if s == [] then -1
    else if s[0].id == id then 0
    else
      var r := FindIndex(s[1..], id);
      assert Ids(s) == [s[0].id] + Ids(s[1..]);
      if r < 0 then -1 else r + 1
  }

  /** One turn of the `forEach`: overwrite the first prompt with the same id, or append. */
  function Step(acc: MergeResult, p: Prompt): MergeResult
  {
    var existing := FindIndex(acc.mergedPrompts, p.id);
    if existing >= 0 then
      MergeResult(acc.mergedPrompts[existing := p], acc.stats.(updated := acc.stats.updated + 1))
    else
      MergeResult(acc.mergedPrompts + [p], acc.stats.(added := acc.stats.added + 1))
  }

  /** What the merge loop has produced after walking all of `imported` from a copy of `current`. */
  function MergeAll(imported: seq<Prompt>, current: seq<Prompt>): MergeResult
    decreases |imported|
  {
    if imported == [] then MergeResult(current, Stats(0, 0))
    else Step(MergeAll(imported[..|imported| - 1], current), imported[|imported| - 1])
  }

  /** `mergePrompts(importedPrompts, currentPrompts)`. The loop works on a copy; `current` is a value
      and stays as it was. */
  method MergePrompts(imported: seq<Prompt>, current: seq<Prompt>) returns (result: MergeResult)
    ensures result == MergeAll(imported, current)
    ensures imported == [] ==> result == MergeResult(current, Stats(0, 0))
    ensures result.stats.added + result.stats.updated == |imported|
    ensures |result.mergedPrompts| == |current| + result.stats.added
    ensures UniqueIds(current) ==> UniqueIds(result.mergedPrompts)
  {
    var merged := current;
    var added: nat, updated: nat := 0, 0;
    for i := 0 to |imported|
      invariant MergeAll(imported[..i], current) == MergeResult(merged, Stats(added, updated))
    {
      var p := imported[i];
      var existing := FindIndex(merged, p.id);
      if existing >= 0 {
        merged := merged[existing := p];
        updated := updated + 1;
      } else {
        merged := merged + [p];
        added := added + 1;
      }
      assert imported[..i + 1][..i] == imported[..i];
    }
    assert imported[..|imported|] == imported;
    result := MergeResult(merged, Stats(added, updated));
    MergeShape(imported, current);
    MergeKeepsUnique(imported, current);
  }

  // ----- an independent description of the merge result -----

  /** The ids of `imported` that are not in `current`, each once, in the order they first appear. */
  function NewIds(imported: seq<Prompt>, current: seq<Prompt>): seq<string>
    decreases |imported|
  {
    if imported == [] then []
    else
      var earlier := NewIds(imported[..|imported| - 1], current);
      var id := imported[|imported| - 1].id;
      if id in Ids(current) || id in earlier then earlier else earlier + [id]
  }

  /** The last prompt of `imported` with the given id: the one that wins. */
  function LastWith(imported: seq<Prompt>, id: string): (r: Option<Prompt>)
    ensures r.Some? ==> r.value.id == id
    decreases |imported|
  {
    if imported == [] then None
    else if imported[|imported| - 1].id == id then Some(imported[|imported| - 1])
    else LastWith(imported[..|imported| - 1], id)
  }

  /** Position `k` holds the first occurrence of its id in `s`. */
  predicate FirstOccurrence(s: seq<Prompt>, k: nat)
    requires k < |s|
  {
    forall j :: 0 <= j < k ==> s[j].id != s[k].id
  }

  /** What position `k` of `current` holds after the merge: the last imported prompt with its id
      when `k` is where that id first occurs, the prompt that was there otherwise. */
  function Expected(imported: seq<Prompt>, current: seq<Prompt>, k: nat): Prompt
    requires k < |current|
  {
    match LastWith(imported, current[k].id)
    case Some(q) => if FirstOccurrence(current, k) then q else current[k]
    case None => current[k]
  }

  /** `r` is laid out as the merge of `imported` into `current` should be. */
  predicate Shaped(imported: seq<Prompt>, current: seq<Prompt>, r: MergeResult)
  {
    var newIds := NewIds(imported, current);
    var m := r.mergedPrompts;
    Ids(m) == Ids(current) + newIds &&
    r.stats.added == |newIds| &&
    r.stats.added + r.stats.updated == |imported| &&
    Distinct(newIds) &&
    (forall j :: 0 <= j < |newIds| ==> newIds[j] !in Ids(current)) &&
    (forall k :: 0 <= k < |current| ==> m[k] == Expected(imported, current, k)) &&
    (forall j :: 0 <= j < |newIds| ==> LastWith(imported, newIds[j]) == Some(m[|current| + j]))
  }

  lemma LastWithAppend(imported: seq<Prompt>, p: Prompt, id: string)
    ensures LastWith(imported + [p], id) == if id == p.id then Some(p) else LastWith(imported, id)
  {
    assert (imported + [p])[..|imported|] == imported;
  }

  /** On the turn that finds the id at `existing`, the current positions keep their layout. */
  lemma UpdateKeepsCurrentPositions(imported: seq<Prompt>, current: seq<Prompt>, p: Prompt)
    requires Shaped(imported, current, MergeAll(imported, current))
    requires FindIndex(MergeAll(imported, current).mergedPrompts, p.id) >= 0
    ensures var m := MergeAll(imported, current).mergedPrompts;
      forall k :: 0 <= k < |current| ==> m[FindIndex(m, p.id) := p][k] == Expected(imported + [p], current, k)
  {
    var all := imported + [p];
    var m := MergeAll(imported, current).mergedPrompts;
    var existing := FindIndex(m, p.id);
    forall k | 0 <= k < |current|
      ensures m[existing := p][k] == Expected(all, current, k)
    {
      LastWithAppend(imported, p, current[k].id);
      assert Ids(current)[k] == Ids(m)[k];
      if k == existing {
        forall j | 0 <= j < k ensures current[j].id != current[k].id {
          assert Ids(current)[j] == Ids(m)[j];
        }
      } else if current[k].id == p.id && existing < |current| {
        assert Ids(current)[existing] == Ids(m)[existing];
        assert !FirstOccurrence(current, k);
      }
    }
  }

  /** On the turn that finds the id at `existing`, appended position `j` keeps its layout. */
  lemma UpdateKeepsAppendedPosition(imported: seq<Prompt>, current: seq<Prompt>, p: Prompt,
                                    m: seq<Prompt>, newIds: seq<string>, existing: nat, j: nat)
    requires Ids(m) == Ids(current) + newIds && Distinct(newIds)
    requires j < |newIds| && newIds[j] !in Ids(current)
    requires LastWith(imported, newIds[j]) == Some(m[|current| + j])
    requires existing < |m| && m[existing].id == p.id
    requires forall i :: 0 <= i < existing ==> m[i].id != p.id
    ensures LastWith(imported + [p], newIds[j]) == Some(m[existing := p][|current| + j])
  {
    LastWithAppend(imported, p, newIds[j]);
    assert Ids(m)[|current| + j] == newIds[j];
    if |current| + j != existing {
      assert newIds[j] != p.id by {
        if existing < |current| {
          assert Ids(m)[existing] == Ids(current)[existing];
        } else {
          assert Ids(m)[existing] == newIds[existing - |current|];
        }
      }
    }
  }

  /** The turn that finds the id already present keeps the layout. */
  lemma StepUpdateShape(imported: seq<Prompt>, current: seq<Prompt>, p: Prompt)
    requires Shaped(imported, current, MergeAll(imported, current))
    requires FindIndex(MergeAll(imported, current).mergedPrompts, p.id) >= 0
    ensures Shaped(imported + [p], current, MergeAll(imported + [p], current))
  {
    var all := imported + [p];
    assert all[..|all| - 1] == imported;
    var m := MergeAll(imported, current).mergedPrompts;
    var newIds := NewIds(imported, current);
    var existing := FindIndex(m, p.id);
    var r := MergeAll(all, current);
    assert r.mergedPrompts == m[existing := p];
    assert Ids(m)[existing] == p.id;
    assert p.id in Ids(current) + newIds;
    assert NewIds(all, current) == newIds;
    assert Ids(r.mergedPrompts) == Ids(m);
    UpdateKeepsCurrentPositions(imported, current, p);
    forall j | 0 <= j < |newIds|
      ensures LastWith(all, newIds[j]) == Some(r.mergedPrompts[|current| + j])
    {
      UpdateKeepsAppendedPosition(imported, current, p, m, newIds, existing, j);
    }
  }

  /** The turn that does not find the id appends it and keeps the layout. */
  lemma StepAppendShape(imported: seq<Prompt>, current: seq<Prompt>, p: Prompt)
    requires Shaped(imported, current, MergeAll(imported, current))
    requires FindIndex(MergeAll(imported, current).mergedPrompts, p.id) < 0
    ensures Shaped(imported + [p], current, MergeAll(imported + [p], current))
  {
    var all := imported + [p];
    assert all[..|all| - 1] == imported;
    var m := MergeAll(imported, current).mergedPrompts;
    var newIds := NewIds(imported, current);
    var r := MergeAll(all, current);
    assert r.mergedPrompts == m + [p];
    LastWithAppend(imported, p, p.id);
    assert p.id !in Ids(current) + newIds;
    var newIds' := newIds + [p.id];
    assert NewIds(all, current) == newIds';
    assert Ids(r.mergedPrompts) == Ids(current) + newIds';
    assert Distinct(newIds');
    forall k | 0 <= k < |current|
      ensures r.mergedPrompts[k] == Expected(all, current, k)
    {
      AppendKeepsCurrentPosition(imported, current, p, m, k);
    }
    forall j | 0 <= j < |newIds'|
      ensures LastWith(all, newIds'[j]) == Some(r.mergedPrompts[|current| + j])
    {
      AppendKeepsAppendedPosition(imported, current, p, m, newIds, j);
    }
  }

  /** On the turn that appends, current position `k` keeps its layout. */
  lemma AppendKeepsCurrentPosition(imported: seq<Prompt>, current: seq<Prompt>, p: Prompt, m: seq<Prompt>, k: nat)
    requires k < |current| <= |m| && m[k] == Expected(imported, current, k)
    requires p.id !in Ids(current)
    ensures (m + [p])[k] == Expected(imported + [p], current, k)
  {
    assert Ids(current)[k] == current[k].id;
    LastWithAppend(imported, p, current[k].id);
  }

  /** On the turn that appends, appended position `j` keeps its layout, and the new last position
      holds the appended prompt. */
  lemma AppendKeepsAppendedPosition(imported: seq<Prompt>, current: seq<Prompt>, p: Prompt,
                                    m: seq<Prompt>, newIds: seq<string>, j: nat)
    requires |m| == |current| + |newIds| && j <= |newIds| && p.id !in newIds
    requires j < |newIds| ==> LastWith(imported, newIds[j]) == Some(m[|current| + j])
    ensures LastWith(imported + [p], (newIds + [p.id])[j]) == Some((m + [p])[|current| + j])
  {
    LastWithAppend(imported, p, (newIds + [p.id])[j]);
    if j < |newIds| {
      assert (newIds + [p.id])[j] == newIds[j] != p.id;
      assert (m + [p])[|current| + j] == m[|current| + j];
    }
  }

  /** The merge overwrites in place and appends new ids at the end, last imported prompt winning. */
  lemma {:induction false} MergeShape(imported: seq<Prompt>, current: seq<Prompt>)
    ensures Shaped(imported, current, MergeAll(imported, current))
    decreases |imported|
  {
    if imported != [] {
      var init := imported[..|imported| - 1];
      MergeShape(init, current);
      var p := imported[|imported| - 1];
      assert init + [p] == imported;
      if FindIndex(MergeAll(init, current).mergedPrompts, p.id) >= 0 {
        StepUpdateShape(init, current, p);
      } else {
        StepAppendShape(init, current, p);
      }
    }
  }

  /** The merged list has unique ids whenever the current list has. */
  lemma MergeKeepsUnique(imported: seq<Prompt>, current: seq<Prompt>)
    ensures UniqueIds(current) ==> UniqueIds(MergeAll(imported, current).mergedPrompts)
  {
    if UniqueIds(current) {
      MergeShape(imported, current);
      var ids, newIds := Ids(current), NewIds(imported, current);
      forall i, j | 0 <= i < j < |ids + newIds| ensures (ids + newIds)[i] != (ids + newIds)[j] {
        if j < |ids| {
          assert ids[i] != ids[j];
        } else if i >= |ids| {
          assert newIds[i - |ids|] != newIds[j - |ids|];
        } else {
          assert newIds[j - |ids|] !in ids;
        }
      }
    }
  }

  /** In a list with unique ids, the first position holding the id of position `k` is `k`. */
  lemma FindIndexUnique(s: seq<Prompt>, k: nat)
    requires UniqueIds(s) && k < |s|
    ensures FindIndex(s, s[k].id) == k
  {
    var i := FindIndex(s, s[k].id);
    assert Ids(s)[i] == Ids(s)[k];
  }

  /** Importing one prompt whose id is stored at `k` replaces that entry in place and counts one update. */
  lemma MergeOneExisting(current: seq<Prompt>, k: nat, p: Prompt)
    requires UniqueIds(current) && k < |current| && current[k].id == p.id
    ensures MergeAll([p], current) == MergeResult(current[k := p], Stats(0, 1))
  {
    assert [p][..0] == [];
    FindIndexUnique(current, k);
  }

  /** Importing one prompt with an id not yet stored appends it and counts one addition. */
  lemma MergeOneNew(current: seq<Prompt>, p: Prompt)
    requires p.id !in Ids(current)
    ensures MergeAll([p], current) == MergeResult(current + [p], Stats(1, 0))
  {
    assert [p][..0] == [];
  }

  lemma {:induction false} MergeSelfPrefix(c: seq<Prompt>, n: nat)
    requires UniqueIds(c) && n <= |c|
    ensures MergeAll(c[..n], c) == MergeResult(c, Stats(0, n))
    decreases n
  {
    if n > 0 {
      MergeSelfPrefix(c, n - 1);
      assert c[..n][..n - 1] == c[..n - 1];
      FindIndexUnique(c, n - 1);
      assert c[n - 1 := c[n - 1]] == c;
    }
  }

  /** Merging a collection with unique ids into itself, as re-importing an export does, changes
      nothing and counts every prompt as updated. */
  lemma MergeIntoItself(c: seq<Prompt>)
    requires UniqueIds(c)
    ensures MergeAll(c, c) == MergeResult(c, Stats(0, |c|))
  {
    MergeSelfPrefix(c, |c|);
    assert c[..|c|] == c;
  }
}
