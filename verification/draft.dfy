/** How a gesture's region is merged into the committed selection to form the
    draft: appended in add mode, filtered out in remove mode. Both merges start
    from the committed selection, never from an earlier draft. */
module Draft {
  import opened Clock

  datatype SelectionType = Add | Remove

  /** `a` can be obtained from `b` by deleting elements, keeping the order. */
  ghost predicate IsSubsequence(a: seq<Time>, b: seq<Time>)
    decreases |b|
  {
    if a == [] then true
    else if b == [] then false
    else (a[0] == b[0] && IsSubsequence(a[1..], b[1..])) || IsSubsequence(a, b[1..])
  }

  /** `acc` followed by each element of `region` that is not yet present. */
  function AppendNew(acc: seq<Time>, region: seq<Time>): (r: seq<Time>)
    ensures acc <= r
    ensures forall x :: x in r <==> x in acc || x in region
    ensures forall i :: |acc| <= i < |r| ==> r[i] in region && r[i] !in acc
    ensures forall i, j :: |acc| <= i < j < |r| ==> r[i] != r[j]
    ensures |r| <= |acc| + |region|
    decreases |region|
  {
    if region == [] then acc
    else AppendNew(if region[0] in acc then acc else acc + [region[0]], region[1..])
  }

  /** What an add-mode draft is: the selection kept as a prefix, then the
      region's times the selection does not hold, each once; nothing else. */
  ghost predicate IsAddDraft(selection: seq<Time>, region: seq<Time>, r: seq<Time>)
  {
    && selection <= r
    && (forall x :: x in r <==> x in selection || x in region)
    && (forall i :: |selection| <= i < |r| ==> r[i] !in selection)
    && (forall i, j :: |selection| <= i < j < |r| ==> r[i] != r[j])
  }

  /** What a remove-mode draft is: the selection in its order with every
      occurrence of a region time dropped and every other occurrence kept. */
  ghost predicate IsRemoveDraft(selection: seq<Time>, region: seq<Time>, r: seq<Time>)
  {
    && IsSubsequence(r, selection)
    && (forall x :: x in r <==> x in selection && x !in region)
    && (forall x :: multiset(r)[x] == if x in region then 0 else multiset(selection)[x])
  }

  /** Add mode: the selection, then the region's times it does not yet hold,
      each once. */
  function MergeAdd(selection: seq<Time>, region: seq<Time>): (r: seq<Time>)
    ensures IsAddDraft(selection, region, r)
  {
    AppendNew(selection, region)
  }

  /** Remove mode: the selection without any time equal to a time of the region. */
  function MergeRemove(selection: seq<Time>, region: seq<Time>): (r: seq<Time>)
    ensures forall x :: x in r <==> x in selection && x !in region
    ensures IsSubsequence(r, selection)
    ensures region == [] ==> r == selection
    decreases |selection|
  {
    if selection == [] then []
    else
      var rest := MergeRemove(selection[1..], region);
      assert selection == [selection[0]] + selection[1..];
      if selection[0] in region then
        SkipKeepsSubsequence(rest, selection);
        rest
      else
        [selection[0]] + rest
  }

  /** Remove mode keeps every occurrence of a time outside the region and no
      occurrence of a time inside it. */
  lemma {:induction false} MergeRemoveCounts(selection: seq<Time>, region: seq<Time>)
    ensures forall x :: multiset(MergeRemove(selection, region))[x]
                     == if x in region then 0 else multiset(selection)[x]
    decreases |selection|
  {
    if selection != [] {
      MergeRemoveCounts(selection[1..], region);
      assert selection == [selection[0]] + selection[1..];
    }
  }

  /** Dropping the head of `b` keeps any subsequence of its tail a subsequence. */
  lemma SkipKeepsSubsequence(a: seq<Time>, b: seq<Time>)
    requires b != [] && IsSubsequence(a, b[1..])
    ensures IsSubsequence(a, b)
  {
  }

  /** The draft built from the committed selection for a gesture of type `t`. */
  function Redraft(selection: seq<Time>, t: SelectionType, region: seq<Time>): (r: seq<Time>)
    ensures t == Add ==> IsAddDraft(selection, region, r)
    ensures t == Remove ==> IsRemoveDraft(selection, region, r)
    ensures region == [] ==> r == selection
  {
    match t
    case Add => MergeAdd(selection, region)
    case Remove =>
      MergeRemoveCounts(selection, region);
      MergeRemove(selection, region)
  }

  /** Filtering distributes over concatenation. */
  lemma {:induction false} MergeRemoveAppend(a: seq<Time>, b: seq<Time>, region: seq<Time>)
    ensures MergeRemove(a + b, region) == MergeRemove(a, region) + MergeRemove(b, region)
    decreases |a|
  {
    if a == [] {
      assert a + b == b;
    } else {
      var ab := a + b;
      assert ab[0] == a[0] && ab[1..] == a[1..] + b;
      MergeRemoveAppend(a[1..], b, region);
    }
  }

  /** Filtering a sequence whose every element is in the region leaves nothing. */
  lemma {:induction false} MergeRemoveAllCovered(s: seq<Time>, region: seq<Time>)
    requires forall i :: 0 <= i < |s| ==> s[i] in region
    ensures MergeRemove(s, region) == []
    decreases |s|
  {
    if s != [] {
      MergeRemoveAllCovered(s[1..], region);
    }
  }

  /** Removing a region undoes adding it: what an add-drag appended over a
      region is exactly what a remove-drag over the same region takes away,
      so an add followed by a remove leaves the selection minus the region. */
  lemma AddThenRemove(selection: seq<Time>, region: seq<Time>)
    ensures MergeRemove(MergeAdd(selection, region), region) == MergeRemove(selection, region)
  {
    var merged := MergeAdd(selection, region);
    var added := merged[|selection|..];
    assert merged == selection + added;
    MergeRemoveAppend(selection, added, region);
    MergeRemoveAllCovered(added, region);
  }

  /** Starting from an empty selection, adding a region and then removing it
      gives the empty selection back. */
  lemma AddThenRemoveFromEmpty(region: seq<Time>)
    ensures MergeRemove(MergeAdd([], region), region) == []
  {
    AddThenRemove([], region);
  }

  /** Appending elements that are all present already changes nothing. */
  lemma {:induction false} AppendNewAbsorbed(acc: seq<Time>, region: seq<Time>)
    requires forall i :: 0 <= i < |region| ==> region[i] in acc
    ensures AppendNew(acc, region) == acc
    decreases |region|
  {
    if region != [] {
      AppendNewAbsorbed(acc, region[1..]);
    }
  }

  /** Adding the same region twice is adding it once. */
  lemma AddTwice(selection: seq<Time>, region: seq<Time>)
    ensures MergeAdd(MergeAdd(selection, region), region) == MergeAdd(selection, region)
  {
    AppendNewAbsorbed(MergeAdd(selection, region), region);
  }

  /** Removing the same region twice is removing it once. */
  lemma {:induction false} RemoveTwice(selection: seq<Time>, region: seq<Time>)
    ensures MergeRemove(MergeRemove(selection, region), region) == MergeRemove(selection, region)
    decreases |selection|
  {
    if selection != [] {
      RemoveTwice(selection[1..], region);
    }
  }
}
