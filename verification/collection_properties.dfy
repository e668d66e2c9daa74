/** Properties of the paged collection that relate several calls, or a
    construction to what its accessors later report. */
module CollectionProperties {
  import opened Wrappers
  import opened OpenSocialCollection

  /** Without an array the collection holds nothing, whatever the offset and
      total size. */
  lemma NoArrayIsEmpty<V>(optOffset: Option<int>, optTotalSize: Option<int>)
    ensures var c := Create<V>(None, optOffset, optTotalSize);
      Size(c) == 0 && AsArray(c) == [] &&
      (optTotalSize.None? ==> GetTotalSize(c) == 0)
  {
  }

  /** An omitted array and an empty one give the same collection. */
  lemma NoArraySameAsEmptyArray<V>(optOffset: Option<int>, optTotalSize: Option<int>)
    ensures Create<V>(None, optOffset, optTotalSize) == Create(Some([]), optOffset, optTotalSize)
  {
  }

  /** The offset reads back as given; omitted means 0, and an explicit 0 is
      indistinguishable from an omitted offset. No relation to the array
      length is checked, so a negative offset is kept too. */
  lemma OffsetVerbatim<V>(optArray: Option<seq<Item<V>>>, o: int, optTotalSize: Option<int>)
    ensures GetOffset(Create(optArray, Some(o), optTotalSize)) == o
    ensures GetOffset(Create(optArray, None, optTotalSize)) == 0
    ensures Create(optArray, Some(0), optTotalSize) == Create(optArray, None, optTotalSize)
  {
  }

  /** An explicit total size of 0 is falsy and so is replaced by the array
      length, exactly as an omitted one. */
  lemma ZeroTotalSizeIsOmitted<V>(optArray: Option<seq<Item<V>>>, optOffset: Option<int>)
    ensures Create(optArray, optOffset, Some(0)) == Create(optArray, optOffset, None)
  {
  }

  /** The total size reads back as the array length exactly when it was
      omitted, given as 0, or given as that very length. */
  lemma TotalSizeIsSizeIff<V>(optArray: Option<seq<Item<V>>>, optOffset: Option<int>, optTotalSize: Option<int>)
    ensures var c := Create(optArray, optOffset, optTotalSize);
      GetTotalSize(c) == Size(c) <==>
        optTotalSize.None? || optTotalSize.value == 0 || optTotalSize.value == Size(c)
  {
  }

  /** With the total size omitted, the documented bound "size is equal to or
      less than the total size" holds. */
  lemma OmittedTotalMeetsBound<V>(optArray: Option<seq<Item<V>>>, optOffset: Option<int>)
    ensures var c := Create(optArray, optOffset, None);
      Size(c) <= GetTotalSize(c)
  {
  }

  /** The bound is not enforced: a caller-supplied total smaller than the page
      is kept, and then the page is larger than the whole. */
  lemma SuppliedTotalMayBreakBound<V>(items: seq<Item<V>>, t: int)
    requires t != 0 && t < |items|
    ensures var c := Create(Some(items), None, Some(t));
      GetTotalSize(c) == t && Size(c) > GetTotalSize(c)
  {
  }

  /** Constructing again from what a constructed collection reports gives the
      same collection back. */
  lemma RebuildFromAccessors<V>(optArray: Option<seq<Item<V>>>, optOffset: Option<int>, optTotalSize: Option<int>)
    ensures var c := Create(optArray, optOffset, optTotalSize);
      Create(Some(AsArray(c)), Some(GetOffset(c)), Some(GetTotalSize(c))) == c
  {
  }

  /** Which stored states the constructor can produce: exactly those whose
      total size is 0 only when the page is empty. */
  lemma {:induction false} ReachableIff<V>(c: Collection<V>)
    ensures (exists a: Option<seq<Item<V>>>, o: Option<int>, t: Option<int> :: Create(a, o, t) == c)
        <==> (c.totalSize == 0 ==> |c.items| == 0)
  {
    if c.totalSize == 0 ==> |c.items| == 0 {
      assert Create(Some(c.items), Some(c.offset), Some(c.totalSize)) == c;
    }
  }

  /** Two first matches are the same index: the first match is well defined. */
  lemma FirstMatchUnique<V>(items: seq<Item<V>>, id: string, k1: int, k2: int)
    requires IsFirstMatch(items, id, k1) && IsFirstMatch(items, id, k2)
    ensures k1 == k2
  {
  }

  /** On an empty collection every lookup answers `None`. */
  lemma FindOnEmpty<V>(c: Collection<V>, id: string)
    requires Size(c) == 0
    ensures Find(c, id) == None
  {
  }

  /** When the item at `k` carries `id` and no earlier one does, the lookup
      answers with the item at `k`; in particular the first of two duplicates
      wins. */
  lemma FindFirstOfDuplicates<V>(c: Collection<V>, id: string, k: int)
    requires 0 <= k < Size(c) && AsArray(c)[k].id == id
    requires forall j :: 0 <= j < k ==> AsArray(c)[j].id != id
    ensures Find(c, id) == Some(AsArray(c)[k])
  {
  }

  /** A lookup never answers with an item outside the collection, and the
      item it answers with carries the id asked for. */
  lemma FindAnswersHeldItem<V>(c: Collection<V>, id: string)
    ensures Find(c, id).Some? ==> Find(c, id).value in AsArray(c) && Find(c, id).value.id == id
  {
  }

  /** `each` with the identity callback visits exactly the items `asArray`
      returns, in the same order. */
  lemma EachVisitsAsArray<V>(c: Collection<V>)
    ensures Each(c, (x: Item<V>) => x) == AsArray(c)
  {
  }

  /** A page of three items at offset 10 in a 50-item result set. */
  lemma ExamplePage()
    ensures var a := Item("a", 1); var b := Item("b", 2); var d := Item("c", 3);
      var c := Create(Some([a, b, d]), Some(10), Some(50));
      Size(c) == 3 && GetOffset(c) == 10 && GetTotalSize(c) == 50 &&
      Find(c, "b") == Some(b) && Find(c, "z") == None
  {
  }

  /** Two items share the id "x": the first is found. */
  lemma ExampleDuplicateIds()
    ensures var c := Create(Some([Item("x", 1), Item("x", 2)]), None, None);
      Find(c, "x") == Some(Item("x", 1)) && GetTotalSize(c) == 2 && GetOffset(c) == 0
  {
  }
}
