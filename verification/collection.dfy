/** A read-only page of items out of a larger result set: the items held, the
    offset of the first of them within the larger set, and the size of that
    larger set. */
module OpenSocialCollection {
  import opened Wrappers

  /** An entry of a collection. Its `getId()` accessor is the `id` field;
      `data` is everything else the entry carries. */
  datatype Item<V> = Item(id: string, data: V)

  datatype Collection<V> = Collection(items: seq<Item<V>>, offset: int, totalSize: int)

  /** JavaScript's `x || fallback` for an optional number: an omitted number
      and the falsy number 0 both give way to the fallback. */
  function OrNumber(x: Option<int>, fallback: int): int
  {
    if x.Some? && x.value != 0 then x.value else fallback
  }

  /** JavaScript's `array || []`: every array, the empty one included, is
      truthy, so only an omitted array gives way to the empty one. */
  function OrEmpty<V>(optArray: Option<seq<Item<V>>>): seq<Item<V>>
  {
    if optArray.Some? then optArray.value else []
  }

  /** The constructor. Nothing relates the three values to one another:
      a negative offset, or a total smaller than the page, is kept as given. */
  function Create<V>(optArray: Option<seq<Item<V>>>, optOffset: Option<int>, optTotalSize: Option<int>)
    : (c: Collection<V>)
    ensures optArray.None? ==> AsArray(c) == []
    ensures optArray.Some? ==> AsArray(c) == optArray.value
    ensures optOffset.None? ==> GetOffset(c) == 0
    ensures optOffset.Some? ==> GetOffset(c) == optOffset.value
    ensures optTotalSize.None? ==> GetTotalSize(c) == Size(c)
    ensures optTotalSize == Some(0) ==> GetTotalSize(c) == Size(c)
    ensures optTotalSize.Some? && optTotalSize.value != 0 ==> GetTotalSize(c) == optTotalSize.value
  {
    var items := OrEmpty(optArray);
    Collection(items, OrNumber(optOffset, 0), OrNumber(optTotalSize, |items|))
  }

  /** The number of items held by this page (not the total). */
  function Size<V>(c: Collection<V>): (n: nat)
    ensures n == |c.items|
  {
    |c.items|
  }

  /** The items held, in result order. */
  function AsArray<V>(c: Collection<V>): (r: seq<Item<V>>)
    ensures r == c.items
  {
    c.items
  }

  /** The size of the larger result set, as stored at construction. */
  function GetTotalSize<V>(c: Collection<V>): (t: int)
    ensures t == c.totalSize
  {
    c.totalSize
  }

  /** The offset of this page within the larger result set. */
  function GetOffset<V>(c: Collection<V>): (o: int)
    ensures o == c.offset
  {
    c.offset
  }

  /** `k` is the lowest index of `items` whose id is `id`. */
  ghost predicate IsFirstMatch<V>(items: seq<Item<V>>, id: string, k: int)
  {
    0 <= k < |items| && items[k].id == id &&
    forall j :: 0 <= j < k ==> items[j].id != id
  }

  /** No item of `items` has id `id`. */
  ghost predicate Absent<V>(items: seq<Item<V>>, id: string)
  {
    forall j :: 0 <= j < |items| ==> items[j].id != id
  }

  /** Reference definition of the lookup: the index of the first item with
      id `id`, or `None` when there is none. */
  function FirstIndex<V>(items: seq<Item<V>>, id: string): (r: Option<nat>)
    ensures r.Some? ==> IsFirstMatch(items, id, r.value)
    ensures r.None? <==> Absent(items, id)
  {
    if |items| == 0 then None
    else if items[0].id == id then Some(0)
    else
      match FirstIndex(items[1..], id)
      case None => None
      case Some(k) => Some(k + 1)
  }

  /** The item `getById` answers with, defined through `FirstIndex`. */
  function Find<V>(c: Collection<V>, id: string): (r: Option<Item<V>>)
    ensures r.None? <==> Absent(c.items, id)
    ensures r.Some? ==> exists k :: IsFirstMatch(c.items, id, k) && c.items[k] == r.value
  {
    match FirstIndex(c.items, id)
    case None => None
    case Some(k) => Some(c.items[k])
  }

  /** `getById`: a scan from index 0 upwards that stops at the first item
      whose id equals `id`, and answers `None` (JavaScript's `null`) when the
      scan runs off the end. */
  method GetById<V>(c: Collection<V>, id: string) returns (r: Option<Item<V>>)
    ensures r.None? <==> Absent(c.items, id)
    ensures r.Some? ==> exists k :: IsFirstMatch(c.items, id, k) && c.items[k] == r.value
    ensures r == Find(c, id)
  {
    var i := 0;
    while i < Size(c)
      invariant 0 <= i <= |c.items|
      invariant forall j :: 0 <= j < i ==> c.items[j].id != id
    {
      var item := c.items[i];
      if item.id == id {
        assert IsFirstMatch(c.items, id, i);
        return Some(item);
      }
      i := i + 1;
    }
    return None;
  }

  /** The calls `fn(items[0])`, `fn(items[1])`, ... in order: the trace of a
      loop over `items` that calls `fn` on each. */
  function Visit<V, R>(items: seq<Item<V>>, fn: Item<V> -> R): (calls: seq<R>)
    ensures |calls| == |items|
    ensures forall i :: 0 <= i < |items| ==> calls[i] == fn(items[i])
  {
    if |items| == 0 then []
    else [fn(items[0])] + Visit(items[1..], fn)
  }

  /** `each(fn)`, modelled as the sequence of results of the calls it makes,
      one per item held, in ascending index order. */
  function Each<V, R>(c: Collection<V>, fn: Item<V> -> R): (calls: seq<R>)
    ensures |calls| == Size(c)
    ensures forall i :: 0 <= i < Size(c) ==> calls[i] == fn(AsArray(c)[i])
  {
    Visit(c.items, fn)
  }
}
