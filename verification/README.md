# opensocial.Collection, modelled in Dafny

A model of `opensocial.Collection` from Apache Shindig's OpenSocial reference
JavaScript: a read-only page of items out of a larger result set. A
collection holds the items of the page, the offset of the first of them
within the larger set, and the size of that larger set. It offers
`size`, `getOffset`, `getTotalSize`, `asArray`, an in-order `each`
and a linear `getById` that answers with the first item carrying the id,
or `null`.

Files:

- `wrappers.dfy` — module `Wrappers`: `Option`, standing for an omitted
  argument and for a `null` answer.
- `collection.dfy` — module `OpenSocialCollection`: the `Item` and
  `Collection` datatypes, the constructor `Create` with JavaScript's `||`
  defaulting written out (`OrEmpty`, `OrNumber`), the accessors, the
  reference lookup `FirstIndex`/`Find`, the scanning loop `GetById`, and
  `each` as the trace of its callback calls (`Visit`, `Each`).
- `collection_properties.dfy` — module `CollectionProperties`: lemmas that
  relate a construction to what the accessors report, and lookups to the
  items held.

Modelling decisions:

- The constructor's arguments are optional: `Option<seq<Item<V>>>`,
  `Option<int>`, `Option<int>`. JavaScript's `x || d` replaces falsy
  values. An array, even an empty one, is truthy, so only an omitted array
  becomes `[]`. The number 0 is falsy, so an explicit offset of 0 and an
  explicit total size of 0 behave as omitted ones. For the offset that makes
  no difference (the fallback is 0). For the total size it does: a total of
  0 becomes the array length.
- Offsets and totals are `int`, not `nat`. The code checks nothing, so
  negative values and a total below the page size are kept as given; the
  model adds no non-negativity invariant.
- An entry's `getId()` is the field `id` of `Item<V>`; `data` stands for
  everything else the entry carries.
- `getById` is modelled twice: `GetById` is the loop as written, and
  `FirstIndex`/`Find` is a recursive reference definition. `GetById`'s
  contract proves that the two agree on every input.
- `each(fn)` is modelled as the sequence of `fn`'s results, one per call,
  in call order. The callback is a total function.
- All values are immutable. Every accessor is a pure function of the stored
  collection, so repeated calls give identical results and no accessor
  changes the items, the offset or the total size.

## Model

| member | source | states |
|---|---|---|
| OpenSocialCollection.Create | features/src/main/javascript/features/opensocial-reference/collection.js:51-55 | an omitted array reads back as `[]` and a given one verbatim; an omitted offset reads back as 0 and a given one verbatim; a total size that is omitted or 0 reads back as the page size, any other verbatim |
| OpenSocialCollection.Size | features/src/main/javascript/features/opensocial-reference/collection.js:85-87 | the number of items held by this page, a plain read of the stored sequence's length (not the total size) |
| OpenSocialCollection.AsArray | features/src/main/javascript/features/opensocial-reference/collection.js:110-112 | the stored sequence itself, unchanged |
| OpenSocialCollection.GetTotalSize | features/src/main/javascript/features/opensocial-reference/collection.js:121-123 | the total size stored at construction, verbatim |
| OpenSocialCollection.GetOffset | features/src/main/javascript/features/opensocial-reference/collection.js:131-133 | the offset stored at construction, verbatim |
| CollectionProperties.NoArrayIsEmpty | features/src/main/javascript/features/opensocial-reference/collection.js:52-54 | without an array, `size()` is 0 and `asArray()` is empty for any offset and total, and the default total is then 0 |
| CollectionProperties.NoArraySameAsEmptyArray | features/src/main/javascript/features/opensocial-reference/collection.js:52 | an omitted array and an explicitly empty one give the same collection |
| CollectionProperties.OffsetVerbatim | features/src/main/javascript/features/opensocial-reference/collection.js:53 | `getOffset()` returns the offset given, even a negative one; omitted means 0; an explicit 0 and an omitted offset give the same collection |
| CollectionProperties.ZeroTotalSizeIsOmitted | features/src/main/javascript/features/opensocial-reference/collection.js:54 | an explicit total size of 0 gives the same collection as an omitted one |
| CollectionProperties.TotalSizeIsSizeIff | features/src/main/javascript/features/opensocial-reference/collection.js:54 | `getTotalSize() == size()` exactly when the total was omitted, given as 0, or given as the page size |
| CollectionProperties.OmittedTotalMeetsBound | features/src/main/javascript/features/opensocial-reference/collection.js:77-87 | with the total omitted, the page size is at most the total size, as the doc comment of `size` says |
| CollectionProperties.SuppliedTotalMayBreakBound | features/src/main/javascript/features/opensocial-reference/collection.js:54 | a caller-supplied non-zero total smaller than the page is kept, so the page can be larger than the total |
| CollectionProperties.RebuildFromAccessors | features/src/main/javascript/features/opensocial-reference/collection.js:110-133 | constructing from `asArray()`, `getOffset()` and `getTotalSize()` of a constructed collection gives the same collection back |
| CollectionProperties.ReachableIff | features/src/main/javascript/features/opensocial-reference/collection.js:51-55 | a stored state comes from some construction exactly when its total size is 0 only for an empty page |
| OpenSocialCollection.FirstIndex | features/src/main/javascript/features/opensocial-reference/collection.js:66-70 | the index answered is the lowest one whose item has the id; `None` exactly when no item has it |
| OpenSocialCollection.Find | features/src/main/javascript/features/opensocial-reference/collection.js:64-73 | the item answered is the item at the lowest index with the id; `None` (null) exactly when no item has it |
| OpenSocialCollection.GetById | features/src/main/javascript/features/opensocial-reference/collection.js:64-73 | the scan from index 0 answers with the item at the first index whose id matches, `None` exactly when none matches, and agrees with `Find` on every input |
| CollectionProperties.FirstMatchUnique | features/src/main/javascript/features/opensocial-reference/collection.js:66-70 | the first match is a single index, so the answer is well defined |
| CollectionProperties.FindOnEmpty | features/src/main/javascript/features/opensocial-reference/collection.js:66-73 | on an empty collection every lookup answers null |
| CollectionProperties.FindFirstOfDuplicates | features/src/main/javascript/features/opensocial-reference/collection.js:66-70 | when the item at k has the id and no earlier one has, the lookup answers that item: the first of several duplicates wins |
| CollectionProperties.FindAnswersHeldItem | features/src/main/javascript/features/opensocial-reference/collection.js:67-69 | a found item is one of the items held and carries the id asked for |
| OpenSocialCollection.Visit | features/src/main/javascript/features/opensocial-reference/collection.js:99-101 | the loop makes one call per item, and the i-th call is on the i-th item |
| OpenSocialCollection.Each | features/src/main/javascript/features/opensocial-reference/collection.js:98-102 | `each(fn)` makes exactly `size()` calls, on `asArray()[0]` up to `asArray()[size()-1]` in ascending order |
| CollectionProperties.EachVisitsAsArray | features/src/main/javascript/features/opensocial-reference/collection.js:98-112 | with the identity callback, the visits of `each` are exactly `asArray()`, element for element |
| CollectionProperties.ExamplePage | features/src/main/javascript/features/opensocial-reference/collection.js:51-73 | items a, b, c at offset 10 of 50: size 3, offset 10, total 50, "b" finds the second item, "z" finds nothing |
| CollectionProperties.ExampleDuplicateIds | features/src/main/javascript/features/opensocial-reference/collection.js:64-73 | two items with id "x": the first is found; omitted offset and total give 0 and 2 |

## Left out

- Aliasing: the constructor keeps the caller's array without copying it, and `asArray()` returns that same array. Any later mutation of it, including one made by the callback of `each` while the loop runs, shows through `size()`, `each` and `getById` (both loops re-read `size()` on every pass), while the total size stays as computed at construction; after a push, `size()` can exceed a defaulted total. A value-semantics `seq` cannot alias, so the model stores an immutable sequence and `AsArray` returns it; `OmittedTotalMeetsBound` and `TotalSizeIsSizeIff` hold of the state as constructed.
- JavaScript falsy values other than an omitted argument and the number 0 (`NaN`, `""`, `null`, `false`), and truthy non-array values passed as the array.
- Duck typing of `item.getId()`: entries without the method, or whose method does something other than return a string. Entries carry an `id` field instead.
- Exceptions thrown by the callback of `each` or by `getId()`, which would end the loop early. The callback is total.
- Deprecation metadata, and the gadget API layer that builds collections from server responses.
- JavaScript numbers are doubles; offsets and totals are taken as `int`, so fractional and infinite values are not modelled; ids are Unicode strings, not UTF-16 code-unit strings, so an id holding an unpaired surrogate is not modelled.
