/**
 The key-value cache and the category service that reads through it: reordering, and the coherence of the
 cached category lists with the table.
 */
module Cache {
  import opened Common

  /** A cache without the keys that start with a prefix: the pattern `prefix*`. */
  function DelPrefix<V>(cache: map<string, V>, prefix: string): (left: map<string, V>)
    ensures forall k :: k in left <==> k in cache && !(prefix <= k)
    ensures forall k :: k in left ==> left[k] == cache[k]
  {
    map k | k in cache && !(prefix <= k) :: cache[k]
  }

  /**
   The store behind the cache. Every key is stored under a namespace, and deleting by pattern scans the
   namespaced keys; a store without scan support ignores it.
   */
  class CacheStore<V> {
    const namespace: string
    const scans: bool
    var raw: map<string, V>

    constructor (namespace: string, scans: bool)
      ensures View() == map[] && this.namespace == namespace && this.scans == scans
    {
      this.namespace, this.scans, raw := namespace, scans, map[];
    }

    function Stored(key: string): string {
      namespace + ":" + key
    }

    /** The cache as its users see it, without the namespace. */
    function View(): (view: map<string, V>)
      reads this
      ensures forall k :: k in view <==> Stored(k) in raw
      ensures forall k :: k in view ==> view[k] == raw[Stored(k)]
    {
      var names := set r | r in raw && Stored("") <= r :: r[|Stored("")|..];
      assert forall k :: Stored(k) == Stored("") + k;
      assert forall k :: Stored(k) in raw ==> Stored("") <= Stored(k) && Stored(k)[|Stored("")|..] == k;
      assert forall r :: r in raw && Stored("") <= r ==> Stored(r[|Stored("")|..]) == r;
      map k | k in names :: raw[Stored(k)]
    }

    method Get(key: string) returns (value: Option<V>)
      ensures value == if key in View() then Some(View()[key]) else None
    {
      value := if Stored(key) in raw then Some(raw[Stored(key)]) else None;
    }

    /** A hit returns the cached value; a miss stores and returns the value the factory produces. */
    method GetOrSet(key: string, factory: () -> V) returns (value: V)
      modifies this
      ensures key in old(View()) ==> value == old(View())[key] && View() == old(View())
      ensures key !in old(View()) ==> value == factory() && View() == old(View())[key := value]
    {
      hide Stored, View;
      var cached := Get(key);
      if cached.Some? {
        return cached.value;
      }
      value := factory();
      Set(key, value);
    }

    method Set(key: string, value: V)
      modifies this
      ensures View() == old(View())[key := value]
      ensures raw == old(raw)[namespace + ":" + key := value]
    {
      hide View;
      StoredInjective(key);
      raw := raw[Stored(key) := value];
    }

    method Delete(key: string)
      modifies this
      ensures View() == old(View()) - {key}
      ensures raw == old(raw) - {namespace + ":" + key}
    {
      hide View;
      StoredInjective(key);
      raw := raw - {Stored(key)};
    }

    lemma StoredInjective(key: string)
      ensures forall k :: Stored(k) == Stored(key) ==> k == key
    {
      forall k | Stored(k) == Stored(key)
        ensures k == key
      {
        assert Stored(k)[|namespace| + 1..] == k && Stored(key)[|namespace| + 1..] == key;
      }
    }

    /** A scan returns keys that match, and every matching key at least once, in batches. */
    predicate ScanOf(batches: seq<seq<string>>, prefix: string)
      reads this
    {
      && (forall b, i :: 0 <= b < |batches| && 0 <= i < |batches[b]| ==> prefix <= batches[b][i])
      && (forall r :: r in raw && prefix <= r ==> exists b :: 0 <= b < |batches| && r in batches[b])
    }

    /** One possible scan; users of a scan may rely on `ScanOf` only. */
    method Scan(prefix: string) returns (batches: seq<seq<string>>)
      ensures ScanOf(batches, prefix)
    {
      batches := [];
      var rest := set r | r in raw && prefix <= r;
      while rest != {}
        invariant forall b, i :: 0 <= b < |batches| && 0 <= i < |batches[b]| ==> prefix <= batches[b][i]
        invariant forall r :: r in rest ==> prefix <= r
        invariant forall r :: r in raw && prefix <= r ==> r in rest || exists b :: 0 <= b < |batches| && r in batches[b]
        decreases |rest|
      {
        var key :| key in rest;
        ghost var before := batches;
        batches := batches + [[key]];
        assert key in batches[|before|];
        assert forall b :: 0 <= b < |before| ==> batches[b] == before[b];
        rest := rest - {key};
      }
    }

    method DelByPattern(prefix: string) returns (total: nat)
      modifies this
      ensures View() == if scans then DelPrefix(old(View()), prefix) else old(View())
    {
      hide Stored, View;
      total := 0;
      if !scans {
        return;
      }
      var batches := Scan(Stored(prefix));
      for b := 0 to |batches|
        invariant forall r :: r in raw <==> r in old(raw) && forall c :: 0 <= c < b ==> r !in batches[c]
        invariant forall r :: r in raw ==> raw[r] == old(raw)[r]
      {
        if |batches[b]| == 0 {
          continue;
        }
        raw := raw - (set r | r in batches[b]);
        total := total + |batches[b]|;
      }
      assert forall r :: r in raw <==> r in old(raw) && !(Stored(prefix) <= r);
      forall k
        ensures Stored(prefix) <= Stored(k) <==> prefix <= k
      {
        StoredPrefix(prefix, k);
      }
    }

    lemma StoredPrefix(prefix: string, k: string)
      ensures Stored(prefix) <= Stored(k) <==> prefix <= k
    {
      var ns := namespace + ":";
      assert Stored(prefix) == ns + prefix && Stored(k) == ns + k;
      if Stored(prefix) <= Stored(k) {
        assert forall i :: 0 <= i < |prefix| ==> Stored(prefix)[|ns| + i] == prefix[i] && Stored(k)[|ns| + i] == k[i];
      }
    }
  }
}

module CategoryCache {
  import opened Common
  import opened Cache

  type CategoryId = string

  datatype Category = Category(id: CategoryId, slug: string, order: int, active: bool)

  /** What a cached key can hold. */
  datatype Entry = ListEntry(categories: seq<Category>) | OneEntry(category: Category)

  datatype Query = AllCategories | OnlyActive | OnlyInactive

  /** `scans` says whether the cache store supports deletion by pattern. */
  datatype State = State(table: seq<Category>, withProducts: set<CategoryId>, cache: map<string, Entry>, scans: bool)

  datatype Changes = Changes(slug: Option<string>, order: Option<int>, active: Option<bool>)

  datatype Step =
    | Create(category: Category)
    | Update(id: CategoryId, changes: Changes)
    | Delete(id: CategoryId)
    | Reorder(ids: seq<CategoryId>)
    | FindAll(query: Query)
    | FindBySlug(slug: string)
    | FindById(id: CategoryId)
    | Expire(key: string)

  const PREFIX := "category:"

  function ListKey(q: Query): string {
    match q
    case AllCategories => PREFIX + "list"
    case OnlyActive => PREFIX + "list:active"
    case OnlyInactive => PREFIX + "list:inactive"
  }

  function SlugKey(slug: string): string { PREFIX + slug }

  function IdKey(id: CategoryId): string { PREFIX + "id:" + id }

  /** The slugs whose cache key is a list key. */
  predicate Reserved(slug: string) {
    slug == "list" || slug == "list:active" || slug == "list:inactive"
  }

  // ------------------------------------------------------------------------------------------
  // The fresh query
  // ------------------------------------------------------------------------------------------

  predicate Matches(c: Category, q: Query) {
    match q
    case AllCategories => true
    case OnlyActive => c.active
    case OnlyInactive => !c.active
  }

  function InsertByOrder(sorted: seq<Category>, c: Category): seq<Category> {
    if sorted == [] || sorted[|sorted| - 1].order <= c.order then sorted + [c]
    else InsertByOrder(sorted[..|sorted| - 1], c) + [sorted[|sorted| - 1]]
  }

  /** The rows that match, by display order; rows of equal order stay in table order. */
  function Fresh(table: seq<Category>, q: Query): seq<Category> {
    if table == [] then []
    else
      var before := Fresh(table[..|table| - 1], q);
      if Matches(table[|table| - 1], q) then InsertByOrder(before, table[|table| - 1]) else before
  }

  predicate SortedByOrder(categories: seq<Category>) {
    forall i, j :: 0 <= i < j < |categories| ==> categories[i].order <= categories[j].order
  }

  lemma {:induction false} InsertKeepsRows(sorted: seq<Category>, c: Category)
    ensures multiset(InsertByOrder(sorted, c)) == multiset(sorted) + multiset{c}
  {
    if sorted != [] && sorted[|sorted| - 1].order > c.order {
      var n := |sorted| - 1;
      InsertKeepsRows(sorted[..n], c);
      assert sorted == sorted[..n] + [sorted[n]];
    }
  }

  lemma {:induction false} InsertSorted(sorted: seq<Category>, c: Category)
    requires SortedByOrder(sorted)
    ensures SortedByOrder(InsertByOrder(sorted, c))
  {
    if sorted != [] && sorted[|sorted| - 1].order > c.order {
      var n := |sorted| - 1;
      InsertSorted(sorted[..n], c);
      InsertKeepsRows(sorted[..n], c);
      SortedAppend(sorted[..n], c, InsertByOrder(sorted[..n], c), sorted[n]);
    }
  }

  lemma SortedAppend(front: seq<Category>, c: Category, rest: seq<Category>, last: Category)
    requires SortedByOrder(rest) && multiset(rest) == multiset(front) + multiset{c}
    requires c.order <= last.order && forall i :: 0 <= i < |front| ==> front[i].order <= last.order
    ensures SortedByOrder(rest + [last])
  {
    forall i | 0 <= i < |rest|
      ensures rest[i].order <= last.order
    {
      assert rest[i] in multiset(rest);
      assert rest[i] == c || rest[i] in front;
    }
  }

  /** A fresh query returns exactly the matching rows, each as often as the table holds it, in display order. */
  lemma {:induction false} FreshIsSortedFilter(table: seq<Category>, q: Query)
    ensures SortedByOrder(Fresh(table, q))
    ensures forall c :: multiset(Fresh(table, q))[c]
                        == if q.AllCategories? || (q.OnlyActive? <==> c.active) then multiset(table)[c] else 0
  {
    if table != [] {
      hide InsertByOrder, SortedByOrder;
      var n := |table| - 1;
      FreshIsSortedFilter(table[..n], q);
      assert table == table[..n] + [table[n]];
      InsertSorted(Fresh(table[..n], q), table[n]);
      InsertKeepsRows(Fresh(table[..n], q), table[n]);
    }
  }

  // ------------------------------------------------------------------------------------------
  // Reordering
  // ------------------------------------------------------------------------------------------

  predicate UniqueIds(table: seq<Category>) {
    forall i, j :: 0 <= i < j < |table| ==> table[i].id != table[j].id
  }

  function IndexOf(ids: seq<CategoryId>, id: CategoryId): (i: Option<nat>)
    ensures i.Some? ==> i.value < |ids| && ids[i.value] == id
    ensures i.None? ==> id !in ids
  {
    if ids == [] then None
    else if ids[|ids| - 1] == id then Some(|ids| - 1)
    else IndexOf(ids[..|ids| - 1], id)
  }

  function FindId(table: seq<Category>, id: CategoryId): (i: Option<nat>)
    ensures i.Some? ==> i.value < |table| && table[i.value].id == id
    ensures i.None? ==> forall k :: 0 <= k < |table| ==> table[k].id != id
  {
    if table == [] then None
    else if table[|table| - 1].id == id then Some(|table| - 1)
    else FindId(table[..|table| - 1], id)
  }

  function FindSlug(table: seq<Category>, slug: string): (i: Option<nat>)
    ensures i.Some? ==> i.value < |table| && table[i.value].slug == slug
    ensures i.None? ==> forall k :: 0 <= k < |table| ==> table[k].slug != slug
  {
    if table == [] then None
    else if table[|table| - 1].slug == slug then Some(|table| - 1)
    else FindSlug(table[..|table| - 1], slug)
  }

  /** `WHERE id IN (ids)`. */
  function RowsIn(table: seq<Category>, ids: seq<CategoryId>): seq<Category> {
    if table == [] then []
    else RowsIn(table[..|table| - 1], ids) + if table[|table| - 1].id in ids then [table[|table| - 1]] else []
  }

  /** Listed rows take the position of their id as display order. */
  function Reordered(table: seq<Category>, ids: seq<CategoryId>): seq<Category> {
    seq(|table|, k requires 0 <= k < |table| =>
      if IndexOf(ids, table[k].id).Some? then table[k].(order := IndexOf(ids, table[k].id).value) else table[k])
  }

  /** `save`: each row of the table is replaced by the row of the same id, if there is one. */
  function Saved(table: seq<Category>, rows: seq<Category>): seq<Category> {
    seq(|table|, k requires 0 <= k < |table| =>
      if FindId(rows, table[k].id).Some? then rows[FindId(rows, table[k].id).value] else table[k])
  }

  lemma {:induction false} RowsInAre(table: seq<Category>, ids: seq<CategoryId>)
    requires UniqueIds(table)
    ensures UniqueIds(RowsIn(table, ids))
    ensures forall c :: c in RowsIn(table, ids) <==> c in table && c.id in ids
  {
    if table != [] {
      var n := |table| - 1;
      RowsInAre(table[..n], ids);
      var before := RowsIn(table[..n], ids);
      assert table == table[..n] + [table[n]];
      forall i | 0 <= i < |before|
        ensures before[i].id != table[n].id
      {
        assert before[i] in before;
      }
    }
  }

  /** Saving the listed rows, each renumbered to its position, reorders the table. */
  lemma SavingReorders(table: seq<Category>, ids: seq<CategoryId>, rows: seq<Category>)
    requires UniqueIds(table) && |rows| == |RowsIn(table, ids)|
    requires forall k :: 0 <= k < |rows| ==>
      RowsIn(table, ids)[k].id in ids && rows[k] == RowsIn(table, ids)[k].(order := Position(ids, RowsIn(table, ids)[k].id))
    ensures Saved(table, rows) == Reordered(table, ids) && UniqueIds(Saved(table, rows))
  {
    hide RowsIn, FindId, IndexOf;
    var loaded := RowsIn(table, ids);
    RowsInAre(table, ids);
    forall k | 0 <= k < |table|
      ensures Saved(table, rows)[k] == Reordered(table, ids)[k] && Saved(table, rows)[k].id == table[k].id
    {
      var f := FindId(rows, table[k].id);
      if f.Some? {
        assert loaded[f.value] in loaded;
        var j :| 0 <= j < |table| && table[j] == loaded[f.value];
        assert j == k;
      } else {
        forall m | 0 <= m < |loaded|
          ensures loaded[m] != table[k]
        {
          assert rows[m].id != table[k].id;
        }
        assert table[k] !in loaded;
        assert IndexOf(ids, table[k].id).None?;
      }
    }
  }

  function Position(ids: seq<CategoryId>, id: CategoryId): nat
    requires id in ids
  {
    IndexOf(ids, id).value
  }

  function IdSet(ids: seq<CategoryId>): set<CategoryId> {
    set id | id in ids
  }

  function RowIds(table: seq<Category>): set<CategoryId> {
    set c | c in table :: c.id
  }

  lemma IdSetExtends(ids: seq<CategoryId>, n: nat)
    requires |ids| == n + 1
    ensures IdSet(ids) == IdSet(ids[..n]) + {ids[n]}
    ensures NoDuplicates(ids) <==> NoDuplicates(ids[..n]) && ids[n] !in IdSet(ids[..n])
  {
    assert ids == ids[..n] + [ids[n]];
    if !NoDuplicates(ids) && NoDuplicates(ids[..n]) {
      var i, j :| 0 <= i < j < |ids| && ids[i] == ids[j];
      assert j == n && ids[..n][i] == ids[n];
    }
  }

  lemma {:induction false} IdSetSize(ids: seq<CategoryId>)
    ensures |IdSet(ids)| <= |ids|
    ensures |IdSet(ids)| == |ids| <==> NoDuplicates(ids)
  {
    if ids == [] {
      assert IdSet(ids) == {};
    } else {
      hide IdSet, NoDuplicates;
      var n := |ids| - 1;
      IdSetSize(ids[..n]);
      IdSetExtends(ids, n);
    }
  }

  lemma RowIdsExtend(table: seq<Category>, n: nat)
    requires UniqueIds(table) && |table| == n + 1
    ensures RowIds(table) == RowIds(table[..n]) + {table[n].id}
    ensures table[n].id !in RowIds(table[..n]) && UniqueIds(table[..n])
  {
    assert table == table[..n] + [table[n]];
  }

  lemma {:induction false} RowsInSize(table: seq<Category>, ids: seq<CategoryId>)
    requires UniqueIds(table)
    ensures |RowsIn(table, ids)| == |RowIds(table) * IdSet(ids)|
  {
    if table == [] {
      assert RowIds(table) * IdSet(ids) == {};
    } else {
      hide RowIds, IdSet, UniqueIds;
      var n := |table| - 1;
      RowIdsExtend(table, n);
      RowsInSize(table[..n], ids);
      MeetExtends(RowIds(table[..n]), table[n].id, IdSet(ids));
      InIdSet(ids, table[n].id);
    }
  }

  lemma InIdSet(ids: seq<CategoryId>, id: CategoryId)
    ensures id in IdSet(ids) <==> id in ids
  {
  }

  lemma MeetExtends(a: set<CategoryId>, x: CategoryId, b: set<CategoryId>)
    requires x !in a
    ensures |(a + {x}) * b| == |a * b| + if x in b then 1 else 0
  {
    assert (a + {x}) * b == if x in b then a * b + {x} else a * b;
  }

  lemma {:induction false} SubsetSize(a: set<CategoryId>, b: set<CategoryId>)
    requires a <= b
    ensures |a| <= |b| && (|a| == |b| ==> a == b)
  {
    if a != {} {
      var x :| x in a;
      SubsetSize(a - {x}, b - {x});
    }
  }

  /** The size check of a reorder accepts exactly the duplicate-free lists of existing ids. */
  lemma ReorderAcceptsExactly(table: seq<Category>, ids: seq<CategoryId>)
    requires UniqueIds(table)
    ensures |RowsIn(table, ids)| == |ids| <==> NoDuplicates(ids) && forall id :: id in ids ==> FindId(table, id).Some?
  {
    hide RowsIn, FindId;
    RowsInSize(table, ids);
    IdSetSize(ids);
    SubsetSize(RowIds(table) * IdSet(ids), IdSet(ids));
    forall id | id in ids
      ensures id in RowIds(table) <==> FindId(table, id).Some?
    {
      if FindId(table, id).Some? {
        assert table[FindId(table, id).value] in table;
      }
    }
    if forall id :: id in ids ==> FindId(table, id).Some? {
      assert RowIds(table) * IdSet(ids) == IdSet(ids);
    }
    if RowIds(table) * IdSet(ids) == IdSet(ids) {
      forall id | id in ids
        ensures FindId(table, id).Some?
      {
        assert id in IdSet(ids);
      }
    }
  }

  lemma {:induction false} IndexOfUnique(ids: seq<CategoryId>, i: nat)
    requires NoDuplicates(ids) && i < |ids|
    ensures IndexOf(ids, ids[i]) == Some(i)
  {
    hide IndexOf;
    var j := IndexOf(ids, ids[i]);
    assert j.Some?;
  }

  /** After an accepted reorder the i-th listed category has display order i and the others are unchanged. */
  lemma ReorderAssigns(table: seq<Category>, ids: seq<CategoryId>, k: nat)
    requires UniqueIds(table) && NoDuplicates(ids) && k < |table|
    ensures TakesPosition(table[k], ids, Reordered(table, ids)[k])
  {
    hide IndexOf;
    forall i | 0 <= i < |ids| && ids[i] == table[k].id
      ensures Reordered(table, ids)[k] == table[k].(order := i)
    {
      IndexOfUnique(ids, i);
    }
  }

  /** What a reorder makes of a row: the place of its id in the list is its new display order. */
  predicate TakesPosition(before: Category, ids: seq<CategoryId>, after: Category) {
    && (forall i :: 0 <= i < |ids| && ids[i] == before.id ==> after == before.(order := i))
    && (before.id !in ids ==> after == before)
  }

  // ------------------------------------------------------------------------------------------
  // The steps
  // ------------------------------------------------------------------------------------------

  function InvalidateLists(cache: map<string, Entry>): map<string, Entry> {
    cache - {ListKey(AllCategories)} - {ListKey(OnlyActive)} - {ListKey(OnlyInactive)}
  }

  /** List keys, the category's own keys when known, then everything with the prefix. */
  function Invalidate(cache: map<string, Entry>, id: Option<CategoryId>, slug: Option<string>, scans: bool)
    : map<string, Entry>
  {
    var c1 := InvalidateLists(cache);
    var c2 := if id.Some? && id.value != "" then c1 - {IdKey(id.value)} else c1;
    var c3 := if slug.Some? && slug.value != "" then c2 - {SlugKey(slug.value)} else c2;
    if scans then DelPrefix(c3, PREFIX) else c3
  }

  /** The keys an invalidation removes. */
  predicate Cleared(key: string, id: Option<CategoryId>, slug: Option<string>, scans: bool) {
    || key == "category:list" || key == "category:list:active" || key == "category:list:inactive"
    || (id.Some? && id.value != "" && key == "category:id:" + id.value)
    || (slug.Some? && slug.value != "" && key == "category:" + slug.value)
    || (scans && "category:" <= key)
  }

  /** A cache after an invalidation: exactly those keys are gone, and the others hold what they held. */
  ghost predicate Emptied(before: map<string, Entry>, after: map<string, Entry>, id: Option<CategoryId>,
                          slug: Option<string>, scans: bool)
  {
    && (forall k :: k in after <==> k in before && !Cleared(k, id, slug, scans))
    && (forall k :: k in after ==> after[k] == before[k])
  }

  lemma KeysAre(id: CategoryId, slug: string)
    ensures ListKey(AllCategories) == "category:list" && ListKey(OnlyActive) == "category:list:active"
    ensures ListKey(OnlyInactive) == "category:list:inactive"
    ensures IdKey(id) == "category:id:" + id && SlugKey(slug) == "category:" + slug
  {
    assert PREFIX + "id:" == "category:id:";
  }

  lemma InvalidateEmpties(cache: map<string, Entry>, id: Option<CategoryId>, slug: Option<string>, scans: bool)
    ensures Emptied(cache, Invalidate(cache, id, slug, scans), id, slug, scans)
  {
    KeysAre(if id.Some? then id.value else "", if slug.Some? then slug.value else "");
    hide ListKey, IdKey, SlugKey;
  }

  function Changed(c: Category, changes: Changes): Category {
    c.(slug := if changes.slug.Some? then changes.slug.value else c.slug,
       order := if changes.order.Some? then changes.order.value else c.order,
       active := if changes.active.Some? then changes.active.value else c.active)
  }

  /** The request carries a non-empty slug that is not the category's own. */
  predicate Renames(c: Category, changes: Changes) {
    changes.slug.Some? && changes.slug.value != "" && changes.slug.value != c.slug
  }

  predicate SlugTaken(table: seq<Category>, c: Category, changes: Changes) {
    Renames(c, changes) && FindSlug(table, changes.slug.value).Some?
  }

  /** A cached read of one category: a hit changes nothing, and a miss stores a row that fits, if there is one. */
  ghost predicate ReadOne(table: seq<Category>, fits: Category -> bool, key: string, before: map<string, Entry>,
                          found: Option<Entry>, after: map<string, Entry>)
  {
    if key in before then found == Some(before[key]) && after == before
    else if exists c :: c in table && fits(c) then
      exists c :: c in table && fits(c) && found == Some(OneEntry(c)) && after == before[key := OneEntry(c)]
    else found == None && after == before
  }

  function Apply(s: State, step: Step): State {
    match step
    case Create(c) =>
      if FindSlug(s.table, c.slug).Some? || FindId(s.table, c.id).Some? then s
      else s.(table := s.table + [c], cache := Invalidate(s.cache, None, None, s.scans))
    case Update(id, changes) =>
      var i := FindId(s.table, id);
      if i.None? || SlugTaken(s.table, s.table[i.value], changes) then s
      else
        var previous := s.table[i.value];
        var cache := Invalidate(s.cache, Some(id), Some(previous.slug), s.scans);
        s.(table := s.table[i.value := Changed(previous, changes)],
           cache := if changes.slug.Some? && changes.slug.value != "" && changes.slug.value != previous.slug
                    then cache - {SlugKey(changes.slug.value)} else cache)
    case Delete(id) =>
      var i := FindId(s.table, id);
      if i.None? || id in s.withProducts then s
      else
        s.(table := s.table[..i.value] + s.table[i.value + 1..],
           cache := Invalidate(s.cache, Some(id), Some(s.table[i.value].slug), s.scans))
    case Reorder(ids) =>
      if |RowsIn(s.table, ids)| != |ids| then s
      else s.(table := Reordered(s.table, ids), cache := Invalidate(s.cache, None, None, s.scans))
    case FindAll(q) =>
      if ListKey(q) in s.cache then s else s.(cache := s.cache[ListKey(q) := ListEntry(Fresh(s.table, q))])
    case FindBySlug(slug) =>
      var i := FindSlug(s.table, slug);
      if SlugKey(slug) in s.cache || i.None? then s else s.(cache := s.cache[SlugKey(slug) := OneEntry(s.table[i.value])])
    case FindById(id) =>
      var i := FindId(s.table, id);
      if IdKey(id) in s.cache || i.None? then s else s.(cache := s.cache[IdKey(id) := OneEntry(s.table[i.value])])
    case Expire(key) => s.(cache := s.cache - {key})
  }

  function Exec(s: State, steps: seq<Step>): State {
    if steps == [] then s else Apply(Exec(s, steps[..|steps| - 1]), steps[|steps| - 1])
  }

  /** Every cached list equals a fresh query. */
  predicate Coherent(s: State) {
    forall q :: ListKey(q) in s.cache ==> s.cache[ListKey(q)] == ListEntry(Fresh(s.table, q))
  }

  lemma ListKeysDiffer(q: Query, r: Query)
    requires ListKey(q) == ListKey(r)
    ensures q == r
  {
    var a, b := ListKey(q), ListKey(r);
    assert |a| == |b|;
  }

  lemma SlugKeyCollides(slug: string, q: Query)
    ensures SlugKey(slug) == ListKey(q) ==> Reserved(slug)
    ensures Reserved(slug) ==> exists r :: SlugKey(slug) == ListKey(r)
  {
    assert SlugKey(slug)[|PREFIX|..] == slug;
    assert ListKey(AllCategories)[|PREFIX|..] == "list";
    assert ListKey(OnlyActive)[|PREFIX|..] == "list:active";
    assert ListKey(OnlyInactive)[|PREFIX|..] == "list:inactive";
    if slug == "list" {
      assert SlugKey(slug) == ListKey(AllCategories);
    } else if slug == "list:active" {
      assert SlugKey(slug) == ListKey(OnlyActive);
    } else if slug == "list:inactive" {
      assert SlugKey(slug) == ListKey(OnlyInactive);
    }
  }

  lemma IdKeyIsNoListKey(id: CategoryId, q: Query)
    ensures IdKey(id) != ListKey(q)
  {
    assert IdKey(id)[|PREFIX|] == 'i';
    assert ListKey(q)[|PREFIX|] == 'l';
  }

  /** Invalidation empties the list keys on every store, with or without pattern deletion. */
  lemma InvalidateClearsLists(cache: map<string, Entry>, id: Option<CategoryId>, slug: Option<string>, scans: bool, q: Query)
    ensures ListKey(q) !in Invalidate(cache, id, slug, scans)
  {
    hide ListKey, IdKey, SlugKey;
    match q
    case AllCategories =>
    case OnlyActive =>
    case OnlyInactive =>
  }

  /** The one way to break coherence: fetching by a reserved slug a category that carries it. */
  predicate Clobbers(s: State, step: Step) {
    step.FindBySlug? && Reserved(step.slug) && SlugKey(step.slug) !in s.cache && FindSlug(s.table, step.slug).Some?
  }

  /** For every step: the cached lists stay right if and only if the step does not clobber a list key. */
  lemma CoherentExactly(s: State, step: Step)
    requires Coherent(s)
    ensures Coherent(Apply(s, step)) <==> !Clobbers(s, step)
  {
    hide ListKey, SlugKey, IdKey, Fresh, FindId, FindSlug, Invalidate, Reserved, RowsIn, Reordered;
    var t := Apply(s, step);
    match step {
      case FindAll(q) =>
        forall r | ListKey(r) in t.cache
          ensures t.cache[ListKey(r)] == ListEntry(Fresh(t.table, r))
        {
          if ListKey(r) == ListKey(q) { ListKeysDiffer(q, r); }
        }
      case FindBySlug(slug) =>
        FindBySlugCoherent(s, slug);
      case FindById(id) =>
        forall r { IdKeyIsNoListKey(id, r); }
      case Expire(key) =>
      case _ =>
        forall r
          ensures t == s || ListKey(r) !in t.cache
        {
          WritesClearLists(s, step, r);
        }
    }
  }

  lemma WritesClearLists(s: State, step: Step, r: Query)
    requires step.Create? || step.Update? || step.Delete? || step.Reorder?
    ensures Apply(s, step) == s || ListKey(r) !in Apply(s, step).cache
  {
    hide ListKey, SlugKey, IdKey, Invalidate, FindId, FindSlug, RowsIn, Reordered;
    match step
    case Update(id, changes) =>
      var i := FindId(s.table, id);
      if i.Some? { InvalidateClearsLists(s.cache, Some(id), Some(s.table[i.value].slug), s.scans, r); }
    case Delete(id) =>
      var i := FindId(s.table, id);
      if i.Some? { InvalidateClearsLists(s.cache, Some(id), Some(s.table[i.value].slug), s.scans, r); }
    case _ => InvalidateClearsLists(s.cache, None, None, s.scans, r);
  }

  lemma FindBySlugCoherent(s: State, slug: string)
    requires Coherent(s)
    ensures Coherent(Apply(s, FindBySlug(slug))) <==> !Clobbers(s, FindBySlug(slug))
  {
    hide ListKey, SlugKey, Fresh, FindSlug, Reserved;
    var t := Apply(s, FindBySlug(slug));
    forall q { SlugKeyCollides(slug, q); }
    if Clobbers(s, FindBySlug(slug)) {
      var q :| SlugKey(slug) == ListKey(q);
      assert t.cache[ListKey(q)].OneEntry?;
    }
  }

  /** A category with the slug "list", fetched by its slug, takes the place of the cached list, on any store. */
  lemma SlugListClobbers(scans: bool)
    ensures var s := State([], {}, map[], scans);
            && Coherent(s) && Coherent(Exec(s, [Create(Category("1", "list", 0, true))]))
            && !Coherent(Exec(s, [Create(Category("1", "list", 0, true)), FindBySlug("list")]))
  {
    hide ListKey, SlugKey, Fresh, Invalidate, Coherent, Clobbers;
    var s, steps := State([], {}, map[], scans), [Create(Category("1", "list", 0, true)), FindBySlug("list")];
    assert steps[..1] == [Create(Category("1", "list", 0, true))] && steps[..1][..0] == [];
    assert Exec(s, []) == s;
    var t := Exec(s, steps[..1]);
    assert t == Apply(s, steps[0]);
    ListCategoryStored(scans);
    hide Apply;
    CoherentExactly(s, steps[0]);
    CoherentExactly(t, steps[1]);
  }

  lemma ListCategoryStored(scans: bool)
    ensures var s, create := State([], {}, map[], scans), Create(Category("1", "list", 0, true));
            && Coherent(s) && !Clobbers(s, create) && Clobbers(Apply(s, create), FindBySlug("list"))
  {
    hide Invalidate, Fresh;
    var s, create := State([], {}, map[], scans), Create(Category("1", "list", 0, true));
    InvalidateClearsLists(map[], None, None, scans, AllCategories);
    assert SlugKey("list") == ListKey(AllCategories);
    assert Apply(s, create).table == [create.category];
  }

  predicate NoReservedSlugs(table: seq<Category>) {
    forall k :: 0 <= k < |table| ==> !Reserved(table[k].slug)
  }

  /** No category is created with, or renamed to, a slug that collides with a list key. */
  predicate AvoidsReserved(step: Step) {
    && (step.Create? ==> !Reserved(step.category.slug))
    && (step.Update? && step.changes.slug.Some? ==> !Reserved(step.changes.slug.value))
  }

  lemma StepAvoids(s: State, step: Step)
    requires NoReservedSlugs(s.table) && AvoidsReserved(step)
    ensures NoReservedSlugs(Apply(s, step).table) && !Clobbers(s, step)
  {
    hide Reserved, RowsIn, Invalidate, IndexOf, Fresh;
  }

  /** Over any run without reserved slugs, on any store, every cached list equals a fresh query. */
  lemma {:induction false} AlwaysCoherent(s: State, steps: seq<Step>)
    requires Coherent(s) && NoReservedSlugs(s.table)
    requires forall k :: 0 <= k < |steps| ==> AvoidsReserved(steps[k])
    ensures Coherent(Exec(s, steps)) && NoReservedSlugs(Exec(s, steps).table)
  {
    hide Apply, Coherent, NoReservedSlugs, AvoidsReserved;
    if steps != [] {
      AlwaysCoherent(s, steps[..|steps| - 1]);
      StepAvoids(Exec(s, steps[..|steps| - 1]), steps[|steps| - 1]);
      CoherentExactly(Exec(s, steps[..|steps| - 1]), steps[|steps| - 1]);
    }
  }

  // ------------------------------------------------------------------------------------------
  // What an update changes
  // ------------------------------------------------------------------------------------------

  /**
   After an accepted update of row k: the row has the values the request carries and keeps its others, the
   other rows stay, and the keys of the old slug, the new one and the id are gone with the lists.
   */
  ghost predicate Updated(s: State, k: nat, changes: Changes, t: State)
    requires k < |s.table|
  {
    var row := s.table[k];
    && t.table == s.table[k := Category(row.id, if changes.slug.Some? then changes.slug.value else row.slug,
                                        if changes.order.Some? then changes.order.value else row.order,
                                        if changes.active.Some? then changes.active.value else row.active)]
    && Emptied(if Renames(row, changes) then s.cache - {"category:" + changes.slug.value} else s.cache, t.cache,
               Some(row.id), Some(row.slug), s.scans)
  }

  lemma UpdateInRows(s: State, k: nat, changes: Changes)
    requires UniqueIds(s.table) && k < |s.table|
    ensures FindId(s.table, s.table[k].id) == Some(k)
    ensures SlugTaken(s.table, s.table[k], changes)
            <==> Renames(s.table[k], changes) && exists j :: 0 <= j < |s.table| && s.table[j].slug == changes.slug.value
    ensures !SlugTaken(s.table, s.table[k], changes)
            ==> Updated(s, k, changes, Apply(s, Update(s.table[k].id, changes)))
                && UniqueIds(Apply(s, Update(s.table[k].id, changes)).table)
  {
    hide Invalidate, FindId, FindSlug;
    var row := s.table[k];
    assert FindId(s.table, row.id) == Some(k);
    KeysAre("", if changes.slug.Some? then changes.slug.value else "");
    InvalidateEmpties(s.cache, Some(row.id), Some(row.slug), s.scans);
  }

  // ------------------------------------------------------------------------------------------
  // The service
  // ------------------------------------------------------------------------------------------

  class CategoryService {
    var table: seq<Category>
    var withProducts: set<CategoryId>
    const store: CacheStore<Entry>

    ghost function Snapshot(): State
      reads this, store
    {
      State(table, withProducts, store.View(), store.scans)
    }

    ghost predicate Valid()
      reads this
    {
      UniqueIds(table)
    }

    constructor (scans: bool)
      ensures Valid() && fresh(store) && Snapshot() == State([], {}, map[], scans) && Coherent(Snapshot())
    {
      hide CacheStore.View, CacheStore.Stored, ListKey, Fresh;
      table, withProducts := [], {};
      store := new CacheStore("keyv", scans);
    }

    method InvalidateCategoryCache(id: Option<CategoryId>, slug: Option<string>)
      modifies store
      ensures store.View() == Invalidate(old(store.View()), id, slug, store.scans)
      ensures Emptied(old(store.View()), store.View(), id, slug, store.scans)
    {
      hide ListKey, SlugKey, IdKey, Emptied, DelPrefix, CacheStore.View;
      InvalidateEmpties(store.View(), id, slug, store.scans);
      store.Delete(ListKey(AllCategories));
      store.Delete(ListKey(OnlyActive));
      store.Delete(ListKey(OnlyInactive));
      if id.Some? && id.value != "" {
        store.Delete(IdKey(id.value));
      }
      if slug.Some? && slug.value != "" {
        store.Delete(SlugKey(slug.value));
      }
      var total := store.DelByPattern(PREFIX);
    }

    /** Cache-aside read of a list: a hit is the cached list, a miss queries and stores. */
    method FindAllCategories(q: Query) returns (categories: seq<Category>)
      requires Coherent(Snapshot())
      modifies store
      ensures Snapshot() == Apply(old(Snapshot()), FindAll(q)) && Coherent(Snapshot())
      ensures categories == Fresh(table, q)
      ensures var key := if q.AllCategories? then "category:list" else if q.OnlyActive? then "category:list:active"
                         else "category:list:inactive";
              store.View() == old(store.View())[key := ListEntry(categories)]
    {
      KeysAre("", "");
      hide ListKey, Fresh, CacheStore.View;
      CoherentExactly(Snapshot(), FindAll(q));
      var rows := table;
      var entry := store.GetOrSet(ListKey(q), () => ListEntry(Fresh(rows, q)));
      categories := entry.categories;
    }

    /** Cached read of one category by slug; what a hit returns is whatever the key holds. */
    method FindCategoryBySlug(slug: string) returns (found: Option<Entry>)
      modifies store
      ensures Snapshot() == Apply(old(Snapshot()), FindBySlug(slug))
      ensures ReadOne(table, (c: Category) => c.slug == slug, "category:" + slug, old(store.View()), found, store.View())
    {
      hide SlugKey, FindSlug, CacheStore.View;
      KeysAre("", slug);
      found := store.Get(SlugKey(slug));
      if found.Some? {
        return;
      }
      var row := FindSlug(table, slug);
      if row.Some? {
        store.Set(SlugKey(slug), OneEntry(table[row.value]));
        found := Some(OneEntry(table[row.value]));
      }
    }

    /** Cached read of one category by id. */
    method FindCategoryById(id: CategoryId) returns (found: Option<Entry>)
      modifies store
      ensures Snapshot() == Apply(old(Snapshot()), FindById(id))
      ensures ReadOne(table, (c: Category) => c.id == id, "category:id:" + id, old(store.View()), found, store.View())
    {
      hide IdKey, FindId, CacheStore.View;
      KeysAre(id, "");
      found := store.Get(IdKey(id));
      if found.Some? {
        return;
      }
      var row := FindId(table, id);
      if row.Some? {
        store.Set(IdKey(id), OneEntry(table[row.value]));
        found := Some(OneEntry(table[row.value]));
      }
    }

    method CreateCategory(c: Category) returns (ok: bool)
      requires Valid() && FindId(table, c.id).None?
      modifies `table, store
      ensures Valid() && Snapshot() == Apply(old(Snapshot()), Create(c))
      ensures ok <==> forall k :: 0 <= k < |old(table)| ==> old(table)[k].slug != c.slug
      ensures ok ==> table == old(table) + [c] && Emptied(old(store.View()), store.View(), None, None, store.scans)
      ensures !ok ==> table == old(table) && store.View() == old(store.View())
    {
      hide CacheStore.View, Invalidate, Emptied, FindId, FindSlug;
      if FindSlug(table, c.slug).Some? {
        return false;
      }
      table := table + [c];
      InvalidateCategoryCache(None, None);
      ok := true;
    }

    method UpdateCategory(id: CategoryId, changes: Changes) returns (ok: bool)
      requires Valid()
      modifies `table, store
      ensures Valid() && Snapshot() == Apply(old(Snapshot()), Update(id, changes))
      ensures ok <==> exists k :: 0 <= k < |old(table)| && old(table)[k].id == id
                                  && !(Renames(old(table)[k], changes)
                                       && exists j :: 0 <= j < |old(table)| && old(table)[j].slug == changes.slug.value)
      ensures forall k :: ok && 0 <= k < |old(table)| && old(table)[k].id == id ==>
                Updated(old(Snapshot()), k, changes, Snapshot())
      ensures !ok ==> table == old(table) && store.View() == old(store.View())
    {
      hide CacheStore.View, Invalidate, FindId, FindSlug, Emptied, UniqueIds, SlugKey, Updated;
      forall k | 0 <= k < |table| && table[k].id == id { UpdateInRows(Snapshot(), k, changes); }
      var found := FindId(table, id);
      if found.None? {
        return false;
      }
      var category := table[found.value];
      var oldSlug := category.slug;
      var renamed := Renames(category, changes);
      if renamed {
        if FindSlug(table, changes.slug.value).Some? {
          return false;
        }
      }
      category := Changed(category, changes);
      table := table[found.value := category];
      InvalidateCategoryCache(Some(id), Some(oldSlug));
      if renamed {
        store.Delete(SlugKey(changes.slug.value));
      }
      ok := true;
    }

    method DeleteCategory(id: CategoryId) returns (ok: bool)
      requires Valid()
      modifies `table, store
      ensures Valid() && Snapshot() == Apply(old(Snapshot()), Delete(id))
      ensures ok <==> id !in withProducts && exists k :: 0 <= k < |old(table)| && old(table)[k].id == id
      ensures forall k :: ok && 0 <= k < |old(table)| && old(table)[k].id == id ==>
                && table == old(table)[..k] + old(table)[k + 1..]
                && Emptied(old(store.View()), store.View(), Some(id), Some(old(table)[k].slug), store.scans)
      ensures ok ==> forall c :: c in table ==> c.id != id
      ensures !ok ==> table == old(table) && store.View() == old(store.View())
    {
      hide CacheStore.View, Invalidate, FindId, Emptied;
      var found := FindId(table, id);
      if found.None? || id in withProducts {
        return false;
      }
      var slug := table[found.value].slug;
      table := table[..found.value] + table[found.value + 1..];
      InvalidateCategoryCache(Some(id), Some(slug));
      ok := true;
    }

    /** Loads the listed rows, refuses unless there are as many as ids, then numbers them in list order. */
    method ReorderCategories(ids: seq<CategoryId>) returns (ok: bool, categories: seq<Category>)
      requires Valid()
      modifies `table, store
      ensures Valid() && Snapshot() == Apply(old(Snapshot()), Reorder(ids))
      ensures ok <==> NoDuplicates(ids)
                      && forall id :: id in ids ==> exists k :: 0 <= k < |old(table)| && old(table)[k].id == id
      ensures ok ==> |table| == |old(table)| && Emptied(old(store.View()), store.View(), None, None, store.scans)
      ensures forall k :: ok && 0 <= k < |table| ==> TakesPosition(old(table)[k], ids, table[k])
      ensures ok ==> categories == Fresh(table, AllCategories)
      ensures !ok ==> table == old(table) && store.View() == old(store.View())
    {
      hide CacheStore.View, Invalidate, RowsIn, FindId, IndexOf, Position, Fresh, Saved, UniqueIds, NoDuplicates;
      hide Emptied, TakesPosition;
      if NoDuplicates(ids) {
        forall k | 0 <= k < |table| { ReorderAssigns(table, ids, k); }
      }
      var loaded := RowsIn(table, ids);
      ReorderAcceptsExactly(table, ids);
      if |loaded| != |ids| {
        return false, [];
      }
      var rows := Numbered(table, loaded, ids);
      SavingReorders(table, ids, rows);
      table := Saved(table, rows);
      InvalidateCategoryCache(None, None);
      ok, categories := true, Fresh(table, AllCategories);
    }
  }

  /** The numbering loop: each id in turn gives its row, found in memory, its position. */
  method Numbered(table: seq<Category>, loaded: seq<Category>, ids: seq<CategoryId>) returns (rows: seq<Category>)
    requires UniqueIds(table) && loaded == RowsIn(table, ids) && NoDuplicates(ids)
    ensures |rows| == |loaded|
    ensures forall k :: 0 <= k < |rows| ==>
      loaded[k].id in ids && rows[k] == loaded[k].(order := Position(ids, loaded[k].id))
  {
    hide RowsIn, FindId, IndexOf;
    RowsInAre(table, ids);
    rows := loaded;
    for i := 0 to |ids|
      invariant |rows| == |loaded|
      invariant forall k :: 0 <= k < |rows| ==> rows[k].id == loaded[k].id && loaded[k].id in ids
      invariant forall k :: 0 <= k < |rows| ==>
        rows[k] == if loaded[k].id in ids[..i] then loaded[k].(order := Position(ids, loaded[k].id)) else loaded[k]
    {
      var found := FindId(rows, ids[i]);
      assert forall id :: id in ids[..i + 1] <==> id in ids[..i] || id == ids[i];
      assert ids[i] !in ids[..i];
      IndexOfUnique(ids, i);
      if found.Some? {
        rows := rows[found.value := rows[found.value].(order := i)];
      }
    }
    assert ids[..|ids|] == ids;
  }
}
