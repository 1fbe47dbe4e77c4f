// Lists of identified records: the shape of every slice in the game state
// (players, entities, doors, cells, zones), always kept in ascending id order,
// and the client's upsert and remove over them.

module Records {

  datatype Option<+T> = None | Some(value: T)

  // A record of the game state: its id and everything else it holds.
  datatype Record<+T> = Record(id: nat, body: T)

  ghost predicate Ascending(ids: seq<nat>) {
    forall i, j :: 0 <= i < j < |ids| ==> ids[i] < ids[j]
  }

  ghost predicate AscendingById<T>(list: seq<Record<T>>) {
    forall i, j :: 0 <= i < j < |list| ==> list[i].id < list[j].id
  }

  // The lookup table a loop over the list fills in: a later record replaces an earlier one.
  function Index<T>(list: seq<Record<T>>): map<nat, T> {
    if list == [] then map[]
    else Index(list[..|list| - 1])[list[|list| - 1].id := list[|list| - 1].body]
  }

  ghost function MaxOf(ids: set<nat>): (m: nat)
    requires ids != {}
    ensures m in ids && forall k :: k in ids ==> k <= m
  {
    MaxExists(ids);
    var m :| m in ids && forall k :: k in ids ==> k <= m;
    m
  }

  lemma MaxExists(ids: set<nat>)
    requires ids != {}
    ensures exists m :: m in ids && forall k :: k in ids ==> k <= m
  {
    var m := FindMax(ids);
  }

  lemma FindMax(ids: set<nat>) returns (m: nat)
    requires ids != {}
    ensures m in ids && forall k :: k in ids ==> k <= m
  {
    var x :| x in ids;
    var rest := ids - {x};
    m := x;
    if rest != {} {
      var top := FindMax(rest);
      if x < top { m := top; }
    }
    assert forall k :: k in ids ==> k == x || k in rest;
  }

  // The ascending list of a table's records.
  ghost function Listing<T>(table: map<nat, T>): (list: seq<Record<T>>)
    decreases |table|
  {
    if table == map[] then []
    else
      var last := MaxOf(table.Keys);
      Listing(table - {last}) + [Record(last, table[last])]
  }

  lemma {:induction false} IndexMember<T>(list: seq<Record<T>>, id: nat)
    ensures id in Index(list) <==> exists i :: 0 <= i < |list| && list[i].id == id
    ensures id in Index(list) ==> exists i :: 0 <= i < |list| && list[i].id == id && list[i].body == Index(list)[id]
  {
    if list != [] {
      var n := |list| - 1;
      IndexMember(list[..n], id);
      if list[n].id != id && id in Index(list) {
        var i :| 0 <= i < n && list[..n][i].id == id && list[..n][i].body == Index(list[..n])[id];
        assert list[i].id == id && list[i].body == Index(list)[id];
      }
      if i :| 0 <= i < n && list[i].id == id {
        assert list[..n][i].id == id;
      }
    }
  }

  // In an ascending list every record is the one its id looks up.
  lemma {:induction false} IndexAt<T>(list: seq<Record<T>>)
    requires AscendingById(list)
    ensures forall i :: 0 <= i < |list| ==> list[i].id in Index(list) && Index(list)[list[i].id] == list[i].body
  {
    forall i | 0 <= i < |list|
      ensures list[i].id in Index(list) && Index(list)[list[i].id] == list[i].body
    {
      IndexMember(list, list[i].id);
      var j :| 0 <= j < |list| && list[j].id == list[i].id && list[j].body == Index(list)[list[i].id];
      assert i == j;
    }
  }

  lemma LastIsNew<T>(list: seq<Record<T>>)
    requires AscendingById(list) && list != []
    ensures list[|list| - 1].id !in Index(list[..|list| - 1])
  {
    IndexMember(list[..|list| - 1], list[|list| - 1].id);
  }

  lemma IndexAppend<T>(front: seq<Record<T>>, last: Record<T>)
    ensures Index(front + [last]) == Index(front)[last.id := last.body]
  {
    assert (front + [last])[..|front|] == front;
  }

  lemma AppendShape<T>(front: seq<Record<T>>, last: Record<T>)
    requires AscendingById(front)
    requires forall k :: k in Index(front) ==> k < last.id
    ensures AscendingById(front + [last])
    ensures Index(front + [last]) == Index(front)[last.id := last.body]
  {
    IndexAt(front);
    IndexAppend(front, last);
  }

  lemma GreatestApart<T>(table: map<nat, T>)
    requires table != map[]
    ensures var last := MaxOf(table.Keys);
      (table - {last})[last := table[last]] == table && forall k :: k in table - {last} ==> k < last
  {
  }

  lemma {:induction false} ListingShape<T>(table: map<nat, T>)
    ensures AscendingById(Listing(table)) && Index(Listing(table)) == table
    decreases |table|
  {
    if table != map[] {
      var last := MaxOf(table.Keys);
      var rest := table - {last};
      GreatestApart(table);
      ListingShape(rest);
      AppendShape(Listing(rest), Record(last, table[last]));
      hide Index, AscendingById;
    }
  }

  // Ascending lists with the same table are the same list: the canonical form is unique.
  lemma {:induction false} AscendingUnique<T>(list: seq<Record<T>>)
    requires AscendingById(list)
    ensures Listing(Index(list)) == list
  {
    if list != [] {
      var n := |list| - 1;
      var front, last := list[..n], list[n];
      AscendingUnique(front);
      IndexAt(list);
      assert MaxOf(Index(list).Keys) == last.id by {
        forall k | k in Index(list) ensures k <= last.id {
          IndexMember(list, k);
        }
      }
      LastIsNew(list);
      assert Index(list) - {last.id} == Index(front);
      assert Index(list) != map[] by { assert last.id in Index(list); }
    }
  }

  lemma SameTableSameList<T>(a: seq<Record<T>>, b: seq<Record<T>>)
    requires AscendingById(a) && AscendingById(b)
    ensures a == b <==> Index(a) == Index(b)
  {
    AscendingUnique(a);
    AscendingUnique(b);
  }

  lemma {:induction false} IndexConcat<T>(a: seq<Record<T>>, b: seq<Record<T>>)
    ensures Index(a + b) == Index(a) + Index(b)
  {
    if b == [] {
      assert a + b == a;
    } else {
      var n := |b| - 1;
      IndexConcat(a, b[..n]);
      assert (a + b)[..|a + b| - 1] == a + b[..n];
    }
  }

  // ---- sorting of id sets (sort.Slice over a slice of map keys) ----

  function InsertId(ids: seq<nat>, id: nat): (out: seq<nat>)
    ensures |out| == |ids| + 1
    ensures forall k :: k in out <==> k in ids || k == id
  {
    if ids == [] || id <= ids[0] then [id] + ids
    else
      assert ids == [ids[0]] + ids[1..];
      [ids[0]] + InsertId(ids[1..], id)
  }

  lemma {:induction false} InsertIdAscending(ids: seq<nat>, id: nat)
    requires Ascending(ids) && id !in ids
    ensures Ascending(InsertId(ids, id))
  {
    if ids != [] && ids[0] < id {
      var rest := ids[1..];
      InsertIdAscending(rest, id);
      var tail := InsertId(rest, id);
      forall i | 0 <= i < |tail| ensures ids[0] < tail[i] {
        assert tail[i] in tail;
        assert tail[i] == id || tail[i] in rest;
      }
    }
  }

  // sort.Slice over a list of ids, repeats included.
  function InOrder(ids: seq<nat>): seq<nat> {
    if ids == [] then [] else InsertId(InOrder(ids[..|ids| - 1]), ids[|ids| - 1])
  }

  lemma {:induction false} InsertIdSame(ids: seq<nat>, id: nat)
    ensures multiset(InsertId(ids, id)) == multiset(ids) + multiset{id}
  {
    if ids != [] && ids[0] < id {
      InsertIdSame(ids[1..], id);
      assert ids == [ids[0]] + ids[1..];
    }
  }

  lemma {:induction false} InOrderSame(ids: seq<nat>)
    ensures multiset(InOrder(ids)) == multiset(ids)
  {
    if ids != [] {
      InOrderSame(ids[..|ids| - 1]);
      InsertIdSame(InOrder(ids[..|ids| - 1]), ids[|ids| - 1]);
      assert ids == ids[..|ids| - 1] + [ids[|ids| - 1]];
    }
  }

  ghost predicate NonDescending(ids: seq<nat>) {
    forall i, j :: 0 <= i < j < |ids| ==> ids[i] <= ids[j]
  }

  lemma {:induction false} InsertIdOrdered(ids: seq<nat>, id: nat)
    requires NonDescending(ids)
    ensures NonDescending(InsertId(ids, id))
  {
    if ids != [] && ids[0] < id {
      InsertIdOrdered(ids[1..], id);
      var tail := InsertId(ids[1..], id);
      forall i | 0 <= i < |tail| ensures ids[0] <= tail[i] {
        assert tail[i] in tail;
      }
    }
  }

  lemma {:induction false} InOrderOrdered(ids: seq<nat>)
    ensures NonDescending(InOrder(ids))
  {
    if ids != [] {
      InOrderOrdered(ids[..|ids| - 1]);
      InsertIdOrdered(InOrder(ids[..|ids| - 1]), ids[|ids| - 1]);
    }
  }

  ghost function AscendingIds(keys: set<nat>): (ids: seq<nat>)
    ensures Ascending(ids)
    ensures forall k :: k in ids <==> k in keys
  {
    if keys == {} then []
    else
      var last := MaxOf(keys);
      var front := AscendingIds(keys - {last});
      assert forall k :: k in front ==> k < last;
      assert forall i :: 0 <= i < |front| ==> front[i] in front;
      front + [last]
  }

  function Front(ids: seq<nat>): seq<nat>
    requires ids != []
  {
    ids[..|ids| - 1]
  }

  lemma LastIsGreatest(ids: seq<nat>, k: nat)
    requires Ascending(ids) && k in ids
    ensures k <= ids[|ids| - 1] && (k in Front(ids) <==> k < ids[|ids| - 1])
  {
  }

  lemma FrontsAgree(a: seq<nat>, b: seq<nat>)
    requires Ascending(a) && Ascending(b) && a != [] && b != []
    requires forall k :: k in a <==> k in b
    ensures a[|a| - 1] == b[|b| - 1]
    ensures forall k :: k in Front(a) <==> k in Front(b)
  {
    assert a[|a| - 1] in b && b[|b| - 1] in a;
    LastIsGreatest(a, b[|b| - 1]);
    LastIsGreatest(b, a[|a| - 1]);
    forall k ensures k in Front(a) <==> k in Front(b) {
      assert k in Front(a) ==> k in a;
      assert k in Front(b) ==> k in b;
      if k in a {
        LastIsGreatest(a, k);
        LastIsGreatest(b, k);
      }
    }
  }

  // Ascending id lists with the same members are the same list.
  lemma {:induction false} AscendingIdsUnique(a: seq<nat>, b: seq<nat>)
    requires Ascending(a) && Ascending(b)
    requires forall k :: k in a <==> k in b
    ensures a == b
  {
    assert |a| > 0 ==> a[0] in b;
    assert |b| > 0 ==> b[0] in a;
    if a != [] {
      FrontsAgree(a, b);
      AscendingIdsUnique(Front(a), Front(b));
      assert a == Front(a) + [a[|a| - 1]] && b == Front(b) + [b[|b| - 1]];
    }
  }

  method SortedIds(keys: set<nat>) returns (ids: seq<nat>)
    ensures ids == AscendingIds(keys)
  {
    ids := [];
    var pending := keys;
    while pending != {}
      invariant pending <= keys
      invariant Ascending(ids)
      invariant forall k :: k in ids <==> k in keys && k !in pending
      decreases |pending|
    {
      var id :| id in pending;
      InsertIdAscending(ids, id);
      ids := InsertId(ids, id);
      pending := pending - {id};
    }
    AscendingIdsUnique(ids, AscendingIds(keys));
  }

  // ---- upsert and remove ----

  ghost function Upserted<T>(existing: seq<Record<T>>, changed: seq<Record<T>>): seq<Record<T>> {
    if changed == [] then existing else Listing(Index(existing) + Index(changed))
  }

  function IdSet(ids: seq<nat>): set<nat> { set id | id in ids }

  function Without<T>(existing: seq<Record<T>>, removed: set<nat>): seq<Record<T>> {
    if existing == [] then []
    else
      var n := |existing| - 1;
      Without(existing[..n], removed) + if existing[n].id in removed then [] else [existing[n]]
  }

  // A list naming exactly a table's keys in ascending order, with the table's bodies, is its listing.
  lemma ListedIsListing<T>(table: map<nat, T>, out: seq<Record<T>>)
    requires AscendingById(out)
    requires forall r :: r in out ==> r.id in table && table[r.id] == r.body
    requires forall k :: k in table ==> exists i :: 0 <= i < |out| && out[i].id == k
    ensures out == Listing(table)
  {
    IndexAt(out);
    forall k ensures k in Index(out) <==> k in table {
      IndexMember(out, k);
    }
    forall k | k in table ensures Index(out)[k] == table[k] {
      var i :| 0 <= i < |out| && out[i].id == k;
      assert out[i] in out;
    }
    assert Index(out) == table;
    AscendingUnique(out);
  }

  lemma ReadIsListing<T>(table: map<nat, T>, ids: seq<nat>, out: seq<Record<T>>)
    requires Ascending(ids) && forall k :: k in ids <==> k in table
    requires |out| == |ids| && forall i :: 0 <= i < |ids| ==> out[i].id == ids[i]
    requires forall i :: 0 <= i < |ids| ==> ids[i] in table && out[i].body == table[ids[i]]
    ensures out == Listing(table)
  {
    forall k | k in table ensures exists i :: 0 <= i < |out| && out[i].id == k {
      assert k in ids;
      var i :| 0 <= i < |ids| && ids[i] == k;
      assert out[i].id == k;
    }
    ListedIsListing(table, out);
  }

  // What the reading loop over sorted ids produces.
  method ListTable<T>(table: map<nat, T>) returns (out: seq<Record<T>>)
    ensures out == Listing(table)
  {
    var ids := SortedIds(table.Keys);
    out := [];
    for i := 0 to |ids|
      invariant |out| == i
      invariant forall j :: 0 <= j < i ==> ids[j] in table && out[j] == Record(ids[j], table[ids[j]])
    {
      assert ids[i] in ids;
      out := out + [Record(ids[i], table[ids[i]])];
    }
    ReadIsListing(table, ids, out);
  }

  method Upsert<T>(existing: seq<Record<T>>, changed: seq<Record<T>>) returns (out: seq<Record<T>>)
    ensures out == Upserted(existing, changed)
  {
    if |changed| == 0 {
      return existing;
    }
    var byID: map<nat, T> := map[];
    for i := 0 to |existing|
      invariant byID == Index(existing[..i])
    {
      assert existing[..i + 1][..i] == existing[..i];
      byID := byID[existing[i].id := existing[i].body];
    }
    assert existing[..|existing|] == existing;
    for i := 0 to |changed|
      invariant byID == Index(existing) + Index(changed[..i])
    {
      assert changed[..i + 1][..i] == changed[..i];
      byID := byID[changed[i].id := changed[i].body];
    }
    assert changed[..|changed|] == changed;
    out := ListTable(byID);
  }

  method Remove<T>(existing: seq<Record<T>>, removed: seq<nat>) returns (out: seq<Record<T>>)
    ensures out == Without(existing, IdSet(removed))
  {
    if |removed| == 0 || |existing| == 0 {
      out := existing;
      ghost var gone := IdSet(removed);
      assert existing == [] || gone == {};
      WithoutNothing(existing);
      assert Without(existing, gone) == existing;
      return;
    }
    var removedSet: set<nat> := {};
    for i := 0 to |removed|
      invariant removedSet == IdSet(removed[..i])
    {
      assert removed[..i + 1] == removed[..i] + [removed[i]];
      removedSet := removedSet + {removed[i]};
    }
    assert removed[..|removed|] == removed;
    var filtered: seq<Record<T>> := [];
    for i := 0 to |existing|
      invariant filtered == Without(existing[..i], removedSet)
    {
      assert existing[..i + 1][..i] == existing[..i];
      if existing[i].id !in removedSet {
        filtered := filtered + [existing[i]];
      }
    }
    assert existing[..|existing|] == existing;
    out := filtered;
  }

  lemma {:induction false} WithoutNothing<T>(existing: seq<Record<T>>)
    ensures Without(existing, {}) == existing
  {
    if existing != [] {
      WithoutNothing(existing[..|existing| - 1]);
    }
  }

  lemma {:induction false} WithoutMembers<T>(existing: seq<Record<T>>, removed: set<nat>)
    ensures forall r :: r in Without(existing, removed) ==> r in existing
  {
    if existing != [] {
      WithoutMembers(existing[..|existing| - 1], removed);
    }
  }

  lemma {:induction false} WithoutAscending<T>(existing: seq<Record<T>>, removed: set<nat>)
    requires AscendingById(existing)
    ensures AscendingById(Without(existing, removed))
  {
    if existing != [] {
      var n := |existing| - 1;
      var front := Without(existing[..n], removed);
      WithoutAscending(existing[..n], removed);
      WithoutMembers(existing[..n], removed);
      forall i | 0 <= i < |front| ensures front[i].id < existing[n].id {
        assert front[i] in front;
        assert front[i] in existing[..n];
      }
    }
  }

  lemma {:induction false} WithoutTable<T>(existing: seq<Record<T>>, removed: set<nat>)
    requires AscendingById(existing)
    ensures Index(Without(existing, removed)) == Index(existing) - removed
  {
    if existing != [] {
      var n := |existing| - 1;
      var front, last := existing[..n], existing[n];
      WithoutTable(front, removed);
      LastIsNew(existing);
      assert existing == front + [last];
      IndexAppend(front, last);
      IndexAppend(Without(front, removed), last);
      assert Without(existing, removed) ==
        if last.id in removed then Without(front, removed) else Without(front, removed) + [last];
      hide Index, Without, AscendingById;
      LessRemoved(Index(front), last.id, last.body, removed);
    }
  }

  lemma LessRemoved<T>(table: map<nat, T>, id: nat, body: T, removed: set<nat>)
    requires id !in table
    ensures table[id := body] - removed == if id in removed then table - removed else (table - removed)[id := body]
  {
  }

  lemma UpsertedTable<T>(existing: seq<Record<T>>, changed: seq<Record<T>>)
    requires AscendingById(existing)
    ensures AscendingById(Upserted(existing, changed))
    ensures Index(Upserted(existing, changed)) == Index(existing) + Index(changed)
  {
    if changed != [] {
      ListingShape(Index(existing) + Index(changed));
    }
  }

  // One slice of a delta, as the client folds it in: upsert, then remove.
  ghost function Patched<T>(existing: seq<Record<T>>, changed: seq<Record<T>>, removed: seq<nat>): seq<Record<T>> {
    Without(Upserted(existing, changed), IdSet(removed))
  }

  lemma PatchTable<T>(existing: seq<Record<T>>, changed: seq<Record<T>>, removed: seq<nat>)
    requires AscendingById(existing)
    ensures AscendingById(Patched(existing, changed, removed))
    ensures Index(Patched(existing, changed, removed)) == (Index(existing) + Index(changed)) - IdSet(removed)
  {
    UpsertedTable(existing, changed);
    WithoutTable(Upserted(existing, changed), IdSet(removed));
    WithoutAscending(Upserted(existing, changed), IdSet(removed));
  }

  // The patch rebuilds the target list exactly when, as tables, it accounts for every
  // difference between the two lists.
  lemma PatchExact<T>(existing: seq<Record<T>>, changed: seq<Record<T>>, removed: seq<nat>, target: seq<Record<T>>)
    requires AscendingById(existing) && AscendingById(target)
    ensures Patched(existing, changed, removed) == target
      <==> (Index(existing) + Index(changed)) - IdSet(removed) == Index(target)
  {
    PatchTable(existing, changed, removed);
    SameTableSameList(Patched(existing, changed, removed), target);
  }
}
