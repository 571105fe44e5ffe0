/**
 * The keyed record store: a list of records, each carrying an integer identity, plus the
 * counter that stamps identities on records added with the "unassigned" id 0.
 *
 * The list operations are pure functions over `seq<Entity<T>>`; the two repository classes
 * (`JsonFileRepository`, whose counter is seeded from the loaded records, and the
 * `InMemoryRepository`, which starts at 1 and has no `Update`) hold the list and the counter
 * as fields and change them through those functions. Reading and writing the backing JSON
 * file is not modelled: the constructor receives the loaded list and saving is a no-op.
 */
module Store {
  import opened Wrappers

  /** A stored record: its identity field and the rest of its fields. */
  datatype Entity<T> = Entity(id: int, attrs: T)

  /** A snapshot of one repository: its list and its next-id counter. */
  datatype Table<T> = Table(items: seq<Entity<T>>, nextId: int)

  // ─────────────────────── lookup ───────────────────────

  /** The position of the first record whose id is `id`, if any. */
  function FirstIndex<T>(items: seq<Entity<T>>, id: int): (r: Option<nat>)
    ensures r.Some? ==> r.value < |items| && items[r.value].id == id
    ensures r.Some? ==> forall j :: 0 <= j < r.value ==> items[j].id != id
    ensures r.None? <==> forall j :: 0 <= j < |items| ==> items[j].id != id
  {
    if |items| == 0 then None
    else if items[0].id == id then Some(0)
    else
      match FirstIndex(items[1..], id)
      case None => None
      case Some(k) => Some(k + 1)
  }

  /** `GetByIdAsync`: the first record with a matching id, or `None` (C# `null`). */
  function Find<T>(items: seq<Entity<T>>, id: int): (r: Option<Entity<T>>)
    ensures r.Some? ==> r.value in items && r.value.id == id
    ensures r.None? <==> forall e :: e in items ==> e.id != id
  {
    match FirstIndex(items, id)
    case None => None
    case Some(k) => Some(items[k])
  }

  /** Two lists with the same ids at the same positions answer every lookup at the same position. */
  lemma SameIdsSameIndex<T, U>(a: seq<Entity<T>>, b: seq<Entity<U>>, id: int)
    requires |a| == |b|
    requires forall i :: 0 <= i < |a| ==> a[i].id == b[i].id
    ensures FirstIndex(a, id) == FirstIndex(b, id)
  {
    assert forall j :: 0 <= j < |a| ==> (a[j].id == id <==> b[j].id == id);
  }

  // ─────────────────────── update and delete ───────────────────────

  /** `Update`: put `e` in place of the first record with `e`'s id; no match, no change. */
  function Replace<T>(items: seq<Entity<T>>, e: Entity<T>): (r: seq<Entity<T>>)
    ensures |r| == |items|
    ensures FirstIndex(items, e.id).Some? ==> e in r
    ensures FirstIndex(items, e.id).None? ==> r == items
  {
    match FirstIndex(items, e.id)
    case None => items
    case Some(k) =>
      assert items[k := e][k] == e;
      items[k := e]
  }

  /**
   * Update touches only the first record with a matching id, keeps every id (and so every
   * lookup position), makes `e` what a lookup of its id finds, and silently does nothing
   * when no record matches.
   */
  lemma ReplaceEffect<T>(items: seq<Entity<T>>, e: Entity<T>)
    ensures |Replace(items, e)| == |items|
    ensures forall i :: 0 <= i < |items| ==> Replace(items, e)[i].id == items[i].id
    ensures forall i :: 0 <= i < |items| && Some(i) != FirstIndex(items, e.id) ==> Replace(items, e)[i] == items[i]
    ensures FirstIndex(items, e.id).Some? ==> Find(Replace(items, e), e.id) == Some(e)
    ensures FirstIndex(items, e.id).None? ==> Replace(items, e) == items
    ensures forall id :: FirstIndex(Replace(items, e), id) == FirstIndex(items, id)
  {
    forall id ensures FirstIndex(Replace(items, e), id) == FirstIndex(items, id) {
      SameIdsSameIndex(Replace(items, e), items, id);
    }
  }

  /** `DeleteAsync`: remove the first record with a matching id; no match, no change. */
  function RemoveFirst<T>(items: seq<Entity<T>>, id: int): (r: seq<Entity<T>>)
    ensures FirstIndex(items, id).Some? ==> |r| == |items| - 1
    ensures FirstIndex(items, id).None? ==> r == items
    ensures multiset(r) <= multiset(items)
  {
    match FirstIndex(items, id)
    case None => items
    case Some(k) =>
      RemoveAtCount(items, k);
      items[..k] + items[k + 1..]
  }

  /** Delete removes exactly one record, the first match, or changes nothing. */
  lemma RemoveFirstEffect<T>(items: seq<Entity<T>>, id: int)
    ensures FirstIndex(items, id).None? ==> RemoveFirst(items, id) == items
    ensures FirstIndex(items, id).Some? ==>
              |RemoveFirst(items, id)| == |items| - 1 &&
              multiset(RemoveFirst(items, id)) + multiset{Find(items, id).value} == multiset(items)
  {
    match FirstIndex(items, id)
    case None =>
    case Some(k) =>
      assert RemoveFirst(items, id) == items[..k] + items[k + 1..];
      assert Find(items, id) == Some(items[k]);
      RemoveAtCount(items, k);
  }

  /** Delete keeps the records before the first match in place and shifts the later ones down by one. */
  lemma RemoveFirstKeepsOrder<T>(items: seq<Entity<T>>, id: int)
    requires FirstIndex(items, id).Some?
    ensures |RemoveFirst(items, id)| == |items| - 1
    ensures forall i :: 0 <= i < |items| - 1 ==>
              RemoveFirst(items, id)[i] == (if i < FirstIndex(items, id).value then items[i] else items[i + 1])
  {
    match FirstIndex(items, id)
    case Some(k) =>
      assert RemoveFirst(items, id) == items[..k] + items[k + 1..];
      RemoveAtShape(items, k);
  }

  /** When ids are unique, the deleted id can no longer be found. */
  lemma RemoveFirstDropsId<T>(items: seq<Entity<T>>, id: int)
    ensures UniqueIds(items) ==> Find(RemoveFirst(items, id), id).None?
  {
    match FirstIndex(items, id)
    case None =>
    case Some(k) => RemoveFirstGone(items, id, k);
  }

  /** Cutting position `k` out of a list shortens it by one and shifts the later records down. */
  lemma RemoveAtShape<T>(items: seq<Entity<T>>, k: nat)
    requires k < |items|
    ensures |items[..k] + items[k + 1..]| == |items| - 1
    ensures forall i :: 0 <= i < |items| - 1 ==>
              (items[..k] + items[k + 1..])[i] == (if i < k then items[i] else items[i + 1])
  {
    var front, back := items[..k], items[k + 1..];
    forall i | 0 <= i < |items| - 1
      ensures (front + back)[i] == (if i < k then items[i] else items[i + 1])
    {
      if i >= k { assert (front + back)[i] == back[i - k]; }
    }
  }

  /** Cutting position `k` out of a list takes exactly that record out of its multiset. */
  lemma RemoveAtCount<T>(items: seq<Entity<T>>, k: nat)
    requires k < |items|
    ensures multiset(items[..k] + items[k + 1..]) + multiset{items[k]} == multiset(items)
  {
    var front, back := items[..k], items[k + 1..];
    assert items == front + ([items[k]] + back);
    assert multiset(items) == multiset(front) + (multiset{items[k]} + multiset(back));
  }

  /** With unique ids, no record left after removing position `k` carries the id found there. */
  lemma RemoveFirstGone<T>(items: seq<Entity<T>>, id: int, k: nat)
    requires FirstIndex(items, id) == Some(k)
    ensures UniqueIds(items) ==> Find(items[..k] + items[k + 1..], id).None?
  {
    var r := items[..k] + items[k + 1..];
    if UniqueIds(items) {
      forall e | e in r ensures e.id != id {
        var i :| 0 <= i < |r| && r[i] == e;
        if i >= k { assert e == items[i + 1]; }
      }
    }
  }

  // ─────────────────────── the id counter ───────────────────────

  /** Every stored id is below the counter: the counter has not yet been handed out. */
  ghost predicate IdsBelow<T>(items: seq<Entity<T>>, bound: int)
  {
    forall i :: 0 <= i < |items| ==> items[i].id < bound
  }

  /** No two stored records share an id. */
  ghost predicate UniqueIds<T>(items: seq<Entity<T>>)
  {
    forall i, j :: 0 <= i < j < |items| ==> items[i].id != items[j].id
  }

  /** The largest stored id. */
  function MaxId<T>(items: seq<Entity<T>>): (m: int)
    requires |items| > 0
    ensures forall i :: 0 <= i < |items| ==> items[i].id <= m
    ensures exists i :: 0 <= i < |items| && items[i].id == m
  {
    if |items| == 1 then items[0].id
    else
      var rest := MaxId(items[1..]);
      assert forall i :: 1 <= i < |items| ==> items[i] == items[1..][i - 1];
      if items[0].id >= rest then items[0].id else rest
  }

  /**
   * `CalculateNextId`: the counter after a load is the largest id plus one, or 1 for an empty
   * list, so it is above every loaded id and, for a non-empty list, the least such number.
   */
  function InitialNextId<T>(items: seq<Entity<T>>): (n: int)
    ensures IdsBelow(items, n)
    ensures |items| > 0 ==> exists i :: 0 <= i < |items| && items[i].id == n - 1
    ensures |items| == 0 ==> n == 1
  {
    if |items| == 0 then 1 else MaxId(items) + 1
  }

  /** The record `AddAsync` stores: an id-0 record receives the counter, any other is kept as given. */
  function Stamp<T>(e: Entity<T>, nextId: int): Entity<T>
  {
    if e.id == 0 then Entity(nextId, e.attrs) else e
  }

  /** `AddAsync` on a snapshot: append the stamped record; the counter rises only when it was used. */
  function WithAdded<T>(t: Table<T>, e: Entity<T>): (r: Table<T>)
    ensures |r.items| == |t.items| + 1 && r.items[..|t.items|] == t.items
    ensures r.items[|t.items|].attrs == e.attrs
    ensures e.id != 0 ==> r.items[|t.items|] == e && r.nextId == t.nextId
    ensures e.id == 0 ==> r.items[|t.items|].id == t.nextId && r.nextId == t.nextId + 1
  {
    Table(t.items + [Stamp(e, t.nextId)], if e.id == 0 then t.nextId + 1 else t.nextId)
  }

  /**
   * Adding an id-0 record to a store whose ids are unique and below the counter keeps both
   * facts, and a lookup of the id it received finds exactly that record.
   */
  lemma AddKeepsIdsUnique<T>(t: Table<T>, e: Entity<T>)
    requires UniqueIds(t.items) && IdsBelow(t.items, t.nextId)
    requires e.id == 0
    ensures UniqueIds(WithAdded(t, e).items) && IdsBelow(WithAdded(t, e).items, WithAdded(t, e).nextId)
    ensures Find(WithAdded(t, e).items, t.nextId) == Some(Entity(t.nextId, e.attrs))
  {
    var items' := WithAdded(t, e).items;
    assert items'[|t.items|] == Entity(t.nextId, e.attrs);
    assert forall i :: 0 <= i < |t.items| ==> items'[i] == t.items[i];
    match FirstIndex(items', t.nextId)
    case Some(k) =>
      assert k == |t.items|;
    case None =>
      assert false;
  }

  /** A run of `AddAsync` calls, in order. */
  function AddAll<T>(t: Table<T>, es: seq<Entity<T>>): Table<T>
  {
    if |es| == 0 then t else WithAdded(AddAll(t, es[..|es| - 1]), es[|es| - 1])
  }

  /**
   * On a store that starts empty with counter 1 (the in-memory store), id-0 records receive
   * the ids 1, 2, 3, ... in the order they are added.
   */
  lemma {:induction false} StampsInCallOrder<T>(es: seq<Entity<T>>)
    requires forall i :: 0 <= i < |es| ==> es[i].id == 0
    ensures |AddAll(Table([], 1), es).items| == |es|
    ensures AddAll(Table([], 1), es).nextId == |es| + 1
    ensures forall i :: 0 <= i < |es| ==>
              AddAll(Table([], 1), es).items[i] == Entity(i + 1, es[i].attrs)
  {
    if |es| > 0 {
      var prefix := es[..|es| - 1];
      StampsInCallOrder(prefix);
      var before := AddAll(Table([], 1), prefix);
      assert AddAll(Table([], 1), es) == WithAdded(before, es[|es| - 1]);
    }
  }

  /**
   * The counter ignores ids supplied by the caller: after a record with id 1 is added to a
   * fresh in-memory store, the next id-0 record is stamped 1 as well.
   */
  lemma StampedIdCanCollide<T>(a: T, b: T)
    ensures var t := AddAll(Table([], 1), [Entity(1, a), Entity(0, b)]);
            |t.items| == 2 && t.items[0].id == 1 && t.items[1].id == 1 && t.nextId == 2
  {
    var es := [Entity(1, a), Entity(0, b)];
    assert es[..1] == [Entity(1, a)] && es[..1][..0] == [];
    var empty: seq<Entity<T>> := [];
    assert AddAll(Table([], 1), empty) == Table([], 1);
    var t1 := AddAll(Table([], 1), es[..1]);
    assert t1 == WithAdded(Table([], 1), Entity(1, a));
    assert AddAll(Table([], 1), es) == WithAdded(t1, Entity(0, b));
  }

  // ─────────────────────── the repositories ───────────────────────

  /** `JsonFileRepository<T>` without its file: the list and the counter as they stand in memory. */
  class JsonFileRepository<T> {
    var items: seq<Entity<T>>
    var nextId: int

    /** The repository after `LoadFromFile` returned `loaded`. */
    constructor (loaded: seq<Entity<T>>)
      ensures items == loaded && nextId == InitialNextId(loaded)
    {
      items := loaded;
      nextId := InitialNextId(loaded);
    }

    function Snapshot(): Table<T>
      reads this
    {
      Table(items, nextId)
    }

    /** `GetByIdAsync`. */
    function GetById(id: int): (r: Option<Entity<T>>)
      reads this
      ensures r.Some? ==> r.value in items && r.value.id == id
      ensures r.None? <==> forall e :: e in items ==> e.id != id
    {
      Find(items, id)
    }

    /** `GetAllAsync`: a copy of the list in store order. */
    method GetAll() returns (all: seq<Entity<T>>)
      ensures all == items
    {
      all := items;
    }

    /** `AddAsync`: returns the record as stored, with the id it received. */
    method Add(e: Entity<T>) returns (stored: Entity<T>)
      modifies this
      ensures stored == (if e.id == 0 then Entity(old(nextId), e.attrs) else e)
      ensures items == old(items) + [stored]
      ensures nextId == (if e.id == 0 then old(nextId) + 1 else old(nextId))
      ensures Snapshot() == WithAdded(old(Snapshot()), e)
    {
      stored := e;
      if e.id == 0 {
        stored := Entity(nextId, e.attrs);
        nextId := nextId + 1;
      }
      items := items + [stored];
    }

    /** `Update`. */
    method Update(e: Entity<T>)
      modifies this
      ensures items == Replace(old(items), e) && nextId == old(nextId)
    {
      var index := FirstIndex(items, e.id);
      if index.Some? {
        items := items[index.value := e];
      }
    }

    /** `DeleteAsync`. */
    method Delete(id: int)
      modifies this
      ensures items == RemoveFirst(old(items), id) && nextId == old(nextId)
    {
      var existing := FirstIndex(items, id);
      if existing.Some? {
        items := items[..existing.value] + items[existing.value + 1..];
      }
    }
  }

  /** `InMemoryRepository<T>`: starts empty with counter 1 and has no `Update`. */
  class InMemoryRepository<T> {
    var items: seq<Entity<T>>
    var nextId: int

    constructor ()
      ensures items == [] && nextId == 1
    {
      items := [];
      nextId := 1;
    }

    function Snapshot(): Table<T>
      reads this
    {
      Table(items, nextId)
    }

    /** `GetByIdAsync`. */
    function GetById(id: int): (r: Option<Entity<T>>)
      reads this
      ensures r.Some? ==> r.value in items && r.value.id == id
      ensures r.None? <==> forall e :: e in items ==> e.id != id
    {
      Find(items, id)
    }

    /** `GetAllAsync`: a copy of the list in store order. */
    method GetAll() returns (all: seq<Entity<T>>)
      ensures all == items
    {
      all := items;
    }

    /** `AddAsync`: returns the record as stored, with the id it received. */
    method Add(e: Entity<T>) returns (stored: Entity<T>)
      modifies this
      ensures stored == (if e.id == 0 then Entity(old(nextId), e.attrs) else e)
      ensures items == old(items) + [stored]
      ensures nextId == (if e.id == 0 then old(nextId) + 1 else old(nextId))
      ensures Snapshot() == WithAdded(old(Snapshot()), e)
    {
      stored := e;
      if e.id == 0 {
        stored := Entity(nextId, e.attrs);
        nextId := nextId + 1;
      }
      items := items + [stored];
    }

    /** `DeleteAsync`. */
    method Delete(id: int)
      modifies this
      ensures items == RemoveFirst(old(items), id) && nextId == old(nextId)
    {
      var existing := FirstIndex(items, id);
      if existing.Some? {
        items := items[..existing.value] + items[existing.value + 1..];
      }
    }

    /** `SaveChangesAsync`: nothing to persist; it has no frame, so it changes nothing. */
    method SaveChanges()
      ensures Snapshot() == old(Snapshot())
    {
    }
  }
}
