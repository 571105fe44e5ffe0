/**
 * `RoomService`: creating, updating and deleting rooms, and the capacity queries over
 * the room store.
 */
module RoomServices {
  import opened Wrappers
  import opened Errors
  import opened Entities
  import opened Store
  import opened Seqs
  import opened Occupancy

  /** The room as `CreateRoomAsync` stores it: active and empty, whatever the caller sent. */
  function Created(room: Room): (r: Room)
    ensures r.id == room.id && r.attrs.isActive && r.attrs.currentOccupancy == 0
    ensures r.attrs.capacity > 0 ==> !IsFull(r.attrs)
    ensures r.attrs.(isActive := room.attrs.isActive, currentOccupancy := room.attrs.currentOccupancy) == room.attrs
  {
    room.(attrs := room.attrs.(isActive := true, currentOccupancy := 0))
  }

  /** `DeleteRoomAsync`: a missing room and a room with occupants are refused. */
  function TryDelete(rooms: seq<Room>, id: int): (r: Result<seq<Room>, ServiceError>)
    ensures r.Err? ==> r.error == RoomNotFound || r.error == RoomOccupied
    ensures r.Ok? ==> |r.value| == |rooms| - 1 && multiset(r.value) <= multiset(rooms)
  {
    match Find(rooms, id)
    case None => Err(RoomNotFound)
    case Some(room) =>
      if room.attrs.currentOccupancy > 0 then Err(RoomOccupied)
      else Ok(RemoveFirst(rooms, id))
  }

  /**
   * Delete succeeds exactly for a room that exists and has nobody in it; it then removes
   * that one record (the first with the id) and keeps every other room, occupied ones
   * included; with unique ids the room is gone afterwards.
   */
  lemma TryDeleteEffect(rooms: seq<Room>, id: int)
    ensures Find(rooms, id).None? ==> TryDelete(rooms, id) == Err(RoomNotFound)
    ensures Find(rooms, id).Some? && Find(rooms, id).value.attrs.currentOccupancy > 0 ==>
              TryDelete(rooms, id) == Err(RoomOccupied)
    ensures TryDelete(rooms, id).Ok? <==> Find(rooms, id).Some? && Find(rooms, id).value.attrs.currentOccupancy <= 0
    ensures TryDelete(rooms, id).Ok? ==>
              && multiset(TryDelete(rooms, id).value) == multiset(rooms) - multiset{Find(rooms, id).value}
              && |TryDelete(rooms, id).value| == |rooms| - 1
              && (forall r :: r in rooms && r.attrs.currentOccupancy > 0 ==> r in TryDelete(rooms, id).value)
              && (UniqueIds(rooms) ==> Find(TryDelete(rooms, id).value, id).None?)
  {
    RemoveFirstEffect(rooms, id);
    RemoveFirstDropsId(rooms, id);
    if TryDelete(rooms, id).Ok? {
      var room := Find(rooms, id).value;
      var rest := TryDelete(rooms, id).value;
      forall r | r in rooms && r.attrs.currentOccupancy > 0
        ensures r in rest
      {
        assert r != room;
        assert r in multiset(rooms) - multiset{room};
      }
    }
  }

  // ─────────────────────── queries ───────────────────────

  /** `GetAvailableRoomsAsync`: active rooms with a free bed. */
  function AvailableRooms(all: seq<Room>): (r: seq<Room>)
    ensures forall i :: 0 <= i < |r| ==> r[i] in all && r[i].attrs.isActive && !IsFull(r[i].attrs)
    ensures forall i :: 0 <= i < |all| && all[i].attrs.isActive && !IsFull(all[i].attrs) ==> all[i] in r
  {
    Filter(all, (x: Room) => x.attrs.isActive && !IsFull(x.attrs))
  }

  /** `GetFullRoomsAsync`: full rooms, active or not. */
  function FullRooms(all: seq<Room>): (r: seq<Room>)
    ensures forall i :: 0 <= i < |r| ==> r[i] in all && IsFull(r[i].attrs)
    ensures forall i :: 0 <= i < |all| && IsFull(all[i].attrs) ==> all[i] in r
  {
    Filter(all, (x: Room) => IsFull(x.attrs))
  }

  /** No room is both available and full, and every active room is one or the other. */
  lemma AvailableOrFull(all: seq<Room>)
    ensures forall x :: x in AvailableRooms(all) ==> x !in FullRooms(all)
    ensures forall x :: x in all && x.attrs.isActive ==> x in AvailableRooms(all) || x in FullRooms(all)
  {
    var a := AvailableRooms(all);
    var f := FullRooms(all);
    forall x | x in a
      ensures x !in f
    {
      var i :| 0 <= i < |a| && a[i] == x;
      assert !IsFull(x.attrs);
    }
    forall x | x in all && x.attrs.isActive
      ensures x in a || x in f
    {
      var i :| 0 <= i < |all| && all[i] == x;
    }
  }

  /** `HasCapacityAsync`: the room exists and is not full (an inactive room may still have capacity). */
  function HasCapacity(rooms: seq<Room>, roomId: int): (b: bool)
    ensures b <==> FirstIndex(rooms, roomId).Some? && !IsFull(rooms[FirstIndex(rooms, roomId).value].attrs)
  {
    match Find(rooms, roomId)
    case None => false
    case Some(room) => !IsFull(room.attrs)
  }

  /** A room with capacity takes any registered student: `AssignRoom` then succeeds. */
  lemma HasCapacityAdmits(d: Dorm, studentId: int, roomId: int, now: int)
    requires Find(d.students.items, studentId).Some?
    ensures HasCapacity(d.rooms.items, roomId) <==> AssignRoom(d, studentId, roomId, now).Ok?
  {
    AssignRoomGuards(d, studentId, roomId, now);
  }

  /** `Where(r => r.IsActive).Sum(r => r.Capacity)`. */
  function TotalCapacity(rooms: seq<Room>): (t: int)
    ensures Every(rooms, (r: Room) => r.attrs.capacity >= 0) ==> t >= 0
    ensures Every(rooms, (r: Room) => !r.attrs.isActive) ==> t == 0
  {
    if |rooms| == 0 then 0
    else TotalCapacity(rooms[..|rooms| - 1]) + (if rooms[|rooms| - 1].attrs.isActive then rooms[|rooms| - 1].attrs.capacity else 0)
  }

  /** `Where(r => r.IsActive).Sum(r => r.CurrentOccupancy)`. */
  function TotalOccupancy(rooms: seq<Room>): (t: int)
    ensures Every(rooms, (r: Room) => r.attrs.currentOccupancy >= 0) ==> t >= 0
    ensures Every(rooms, (r: Room) => !r.attrs.isActive) ==> t == 0
  {
    if |rooms| == 0 then 0
    else TotalOccupancy(rooms[..|rooms| - 1]) + (if rooms[|rooms| - 1].attrs.isActive then rooms[|rooms| - 1].attrs.currentOccupancy else 0)
  }

  /** When every room is within its capacity, so is the hostel: 0 <= total occupancy <= total capacity. */
  lemma {:induction false} TotalsBounded(rooms: seq<Room>)
    requires Bounded(rooms)
    ensures 0 <= TotalOccupancy(rooms) <= TotalCapacity(rooms)
  {
    if |rooms| > 0 {
      var init := rooms[..|rooms| - 1];
      assert Bounded(init) by {
        assert forall i :: 0 <= i < |init| ==> init[i] == rooms[i];
      }
      TotalsBounded(init);
    }
  }

  /** Changing one room's occupancy, and nothing that decides whether it counts, moves the total by the difference. */
  lemma {:induction false} TotalOccupancyUpdate(rooms: seq<Room>, k: int, x: Room)
    requires 0 <= k < |rooms| && x.attrs.isActive == rooms[k].attrs.isActive
    ensures TotalOccupancy(rooms[k := x]) ==
              TotalOccupancy(rooms) + (if x.attrs.isActive then x.attrs.currentOccupancy - rooms[k].attrs.currentOccupancy else 0)
  {
    var n := |rooms|;
    var rooms' := rooms[k := x];
    var last := if rooms[n - 1].attrs.isActive then rooms[n - 1].attrs.currentOccupancy else 0;
    assert TotalOccupancy(rooms) == TotalOccupancy(rooms[..n - 1]) + last;
    if k == n - 1 {
      assert rooms'[..n - 1] == rooms[..n - 1];
      assert TotalOccupancy(rooms') == TotalOccupancy(rooms[..n - 1]) + (if x.attrs.isActive then x.attrs.currentOccupancy else 0);
    } else {
      assert rooms'[..n - 1] == rooms[..n - 1][k := x] && rooms'[n - 1] == rooms[n - 1];
      assert TotalOccupancy(rooms') == TotalOccupancy(rooms'[..n - 1]) + last;
      TotalOccupancyUpdate(rooms[..n - 1], k, x);
    }
  }

  /** Changing occupancies only, the total capacity stays the same. */
  lemma {:induction false} TotalCapacityUpdate(rooms: seq<Room>, k: int, x: Room)
    requires 0 <= k < |rooms|
    requires x.attrs.isActive == rooms[k].attrs.isActive && x.attrs.capacity == rooms[k].attrs.capacity
    ensures TotalCapacity(rooms[k := x]) == TotalCapacity(rooms)
  {
    var n := |rooms|;
    var rooms' := rooms[k := x];
    var last := if rooms[n - 1].attrs.isActive then rooms[n - 1].attrs.capacity else 0;
    assert TotalCapacity(rooms) == TotalCapacity(rooms[..n - 1]) + last;
    if k == n - 1 {
      assert rooms'[..n - 1] == rooms[..n - 1];
      assert TotalCapacity(rooms') == TotalCapacity(rooms[..n - 1]) + last;
    } else {
      assert rooms'[..n - 1] == rooms[..n - 1][k := x] && rooms'[n - 1] == rooms[n - 1];
      assert TotalCapacity(rooms') == TotalCapacity(rooms'[..n - 1]) + last;
      TotalCapacityUpdate(rooms[..n - 1], k, x);
    }
  }

  /**
   * Assigning a student without a room to an active room with a free bed adds exactly one
   * to the total occupancy and leaves the total capacity as it was.
   */
  lemma AssignAddsOneOccupant(d: Dorm, studentId: int, roomId: int, now: int)
    requires Find(d.students.items, studentId).Some?
    requires Find(d.students.items, studentId).value.attrs.roomId.None?
    requires Find(d.rooms.items, roomId).Some? && !IsFull(Find(d.rooms.items, roomId).value.attrs)
    requires Find(d.rooms.items, roomId).value.attrs.isActive
    ensures AssignRoom(d, studentId, roomId, now).Ok?
    ensures TotalOccupancy(AssignRoom(d, studentId, roomId, now).value.rooms.items) == TotalOccupancy(d.rooms.items) + 1
    ensures TotalCapacity(AssignRoom(d, studentId, roomId, now).value.rooms.items) == TotalCapacity(d.rooms.items)
  {
    var k := FirstIndex(d.rooms.items, roomId).value;
    AssignFromNoRoom(d, studentId, roomId, now);
    TotalOccupancyUpdate(d.rooms.items, k, Occupied(d.rooms.items[k]));
    TotalCapacityUpdate(d.rooms.items, k, Occupied(d.rooms.items[k]));
  }

  /**
   * Unassigning a student whose active room still exists and has an occupant removes
   * exactly one from the total occupancy.
   */
  lemma UnassignRemovesOneOccupant(d: Dorm, studentId: int)
    requires Find(d.students.items, studentId).Some?
    requires var held := Find(d.students.items, studentId).value.attrs.roomId;
             held.Some? && Find(d.rooms.items, held.value).Some? &&
             Find(d.rooms.items, held.value).value.attrs.isActive &&
             Find(d.rooms.items, held.value).value.attrs.currentOccupancy > 0
    ensures UnassignRoom(d, studentId).Ok?
    ensures TotalOccupancy(UnassignRoom(d, studentId).value.rooms.items) == TotalOccupancy(d.rooms.items) - 1
  {
    var held := Find(d.students.items, studentId).value.attrs.roomId.value;
    var k := FirstIndex(d.rooms.items, held).value;
    assert Release(d.rooms.items, held) == d.rooms.items[k := Vacated(d.rooms.items[k])];
    TotalOccupancyUpdate(d.rooms.items, k, Vacated(d.rooms.items[k]));
  }

  // ─────────────────────── the service ───────────────────────

  class RoomService {
    const rooms: JsonFileRepository<RoomAttrs>

    constructor (rooms: JsonFileRepository<RoomAttrs>)
      ensures this.rooms == rooms
    {
      this.rooms := rooms;
    }

    /** `CreateRoomAsync`: the room is stored active and empty. */
    method CreateRoom(room: Room) returns (stored: Room)
      modifies rooms
      ensures stored.attrs == room.attrs.(isActive := true, currentOccupancy := 0)
      ensures stored.id == (if room.id == 0 then old(rooms.nextId) else room.id)
      ensures rooms.Snapshot() == WithAdded(old(rooms.Snapshot()), Created(room))
    {
      stored := rooms.Add(Created(room));
    }

    /** `UpdateRoomAsync`. */
    method UpdateRoom(room: Room)
      modifies rooms
      ensures rooms.items == Replace(old(rooms.items), room) && rooms.nextId == old(rooms.nextId)
    {
      rooms.Update(room);
    }

    /** `DeleteRoomAsync`. */
    method DeleteRoom(id: int) returns (outcome: Outcome<ServiceError>)
      modifies rooms
      ensures var r := TryDelete(old(rooms.items), id);
              && outcome == (if r.Ok? then Pass else Fail(r.error))
              && rooms.items == (if r.Ok? then r.value else old(rooms.items))
              && rooms.nextId == old(rooms.nextId)
    {
      var found := rooms.GetById(id);
      if found.None? {
        return Fail(RoomNotFound);
      }
      if found.value.attrs.currentOccupancy > 0 {
        return Fail(RoomOccupied);
      }
      rooms.Delete(id);
      return Pass;
    }

    /** `GetAvailableRoomsAsync`. */
    method GetAvailableRooms() returns (r: seq<Room>)
      ensures r == AvailableRooms(rooms.items)
    {
      var all := rooms.GetAll();
      r := AvailableRooms(all);
    }

    /** `GetFullRoomsAsync`. */
    method GetFullRooms() returns (r: seq<Room>)
      ensures r == FullRooms(rooms.items)
    {
      var all := rooms.GetAll();
      r := FullRooms(all);
    }

    /** `GetTotalCapacityAsync`. */
    method GetTotalCapacity() returns (n: int)
      ensures n == TotalCapacity(rooms.items)
    {
      var all := rooms.GetAll();
      n := TotalCapacity(all);
    }

    /** `GetTotalOccupancyAsync`. */
    method GetTotalOccupancy() returns (n: int)
      ensures n == TotalOccupancy(rooms.items)
    {
      var all := rooms.GetAll();
      n := TotalOccupancy(all);
    }
  }
}
