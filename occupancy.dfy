/**
 * Room-occupancy bookkeeping of the student service (assign, unassign, swap, deactivate),
 * as functions from one snapshot of the student, room and booking stores to the next.
 *
 * Each function follows the order of the service's steps: the lookups and guards that throw
 * come first and leave every store untouched, then the fetched records are changed and
 * written back with `Update`. A fetched record is the same object as the one in the store,
 * so two lookups of the same id see each other's changes; `AssignRoom` reflects this by
 * re-reading the target room after the previous room has been released.
 */
module Occupancy {
  import opened Wrappers
  import opened Errors
  import opened Entities
  import opened Store

  type Student = Entity<StudentAttrs>
  type Room = Entity<RoomAttrs>
  type Booking = Entity<BookingAttrs>

  /** The three stores the student service works on. */
  datatype Dorm = Dorm(students: Table<StudentAttrs>, rooms: Table<RoomAttrs>, bookings: Table<BookingAttrs>)

  /** The stores after an operation: a thrown error leaves them as they were. */
  function After(d: Dorm, r: Result<Dorm, ServiceError>): Dorm
  {
    if r.Ok? then r.value else d
  }

  /** What the caller sees: completion, or the exception's message. */
  function OutcomeOf(r: Result<Dorm, ServiceError>): Outcome<ServiceError>
  {
    if r.Ok? then Pass else Fail(r.error)
  }

  function Max(a: int, b: int): int
  {
    if a >= b then a else b
  }

  /** `CurrentOccupancy = Math.Max(0, CurrentOccupancy - 1)`. */
  function Vacated(r: Room): Room
  {
    r.(attrs := r.attrs.(currentOccupancy := Max(0, r.attrs.currentOccupancy - 1)))
  }

  /** `CurrentOccupancy++`. */
  function Occupied(r: Room): Room
  {
    r.(attrs := r.attrs.(currentOccupancy := r.attrs.currentOccupancy + 1))
  }

  /** The student after leaving their room: `RoomId = null; RoomNumber = null`. */
  function Unhoused(s: Student): Student
  {
    s.(attrs := s.attrs.(roomId := None, roomNumber := None))
  }

  /** Release a held room: the first room with that id loses one occupant; a missing room is skipped. */
  function Release(rooms: seq<Room>, roomId: int): (r: seq<Room>)
    ensures |r| == |rooms|
    ensures forall i :: 0 <= i < |rooms| ==> r[i].id == rooms[i].id
  {
    match Find(rooms, roomId)
    case None => rooms
    case Some(room) =>
      ReplaceEffect(rooms, Vacated(room));
      Replace(rooms, Vacated(room))
  }

  /** Every room's occupancy lies between 0 and its capacity. */
  ghost predicate Bounded(rooms: seq<Room>)
  {
    forall i :: 0 <= i < |rooms| ==> 0 <= rooms[i].attrs.currentOccupancy <= rooms[i].attrs.capacity
  }

  /**
   * The rooms after an assignment that passed its guards: the held room (if any) is
   * released, then the target room, as it stands after the release, gains one occupant.
   */
  function Reseat(rooms: seq<Room>, held: Option<int>, roomId: int): (r: seq<Room>)
    requires FirstIndex(rooms, roomId).Some?
    ensures |r| == |rooms|
    ensures forall i :: 0 <= i < |rooms| ==> r[i].id == rooms[i].id
  {
    var released := if held.Some? then Release(rooms, held.value) else rooms;
    // `room` as it stands now: the released room itself when the student already held it
    SameIdsSameIndex(released, rooms, roomId);
    var current := Find(released, roomId).value;
    ReplaceEffect(released, Occupied(current));
    Replace(released, Occupied(current))
  }

  /** The student holding a room: `RoomId = room.Id; RoomNumber = room.RoomNumber`. */
  function Housed(s: Student, room: Room): Student
  {
    s.(attrs := s.attrs.(roomId := Some(room.id), roomNumber := Some(room.attrs.roomNumber)))
  }

  /** The booking record appended by an assignment; the booking store stamps its id. */
  function NewBooking(s: Student, room: Room, now: int): Booking
  {
    Entity(0, BookingAttrs(s.id, FullName(s.attrs), room.id, room.attrs.roomNumber, now, None, true))
  }

  /** `AssignRoomAsync` (JSON-backed service). */
  function AssignRoom(d: Dorm, studentId: int, roomId: int, now: int): (r: Result<Dorm, ServiceError>)
    ensures r.Err? ==> r.error == StudentNotFound || r.error == RoomNotFound || r.error.RoomFull?
    ensures r.Ok? ==> |r.value.students.items| == |d.students.items| && |r.value.rooms.items| == |d.rooms.items|
    ensures r.Ok? ==> |r.value.bookings.items| == |d.bookings.items| + 1 &&
                      r.value.students.nextId == d.students.nextId && r.value.rooms.nextId == d.rooms.nextId
  {
    match Find(d.students.items, studentId)
    case None => Err(StudentNotFound)
    case Some(student) =>
      match Find(d.rooms.items, roomId)
      case None => Err(RoomNotFound)
      case Some(room) =>
        if IsFull(room.attrs) then
          Err(RoomFull(room.attrs.roomNumber, room.attrs.currentOccupancy, room.attrs.capacity))
        else
          Ok(Dorm(d.students.(items := Replace(d.students.items, Housed(student, room))),
                  d.rooms.(items := Reseat(d.rooms.items, student.attrs.roomId, roomId)),
                  WithAdded(d.bookings, NewBooking(student, room, now))))
  }

  /** `UnassignRoomAsync`. */
  function UnassignRoom(d: Dorm, studentId: int): (r: Result<Dorm, ServiceError>)
    ensures r.Err? ==> r.error == StudentNotFound || r.error == NoRoomAssigned
    ensures r.Ok? ==> |r.value.students.items| == |d.students.items| && |r.value.rooms.items| == |d.rooms.items|
    ensures r.Ok? ==> r.value.bookings == d.bookings &&
                      r.value.students.nextId == d.students.nextId && r.value.rooms.nextId == d.rooms.nextId
  {
    match Find(d.students.items, studentId)
    case None => Err(StudentNotFound)
    case Some(student) =>
      if student.attrs.roomId.None? then Err(NoRoomAssigned)
      else
        Ok(d.(students := d.students.(items := Replace(d.students.items, Unhoused(student))),
              rooms := d.rooms.(items := Release(d.rooms.items, student.attrs.roomId.value))))
  }

  /** The student after leaving the hostel: `IsActive = false; LeaveDate = now`. */
  function Departed(s: Student, now: int): Student
  {
    s.(attrs := s.attrs.(isActive := false, leaveDate := Some(now)))
  }

  /** `DeactivateStudentAsync`: mark inactive, stamp the leave date, and release a held room as `UnassignRoom` does. */
  function Deactivate(d: Dorm, studentId: int, now: int): (r: Result<Dorm, ServiceError>)
    ensures r.Err? <==> Find(d.students.items, studentId).None?
    ensures r.Err? ==> r.error == StudentNotFound
    ensures r.Ok? ==> |r.value.students.items| == |d.students.items| && |r.value.rooms.items| == |d.rooms.items|
    ensures r.Ok? ==> r.value.bookings == d.bookings &&
                      r.value.students.nextId == d.students.nextId && r.value.rooms.nextId == d.rooms.nextId
  {
    match Find(d.students.items, studentId)
    case None => Err(StudentNotFound)
    case Some(student) =>
      if student.attrs.roomId.None? then
        Ok(d.(students := d.students.(items := Replace(d.students.items, Departed(student, now)))))
      else
        Ok(d.(students := d.students.(items := Replace(d.students.items, Unhoused(Departed(student, now)))),
              rooms := d.rooms.(items := Release(d.rooms.items, student.attrs.roomId.value))))
  }

  /** `s` with the room reference of `other`. */
  function WithRoomOf(s: Student, other: Student): Student
  {
    s.(attrs := s.attrs.(roomId := other.attrs.roomId, roomNumber := other.attrs.roomNumber))
  }

  /** `SwapRoomsAsync`: exchange the room references of two students; no occupancy changes. */
  function SwapRooms(d: Dorm, studentId1: int, studentId2: int): (r: Result<Dorm, ServiceError>)
    ensures r.Err? ==> r.error == Student1NotFound || r.error == Student2NotFound
    ensures r.Ok? ==> |r.value.students.items| == |d.students.items| && r.value.students.nextId == d.students.nextId
    ensures r.Ok? ==> r.value.rooms == d.rooms && r.value.bookings == d.bookings
  {
    match Find(d.students.items, studentId1)
    case None => Err(Student1NotFound)
    case Some(s1) =>
      match Find(d.students.items, studentId2)
      case None => Err(Student2NotFound)
      case Some(s2) =>
        Ok(d.(students := d.students.(items := Replace(Replace(d.students.items, WithRoomOf(s1, s2)), WithRoomOf(s2, s1)))))
  }

  // ─────────────────────── releasing a room ───────────────────────

  /**
   * Releasing changes at most the first room with the given id, to its vacated form, and
   * keeps every room within its capacity.
   */
  lemma ReleaseEffect(rooms: seq<Room>, roomId: int)
    ensures forall i :: 0 <= i < |rooms| ==>
              Release(rooms, roomId)[i] == (if Some(i) == FirstIndex(rooms, roomId) then Vacated(rooms[i]) else rooms[i])
    ensures Bounded(rooms) ==> Bounded(Release(rooms, roomId))
    ensures forall id :: FirstIndex(Release(rooms, roomId), id) == FirstIndex(rooms, id)
  {
    match Find(rooms, roomId)
    case None =>
    case Some(room) => ReplaceEffect(rooms, Vacated(room));
  }

  /** Two found ids sit at the same first position exactly when they are equal. */
  lemma SameIndexSameId(rooms: seq<Room>, a: int, b: int)
    requires FirstIndex(rooms, a).Some? && FirstIndex(rooms, b).Some?
    ensures FirstIndex(rooms, a) == FirstIndex(rooms, b) <==> a == b
  {
  }

  // ─────────────────────── assign ───────────────────────

  /**
   * The rooms after an assignment, position by position: the target room gains one occupant
   * (after losing one, floored at 0, when the student already held it); a different room the
   * student held loses one, floored at 0; every other room is unchanged.
   */
  lemma ReseatEffect(rooms: seq<Room>, held: Option<int>, roomId: int)
    requires FirstIndex(rooms, roomId).Some?
    ensures var k := FirstIndex(rooms, roomId).value;
            Reseat(rooms, held, roomId)[k] == Occupied(if held == Some(roomId) then Vacated(rooms[k]) else rooms[k])
    ensures held.Some? && held.value != roomId && FirstIndex(rooms, held.value).Some? ==>
              var o := FirstIndex(rooms, held.value).value;
              Reseat(rooms, held, roomId)[o] == Vacated(rooms[o])
    ensures forall i :: 0 <= i < |rooms| && Some(i) != FirstIndex(rooms, roomId) &&
                        (held.None? || Some(i) != FirstIndex(rooms, held.value)) ==>
              Reseat(rooms, held, roomId)[i] == rooms[i]
  {
    ReseatTarget(rooms, held, roomId);
    ReseatReleasesHeld(rooms, held, roomId);
    ReseatKeepsOthers(rooms, held, roomId);
  }

  /** The target room gains one occupant, after first losing one when it is the room already held. */
  lemma ReseatTarget(rooms: seq<Room>, held: Option<int>, roomId: int)
    requires FirstIndex(rooms, roomId).Some?
    ensures var k := FirstIndex(rooms, roomId).value;
            Reseat(rooms, held, roomId)[k] == Occupied(if held == Some(roomId) then Vacated(rooms[k]) else rooms[k])
  {
    var k := FirstIndex(rooms, roomId).value;
    var released := if held.Some? then Release(rooms, held.value) else rooms;
    if held.Some? {
      ReleaseEffect(rooms, held.value);
      if FirstIndex(rooms, held.value).Some? {
        SameIndexSameId(rooms, held.value, roomId);
      }
    }
    SameIdsSameIndex(released, rooms, roomId);
    assert released[k] == (if held == Some(roomId) then Vacated(rooms[k]) else rooms[k]);
  }

  /** A different room the student held loses one occupant, floored at 0. */
  lemma ReseatReleasesHeld(rooms: seq<Room>, held: Option<int>, roomId: int)
    requires FirstIndex(rooms, roomId).Some?
    ensures held.Some? && held.value != roomId && FirstIndex(rooms, held.value).Some? ==>
              var o := FirstIndex(rooms, held.value).value;
              Reseat(rooms, held, roomId)[o] == Vacated(rooms[o])
  {
    var k := FirstIndex(rooms, roomId).value;
    var released := if held.Some? then Release(rooms, held.value) else rooms;
    if held.Some? {
      ReleaseEffect(rooms, held.value);
      if FirstIndex(rooms, held.value).Some? {
        SameIndexSameId(rooms, held.value, roomId);
      }
    }
    SameIdsSameIndex(released, rooms, roomId);
    assert released[k] == (if held == Some(roomId) then Vacated(rooms[k]) else rooms[k]);
  }

  /** Every room that is neither the target nor the held room is left as it was. */
  lemma ReseatKeepsOthers(rooms: seq<Room>, held: Option<int>, roomId: int)
    requires FirstIndex(rooms, roomId).Some?
    ensures forall i :: 0 <= i < |rooms| && Some(i) != FirstIndex(rooms, roomId) &&
                        (held.None? || Some(i) != FirstIndex(rooms, held.value)) ==>
              Reseat(rooms, held, roomId)[i] == rooms[i]
  {
    var released := if held.Some? then Release(rooms, held.value) else rooms;
    if held.Some? {
      ReleaseEffect(rooms, held.value);
    }
    SameIdsSameIndex(released, rooms, roomId);
    var current := Find(released, roomId).value;
    ReplaceEffect(released, Occupied(current));
    assert Reseat(rooms, held, roomId) == Replace(released, Occupied(current));
  }

  /** Taking a seat adds one occupant and leaving one removes one, floored at 0; the capacity stays. */
  lemma SeatCounts(x: Room)
    ensures Occupied(x).attrs.capacity == Vacated(x).attrs.capacity == x.attrs.capacity
    ensures Occupied(x).attrs.currentOccupancy == x.attrs.currentOccupancy + 1
    ensures Vacated(x).attrs.currentOccupancy == Max(0, x.attrs.currentOccupancy - 1)
    ensures Occupied(Vacated(x)).attrs.currentOccupancy == Max(0, x.attrs.currentOccupancy - 1) + 1
    ensures Occupied(Vacated(x)).attrs.capacity == x.attrs.capacity
  {
  }

  /** Re-seating into a room that is not full keeps every room's occupancy within 0..capacity. */
  lemma ReseatKeepsBounds(rooms: seq<Room>, held: Option<int>, roomId: int)
    requires Bounded(rooms)
    requires FirstIndex(rooms, roomId).Some? && !IsFull(rooms[FirstIndex(rooms, roomId).value].attrs)
    ensures Bounded(Reseat(rooms, held, roomId))
  {
    var r := Reseat(rooms, held, roomId);
    forall i | 0 <= i < |rooms|
      ensures 0 <= r[i].attrs.currentOccupancy <= r[i].attrs.capacity
    {
      ReseatRoomBounded(rooms, held, roomId, i);
    }
  }

  /** One room of `ReseatKeepsBounds`: the room at position `i` stays within 0..capacity. */
  lemma ReseatRoomBounded(rooms: seq<Room>, held: Option<int>, roomId: int, i: int)
    requires 0 <= i < |rooms| && 0 <= rooms[i].attrs.currentOccupancy <= rooms[i].attrs.capacity
    requires FirstIndex(rooms, roomId).Some? && !IsFull(rooms[FirstIndex(rooms, roomId).value].attrs)
    ensures 0 <= Reseat(rooms, held, roomId)[i].attrs.currentOccupancy <= Reseat(rooms, held, roomId)[i].attrs.capacity
  {
    var r := Reseat(rooms, held, roomId);
    SeatCounts(rooms[i]);
    if Some(i) == FirstIndex(rooms, roomId) {
      assert rooms[i].attrs.currentOccupancy + 1 <= rooms[i].attrs.capacity;
      ReseatTarget(rooms, held, roomId);
    } else if held.Some? && Some(i) == FirstIndex(rooms, held.value) {
      ReseatReleasesHeld(rooms, held, roomId);
    } else {
      ReseatKeepsOthers(rooms, held, roomId);
    }
  }

  /**
   * AssignRoom fails exactly for a missing student, a missing room or a full room (checked
   * in that order); only then does it change anything.
   */
  lemma AssignRoomGuards(d: Dorm, studentId: int, roomId: int, now: int)
    ensures Find(d.students.items, studentId).None? ==> AssignRoom(d, studentId, roomId, now) == Err(StudentNotFound)
    ensures Find(d.students.items, studentId).Some? && Find(d.rooms.items, roomId).None? ==>
              AssignRoom(d, studentId, roomId, now) == Err(RoomNotFound)
    ensures Find(d.students.items, studentId).Some? && Find(d.rooms.items, roomId).Some? &&
            IsFull(Find(d.rooms.items, roomId).value.attrs) ==>
              var r := Find(d.rooms.items, roomId).value;
              AssignRoom(d, studentId, roomId, now) == Err(RoomFull(r.attrs.roomNumber, r.attrs.currentOccupancy, r.attrs.capacity))
    ensures AssignRoom(d, studentId, roomId, now).Ok? <==>
              Find(d.students.items, studentId).Some? && Find(d.rooms.items, roomId).Some? &&
              !IsFull(Find(d.rooms.items, roomId).value.attrs)
  {
  }

  /** Assigning keeps every room's occupancy within 0..capacity. */
  lemma AssignRoomKeepsBounds(d: Dorm, studentId: int, roomId: int, now: int)
    requires Bounded(d.rooms.items)
    ensures AssignRoom(d, studentId, roomId, now).Ok? ==> Bounded(AssignRoom(d, studentId, roomId, now).value.rooms.items)
  {
    if AssignRoom(d, studentId, roomId, now).Ok? {
      var student := Find(d.students.items, studentId).value;
      ReseatKeepsBounds(d.rooms.items, student.attrs.roomId, roomId);
    }
  }

  /**
   * The target room after a successful assignment gains one occupant (`Occupied`); when the
   * student already held it, it first loses one, floored at 0 (`Vacated`), so from an
   * occupancy of 0 it ends at 1. No room is added or removed.
   */
  lemma AssignRoomRooms(d: Dorm, studentId: int, roomId: int, now: int)
    requires AssignRoom(d, studentId, roomId, now).Ok?
    ensures |AssignRoom(d, studentId, roomId, now).value.rooms.items| == |d.rooms.items|
    ensures var rooms := d.rooms.items;
            var rooms' := AssignRoom(d, studentId, roomId, now).value.rooms.items;
            var held := Find(d.students.items, studentId).value.attrs.roomId;
            var k := FirstIndex(rooms, roomId).value;
            rooms'[k] == (if held == Some(roomId) then Occupied(Vacated(rooms[k])) else Occupied(rooms[k]))
  {
    var held := Find(d.students.items, studentId).value.attrs.roomId;
    AssignRoomShape(d, studentId, roomId, now);
    ReseatTarget(d.rooms.items, held, roomId);
  }

  /** A different room the student held before a successful assignment loses one occupant, floored at 0 (`Vacated`). */
  lemma AssignRoomReleasesHeld(d: Dorm, studentId: int, roomId: int, now: int)
    requires AssignRoom(d, studentId, roomId, now).Ok?
    ensures var rooms := d.rooms.items;
            var rooms' := AssignRoom(d, studentId, roomId, now).value.rooms.items;
            var held := Find(d.students.items, studentId).value.attrs.roomId;
            held.Some? && held.value != roomId && FirstIndex(rooms, held.value).Some? ==>
              var o := FirstIndex(rooms, held.value).value;
              rooms'[o] == Vacated(rooms[o])
  {
    var held := Find(d.students.items, studentId).value.attrs.roomId;
    AssignRoomShape(d, studentId, roomId, now);
    ReseatReleasesHeld(d.rooms.items, held, roomId);
  }

  /** A successful assignment leaves every room other than the target and the room previously held exactly as it was. */
  lemma AssignRoomKeepsOtherRooms(d: Dorm, studentId: int, roomId: int, now: int)
    requires AssignRoom(d, studentId, roomId, now).Ok?
    ensures var rooms := d.rooms.items;
            var rooms' := AssignRoom(d, studentId, roomId, now).value.rooms.items;
            var held := Find(d.students.items, studentId).value.attrs.roomId;
            forall i :: 0 <= i < |rooms| && Some(i) != FirstIndex(rooms, roomId) &&
                        (held.None? || Some(i) != FirstIndex(rooms, held.value)) ==>
              rooms'[i] == rooms[i]
  {
    var held := Find(d.students.items, studentId).value.attrs.roomId;
    AssignRoomShape(d, studentId, roomId, now);
    ReseatKeepsOthers(d.rooms.items, held, roomId);
  }

  /** A successful assignment, written out: the student housed, the rooms re-seated, one booking added. */
  lemma AssignRoomShape(d: Dorm, studentId: int, roomId: int, now: int)
    requires AssignRoom(d, studentId, roomId, now).Ok?
    ensures var student := Find(d.students.items, studentId).value;
            var room := Find(d.rooms.items, roomId).value;
            && FirstIndex(d.rooms.items, roomId).Some?
            && AssignRoom(d, studentId, roomId, now).value ==
                 Dorm(d.students.(items := Replace(d.students.items, Housed(student, room))),
                      d.rooms.(items := Reseat(d.rooms.items, student.attrs.roomId, roomId)),
                      WithAdded(d.bookings, NewBooking(student, room, now)))
  {
  }

  /**
   * The student after a successful assignment holds the room (its id and its number); the
   * rest of the record and every other student are unchanged.
   */
  lemma AssignRoomStudent(d: Dorm, studentId: int, roomId: int, now: int)
    requires AssignRoom(d, studentId, roomId, now).Ok?
    ensures |AssignRoom(d, studentId, roomId, now).value.students.items| == |d.students.items|
    ensures var students := d.students.items;
            var students' := AssignRoom(d, studentId, roomId, now).value.students.items;
            var j := FirstIndex(students, studentId).value;
            var room := Find(d.rooms.items, roomId).value;
            && students'[j] == students[j].(attrs := students[j].attrs.(roomId := Some(roomId), roomNumber := Some(room.attrs.roomNumber)))
            && (forall i :: 0 <= i < |students| && i != j ==> students'[i] == students[i])
            && AssignRoom(d, studentId, roomId, now).value.students.nextId == d.students.nextId
  {
    var student := Find(d.students.items, studentId).value;
    var room := Find(d.rooms.items, roomId).value;
    ReplaceEffect(d.students.items, Housed(student, room));
  }

  /** A successful assignment appends exactly one current booking for that student and room. */
  lemma AssignRoomBooking(d: Dorm, studentId: int, roomId: int, now: int)
    requires AssignRoom(d, studentId, roomId, now).Ok?
    ensures var b := AssignRoom(d, studentId, roomId, now).value.bookings;
            var room := Find(d.rooms.items, roomId).value;
            var student := Find(d.students.items, studentId).value;
            && |b.items| == |d.bookings.items| + 1
            && b.items[..|d.bookings.items|] == d.bookings.items
            && b.items[|d.bookings.items|] ==
                 Entity(d.bookings.nextId,
                        BookingAttrs(studentId, FullName(student.attrs), roomId, room.attrs.roomNumber, now, None, true))
            && b.nextId == d.bookings.nextId + 1
  {
  }

  /** Re-assigning a student to a full room they already hold fails: the full-room check comes first. */
  lemma ReassignToOwnFullRoomFails(d: Dorm, studentId: int, now: int)
    requires Find(d.students.items, studentId).Some?
    requires var held := Find(d.students.items, studentId).value.attrs.roomId;
             held.Some? && Find(d.rooms.items, held.value).Some? && IsFull(Find(d.rooms.items, held.value).value.attrs)
    ensures var held := Find(d.students.items, studentId).value.attrs.roomId.value;
            AssignRoom(d, studentId, held, now).Err? && AssignRoom(d, studentId, held, now).error.RoomFull?
  {
  }

  /**
   * Re-assigning a student to the room they hold, when it has an occupant and a free bed,
   * leaves every room as it was (the release and the increment hit the same room).
   */
  lemma ReassignToOwnRoomKeepsRooms(d: Dorm, studentId: int, now: int)
    requires Find(d.students.items, studentId).Some?
    requires var held := Find(d.students.items, studentId).value.attrs.roomId;
             held.Some? && Find(d.rooms.items, held.value).Some? &&
             var r := Find(d.rooms.items, held.value).value.attrs;
             0 < r.currentOccupancy < r.capacity
    ensures var held := Find(d.students.items, studentId).value.attrs.roomId.value;
            AssignRoom(d, studentId, held, now).Ok? &&
            AssignRoom(d, studentId, held, now).value.rooms == d.rooms
  {
    var held := Find(d.students.items, studentId).value.attrs.roomId;
    ReseatOwnRoom(d.rooms.items, held.value);
  }

  /** Releasing a room and then re-seating into it, when it has an occupant, gives back the same rooms. */
  lemma ReseatOwnRoom(rooms: seq<Room>, roomId: int)
    requires FirstIndex(rooms, roomId).Some?
    requires rooms[FirstIndex(rooms, roomId).value].attrs.currentOccupancy > 0
    ensures Reseat(rooms, Some(roomId), roomId) == rooms
  {
    var k := FirstIndex(rooms, roomId).value;
    var released := rooms[k := Vacated(rooms[k])];
    assert Release(rooms, roomId) == released;
    SameIdsSameIndex(released, rooms, roomId);
    assert Find(released, roomId) == Some(Vacated(rooms[k]));
    assert Occupied(Vacated(rooms[k])) == rooms[k];
    assert released[k := rooms[k]] == rooms;
  }

  // ─────────────────────── unassign, deactivate, swap ───────────────────────

  /** UnassignRoom fails exactly for a missing student or one with no room, in that order. */
  lemma UnassignRoomGuards(d: Dorm, studentId: int)
    ensures Find(d.students.items, studentId).None? ==> UnassignRoom(d, studentId) == Err(StudentNotFound)
    ensures Find(d.students.items, studentId).Some? && Find(d.students.items, studentId).value.attrs.roomId.None? ==>
              UnassignRoom(d, studentId) == Err(NoRoomAssigned)
    ensures UnassignRoom(d, studentId).Ok? <==>
              Find(d.students.items, studentId).Some? && Find(d.students.items, studentId).value.attrs.roomId.Some?
  {
  }

  /**
   * A successful UnassignRoom clears the student's room id and room number and nothing else
   * about them, leaves every other student alone, releases the held room (one occupant
   * fewer, floored at 0, when it still exists), leaves bookings untouched, and keeps every
   * room within its capacity.
   */
  lemma UnassignRoomEffect(d: Dorm, studentId: int)
    requires UnassignRoom(d, studentId).Ok?
    ensures var d' := UnassignRoom(d, studentId).value;
            var students := d.students.items;
            var j := FirstIndex(students, studentId).value;
            var s := students[j];
            && |d'.students.items| == |students|
            && d'.students.items[j].id == studentId
            && d'.students.items[j].attrs.roomId.None? && d'.students.items[j].attrs.roomNumber.None?
            && d'.students.items[j].attrs.(roomId := s.attrs.roomId, roomNumber := s.attrs.roomNumber) == s.attrs
            && (forall i :: 0 <= i < |students| && i != j ==> d'.students.items[i] == students[i])
            && d'.rooms.items == Release(d.rooms.items, s.attrs.roomId.value)
            && d'.bookings == d.bookings
    ensures Bounded(d.rooms.items) ==> Bounded(UnassignRoom(d, studentId).value.rooms.items)
  {
    var student := Find(d.students.items, studentId).value;
    ReplaceEffect(d.students.items, Unhoused(student));
    ReleaseEffect(d.rooms.items, student.attrs.roomId.value);
  }

  /** Assigning a student without a room to a room with a free bed, position by position. */
  lemma AssignFromNoRoom(d: Dorm, studentId: int, roomId: int, now: int)
    requires Find(d.students.items, studentId).Some?
    requires Find(d.students.items, studentId).value.attrs.roomId.None?
    requires Find(d.rooms.items, roomId).Some? && !IsFull(Find(d.rooms.items, roomId).value.attrs)
    ensures var j := FirstIndex(d.students.items, studentId).value;
            var k := FirstIndex(d.rooms.items, roomId).value;
            && AssignRoom(d, studentId, roomId, now).Ok?
            && AssignRoom(d, studentId, roomId, now).value.students.items ==
                 d.students.items[j := Housed(d.students.items[j], d.rooms.items[k])]
            && AssignRoom(d, studentId, roomId, now).value.rooms.items == d.rooms.items[k := Occupied(d.rooms.items[k])]
  {
    var k := FirstIndex(d.rooms.items, roomId).value;
    ReseatEffect(d.rooms.items, None, roomId);
    assert Reseat(d.rooms.items, None, roomId) == d.rooms.items[k := Occupied(d.rooms.items[k])];
  }

  /** Unassigning a student found at `j` whose room is found at `k`, position by position. */
  lemma UnassignAt(d: Dorm, studentId: int, j: nat, k: nat)
    requires FirstIndex(d.students.items, studentId) == Some(j)
    requires d.students.items[j].attrs.roomId.Some?
    requires FirstIndex(d.rooms.items, d.students.items[j].attrs.roomId.value) == Some(k)
    ensures UnassignRoom(d, studentId) ==
              Ok(d.(students := d.students.(items := d.students.items[j := Unhoused(d.students.items[j])]),
                    rooms := d.rooms.(items := d.rooms.items[k := Vacated(d.rooms.items[k])])))
  {
  }

  /**
   * Assign followed by Unassign, for a student without a room and a room with a free bed,
   * restores every room and every student; only the booking history grew.
   */
  lemma AssignThenUnassignRestores(d: Dorm, studentId: int, roomId: int, now: int)
    requires Find(d.students.items, studentId).Some?
    requires Find(d.students.items, studentId).value.attrs.roomId.None?
    requires Find(d.students.items, studentId).value.attrs.roomNumber.None?
    requires Find(d.rooms.items, roomId).Some?
    requires 0 <= Find(d.rooms.items, roomId).value.attrs.currentOccupancy < Find(d.rooms.items, roomId).value.attrs.capacity
    ensures AssignRoom(d, studentId, roomId, now).Ok?
    ensures UnassignRoom(AssignRoom(d, studentId, roomId, now).value, studentId).Ok?
    ensures var d2 := UnassignRoom(AssignRoom(d, studentId, roomId, now).value, studentId).value;
            d2.rooms == d.rooms && d2.students == d.students
  {
    var students := d.students.items;
    var rooms := d.rooms.items;
    var j := FirstIndex(students, studentId).value;
    var k := FirstIndex(rooms, roomId).value;
    var housed := Housed(students[j], rooms[k]);
    AssignFromNoRoom(d, studentId, roomId, now);
    var d1 := AssignRoom(d, studentId, roomId, now).value;
    assert d1.students == d.students.(items := students[j := housed]);
    assert d1.rooms == d.rooms.(items := rooms[k := Occupied(rooms[k])]);
    // the student and the room are found again at the same positions
    SameIdsSameIndex(d1.students.items, students, studentId);
    SameIdsSameIndex(d1.rooms.items, rooms, roomId);
    UnassignAt(d1, studentId, j, k);
    // clearing the reference and the release undo the assignment
    assert Unhoused(housed) == students[j];
    assert Vacated(Occupied(rooms[k])) == rooms[k];
    assert students[j := housed][j := students[j]] == students;
    assert rooms[k := Occupied(rooms[k])][k := rooms[k]] == rooms;
    var d2 := UnassignRoom(d1, studentId).value;
    assert d2.students == d.students && d2.rooms == d.rooms;
  }

  /**
   * Deactivate fails only for a missing student. Otherwise the student becomes inactive with
   * the leave date stamped; a held room is released exactly as by UnassignRoom, with the
   * room reference cleared; a student without a room keeps their (empty) room id and their
   * room number; other students and the bookings are untouched; every room stays within
   * its capacity.
   */
  lemma DeactivateEffect(d: Dorm, studentId: int, now: int)
    ensures Deactivate(d, studentId, now).Err? <==> Find(d.students.items, studentId).None?
    ensures Deactivate(d, studentId, now).Err? ==> Deactivate(d, studentId, now).error == StudentNotFound
    ensures Deactivate(d, studentId, now).Ok? ==>
              var d' := Deactivate(d, studentId, now).value;
              var students := d.students.items;
              var j := FirstIndex(students, studentId).value;
              var s := students[j];
              && |d'.students.items| == |students|
              && d'.students.items[j].id == studentId
              && !d'.students.items[j].attrs.isActive
              && d'.students.items[j].attrs.leaveDate == Some(now)
              && d'.students.items[j].attrs.roomId.None?
              && d'.students.items[j].attrs.(isActive := s.attrs.isActive, leaveDate := s.attrs.leaveDate,
                                             roomId := s.attrs.roomId, roomNumber := s.attrs.roomNumber) == s.attrs
              && (s.attrs.roomId.Some? ==>
                    (d'.students.items[j].attrs.roomNumber.None? &&
                     d'.rooms.items == Release(d.rooms.items, s.attrs.roomId.value)))
              && (s.attrs.roomId.None? ==> d'.students.items[j].attrs.roomNumber == s.attrs.roomNumber && d'.rooms == d.rooms)
              && (forall i :: 0 <= i < |students| && i != j ==> d'.students.items[i] == students[i])
              && d'.bookings == d.bookings
    ensures Deactivate(d, studentId, now).Ok? && Bounded(d.rooms.items) ==>
              Bounded(Deactivate(d, studentId, now).value.rooms.items)
  {
    if Deactivate(d, studentId, now).Ok? {
      var student := Find(d.students.items, studentId).value;
      ReplaceEffect(d.students.items, Departed(student, now));
      ReplaceEffect(d.students.items, Unhoused(Departed(student, now)));
      if student.attrs.roomId.Some? {
        ReleaseEffect(d.rooms.items, student.attrs.roomId.value);
      }
    }
  }

  /** Deactivating a student twice releases their room once: the second call leaves every room as it was. */
  lemma DeactivateTwiceReleasesOnce(d: Dorm, studentId: int, now1: int, now2: int)
    requires Deactivate(d, studentId, now1).Ok?
    ensures var d1 := Deactivate(d, studentId, now1).value;
            Deactivate(d1, studentId, now2).Ok? && Deactivate(d1, studentId, now2).value.rooms == d1.rooms
  {
    DeactivateEffect(d, studentId, now1);
    var d1 := Deactivate(d, studentId, now1).value;
    SameIdsSameIndex(d1.students.items, d.students.items, studentId);
  }

  /** SwapRooms fails exactly for a missing student, the first one checked first. */
  lemma SwapRoomsGuards(d: Dorm, studentId1: int, studentId2: int)
    ensures Find(d.students.items, studentId1).None? ==> SwapRooms(d, studentId1, studentId2) == Err(Student1NotFound)
    ensures Find(d.students.items, studentId1).Some? && Find(d.students.items, studentId2).None? ==>
              SwapRooms(d, studentId1, studentId2) == Err(Student2NotFound)
    ensures SwapRooms(d, studentId1, studentId2).Ok? <==>
              Find(d.students.items, studentId1).Some? && Find(d.students.items, studentId2).Some?
  {
  }

  /**
   * A successful swap of two distinct students exchanges their room ids and room numbers;
   * no room, no booking and no other student changes, so no occupancy is adjusted (a
   * student without a room hands the other one "no room").
   */
  lemma SwapRoomsEffect(d: Dorm, studentId1: int, studentId2: int)
    requires SwapRooms(d, studentId1, studentId2).Ok?
    requires studentId1 != studentId2
    ensures var d' := SwapRooms(d, studentId1, studentId2).value;
            d'.rooms == d.rooms && d'.bookings == d.bookings && |d'.students.items| == |d.students.items|
    ensures var students := d.students.items;
            var students' := SwapRooms(d, studentId1, studentId2).value.students.items;
            var i1 := FirstIndex(students, studentId1).value;
            var i2 := FirstIndex(students, studentId2).value;
            && students'[i1].attrs.roomId == students[i2].attrs.roomId
            && students'[i1].attrs.roomNumber == students[i2].attrs.roomNumber
            && students'[i2].attrs.roomId == students[i1].attrs.roomId
            && students'[i2].attrs.roomNumber == students[i1].attrs.roomNumber
            && students'[i1].attrs.(roomId := students[i1].attrs.roomId, roomNumber := students[i1].attrs.roomNumber) == students[i1].attrs
            && students'[i2].attrs.(roomId := students[i2].attrs.roomId, roomNumber := students[i2].attrs.roomNumber) == students[i2].attrs
            && students'[i1].id == studentId1 && students'[i2].id == studentId2
            && (forall i :: 0 <= i < |students| && i != i1 && i != i2 ==> students'[i] == students[i])
  {
    var students := d.students.items;
    var i1 := FirstIndex(students, studentId1).value;
    var i2 := FirstIndex(students, studentId2).value;
    var a := students[i1 := WithRoomOf(students[i1], students[i2])];
    SameIdsSameIndex(a, students, studentId2);
    assert SwapRooms(d, studentId1, studentId2).value.students.items == a[i2 := WithRoomOf(students[i2], students[i1])];
  }

  /** Swapping a student with themselves changes nothing. */
  lemma SwapWithSelfIsNoop(d: Dorm, studentId: int)
    requires SwapRooms(d, studentId, studentId).Ok?
    ensures SwapRooms(d, studentId, studentId).value == d
  {
    var students := d.students.items;
    var j := FirstIndex(students, studentId).value;
    var a := students[j := WithRoomOf(students[j], students[j])];
    assert a == students;
    assert SwapRooms(d, studentId, studentId).value.students.items == a[j := WithRoomOf(students[j], students[j])];
  }

  // ─────────────────────── any sequence of operations ───────────────────────

  /** One call on the student service's occupancy operations. */
  datatype Call =
    | Assign(studentId: int, roomId: int, now: int)
    | Unassign(studentId: int)
    | Leave(studentId: int, now: int)
    | Swap(studentId1: int, studentId2: int)

  /** The stores after one call; a call that throws leaves them unchanged. */
  function Step(d: Dorm, c: Call): Dorm
  {
    After(d, match c
      case Assign(s, room, now) => AssignRoom(d, s, room, now)
      case Unassign(s) => UnassignRoom(d, s)
      case Leave(s, now) => Deactivate(d, s, now)
      case Swap(s1, s2) => SwapRooms(d, s1, s2))
  }

  /** The stores after a run of calls, in order. */
  function Run(d: Dorm, calls: seq<Call>): Dorm
    decreases |calls|
  {
    if |calls| == 0 then d else Run(Step(d, calls[0]), calls[1..])
  }

  /** One call of any kind keeps every room's occupancy within 0..capacity. */
  lemma StepKeepsBounds(d: Dorm, c: Call)
    requires Bounded(d.rooms.items)
    ensures Bounded(Step(d, c).rooms.items)
  {
    match c {
      case Assign(s, room, now) => AssignRoomKeepsBounds(d, s, room, now);
      case Unassign(s) => if UnassignRoom(d, s).Ok? { UnassignRoomEffect(d, s); }
      case Leave(s, now) => DeactivateEffect(d, s, now);
      case Swap(s1, s2) =>
        if SwapRooms(d, s1, s2).Ok? {
          if s1 == s2 { SwapWithSelfIsNoop(d, s1); } else { SwapRoomsEffect(d, s1, s2); }
        }
    }
  }

  /** After any run of assign, unassign, deactivate and swap calls every room's occupancy lies within 0..capacity. */
  lemma {:induction false} RunKeepsBounds(d: Dorm, calls: seq<Call>)
    requires Bounded(d.rooms.items)
    ensures Bounded(Run(d, calls).rooms.items)
    decreases |calls|
  {
    if |calls| > 0 {
      StepKeepsBounds(d, calls[0]);
      RunKeepsBounds(Step(d, calls[0]), calls[1..]);
    }
  }
}
