/**
 * `StudentService`: the student registry on top of three JSON-backed repositories
 * (students, rooms, bookings). The occupancy operations follow the functions of module
 * `Occupancy` step for step; the queries are filters over `GetAllAsync`.
 */
module StudentServices {
  import opened Wrappers
  import opened Errors
  import opened Entities
  import opened Store
  import opened Seqs
  import opened Text
  import opened Occupancy

  // ─────────────────────── queries ───────────────────────

  /** Whether a student is active: what `GetActiveStudentsAsync` keeps and `GetActiveCountAsync` counts. */
  predicate IsActive(s: Student)
  {
    s.attrs.isActive
  }

  /** `GetActiveStudentsAsync`: the active students, in store order. */
  function ActiveStudents(all: seq<Student>): (r: seq<Student>)
    ensures forall i :: 0 <= i < |r| ==> r[i] in all && r[i].attrs.isActive
    ensures forall i :: 0 <= i < |all| && all[i].attrs.isActive ==> all[i] in r
  {
    Filter(all, IsActive)
  }

  /**
   * `GetActiveCountAsync`: the number of active students; never more than the registered
   * students, zero exactly when none is active, and all of them exactly when all are.
   */
  function ActiveCount(all: seq<Student>): (n: nat)
    ensures n == Count(all, IsActive) && n == |ActiveStudents(all)| && n <= |all|
    ensures n == 0 <==> forall i :: 0 <= i < |all| ==> !all[i].attrs.isActive
    ensures n == |all| <==> forall i :: 0 <= i < |all| ==> all[i].attrs.isActive
  {
    FilterKeepsAll(all, IsActive);
    FilterEmpty(all, IsActive);
    Count(all, IsActive)
  }

  /** `GetStudentsByRoomAsync`: the active students whose room id is `roomId`. */
  function StudentsInRoom(all: seq<Student>, roomId: int): (r: seq<Student>)
    ensures forall i :: 0 <= i < |r| ==> r[i] in all && r[i].attrs.roomId == Some(roomId) && r[i].attrs.isActive
    ensures forall i :: 0 <= i < |all| && all[i].attrs.roomId == Some(roomId) && all[i].attrs.isActive ==> all[i] in r
  {
    Filter(all, (s: Student) => s.attrs.roomId == Some(roomId) && s.attrs.isActive)
  }

  /** `GetStudentsWithoutRoomAsync`: the active students with no room id. */
  function StudentsWithoutRoom(all: seq<Student>): (r: seq<Student>)
    ensures forall i :: 0 <= i < |r| ==> r[i] in all && r[i].attrs.roomId.None? && r[i].attrs.isActive
    ensures forall i :: 0 <= i < |all| && all[i].attrs.roomId.None? && all[i].attrs.isActive ==> all[i] in r
  {
    Filter(all, (s: Student) => s.attrs.roomId.None? && s.attrs.isActive)
  }

  /**
   * The search condition for an already lower-cased query `q`: it occurs in the lower-cased
   * first name, last name, registration number, e-mail or department, or in the phone
   * number as written (the phone is not lower-cased).
   */
  predicate MatchesQuery(s: Student, q: string)
  {
    || Contains(Lower(s.attrs.firstName), q)
    || Contains(Lower(s.attrs.lastName), q)
    || Contains(Lower(s.attrs.registrationNumber), q)
    || Contains(s.attrs.phone, q)
    || Contains(Lower(s.attrs.email), q)
    || Contains(Lower(s.attrs.department), q)
  }

  /** `SearchStudentsAsync`: students of any status matching the lower-cased query, in store order. */
  function Search(all: seq<Student>, query: string): (r: seq<Student>)
    ensures forall i :: 0 <= i < |r| ==> r[i] in all && MatchesQuery(r[i], Lower(query))
    ensures forall i :: 0 <= i < |all| && MatchesQuery(all[i], Lower(query)) ==> all[i] in r
  {
    var q := Lower(query);
    Filter(all, (s: Student) => MatchesQuery(s, q))
  }

  /** The empty query returns every student, inactive ones included. */
  lemma SearchEmptyQueryReturnsAll(all: seq<Student>)
    ensures Search(all, "") == all
  {
    forall i | 0 <= i < |all|
      ensures MatchesQuery(all[i], "")
    {
      ContainsTrivial(Lower(all[i].attrs.firstName));
    }
    FilterKeepsAll(all, (s: Student) => MatchesQuery(s, ""));
  }

  /** The search ignores the case of the query: a query and its lower-case form find the same students. */
  lemma SearchIgnoresQueryCase(all: seq<Student>, query: string)
    ensures Search(all, Lower(query)) == Search(all, query)
  {
    LowerIdempotent(query);
  }

  /** The student as `RegisterStudentAsync` stores it: joined now, active. */
  function Registered(s: Student, now: int): (r: Student)
    ensures r.id == s.id && r.attrs.isActive && r.attrs.joinDate == now
    ensures r.attrs.(joinDate := s.attrs.joinDate, isActive := s.attrs.isActive) == s.attrs
  {
    s.(attrs := s.attrs.(joinDate := now, isActive := true))
  }

  /** Registering a student adds one to the active count. */
  lemma RegisteredIsActive(all: seq<Student>, s: Student, now: int)
    ensures ActiveCount(all + [Registered(s, now)]) == ActiveCount(all) + 1
  {
    FilterAppend(all, [Registered(s, now)], IsActive);
    assert [Registered(s, now)][..0] == [];
  }

  /** A successful deactivation lowers the active count by one exactly when the student was active. */
  lemma DeactivateLowersActiveCount(d: Dorm, studentId: int, now: int)
    ensures Deactivate(d, studentId, now).Ok? ==>
              var students := d.students.items;
              ActiveCount(Deactivate(d, studentId, now).value.students.items) ==
                ActiveCount(students) - (if students[FirstIndex(students, studentId).value].attrs.isActive then 1 else 0)
  {
    DeactivateEffect(d, studentId, now);
    if Deactivate(d, studentId, now).Ok? {
      var students := d.students.items;
      var s' := Deactivate(d, studentId, now).value.students.items;
      var j := FirstIndex(students, studentId).value;
      assert s' == students[j := s'[j]];
      CountUpdate(students, j, s'[j], IsActive);
    }
  }

  // ─────────────────────── the service ───────────────────────

  class StudentService {
    const students: JsonFileRepository<StudentAttrs>
    const rooms: JsonFileRepository<RoomAttrs>
    const bookings: JsonFileRepository<BookingAttrs>

    constructor (students: JsonFileRepository<StudentAttrs>, rooms: JsonFileRepository<RoomAttrs>,
                 bookings: JsonFileRepository<BookingAttrs>)
      ensures this.students == students && this.rooms == rooms && this.bookings == bookings
    {
      this.students := students;
      this.rooms := rooms;
      this.bookings := bookings;
    }

    /** The three stores as one value. */
    function State(): Dorm
      reads students, rooms, bookings
    {
      Dorm(students.Snapshot(), rooms.Snapshot(), bookings.Snapshot())
    }

    /** `RegisterStudentAsync`: stamps the join date, marks the student active and adds it. */
    method Register(student: Student, now: int) returns (stored: Student)
      modifies students
      ensures stored.attrs == student.attrs.(joinDate := now, isActive := true)
      ensures stored.id == (if student.id == 0 then old(students.nextId) else student.id)
      ensures students.Snapshot() == WithAdded(old(students.Snapshot()), Registered(student, now))
      ensures students.items[|students.items| - 1] == stored
    {
      stored := students.Add(Registered(student, now));
    }

    /** `UpdateStudentAsync`: write the record back over the first one with its id. */
    method Update(student: Student)
      modifies students
      ensures students.items == Replace(old(students.items), student) && students.nextId == old(students.nextId)
    {
      students.Update(student);
    }

    /** `DeactivateStudentAsync`. */
    method Deactivate(studentId: int, now: int) returns (outcome: Outcome<ServiceError>)
      modifies students, rooms
      ensures outcome == OutcomeOf(Occupancy.Deactivate(old(State()), studentId, now))
      ensures State() == After(old(State()), Occupancy.Deactivate(old(State()), studentId, now))
    {
      var found := students.GetById(studentId);
      if found.None? {
        return Fail(StudentNotFound);
      }
      var student := Departed(found.value, now);
      if student.attrs.roomId.Some? {
        var room := rooms.GetById(student.attrs.roomId.value);
        if room.Some? {
          rooms.Update(Vacated(room.value));
        }
        student := Unhoused(student);
      }
      students.Update(student);
      return Pass;
    }

    /** `AssignRoomAsync`. */
    method AssignRoom(studentId: int, roomId: int, now: int) returns (outcome: Outcome<ServiceError>)
      modifies students, rooms, bookings
      ensures outcome == OutcomeOf(Occupancy.AssignRoom(old(State()), studentId, roomId, now))
      ensures State() == After(old(State()), Occupancy.AssignRoom(old(State()), studentId, roomId, now))
    {
      ghost var d := State();
      var foundStudent := students.GetById(studentId);
      if foundStudent.None? {
        return Fail(StudentNotFound);
      }
      var foundRoom := rooms.GetById(roomId);
      if foundRoom.None? {
        return Fail(RoomNotFound);
      }
      var student, room := foundStudent.value, foundRoom.value;
      if IsFull(room.attrs) {
        return Fail(RoomFull(room.attrs.roomNumber, room.attrs.currentOccupancy, room.attrs.capacity));
      }
      ghost var before := rooms.items;
      if student.attrs.roomId.Some? {
        var oldRoom := rooms.GetById(student.attrs.roomId.value);
        if oldRoom.Some? {
          rooms.Update(Vacated(oldRoom.value));
        }
        assert rooms.items == Release(before, student.attrs.roomId.value);
      }
      // when the student already held `room`, that object was just released: read it as it now stands
      SameIdsSameIndex(rooms.items, before, roomId);
      var current := rooms.GetById(roomId);
      rooms.Update(Occupied(current.value));
      assert rooms.Snapshot() == d.rooms.(items := Reseat(before, student.attrs.roomId, roomId));
      students.Update(Housed(student, room));
      assert students.Snapshot() == d.students.(items := Replace(d.students.items, Housed(student, room)));
      var booking := bookings.Add(NewBooking(student, room, now));
      Occupancy.AssignRoomShape(d, studentId, roomId, now);
      assert State() == Occupancy.AssignRoom(d, studentId, roomId, now).value;
      return Pass;
    }

    /** `UnassignRoomAsync`. */
    method UnassignRoom(studentId: int) returns (outcome: Outcome<ServiceError>)
      modifies students, rooms
      ensures outcome == OutcomeOf(Occupancy.UnassignRoom(old(State()), studentId))
      ensures State() == After(old(State()), Occupancy.UnassignRoom(old(State()), studentId))
    {
      var found := students.GetById(studentId);
      if found.None? {
        return Fail(StudentNotFound);
      }
      var student := found.value;
      if student.attrs.roomId.None? {
        return Fail(NoRoomAssigned);
      }
      var room := rooms.GetById(student.attrs.roomId.value);
      if room.Some? {
        rooms.Update(Vacated(room.value));
      }
      students.Update(Unhoused(student));
      return Pass;
    }

    /** `SwapRoomsAsync`. */
    method SwapRooms(studentId1: int, studentId2: int) returns (outcome: Outcome<ServiceError>)
      modifies students
      ensures outcome == OutcomeOf(Occupancy.SwapRooms(old(State()), studentId1, studentId2))
      ensures State() == After(old(State()), Occupancy.SwapRooms(old(State()), studentId1, studentId2))
    {
      var found1 := students.GetById(studentId1);
      if found1.None? {
        return Fail(Student1NotFound);
      }
      var found2 := students.GetById(studentId2);
      if found2.None? {
        return Fail(Student2NotFound);
      }
      var s1, s2 := found1.value, found2.value;
      students.Update(WithRoomOf(s1, s2));
      students.Update(WithRoomOf(s2, s1));
      return Pass;
    }

    /** `GetActiveStudentsAsync`. */
    method GetActiveStudents() returns (r: seq<Student>)
      ensures r == ActiveStudents(students.items)
    {
      var all := students.GetAll();
      r := ActiveStudents(all);
    }

    /** `GetStudentsByRoomAsync`. */
    method GetStudentsByRoom(roomId: int) returns (r: seq<Student>)
      ensures r == StudentsInRoom(students.items, roomId)
    {
      var all := students.GetAll();
      r := StudentsInRoom(all, roomId);
    }

    /** `GetStudentsWithoutRoomAsync`. */
    method GetStudentsWithoutRoom() returns (r: seq<Student>)
      ensures r == StudentsWithoutRoom(students.items)
    {
      var all := students.GetAll();
      r := StudentsWithoutRoom(all);
    }

    /** `GetActiveCountAsync`. */
    method GetActiveCount() returns (n: nat)
      ensures n == ActiveCount(students.items)
    {
      var all := students.GetAll();
      n := ActiveCount(all);
    }

    /** `SearchStudentsAsync`. */
    method SearchStudents(query: string) returns (r: seq<Student>)
      ensures r == Search(students.items, query)
    {
      var all := students.GetAll();
      r := Search(all, query);
    }
  }
}
