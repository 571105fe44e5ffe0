/**
 * The in-memory services (`Hostel.Core.InMemory`), built on `InMemoryRepository`.
 *
 * They are thinner than the JSON-backed services: registering, creating a complaint and
 * listing work as there, but `AssignRoomAsync` only checks that the target room has a free
 * bed, adds one occupant to it and points the student at it. It does not release the room
 * the student held, does not copy the room number onto the student and books nothing.
 * Recording a payment stamps its date and gives no receipt number. `CreateRoomAsync` stores
 * the room exactly as given.
 *
 * The repository has no `Update`: these services change the objects `GetByIdAsync` returned,
 * which are the very objects in the list. Here that is a write of the changed record at the
 * position the lookup found.
 */
module InMemoryServices {
  import opened Wrappers
  import opened Errors
  import opened Entities
  import opened Store
  import Occupancy
  import StudentServices
  import RoomServices
  import PaymentServices
  import ComplaintServices

  type Student = Entity<StudentAttrs>
  type Room = Entity<RoomAttrs>
  type Payment = Entity<PaymentAttrs>
  type Complaint = Entity<ComplaintAttrs>

  /** The student and room lists an assignment changes. */
  datatype Lists = Lists(students: seq<Student>, rooms: seq<Room>)

  /** The student pointed at a room: `RoomId = room.Id`, the room number left as it was. */
  function PointedAt(s: Student, room: Room): Student
  {
    s.(attrs := s.attrs.(roomId := Some(room.id)))
  }

  /** `AssignRoomAsync` (in-memory service) on the two lists. */
  function Assigned(l: Lists, studentId: int, roomId: int): (r: Result<Lists, ServiceError>)
    ensures r.Err? ==> r.error == StudentNotFound || r.error == RoomNotFound || r.error == RoomIsFull
    ensures r.Ok? ==> |r.value.students| == |l.students| && |r.value.rooms| == |l.rooms|
  {
    match Find(l.students, studentId)
    case None => Err(StudentNotFound)
    case Some(student) =>
      match Find(l.rooms, roomId)
      case None => Err(RoomNotFound)
      case Some(room) =>
        if room.attrs.currentOccupancy >= room.attrs.capacity then Err(RoomIsFull)
        else Ok(Lists(Replace(l.students, PointedAt(student, room)), Replace(l.rooms, Occupancy.Occupied(room))))
  }

  /** The guards, in order: a missing student, then a missing room, then a room without a free bed. */
  lemma AssignedGuards(l: Lists, studentId: int, roomId: int)
    ensures Find(l.students, studentId).None? ==> Assigned(l, studentId, roomId) == Err(StudentNotFound)
    ensures Find(l.students, studentId).Some? && Find(l.rooms, roomId).None? ==>
              Assigned(l, studentId, roomId) == Err(RoomNotFound)
    ensures Find(l.students, studentId).Some? && Find(l.rooms, roomId).Some? ==>
              (Assigned(l, studentId, roomId) == Err(RoomIsFull) <==> IsFull(Find(l.rooms, roomId).value.attrs))
    ensures Assigned(l, studentId, roomId).Ok? <==>
              Find(l.students, studentId).Some? && RoomServices.HasCapacity(l.rooms, roomId)
  {
  }

  /**
   * A successful assignment adds one occupant to the target room and changes no other room
   * (the room the student held keeps its count); the student now points at the room, with
   * the room number and every other field as they were, and no other student changes.
   */
  lemma AssignedEffect(l: Lists, studentId: int, roomId: int)
    requires Assigned(l, studentId, roomId).Ok?
    ensures var l' := Assigned(l, studentId, roomId).value;
            var j := FirstIndex(l.students, studentId).value;
            var k := FirstIndex(l.rooms, roomId).value;
            && |l'.rooms| == |l.rooms| && |l'.students| == |l.students|
            && l'.rooms[k].attrs == l.rooms[k].attrs.(currentOccupancy := l.rooms[k].attrs.currentOccupancy + 1)
            && l'.rooms[k].id == roomId
            && (forall i :: 0 <= i < |l.rooms| && i != k ==> l'.rooms[i] == l.rooms[i])
            && l'.students[j].attrs == l.students[j].attrs.(roomId := Some(roomId))
            && l'.students[j].attrs.roomNumber == l.students[j].attrs.roomNumber
            && (forall i :: 0 <= i < |l.students| && i != j ==> l'.students[i] == l.students[i])
  {
  }

  /** Every room's occupancy stays within 0 and its capacity: nothing is decremented, and the guard stops at the capacity. */
  lemma AssignedKeepsBounds(l: Lists, studentId: int, roomId: int)
    requires Occupancy.Bounded(l.rooms)
    ensures Assigned(l, studentId, roomId).Ok? ==> Occupancy.Bounded(Assigned(l, studentId, roomId).value.rooms)
  {
    if Assigned(l, studentId, roomId).Ok? {
      var rooms' := Assigned(l, studentId, roomId).value.rooms;
      var k := FirstIndex(l.rooms, roomId).value;
      forall i | 0 <= i < |rooms'| ensures 0 <= rooms'[i].attrs.currentOccupancy <= rooms'[i].attrs.capacity {
        if i != k {
          assert rooms'[i] == l.rooms[i];
        }
      }
    }
  }

  /**
   * Assigning the same student to the same room twice counts them twice: the room gains two
   * occupants while one student points at it. The JSON-backed service releases the held room
   * first and so gains nothing (`Occupancy.ReassignToOwnRoomKeepsRooms`).
   */
  lemma AssignedTwiceCountsTwice(l: Lists, studentId: int, roomId: int)
    requires Assigned(l, studentId, roomId).Ok?
    requires Assigned(Assigned(l, studentId, roomId).value, studentId, roomId).Ok?
    ensures var l2 := Assigned(Assigned(l, studentId, roomId).value, studentId, roomId).value;
            var k := FirstIndex(l.rooms, roomId).value;
            && FirstIndex(l2.rooms, roomId) == Some(k)
            && l2.rooms[k].attrs.currentOccupancy == l.rooms[k].attrs.currentOccupancy + 2
            && FirstIndex(l2.students, studentId) == FirstIndex(l.students, studentId)
            && l2.students[FirstIndex(l.students, studentId).value].attrs.roomId == Some(roomId)
  {
    var l1 := Assigned(l, studentId, roomId).value;
    AssignedEffect(l, studentId, roomId);
    ReplaceEffect(l.rooms, Occupancy.Occupied(Find(l.rooms, roomId).value));
    ReplaceEffect(l.students, PointedAt(Find(l.students, studentId).value, Find(l.rooms, roomId).value));
    AssignedEffect(l1, studentId, roomId);
    var l2 := Assigned(l1, studentId, roomId).value;
    ReplaceEffect(l1.rooms, Occupancy.Occupied(Find(l1.rooms, roomId).value));
    ReplaceEffect(l1.students, PointedAt(Find(l1.students, studentId).value, Find(l1.rooms, roomId).value));
  }

  // ─────────────────────── the services ───────────────────────

  /** `InMemory.StudentService`. */
  class StudentService {
    const students: InMemoryRepository<StudentAttrs>
    const rooms: InMemoryRepository<RoomAttrs>

    constructor (students: InMemoryRepository<StudentAttrs>, rooms: InMemoryRepository<RoomAttrs>)
      ensures this.students == students && this.rooms == rooms
    {
      this.students := students;
      this.rooms := rooms;
    }

    /** `RegisterStudentAsync`: joined now and active, as in the JSON-backed service. */
    method RegisterStudent(student: Student, now: int) returns (stored: Student)
      modifies students
      ensures stored.attrs == student.attrs.(joinDate := now, isActive := true)
      ensures students.Snapshot() == WithAdded(old(students.Snapshot()), StudentServices.Registered(student, now))
    {
      stored := students.Add(StudentServices.Registered(student, now));
      students.SaveChanges();
    }

    /** `AssignRoomAsync`. */
    method AssignRoom(studentId: int, roomId: int) returns (outcome: Outcome<ServiceError>)
      modifies students, rooms
      ensures var r := Assigned(old(Lists(students.items, rooms.items)), studentId, roomId);
              && outcome == (if r.Ok? then Pass else Fail(r.error))
              && Lists(students.items, rooms.items) == (if r.Ok? then r.value else old(Lists(students.items, rooms.items)))
      ensures students.nextId == old(students.nextId) && rooms.nextId == old(rooms.nextId)
    {
      var student := students.GetById(studentId);
      if student.None? {
        return Fail(StudentNotFound);
      }
      var room := rooms.GetById(roomId);
      if room.None? {
        return Fail(RoomNotFound);
      }
      if room.value.attrs.currentOccupancy >= room.value.attrs.capacity {
        return Fail(RoomIsFull);
      }
      // the fetched records are the stored ones: changing them changes the lists
      var k := FirstIndex(rooms.items, roomId).value;
      rooms.items := rooms.items[k := Occupancy.Occupied(room.value)];
      var j := FirstIndex(students.items, studentId).value;
      students.items := students.items[j := PointedAt(student.value, room.value)];
      rooms.SaveChanges();
      students.SaveChanges();
      return Pass;
    }

    /** `GetActiveStudentsAsync`. */
    method GetActiveStudents() returns (r: seq<Student>)
      ensures r == StudentServices.ActiveStudents(students.items)
    {
      var all := students.GetAll();
      r := StudentServices.ActiveStudents(all);
    }
  }

  /** `InMemory.RoomService`. */
  class RoomService {
    const rooms: InMemoryRepository<RoomAttrs>

    constructor (rooms: InMemoryRepository<RoomAttrs>)
      ensures this.rooms == rooms
    {
      this.rooms := rooms;
    }

    /** `CreateRoomAsync`: the room is stored as given, its occupancy included. */
    method CreateRoom(room: Room) returns (stored: Room)
      modifies rooms
      ensures stored.attrs == room.attrs
      ensures rooms.Snapshot() == WithAdded(old(rooms.Snapshot()), room)
    {
      stored := rooms.Add(room);
      rooms.SaveChanges();
    }

    /** `GetAllRoomsAsync`. */
    method GetAllRooms() returns (r: seq<Room>)
      ensures r == rooms.items
    {
      r := rooms.GetAll();
    }

    /** `HasCapacityAsync`: the room exists and its occupancy is below its capacity. */
    method HasCapacity(roomId: int) returns (b: bool)
      ensures b == RoomServices.HasCapacity(rooms.items, roomId)
    {
      var room := rooms.GetById(roomId);
      b := room.Some? && room.value.attrs.currentOccupancy < room.value.attrs.capacity;
    }
  }

  /** `InMemory.PaymentService`. */
  class PaymentService {
    const payments: InMemoryRepository<PaymentAttrs>

    constructor (payments: InMemoryRepository<PaymentAttrs>)
      ensures this.payments == payments
    {
      this.payments := payments;
    }

    /** `RecordPaymentAsync`: only the payment date is set; the receipt number is kept as sent. */
    method RecordPayment(payment: Payment, now: int) returns (stored: Payment)
      modifies payments
      ensures stored.attrs == payment.attrs.(paymentDate := now)
      ensures stored.attrs.receiptNumber == payment.attrs.receiptNumber
      ensures payments.Snapshot() == WithAdded(old(payments.Snapshot()), payment.(attrs := payment.attrs.(paymentDate := now)))
    {
      stored := payments.Add(payment.(attrs := payment.attrs.(paymentDate := now)));
      payments.SaveChanges();
    }

    /** `GetPaymentsForStudentAsync`. */
    method GetPaymentsForStudent(studentId: int) returns (r: seq<Payment>)
      ensures r == PaymentServices.PaymentsForStudent(payments.items, studentId)
    {
      var all := payments.GetAll();
      r := PaymentServices.PaymentsForStudent(all, studentId);
    }
  }

  /** `InMemory.ComplaintService`. */
  class ComplaintService {
    const complaints: InMemoryRepository<ComplaintAttrs>

    constructor (complaints: InMemoryRepository<ComplaintAttrs>)
      ensures this.complaints == complaints
    {
      this.complaints := complaints;
    }

    /** `CreateComplaintAsync`: created now and Open, as in the JSON-backed service. */
    method CreateComplaint(complaint: Complaint, now: int) returns (stored: Complaint)
      modifies complaints
      ensures stored.attrs == complaint.attrs.(createdAt := now, status := ComplaintStatus.Open)
      ensures complaints.Snapshot() == WithAdded(old(complaints.Snapshot()), ComplaintServices.Lodged(complaint, now))
    {
      stored := complaints.Add(ComplaintServices.Lodged(complaint, now));
      complaints.SaveChanges();
    }

    /** `GetOpenComplaintsAsync`. */
    method GetOpenComplaints() returns (r: seq<Complaint>)
      ensures r == ComplaintServices.OpenComplaints(complaints.items)
    {
      var all := complaints.GetAll();
      r := ComplaintServices.OpenComplaints(all);
    }
  }
}
