/** Optional values, results and outcomes shared by every module of the model. */
module Wrappers {

  /** A nullable value: C# `T?` or a reference that may be `null`. */
  datatype Option<+T> = None | Some(value: T)

  /** The value of a call that either returns or throws. */
  datatype Result<+T, +E> = Ok(value: T) | Err(error: E)

  /** The completion of a call that returns nothing or throws. */
  datatype Outcome<+E> = Pass | Fail(error: E)
}

/** The failures the services raise (`InvalidOperationException` with these messages). */
module Errors {

  datatype ServiceError =
    | StudentNotFound        // "Student not found"
    | Student1NotFound       // "Student 1 not found"
    | Student2NotFound       // "Student 2 not found"
    | RoomNotFound           // "Room not found"
    | RoomFull(roomNumber: string, occupancy: int, capacity: int)  // "Room {number} is full ({occupancy}/{capacity})"
    | RoomIsFull             // "Room is full" (the in-memory variant)
    | NoRoomAssigned         // "Student has no room assigned"
    | RoomOccupied           // "Cannot delete room with occupants"
    | ComplaintNotFound      // "Complaint not found"
    | VisitorNotFound        // "Visitor not found"
    | NoticeNotFound         // "Notice not found"
}
