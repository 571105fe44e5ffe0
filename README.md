# Hostel management core in Dafny

This project models the domain layer of a hostel management system (`Hostel.Core`). It covers:

- students, who register, are assigned to rooms, swap rooms and leave;
- rooms, whose occupancy goes up and down with those assignments;
- payments, which carry receipt numbers and are summed into revenue;
- complaints, which move between statuses and are assigned to staff;
- visitors, who check in with a gate pass and check out again;
- notices on a notice board, ordered by urgency and then by date;
- the password-strength rule for administrators.

Everything sits on a generic keyed store. It appears in two forms:

- the JSON-file repository, whose id counter starts above the largest id it loaded;
- the in-memory repository, which starts empty with counter 1. It has no `Update` operation, although the repository interface declares `void Update(T)` (`Hostel.Core/Interfaces.cs:11`), so `InMemory.cs` as written does not compile (error CS0535). The model keeps its other operations.

Each service is a Dafny `class` over its repositories. Its methods change the repositories' `items` and `nextId` fields. Every method is specified against a pure function of the old state, such as `Occupancy.AssignRoom` or `ComplaintServices.UpdateStatus`. These functions return `Err` with the exception the C# code would throw, or `Ok` with the new lists. The properties of each operation are lemmas about its function:

- which guard fails first;
- what exactly changes, and what does not;
- how counts and totals move;
- that every room's occupancy stays within 0 and its capacity.

The main modelling choices are these:

- **Records.** A record is `Entity(id, attrs)`. A C# entity object that a service fetches, mutates and writes back with `Update` becomes a new record value. That value replaces the first stored record with the same id, which is exactly what `List.FindIndex` followed by indexed assignment does.
- **Re-reading a room on reassignment.** When a student is reassigned to the room they already hold, the JSON-backed `AssignRoomAsync` decrements and then increments the same object. The model therefore re-reads the target room after releasing the old one (`Occupancy.Reseat`).
- **Clock, file stamp and amounts.** Times are integers, and the current time `now` is a parameter. The `yyyyMMdd` stamp used in receipt and gate-pass numbers is a string parameter (`stamp`). Money amounts are exact integers in the smallest currency unit.
- **Counters.** The static receipt counter (starting at 1000) and the static gate-pass counter (starting at 5000) are fields of their service objects. They are pre-incremented, so the first receipt carries 1001 and the first pass carries 5001.

Two behaviours of the code are worth noting:

- `UpdateComplaintStatusAsync` (`Hostel.Core/Services.cs`) leaves `ResolvedAt` unchanged for non-terminal statuses. It does not clear it.
- The in-memory `AssignRoomAsync` (`Hostel.Core/InMemory.cs`) neither releases the student's old room nor sets the room number.

## Model

| member | source | states |
|---|---|---|
| Store.FirstIndex | Hostel.Core/Services.cs:53-58 | the position found holds the id and no earlier record does; `None` exactly when no record has the id |
| Store.Find | Hostel.Core/Services.cs:53-58 | a found record is stored and carries the id; `null` exactly when no stored record has the id |
| Store.Replace | Hostel.Core/Services.cs:76-83 | the length is kept; with a record of that id the new record is stored, and without one the list is unchanged |
| Store.RemoveFirst | Hostel.Core/Services.cs:85-91 | one record fewer when the id is found, the list unchanged otherwise, and never a record that was not stored |
| Store.WithAdded | Hostel.Core/Services.cs:65-74 | the record is appended after the old list with its fields kept; id 0 takes the counter, which rises by one; any other id is kept and the counter stays |
| Store.ReplaceEffect | Hostel.Core/Services.cs:76-83 | Update changes only the first record with the id, keeps every id and lookup position, makes the new record what a lookup finds, and is a no-op for an unknown id |
| Store.RemoveFirstEffect | Hostel.Core/Services.cs:85-91 | Delete removes exactly the first match (as a multiset: the old list minus the deleted record); unknown id: no change |
| Store.RemoveFirstKeepsOrder | Hostel.Core/Services.cs:85-91 | Delete keeps the records before the first match in place and shifts the later ones down by one, so store order is kept |
| Store.RemoveFirstDropsId | Hostel.Core/Services.cs:85-91 | With unique ids, the deleted id is no longer found after Delete |
| Store.MaxId | Hostel.Core/Services.cs:45-51 | the result bounds every stored id and is one of them |
| Store.InitialNextId | Hostel.Core/Services.cs:45-51 | the counter seeded after a load is above every loaded id, is the least such number (largest id + 1) for a non-empty list, and is 1 for an empty one |
| Store.AddKeepsIdsUnique | Hostel.Core/Services.cs:65-74 | adding an id-0 record to a store with unique ids below the counter keeps both facts, and the new id finds exactly the new record |
| Store.StampsInCallOrder | Hostel.Core/InMemory.cs:9-32 | on a fresh in-memory store, id-0 records get the ids 1, 2, 3, … in call order and the counter ends at n + 1 |
| Store.StampedIdCanCollide | Hostel.Core/InMemory.cs:23-32 | a caller-supplied id does not move the counter, so a later id-0 record can receive the same id |
| Store.JsonFileRepository.constructor | Hostel.Core/Services.cs:19-25 | after a load the list is the loaded list and the counter is `CalculateNextId` of it |
| Store.JsonFileRepository.GetAll | Hostel.Core/Services.cs:60-63 | returns the list in store order |
| Store.JsonFileRepository.GetById | Hostel.Core/Services.cs:53-58 | a found record is stored and carries the id; `null` exactly when no stored record has it |
| Store.JsonFileRepository.Add | Hostel.Core/Services.cs:65-74 | an id-0 record receives the counter, which then rises by one; any other id is kept and the counter stays; the record is appended |
| Store.JsonFileRepository.Update | Hostel.Core/Services.cs:76-83 | the list becomes `Replace` of the old list; the counter is unchanged |
| Store.JsonFileRepository.Delete | Hostel.Core/Services.cs:85-91 | the list becomes `RemoveFirst` of the old list; the counter is unchanged |
| Store.InMemoryRepository.constructor | Hostel.Core/InMemory.cs:8-9 | starts with an empty list and counter 1 |
| Store.InMemoryRepository.GetAll | Hostel.Core/InMemory.cs:18-21 | returns the list in store order |
| Store.InMemoryRepository.GetById | Hostel.Core/InMemory.cs:11-16 | a found record is stored and carries the id; `null` exactly when no stored record has it |
| Store.InMemoryRepository.Add | Hostel.Core/InMemory.cs:23-32 | the same stamping and append as the JSON repository |
| Store.InMemoryRepository.Delete | Hostel.Core/InMemory.cs:34-43 | removes the first match only; an unknown id changes nothing |
| Store.InMemoryRepository.SaveChanges | Hostel.Core/InMemory.cs:45-49 | nothing is persisted and the store is unchanged |
| Entities.StatusOrdinals | Hostel.Core/Entities.cs:202-287 | complaint, payment and visitor statuses occupy exactly the ordinals 1..4, 1..5 and 1..2, and decoding an ordinal inverts it |
| Entities.NoticePriorityOrder | Hostel.Core/Entities.cs:275-281 | Low < Medium < High < Urgent by ordinal 1..4, and decoding inverts the ordinal |
| Entities.FullRoomCases | Hostel.Core/Entities.cs:38 | a zero-capacity room is full, an over-filled room is full, within bounds full means occupancy == capacity, and a non-full room has a free bed |
| Entities.IsFull | Hostel.Core/Entities.cs:38 | a room that is not full has room for one more occupant, and a room without capacity is full |
| Entities.TotalMonthlyParts | Hostel.Core/Entities.cs:80 | each monthly charge enters the monthly total once and the security deposit never does |
| Entities.TotalMonthly | Hostel.Core/Entities.cs:80 | with non-negative charges, the monthly total is at least each of the four monthly charges |
| Entities.FullName | Hostel.Core/Entities.cs:22 | the full name is the first name, one space and the last name, each recoverable |
| Entities.Defaults | Hostel.Core/Entities.cs:4-190 | new records start active, a new student has no room, a new room is empty, staff start on the "Day" shift, notices are posted by "Admin" with no expiry, admins have role "Admin" |
| Seqs.Filter | Hostel.Core/Services.cs:238-242 | `Where`: every element kept comes from the input and satisfies the predicate, every input element satisfying it is kept, and the result is no longer than the input |
| Seqs.FilterAppend | Hostel.Core/Services.cs:238-242 | filtering distributes over concatenation, so the result keeps store order |
| Seqs.FilterKeepsAll | Hostel.Core/Services.cs:272-276 | the filter keeps every element exactly when all satisfy the predicate, and is then the input itself |
| Seqs.CountAppend | Hostel.Core/Services.cs:542-546 | `Count` distributes over concatenation |
| Seqs.CountUpdate | Hostel.Core/Services.cs:542-546 | changing one element moves the count by what the old and the new element contribute |
| Text.LowerChar | Hostel.Core/Services.cs:249 | lower-casing leaves no upper-case letter, maps letters to letters and keeps everything else |
| Text.Lower | Hostel.Core/Services.cs:249 | `ToLower` is character-wise and length-preserving |
| Text.LowerIdempotent | Hostel.Core/Services.cs:249-256 | lower-casing twice is lower-casing once, and a string without upper-case letters is its own lower case |
| Text.Contains | Hostel.Core/Services.cs:251-256 | `Contains` is true exactly when the query occurs at some position |
| Text.ContainsShift | Hostel.Core/Services.cs:251-256 | an occurrence in the tail of a string is an occurrence in the string, one position later |
| Text.ContainsTrivial | Hostel.Core/Services.cs:251-256 | the empty query occurs in every string, and every string contains itself |
| Text.Utf16Length | Hostel.Core/Services.cs:895 | `string.Length` in UTF-16 code units: between one and two units per character, and one per character when none lies above U+FFFF |
| Text.Utf16LengthAppend | Hostel.Core/Services.cs:895 | the UTF-16 length of a concatenation is the sum of the lengths |
| Text.DecimalString | Hostel.Core/Services.cs:363 | the decimal rendering of a counter is non-empty, all digits, without a leading zero |
| Text.DecimalRoundTrip | Hostel.Core/Services.cs:363 | reading the decimal rendering back gives the number |
| Text.SerialNumberInjective | Hostel.Core/Services.cs:363 | two `PREFIX-stamp-counter` numbers with equal-length stamps are equal only if the stamps and the counters are |
| Occupancy.Release | Hostel.Core/Services.cs:209-215 | releasing a room keeps the number of rooms and every room id |
| Occupancy.ReleaseEffect | Hostel.Core/Services.cs:209-215 | only the first room with the id loses one occupant (floored at 0); a missing room is skipped; capacity bounds and lookups are kept |
| Occupancy.Reseat | Hostel.Core/Services.cs:169-182 | after releasing the held room and re-reading the target, the rooms keep their count and ids |
| Occupancy.ReseatEffect | Hostel.Core/Services.cs:169-182 | position by position: the target gains one (after losing one when it was the held room), a different held room loses one, the rest are unchanged |
| Occupancy.ReseatTarget | Hostel.Core/Services.cs:169-182 | the target room gains one occupant, after first losing one when it is the room already held |
| Occupancy.ReseatReleasesHeld | Hostel.Core/Services.cs:169-178 | a different room the student held loses one occupant, floored at 0 |
| Occupancy.ReseatKeepsOthers | Hostel.Core/Services.cs:169-182 | every room that is neither the target nor the held room is unchanged |
| Occupancy.ReseatKeepsBounds | Hostel.Core/Services.cs:166-182 | with a free bed in the target, every room stays within 0 and its capacity |
| Occupancy.AssignRoomGuards | Hostel.Core/Services.cs:161-167 | the failures, in order: student not found, room not found, room full (with number, occupancy and capacity); otherwise it succeeds |
| Occupancy.AssignRoom | Hostel.Core/Services.cs:159-201 | fails only with student not found, room not found or room full; on success the student and room counts and the id counters are kept and exactly one booking is added |
| Occupancy.AssignRoomKeepsBounds | Hostel.Core/Services.cs:159-201 | an assignment keeps every room within 0 and its capacity |
| Occupancy.AssignRoomRooms | Hostel.Core/Services.cs:169-182 | the room count is kept, and the target gains one occupant, after first losing one when it is the room already held |
| Occupancy.AssignRoomReleasesHeld | Hostel.Core/Services.cs:169-178 | a room the student held, other than the target, loses one occupant |
| Occupancy.AssignRoomKeepsOtherRooms | Hostel.Core/Services.cs:169-182 | every room that is neither the target nor the held room is unchanged |
| Occupancy.AssignRoomStudent | Hostel.Core/Services.cs:180-182 | the student gets the room's id and number, nothing else about them changes, and no other student changes |
| Occupancy.AssignRoomBooking | Hostel.Core/Services.cs:185-198 | exactly one current booking is appended, naming the student, their full name, the room, its number and the start time |
| Occupancy.ReassignToOwnFullRoomFails | Hostel.Core/Services.cs:166-167 | reassigning a student to their own room fails when that room is full, since the guard runs before the release |
| Occupancy.ReassignToOwnRoomKeepsRooms | Hostel.Core/Services.cs:169-182 | reassigning a student to their own non-full room leaves the room's occupancy as it was |
| Occupancy.UnassignRoomGuards | Hostel.Core/Services.cs:205-207 | the failures, in order: student not found, then no room assigned; otherwise it succeeds |
| Occupancy.UnassignRoom | Hostel.Core/Services.cs:203-221 | fails only with student not found or no room assigned; on success the student and room counts, the bookings and the id counters are kept |
| Occupancy.UnassignRoomEffect | Hostel.Core/Services.cs:203-221 | clears the room id and number and nothing else, releases the held room, leaves other students and bookings alone, and keeps the bounds |
| Occupancy.AssignThenUnassignRestores | Hostel.Core/Services.cs:159-221 | for a student without a room, assigning to a room with a free bed and then unassigning restores every room and student |
| Occupancy.Deactivate | Hostel.Core/Services.cs:137-157 | fails exactly when the student is missing; on success the student and room counts, the bookings and the id counters are kept |
| Occupancy.DeactivateEffect | Hostel.Core/Services.cs:137-157 | fails only for a missing student; otherwise the student is inactive with a leave date, any held room is released and the reference cleared, and the bounds are kept |
| Occupancy.DeactivateTwiceReleasesOnce | Hostel.Core/Services.cs:137-157 | deactivating a student a second time releases no further room |
| Occupancy.SwapRoomsGuards | Hostel.Core/Services.cs:225-228 | the failures, in order: student 1 not found, then student 2 not found |
| Occupancy.SwapRooms | Hostel.Core/Services.cs:223-236 | fails only with student 1 or student 2 not found; on success the student count and counter are kept and rooms and bookings are untouched |
| Occupancy.SwapRoomsEffect | Hostel.Core/Services.cs:223-236 | two distinct students exchange room ids and numbers; rooms, bookings and every other student are unchanged |
| Occupancy.SwapWithSelfIsNoop | Hostel.Core/Services.cs:223-236 | swapping a student with themselves changes nothing |
| Occupancy.RunKeepsBounds | Hostel.Core/Services.cs:137-236 | any sequence of assign, unassign, deactivate and swap calls keeps every room within 0 and its capacity |
| StudentServices.ActiveStudents | Hostel.Core/Services.cs:238-242 | exactly the active students, in store order |
| StudentServices.ActiveCount | Hostel.Core/Services.cs:272-276 | the number of active students, the length of the `GetActiveStudentsAsync` list; zero exactly when none is active, and the whole registry exactly when all are |
| StudentServices.StudentsInRoom | Hostel.Core/Services.cs:260-264 | exactly the active students whose room id is the room |
| StudentServices.StudentsWithoutRoom | Hostel.Core/Services.cs:266-270 | exactly the active students with no room id |
| StudentServices.Search | Hostel.Core/Services.cs:246-258 | exactly the students one of whose six fields contains the lower-cased query: five of them lower-cased, the phone as stored |
| StudentServices.SearchEmptyQueryReturnsAll | Hostel.Core/Services.cs:246-258 | the empty query matches every student |
| StudentServices.SearchIgnoresQueryCase | Hostel.Core/Services.cs:246-258 | a query and its lower-case form give the same result |
| StudentServices.Registered | Hostel.Core/Services.cs:120-127 | the registered student keeps their id and fields, is active and joined now |
| StudentServices.RegisteredIsActive | Hostel.Core/Services.cs:120-127 | registering a student adds one to the active count |
| StudentServices.DeactivateLowersActiveCount | Hostel.Core/Services.cs:137-157 | a successful deactivation lowers the active count by one exactly when the student was active, and leaves it alone otherwise |
| StudentServices.StudentService.Register | Hostel.Core/Services.cs:120-127 | the student is stored joined now and active, with the id the store gives |
| StudentServices.StudentService.Update | Hostel.Core/Services.cs:131-135 | the first student with the id is replaced |
| StudentServices.StudentService.Deactivate | Hostel.Core/Services.cs:137-157 | the stores become what `Occupancy.Deactivate` gives, and the outcome is its error or success |
| StudentServices.StudentService.AssignRoom | Hostel.Core/Services.cs:159-201 | the stores become what `Occupancy.AssignRoom` gives, and the outcome is its error or success |
| StudentServices.StudentService.UnassignRoom | Hostel.Core/Services.cs:203-221 | the stores become what `Occupancy.UnassignRoom` gives, and the outcome is its error or success |
| StudentServices.StudentService.SwapRooms | Hostel.Core/Services.cs:223-236 | the stores become what `Occupancy.SwapRooms` gives, and the outcome is its error or success |
| StudentServices.StudentService.GetActiveStudents | Hostel.Core/Services.cs:238-242 | returns `ActiveStudents` of the store |
| StudentServices.StudentService.GetStudentsByRoom | Hostel.Core/Services.cs:260-264 | returns `StudentsInRoom` of the store |
| StudentServices.StudentService.GetStudentsWithoutRoom | Hostel.Core/Services.cs:266-270 | returns `StudentsWithoutRoom` of the store |
| StudentServices.StudentService.GetActiveCount | Hostel.Core/Services.cs:272-276 | returns `ActiveCount` of the store |
| StudentServices.StudentService.SearchStudents | Hostel.Core/Services.cs:246-258 | returns `Search` of the store |
| RoomServices.TryDeleteEffect | Hostel.Core/Services.cs:306-314 | deleting fails for a missing room or one with occupants, and never removes an occupied room; otherwise exactly that room leaves the list, and with unique ids it is gone |
| RoomServices.TryDelete | Hostel.Core/Services.cs:306-314 | fails only with room not found or room occupied; on success the list is one shorter and holds only stored rooms |
| RoomServices.Created | Hostel.Core/Services.cs:289-296 | a created room keeps its id and fields, is active and empty, and is not full when it has capacity |
| RoomServices.AvailableRooms | Hostel.Core/Services.cs:318-322 | exactly the active rooms that are not full |
| RoomServices.FullRooms | Hostel.Core/Services.cs:324-328 | exactly the full rooms, active or not |
| RoomServices.AvailableOrFull | Hostel.Core/Services.cs:318-328 | every active room is available or full, and never both |
| RoomServices.HasCapacity | Hostel.Core/Services.cs:330-334 | true exactly when the room exists and is not full |
| RoomServices.HasCapacityAdmits | Hostel.Core/Services.cs:330-334 | for a registered student, capacity holds exactly when `AssignRoom` succeeds |
| RoomServices.TotalCapacity | Hostel.Core/Services.cs:336-340 | non-negative when every capacity is, and 0 when no room is active |
| RoomServices.TotalOccupancy | Hostel.Core/Services.cs:342-346 | non-negative when every occupancy is, and 0 when no room is active |
| RoomServices.TotalsBounded | Hostel.Core/Services.cs:336-346 | with every room within its bounds, 0 <= total occupancy <= total capacity |
| RoomServices.TotalOccupancyUpdate | Hostel.Core/Services.cs:342-346 | changing one room's occupancy moves the active total by the difference, when that room is active |
| RoomServices.TotalCapacityUpdate | Hostel.Core/Services.cs:336-340 | changing one room but not its capacity or active flag leaves the total capacity unchanged |
| RoomServices.AssignAddsOneOccupant | Hostel.Core/Services.cs:159-201 | assigning a student without a room to an active room with a free bed succeeds, raises the total occupancy by one and keeps the total capacity |
| RoomServices.UnassignRemovesOneOccupant | Hostel.Core/Services.cs:203-221 | unassigning a student whose active room exists and has occupants succeeds and lowers the total occupancy by one |
| RoomServices.RoomService.CreateRoom | Hostel.Core/Services.cs:289-296 | the room is stored active and empty, with the id the store gives |
| RoomServices.RoomService.UpdateRoom | Hostel.Core/Services.cs:300-304 | the first room with the id is replaced |
| RoomServices.RoomService.DeleteRoom | Hostel.Core/Services.cs:306-314 | the rooms become what `TryDelete` gives, and the outcome is its error or success |
| RoomServices.RoomService.GetAvailableRooms | Hostel.Core/Services.cs:318-322 | returns `AvailableRooms` of the store |
| RoomServices.RoomService.GetFullRooms | Hostel.Core/Services.cs:324-328 | returns `FullRooms` of the store |
| RoomServices.RoomService.GetTotalCapacity | Hostel.Core/Services.cs:336-340 | returns `TotalCapacity` of the store |
| RoomServices.RoomService.GetTotalOccupancy | Hostel.Core/Services.cs:342-346 | returns `TotalOccupancy` of the store |
| PaymentServices.ReceiptNumbersDistinct | Hostel.Core/Services.cs:356-367 | receipts issued under different counter values differ, on any days |
| PaymentServices.ReceiptNumber | Hostel.Core/Services.cs:363 | the receipt is `RCP-`, the date stamp, `-`, and then digits only |
| PaymentServices.PaymentsForStudent | Hostel.Core/Services.cs:369-373 | exactly the student's payments |
| PaymentServices.PaymentsByMonth | Hostel.Core/Services.cs:377-381 | exactly the payments for that month and year |
| PaymentServices.PendingPayments | Hostel.Core/Services.cs:383-387 | exactly the pending or overdue payments, none of them paid |
| PaymentServices.PaidSum | Hostel.Core/Services.cs:389-399 | the sum of the paid amounts selected: non-negative when every amount is, and 0 when no selected payment is paid |
| PaymentServices.TotalRevenue | Hostel.Core/Services.cs:389-393 | non-negative when every amount is |
| PaymentServices.RevenueByMonth | Hostel.Core/Services.cs:395-399 | non-negative when every amount is |
| PaymentServices.RevenueOfRecorded | Hostel.Core/Services.cs:389-399 | a new payment adds its amount to the total and to its month's revenue exactly when it is paid |
| PaymentServices.MonthWithinTotal | Hostel.Core/Services.cs:389-399 | with non-negative amounts, a month's revenue lies between 0 and the total revenue |
| PaymentServices.RevenueWithoutPayment | Hostel.Core/Services.cs:389-393 | moving one paid payment to another status lowers the revenue by exactly its amount |
| PaymentServices.RevenueExample | Hostel.Core/Services.cs:389-399 | paid payments of 8000 and 5000 and a pending one, all for 3/2026: that month's revenue goes 8000, 13000, 13000, and the total is 13000 |
| PaymentServices.PendingExample | Hostel.Core/Services.cs:383-387 | of two paid payments and a pending one, only the pending one is outstanding |
| PaymentServices.PaymentService.constructor | Hostel.Core/Services.cs:356 | the receipt counter starts at 1000 |
| PaymentServices.PaymentService.RecordPayment | Hostel.Core/Services.cs:360-367 | the counter rises by one first, and the payment is stored dated now, with receipt `RCP-stamp-counter` |
| PaymentServices.RecordTwice | Hostel.Core/Services.cs:360-367 | two payments recorded in a row get consecutive counters and different receipt numbers |
| PaymentServices.PaymentService.GetPaymentsForStudent | Hostel.Core/Services.cs:369-373 | returns `PaymentsForStudent` of the store |
| PaymentServices.PaymentService.GetPaymentsByMonth | Hostel.Core/Services.cs:377-381 | returns `PaymentsByMonth` of the store |
| PaymentServices.PaymentService.GetPendingPayments | Hostel.Core/Services.cs:383-387 | returns `PendingPayments` of the store |
| PaymentServices.PaymentService.GetTotalRevenue | Hostel.Core/Services.cs:389-393 | returns `TotalRevenue` of the store |
| PaymentServices.PaymentService.GetRevenueByMonth | Hostel.Core/Services.cs:395-399 | returns `RevenueByMonth` of the store |
| ComplaintServices.StatusUpdated | Hostel.Core/Services.cs:502-507 | the new status; resolved-at stamped for Resolved or Closed and otherwise kept; notes replaced only by a non-empty text; nothing else changes |
| ComplaintServices.Lodged | Hostel.Core/Services.cs:490-497 | a new complaint keeps its id and other fields, is open, and is created now |
| ComplaintServices.UpdateStatus | Hostel.Core/Services.cs:499-510 | fails exactly when the complaint is missing, with complaint not found; on success the number of complaints is kept |
| ComplaintServices.Assign | Hostel.Core/Services.cs:512-520 | fails exactly when the complaint is missing, with complaint not found; on success the number of complaints is kept |
| ComplaintServices.OpenComplaints | Hostel.Core/Services.cs:522-526 | exactly the open or in-progress complaints |
| ComplaintServices.OpenCount | Hostel.Core/Services.cs:542-546 | the number of open or in-progress complaints: at most the number of complaints, 0 exactly when none is open, and all of them exactly when every complaint is open |
| ComplaintServices.ComplaintsByStudent | Hostel.Core/Services.cs:530-534 | exactly the student's complaints |
| ComplaintServices.ComplaintsByPriority | Hostel.Core/Services.cs:536-540 | exactly the complaints of that priority |
| ComplaintServices.UpdateStatusEffect | Hostel.Core/Services.cs:499-510 | fails only for a missing complaint; otherwise changes only that complaint, and the open count moves by what the old and the new status contribute |
| ComplaintServices.AssignEffect | Hostel.Core/Services.cs:512-520 | fails only for a missing complaint; otherwise sets the staff id and InProgress, which reopens a resolved complaint but keeps its resolved-at and staff name |
| ComplaintServices.LodgedIsOpen | Hostel.Core/Services.cs:490-497 | a new complaint is open and adds one to the open count |
| ComplaintServices.ComplaintService.CreateComplaint | Hostel.Core/Services.cs:490-497 | stored created now and Open, whatever status was sent |
| ComplaintServices.ComplaintService.UpdateComplaintStatus | Hostel.Core/Services.cs:499-510 | the complaints become what `UpdateStatus` gives, and the outcome is its error or success |
| ComplaintServices.ComplaintService.AssignComplaint | Hostel.Core/Services.cs:512-520 | the complaints become what `Assign` gives, and the outcome is its error or success |
| ComplaintServices.ComplaintService.GetOpenComplaints | Hostel.Core/Services.cs:522-526 | returns `OpenComplaints` of the store |
| ComplaintServices.ComplaintService.GetOpenCount | Hostel.Core/Services.cs:542-546 | returns `OpenCount` of the store |
| ComplaintServices.ComplaintService.GetComplaintsByStudent | Hostel.Core/Services.cs:530-534 | returns `ComplaintsByStudent` of the store |
| ComplaintServices.ComplaintService.GetComplaintsByPriority | Hostel.Core/Services.cs:536-540 | returns `ComplaintsByPriority` of the store |
| VisitorServices.ActiveVisitors | Hostel.Core/Services.cs:637-641 | exactly the checked-in visitors |
| VisitorServices.VisitorsByStudent | Hostel.Core/Services.cs:651-655 | exactly the student's visitors |
| VisitorServices.Admitted | Hostel.Core/Services.cs:617-625 | a checked-in visitor keeps their id and other fields, is inside, checked in now, with the pass given |
| VisitorServices.CheckOut | Hostel.Core/Services.cs:627-635 | fails exactly when the visitor is missing, with visitor not found; on success the number of visitors is kept |
| VisitorServices.CheckOutEffect | Hostel.Core/Services.cs:627-635 | fails only for a missing visitor; otherwise that visitor is checked out now (again, if already out), nobody else changes, and the number inside drops by one exactly when they were inside |
| VisitorServices.AdmittedIsInside | Hostel.Core/Services.cs:617-625 | a checked-in visitor is inside and adds one to those inside |
| VisitorServices.PassNumber | Hostel.Core/Services.cs:621 | the pass is `VP-`, the date stamp, `-`, and then digits only |
| VisitorServices.PassNumbersDistinct | Hostel.Core/Services.cs:613-625 | passes issued under different counter values differ |
| VisitorServices.VisitorService.constructor | Hostel.Core/Services.cs:613 | the pass counter starts at 5000 |
| VisitorServices.VisitorService.CheckInVisitor | Hostel.Core/Services.cs:617-625 | the counter rises by one first, and the visitor is stored checked in now, with pass `VP-stamp-counter` |
| VisitorServices.VisitorService.CheckOutVisitor | Hostel.Core/Services.cs:627-635 | the visitors become what `CheckOut` gives, and the outcome is its error or success |
| VisitorServices.VisitorService.GetActiveVisitors | Hostel.Core/Services.cs:637-641 | returns `ActiveVisitors` of the store |
| VisitorServices.VisitorService.GetVisitorsByStudent | Hostel.Core/Services.cs:651-655 | returns `VisitorsByStudent` of the store |
| NoticeServices.OutranksTotalPreorder | Hostel.Core/Services.cs:790-791 | the board order (priority descending, then posting time descending) compares any two notices and is transitive |
| NoticeServices.Insert | Hostel.Core/Services.cs:790-791 | insertion adds exactly the one notice |
| NoticeServices.InsertSorted | Hostel.Core/Services.cs:790-791 | inserting into a list in board order keeps it in board order |
| NoticeServices.SortNotices | Hostel.Core/Services.cs:790-791 | the result is in board order and is a permutation of the input |
| NoticeServices.ActiveNotices | Hostel.Core/Services.cs:785-793 | in board order, a permutation of the visible notices, and containing a notice exactly when it is stored, active and unexpired at `now` |
| NoticeServices.ExpiryIsStrict | Hostel.Core/Services.cs:788-789 | a notice expiring exactly now is hidden, an inactive notice is hidden, and an active notice without expiry is always shown |
| NoticeServices.UrgentFirst | Hostel.Core/Services.cs:790 | on the board every urgent notice comes before every low-priority one |
| NoticeServices.Posted | Hostel.Core/Services.cs:761-768 | a posted notice keeps its id and other fields, is active, posted now, and without expiry is visible at every time |
| NoticeServices.IsVisible | Hostel.Core/Services.cs:788-789 | a visible notice is active, and a notice whose expiry is not after `now` is hidden |
| NoticeServices.Deactivate | Hostel.Core/Services.cs:776-783 | fails exactly when the notice is missing, with notice not found; on success the number of notices is kept |
| NoticeServices.DeactivateEffect | Hostel.Core/Services.cs:776-783 | fails only for a missing notice; otherwise that notice becomes inactive and so hidden, and nothing else changes |
| NoticeServices.NoticeService.PostNotice | Hostel.Core/Services.cs:761-768 | stored posted now and active, with the id the store gives |
| NoticeServices.NoticeService.UpdateNotice | Hostel.Core/Services.cs:770-774 | the first notice with the id is replaced |
| NoticeServices.NoticeService.DeactivateNotice | Hostel.Core/Services.cs:776-783 | the notices become what `Deactivate` gives, and the outcome is its error or success |
| NoticeServices.NoticeService.GetActiveNotices | Hostel.Core/Services.cs:785-793 | returns `ActiveNotices` of the store at `now` |
| AdminServices.AnyChar | Hostel.Core/Services.cs:897-898 | `Any` is true exactly when some character satisfies the predicate |
| AdminServices.ValidatePasswordStrength | Hostel.Core/Services.cs:893-900 | strong exactly when `Length`, counted in UTF-16 code units, is at least 6 and there is an upper-case letter and a digit |
| AdminServices.SupplementaryCharsCountTwice | Hostel.Core/Services.cs:895 | a character above U+FFFF counts as two code units, so "A1" followed by two emoji has length 6 and passes |
| AdminServices.ExtendingKeepsStrong | Hostel.Core/Services.cs:893-900 | appending characters to a strong password keeps it strong |
| AdminServices.StrongExample | Hostel.Core/Services.cs:893-900 | "Hostel1" is strong |
| AdminServices.NoUpperExample | Hostel.Core/Services.cs:897 | "hostel1" is weak: no upper-case letter |
| AdminServices.NoDigitExample | Hostel.Core/Services.cs:898 | "Hostels" is weak: no digit |
| InMemoryServices.AssignedGuards | Hostel.Core/InMemory.cs:74-80 | the failures, in order: student not found, room not found, room full; success exactly when the student exists and the room has capacity |
| InMemoryServices.AssignedEffect | Hostel.Core/InMemory.cs:72-86 | only the target room gains one occupant, and the held room keeps its count; the student gets the room id with the room number unchanged; no one else changes |
| InMemoryServices.AssignedKeepsBounds | Hostel.Core/InMemory.cs:77-82 | an assignment keeps every room within 0 and its capacity |
| InMemoryServices.Assigned | Hostel.Core/InMemory.cs:72-86 | fails only with student not found, room not found or room full; on success the list lengths are kept |
| InMemoryServices.AssignedTwiceCountsTwice | Hostel.Core/InMemory.cs:72-86 | assigning the same student to the same room twice raises its occupancy by two while one student points at it |
| InMemoryServices.StudentService.RegisterStudent | Hostel.Core/InMemory.cs:63-70 | stored joined now and active, with the id the store gives |
| InMemoryServices.StudentService.AssignRoom | Hostel.Core/InMemory.cs:72-86 | the lists become what `Assigned` gives, the outcome is its error or success, and the counters are unchanged |
| InMemoryServices.StudentService.GetActiveStudents | Hostel.Core/InMemory.cs:88-92 | returns the active students, as in the JSON-backed service |
| InMemoryServices.RoomService.CreateRoom | Hostel.Core/InMemory.cs:104-109 | the room is stored as given, occupancy included |
| InMemoryServices.RoomService.GetAllRooms | Hostel.Core/InMemory.cs:111 | returns the rooms in store order |
| InMemoryServices.RoomService.HasCapacity | Hostel.Core/InMemory.cs:113-117 | true exactly when the room exists and occupancy < capacity, as `RoomServices.HasCapacity` |
| InMemoryServices.PaymentService.RecordPayment | Hostel.Core/InMemory.cs:129-135 | only the payment date is set; the receipt number is kept as sent |
| InMemoryServices.PaymentService.GetPaymentsForStudent | Hostel.Core/InMemory.cs:137-141 | returns the student's payments |
| InMemoryServices.ComplaintService.CreateComplaint | Hostel.Core/InMemory.cs:153-160 | stored created now and Open |
| InMemoryServices.ComplaintService.GetOpenComplaints | Hostel.Core/InMemory.cs:162-166 | returns the open or in-progress complaints |

## Left out

- Reading and writing the JSON files (`LoadFromFile`, `SaveToFile`, `SaveChangesAsync`) is not modelled. The repository constructor receives the loaded list, saving changes nothing, and a malformed file (which the source reads as an empty list) is just another loaded list.
- `CalculateNextId` for a record type without an `Id` property is not modelled, because every entity here has one.
- Password hashing, `AuthenticateAsync`, `ChangePasswordAsync`, `CreateAdminAsync` and `AdminExistsAsync` are not modelled. They rest on PBKDF2 and random salts.
- The clock is not modelled: `DateTime.Now` and `DateTime.UtcNow` become the parameter `now`, and the `yyyyMMdd` date stamp becomes the parameter `stamp`.
- `GenerateReceiptAsync` is not modelled; it only formats text. `GetDefaultersAsync` and `GetVisitorsByDateAsync` are not modelled either; they depend on calendar dates.
- The staff, fee-structure, attendance, mess-menu and audit services, the data seeder, the console and web front ends, the EF Core context and the DTOs are not part of this model.
- Asynchrony and concurrency are not modelled: each `async` operation is one atomic step.
- PaymentServices.PaymentService.RecordPayment: the receipt counter is a field of each service object rather than one static counter shared by all instances, so two service objects do not share numbers here.
- VisitorServices.VisitorService.CheckInVisitor: the same applies to the gate-pass counter.
- PaymentServices.PaymentService.RecordPayment: the counter is an unbounded `nat`, so the 32-bit wrap-around of `int` after 2^31 - 1 receipts is not modelled. C# arithmetic is unchecked by default, so `++_receiptCounter`, `_nextId++`, the gate-pass counter and the occupancy updates would wrap; here they keep growing.
- RoomServices.TotalCapacity: LINQ `Sum` over `int` is checked, so a total beyond 2^31 - 1 throws `OverflowException`. The model returns the exact sum instead.
- RoomServices.TotalOccupancy: the same applies to the occupancy total.
- AdminServices.ValidatePasswordStrength: a `null` password, for which the source returns false, cannot be represented, because a `string` here is never null.
- Text.LowerChar: `ToLower`, `char.IsUpper` and `char.IsDigit` are modelled on ASCII letters and digits only. Culture-specific and non-ASCII letters and digits are not covered.
- AdminServices.ValidatePasswordStrength: for the same reason, only ASCII upper-case letters and ASCII digits count here.
- NoticeServices.SortNotices: the sort is an insertion sort that keeps equal notices in store order, as LINQ's stable `OrderBy` does. Only the ordering and the permutation are proved, not stability.
- NoticeServices.ActiveNotices: for the same reason, the relative order of notices tied on priority and posting time is not stated, although `OrderByDescending(...).ThenByDescending(...)` keeps them in store order.
- Money is an exact integer rather than `decimal`; sums of `decimal` are exact in the ranges the system uses.
- An entity object shared between two repositories, or modified by a caller after it was stored, is not modelled. Records are values, so every change goes through the service operations.
- Enumeration values outside the declared ones are not modelled. `Payment.Status`, `Complaint.Priority`, `Complaint.Status`, `Visitor.Status` and `Notice.Priority` have no initialiser, so a record built with `new` holds the ordinal 0, and a JSON file may hold any integer. The datatypes here hold only the declared values. This affects `NoticeServices.Outranks` and `NoticeServices.ActiveNotices` (a notice of priority 0 would sort below Low), `PaymentServices.PendingPayments` and `PaymentServices.TotalRevenue`, and `ComplaintServices.ComplaintsByPriority`.
