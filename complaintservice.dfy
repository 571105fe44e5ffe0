/**
 * `ComplaintService`: lodging complaints, moving them through their statuses, assigning
 * them to staff, and the open-complaint queries.
 */
module ComplaintServices {
  import opened Wrappers
  import opened Errors
  import opened Entities
  import opened Store
  import opened Seqs

  type Complaint = Entity<ComplaintAttrs>

  /** The complaint as `CreateComplaintAsync` stores it: created now, status Open whatever was sent. */
  function Lodged(c: Complaint, now: int): (r: Complaint)
    ensures r.id == c.id && IsOpen(r) && r.attrs.createdAt == now
    ensures r.attrs.(createdAt := c.attrs.createdAt, status := c.attrs.status) == c.attrs
  {
    c.(attrs := c.attrs.(createdAt := now, status := ComplaintStatus.Open))
  }

  predicate IsTerminal(s: ComplaintStatus)
  {
    s == ComplaintStatus.Resolved || s == ComplaintStatus.Closed
  }

  /** Open or in progress: the complaints still to be dealt with. */
  predicate IsOpen(c: Complaint)
  {
    c.attrs.status == ComplaintStatus.Open || c.attrs.status == ComplaintStatus.InProgress
  }

  /**
   * The complaint after `UpdateComplaintStatusAsync`: the new status; the resolution time
   * stamped for Resolved and Closed and otherwise left as it was; the notes replaced only by
   * a non-empty text (`None` is C# `null`).
   */
  function StatusUpdated(c: Complaint, status: ComplaintStatus, notes: Option<string>, now: int): (r: Complaint)
    ensures r.id == c.id && r.attrs.status == status
    ensures r.attrs.resolvedAt == (if IsTerminal(status) then Some(now) else c.attrs.resolvedAt)
    ensures r.attrs.resolutionNotes == (if notes.Some? && |notes.value| > 0 then notes else c.attrs.resolutionNotes)
    ensures r.attrs.(status := c.attrs.status, resolvedAt := c.attrs.resolvedAt, resolutionNotes := c.attrs.resolutionNotes) == c.attrs
  {
    var c1 := c.(attrs := c.attrs.(status := status));
    var c2 := if IsTerminal(status) then c1.(attrs := c1.attrs.(resolvedAt := Some(now))) else c1;
    if notes.Some? && notes.value != "" then c2.(attrs := c2.attrs.(resolutionNotes := notes)) else c2
  }

  /** The complaint after `AssignComplaintAsync`: the staff id set and the status forced to InProgress (the staff name is not touched). */
  function AssignedTo(c: Complaint, staffId: int): Complaint
  {
    c.(attrs := c.attrs.(assignedStaffId := Some(staffId), status := ComplaintStatus.InProgress))
  }

  /** `UpdateComplaintStatusAsync` on the list of complaints. */
  function UpdateStatus(all: seq<Complaint>, id: int, status: ComplaintStatus, notes: Option<string>, now: int): (r: Result<seq<Complaint>, ServiceError>)
    ensures r.Err? <==> Find(all, id).None?
    ensures r.Err? ==> r.error == ComplaintNotFound
    ensures r.Ok? ==> |r.value| == |all|
  {
    match Find(all, id)
    case None => Err(ComplaintNotFound)
    case Some(c) => Ok(Replace(all, StatusUpdated(c, status, notes, now)))
  }

  /** `AssignComplaintAsync` on the list of complaints. */
  function Assign(all: seq<Complaint>, id: int, staffId: int): (r: Result<seq<Complaint>, ServiceError>)
    ensures r.Err? <==> Find(all, id).None?
    ensures r.Err? ==> r.error == ComplaintNotFound
    ensures r.Ok? ==> |r.value| == |all|
  {
    match Find(all, id)
    case None => Err(ComplaintNotFound)
    case Some(c) => Ok(Replace(all, AssignedTo(c, staffId)))
  }

  // ─────────────────────── queries ───────────────────────

  /** `GetOpenComplaintsAsync`: exactly the complaints that are open or in progress, in store order. */
  function OpenComplaints(all: seq<Complaint>): (r: seq<Complaint>)
    ensures forall i :: 0 <= i < |r| ==> r[i] in all && IsOpen(r[i])
    ensures forall i :: 0 <= i < |all| && IsOpen(all[i]) ==> all[i] in r
  {
    Filter(all, IsOpen)
  }

  /**
   * `GetOpenCountAsync`: the number of complaints `GetOpenComplaintsAsync` lists; it is zero
   * exactly when no complaint is open or in progress, and the whole list exactly when all are.
   */
  function OpenCount(all: seq<Complaint>): (n: nat)
    ensures n == |OpenComplaints(all)| && n <= |all|
    ensures n == 0 <==> forall i :: 0 <= i < |all| ==> !IsOpen(all[i])
    ensures n == |all| <==> forall i :: 0 <= i < |all| ==> IsOpen(all[i])
  {
    FilterKeepsAll(all, IsOpen);
    FilterEmpty(all, IsOpen);
    Count(all, IsOpen)
  }

  /** `GetComplaintsByStudentAsync`. */
  function ComplaintsByStudent(all: seq<Complaint>, studentId: int): (r: seq<Complaint>)
    ensures forall i :: 0 <= i < |r| ==> r[i] in all && r[i].attrs.studentId == studentId
    ensures forall i :: 0 <= i < |all| && all[i].attrs.studentId == studentId ==> all[i] in r
  {
    Filter(all, (c: Complaint) => c.attrs.studentId == studentId)
  }

  /** `GetComplaintsByPriorityAsync`. */
  function ComplaintsByPriority(all: seq<Complaint>, priority: ComplaintPriority): (r: seq<Complaint>)
    ensures forall i :: 0 <= i < |r| ==> r[i] in all && r[i].attrs.priority == priority
    ensures forall i :: 0 <= i < |all| && all[i].attrs.priority == priority ==> all[i] in r
  {
    Filter(all, (c: Complaint) => c.attrs.priority == priority)
  }

  // ─────────────────────── properties ───────────────────────

  /**
   * UpdateStatus fails only for a missing complaint. Otherwise it changes only that
   * complaint, and the open count moves by what the old and the new status contribute:
   * resolving or closing an open complaint lowers it by one.
   */
  lemma UpdateStatusEffect(all: seq<Complaint>, id: int, status: ComplaintStatus, notes: Option<string>, now: int)
    ensures UpdateStatus(all, id, status, notes, now).Err? <==> Find(all, id).None?
    ensures UpdateStatus(all, id, status, notes, now).Err? ==> UpdateStatus(all, id, status, notes, now).error == ComplaintNotFound
    ensures UpdateStatus(all, id, status, notes, now).Ok? ==>
              var all' := UpdateStatus(all, id, status, notes, now).value;
              var k := FirstIndex(all, id).value;
              && |all'| == |all|
              && all'[k] == StatusUpdated(all[k], status, notes, now)
              && (forall i :: 0 <= i < |all| && i != k ==> all'[i] == all[i])
              && OpenCount(all') == OpenCount(all) - (if IsOpen(all[k]) then 1 else 0) +
                                    (if status == ComplaintStatus.Open || status == ComplaintStatus.InProgress then 1 else 0)
  {
    if Find(all, id).Some? {
      var k := FirstIndex(all, id).value;
      CountUpdate(all, k, StatusUpdated(all[k], status, notes, now), IsOpen);
    }
  }

  /**
   * Assign fails only for a missing complaint; otherwise that complaint carries the staff id
   * and is InProgress, whatever its status was: assigning a resolved or closed complaint
   * reopens it, keeping its resolution time.
   */
  lemma AssignEffect(all: seq<Complaint>, id: int, staffId: int)
    ensures Assign(all, id, staffId).Err? <==> Find(all, id).None?
    ensures Assign(all, id, staffId).Ok? ==>
              var all' := Assign(all, id, staffId).value;
              var k := FirstIndex(all, id).value;
              && |all'| == |all|
              && all'[k].attrs.assignedStaffId == Some(staffId)
              && all'[k].attrs.status == ComplaintStatus.InProgress
              && IsOpen(all'[k])
              && all'[k].attrs.resolvedAt == all[k].attrs.resolvedAt
              && all'[k].attrs.assignedStaffName == all[k].attrs.assignedStaffName
              && (forall i :: 0 <= i < |all| && i != k ==> all'[i] == all[i])
              && OpenCount(all') == OpenCount(all) + (if IsOpen(all[k]) then 0 else 1)
  {
    if Find(all, id).Some? {
      var k := FirstIndex(all, id).value;
      CountUpdate(all, k, AssignedTo(all[k], staffId), IsOpen);
    }
  }

  /** A lodged complaint is open, and lodging one adds one to the open count. */
  lemma LodgedIsOpen(all: seq<Complaint>, c: Complaint, now: int)
    ensures IsOpen(Lodged(c, now))
    ensures OpenCount(all + [Lodged(c, now)]) == OpenCount(all) + 1
  {
    FilterAppend(all, [Lodged(c, now)], IsOpen);
    assert [Lodged(c, now)][..0] == [];
  }

  // ─────────────────────── the service ───────────────────────

  class ComplaintService {
    const complaints: JsonFileRepository<ComplaintAttrs>

    constructor (complaints: JsonFileRepository<ComplaintAttrs>)
      ensures this.complaints == complaints
    {
      this.complaints := complaints;
    }

    /** `CreateComplaintAsync`. */
    method CreateComplaint(complaint: Complaint, now: int) returns (stored: Complaint)
      modifies complaints
      ensures stored.attrs == complaint.attrs.(createdAt := now, status := ComplaintStatus.Open)
      ensures complaints.Snapshot() == WithAdded(old(complaints.Snapshot()), Lodged(complaint, now))
    {
      stored := complaints.Add(Lodged(complaint, now));
    }

    /** `UpdateComplaintStatusAsync`. */
    method UpdateComplaintStatus(id: int, status: ComplaintStatus, notes: Option<string>, now: int)
      returns (outcome: Outcome<ServiceError>)
      modifies complaints
      ensures var r := UpdateStatus(old(complaints.items), id, status, notes, now);
              && outcome == (if r.Ok? then Pass else Fail(r.error))
              && complaints.items == (if r.Ok? then r.value else old(complaints.items))
              && complaints.nextId == old(complaints.nextId)
    {
      var found := complaints.GetById(id);
      if found.None? {
        return Fail(ComplaintNotFound);
      }
      var complaint := found.value.(attrs := found.value.attrs.(status := status));
      if IsTerminal(status) {
        complaint := complaint.(attrs := complaint.attrs.(resolvedAt := Some(now)));
      }
      if notes.Some? && notes.value != "" {
        complaint := complaint.(attrs := complaint.attrs.(resolutionNotes := notes));
      }
      complaints.Update(complaint);
      return Pass;
    }

    /** `AssignComplaintAsync`. */
    method AssignComplaint(id: int, staffId: int) returns (outcome: Outcome<ServiceError>)
      modifies complaints
      ensures var r := Assign(old(complaints.items), id, staffId);
              && outcome == (if r.Ok? then Pass else Fail(r.error))
              && complaints.items == (if r.Ok? then r.value else old(complaints.items))
              && complaints.nextId == old(complaints.nextId)
    {
      var found := complaints.GetById(id);
      if found.None? {
        return Fail(ComplaintNotFound);
      }
      complaints.Update(AssignedTo(found.value, staffId));
      return Pass;
    }

    /** `GetOpenComplaintsAsync`. */
    method GetOpenComplaints() returns (r: seq<Complaint>)
      ensures r == OpenComplaints(complaints.items)
    {
      var all := complaints.GetAll();
      r := OpenComplaints(all);
    }

    /** `GetOpenCountAsync`. */
    method GetOpenCount() returns (n: nat)
      ensures n == OpenCount(complaints.items)
    {
      var all := complaints.GetAll();
      n := OpenCount(all);
    }

    /** `GetComplaintsByStudentAsync`. */
    method GetComplaintsByStudent(studentId: int) returns (r: seq<Complaint>)
      ensures r == ComplaintsByStudent(complaints.items, studentId)
    {
      var all := complaints.GetAll();
      r := ComplaintsByStudent(all, studentId);
    }

    /** `GetComplaintsByPriorityAsync`. */
    method GetComplaintsByPriority(priority: ComplaintPriority) returns (r: seq<Complaint>)
      ensures r == ComplaintsByPriority(complaints.items, priority)
    {
      var all := complaints.GetAll();
      r := ComplaintsByPriority(all, priority);
    }
  }
}
