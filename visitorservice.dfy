/**
 * `VisitorService`: checking visitors in with a gate-pass number and out again.
 */
module VisitorServices {
  import opened Wrappers
  import opened Errors
  import opened Entities
  import opened Store
  import opened Seqs
  import opened Text

  type Visitor = Entity<VisitorAttrs>

  /** The pass counter's value before the first check-in. */
  const FirstPassCounter := 5000

  /** `VP-{yyyyMMdd}-{counter}`. */
  function PassNumber(stamp: string, counter: nat): (r: string)
    ensures |r| > 4 + |stamp| && r[..3] == "VP-"
    ensures r[3..3 + |stamp|] == stamp && r[3 + |stamp|] == '-'
    ensures forall i :: 4 + |stamp| <= i < |r| ==> IsAsciiDigit(r[i])
  {
    SerialNumber("VP", stamp, counter)
  }

  /** The visitor as `CheckInVisitorAsync` stores it: checked in now, with its pass. */
  function Admitted(v: Visitor, now: int, pass: string): (r: Visitor)
    ensures r.id == v.id && IsInside(r) && r.attrs.checkInTime == now && r.attrs.passNumber == pass
    ensures r.attrs.(checkInTime := v.attrs.checkInTime, status := v.attrs.status, passNumber := v.attrs.passNumber) == v.attrs
  {
    v.(attrs := v.attrs.(checkInTime := now, status := VisitorStatus.CheckedIn, passNumber := pass))
  }

  /** The visitor after `CheckOutVisitorAsync`: checked out now, an earlier check-out time overwritten. */
  function Departed(v: Visitor, now: int): Visitor
  {
    v.(attrs := v.attrs.(checkOutTime := Some(now), status := VisitorStatus.CheckedOut))
  }

  /** `CheckOutVisitorAsync` on the list of visitors: only a missing visitor is refused. */
  function CheckOut(all: seq<Visitor>, id: int, now: int): (r: Result<seq<Visitor>, ServiceError>)
    ensures r.Err? <==> Find(all, id).None?
    ensures r.Err? ==> r.error == VisitorNotFound
    ensures r.Ok? ==> |r.value| == |all|
  {
    match Find(all, id)
    case None => Err(VisitorNotFound)
    case Some(v) => Ok(Replace(all, Departed(v, now)))
  }

  predicate IsInside(v: Visitor)
  {
    v.attrs.status == VisitorStatus.CheckedIn
  }

  /** `GetActiveVisitorsAsync`: exactly the visitors checked in, in store order. */
  function ActiveVisitors(all: seq<Visitor>): (r: seq<Visitor>)
    ensures forall i :: 0 <= i < |r| ==> r[i] in all && r[i].attrs.status == VisitorStatus.CheckedIn
    ensures forall i :: 0 <= i < |all| && all[i].attrs.status == VisitorStatus.CheckedIn ==> all[i] in r
  {
    Filter(all, IsInside)
  }

  /** `GetVisitorsByStudentAsync`. */
  function VisitorsByStudent(all: seq<Visitor>, studentId: int): (r: seq<Visitor>)
    ensures forall i :: 0 <= i < |r| ==> r[i] in all && r[i].attrs.studentId == studentId
    ensures forall i :: 0 <= i < |all| && all[i].attrs.studentId == studentId ==> all[i] in r
  {
    Filter(all, (v: Visitor) => v.attrs.studentId == studentId)
  }

  /**
   * Check-out fails only for a missing visitor. Otherwise that visitor is checked out at
   * `now` whatever their status was (checking out twice moves the time), nobody else
   * changes, and the number of visitors inside drops by one exactly when they were inside.
   */
  lemma CheckOutEffect(all: seq<Visitor>, id: int, now: int)
    ensures CheckOut(all, id, now).Err? <==> Find(all, id).None?
    ensures CheckOut(all, id, now).Err? ==> CheckOut(all, id, now).error == VisitorNotFound
    ensures CheckOut(all, id, now).Ok? ==>
              var all' := CheckOut(all, id, now).value;
              var k := FirstIndex(all, id).value;
              && |all'| == |all|
              && all'[k].id == id
              && all'[k].attrs.status == VisitorStatus.CheckedOut && all'[k].attrs.checkOutTime == Some(now)
              && all'[k].attrs.(checkOutTime := all[k].attrs.checkOutTime, status := all[k].attrs.status) == all[k].attrs
              && (forall i :: 0 <= i < |all| && i != k ==> all'[i] == all[i])
              && |ActiveVisitors(all')| == |ActiveVisitors(all)| - (if IsInside(all[k]) then 1 else 0)
  {
    if Find(all, id).Some? {
      var k := FirstIndex(all, id).value;
      CountUpdate(all, k, Departed(all[k], now), IsInside);
    }
  }

  /** A checked-in visitor is inside, and checking one in adds one to those inside. */
  lemma AdmittedIsInside(all: seq<Visitor>, v: Visitor, now: int, pass: string)
    ensures IsInside(Admitted(v, now, pass))
    ensures |ActiveVisitors(all + [Admitted(v, now, pass)])| == |ActiveVisitors(all)| + 1
  {
    FilterAppend(all, [Admitted(v, now, pass)], IsInside);
    assert [Admitted(v, now, pass)][..0] == [];
  }

  /** Passes issued under different counter values differ. */
  lemma PassNumbersDistinct(stamp1: string, stamp2: string, n1: nat, n2: nat)
    requires |stamp1| == |stamp2| && n1 != n2
    ensures PassNumber(stamp1, n1) != PassNumber(stamp2, n2)
  {
    if PassNumber(stamp1, n1) == PassNumber(stamp2, n2) {
      SerialNumberInjective("VP", stamp1, stamp2, n1, n2);
    }
  }

  // ─────────────────────── the service ───────────────────────

  class VisitorService {
    const visitors: JsonFileRepository<VisitorAttrs>
    /** `_passCounter`. */
    var passCounter: nat

    constructor (visitors: JsonFileRepository<VisitorAttrs>)
      ensures this.visitors == visitors && passCounter == FirstPassCounter
    {
      this.visitors := visitors;
      passCounter := FirstPassCounter;
    }

    /** `CheckInVisitorAsync`: pre-increments the counter, so the first pass carries 5001. */
    method CheckInVisitor(visitor: Visitor, now: int, stamp: string) returns (stored: Visitor)
      modifies this, visitors
      ensures passCounter == old(passCounter) + 1
      ensures stored.attrs == visitor.attrs.(checkInTime := now, status := VisitorStatus.CheckedIn,
                                             passNumber := PassNumber(stamp, passCounter))
      ensures visitors.Snapshot() == WithAdded(old(visitors.Snapshot()), Admitted(visitor, now, PassNumber(stamp, passCounter)))
    {
      passCounter := passCounter + 1;
      stored := visitors.Add(Admitted(visitor, now, PassNumber(stamp, passCounter)));
    }

    /** `CheckOutVisitorAsync`. */
    method CheckOutVisitor(id: int, now: int) returns (outcome: Outcome<ServiceError>)
      modifies visitors
      ensures var r := CheckOut(old(visitors.items), id, now);
              && outcome == (if r.Ok? then Pass else Fail(r.error))
              && visitors.items == (if r.Ok? then r.value else old(visitors.items))
              && visitors.nextId == old(visitors.nextId)
    {
      var found := visitors.GetById(id);
      if found.None? {
        return Fail(VisitorNotFound);
      }
      visitors.Update(Departed(found.value, now));
      return Pass;
    }

    /** `GetActiveVisitorsAsync`. */
    method GetActiveVisitors() returns (r: seq<Visitor>)
      ensures r == ActiveVisitors(visitors.items)
    {
      var all := visitors.GetAll();
      r := ActiveVisitors(all);
    }

    /** `GetVisitorsByStudentAsync`. */
    method GetVisitorsByStudent(studentId: int) returns (r: seq<Visitor>)
      ensures r == VisitorsByStudent(visitors.items, studentId)
    {
      var all := visitors.GetAll();
      r := VisitorsByStudent(all, studentId);
    }
  }
}
