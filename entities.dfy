/**
 * The records of the hostel domain (students, rooms, bookings, payments, fee structures,
 * complaints, staff, visitors, attendance, mess menus, notices, audit logs and admins),
 * their enumerations with the ordinals the source gives them, their computed properties
 * (`IsFull`, `TotalMonthly`, `FullName`) and their field defaults.
 *
 * The integer identity of a record is not part of these attribute records: the store keeps
 * it as the `id` field of `Store.Entity`, so that one generic store serves every entity.
 * Date-times are modelled as integers (ticks), decimal amounts as integers.
 */
module Entities {
  import opened Wrappers

  // ─────────────────────── enumerations ───────────────────────

  datatype RoomType = Single | Double | Triple | Dormitory
  {
    function Ordinal(): int
    {
      match this
      case Single => 1
      case Double => 2
      case Triple => 3
      case Dormitory => 4
    }
  }

  datatype ComplaintStatus = Open | InProgress | Resolved | Closed
  {
    function Ordinal(): int
    {
      match this
      case Open => 1
      case InProgress => 2
      case Resolved => 3
      case Closed => 4
    }
  }

  datatype PaymentStatus = Pending | Paid | Late | Overdue | Waived
  {
    function Ordinal(): int
    {
      match this
      case Pending => 1
      case Paid => 2
      case Late => 3
      case Overdue => 4
      case Waived => 5
    }
  }

  datatype PaymentMethod = Cash | BankTransfer | OnlineBanking | Cheque | JazzCash | EasyPaisa
  {
    function Ordinal(): int
    {
      match this
      case Cash => 1
      case BankTransfer => 2
      case OnlineBanking => 3
      case Cheque => 4
      case JazzCash => 5
      case EasyPaisa => 6
    }
  }

  datatype StaffRole = Warden | Accountant | Maintenance | Cook | Guard | Cleaner | Manager
  {
    function Ordinal(): int
    {
      match this
      case Warden => 1
      case Accountant => 2
      case Maintenance => 3
      case Cook => 4
      case Guard => 5
      case Cleaner => 6
      case Manager => 7
    }
  }

  datatype MealType = Breakfast | Lunch | Dinner
  {
    function Ordinal(): int
    {
      match this
      case Breakfast => 1
      case Lunch => 2
      case Dinner => 3
    }
  }

  datatype AttendanceStatus = Present | Absent | Leave | Late
  {
    function Ordinal(): int
    {
      match this
      case Present => 1
      case Absent => 2
      case Leave => 3
      case Late => 4
    }
  }

  datatype ComplaintCategory = Maintenance | Electrical | Plumbing | Cleanliness | Food | Security | RoomIssue | Other
  {
    function Ordinal(): int
    {
      match this
      case Maintenance => 1
      case Electrical => 2
      case Plumbing => 3
      case Cleanliness => 4
      case Food => 5
      case Security => 6
      case RoomIssue => 7
      case Other => 8
    }
  }

  datatype ComplaintPriority = Low | Medium | High | Critical
  {
    function Ordinal(): int
    {
      match this
      case Low => 1
      case Medium => 2
      case High => 3
      case Critical => 4
    }
  }

  datatype NoticePriority = Low | Medium | High | Urgent
  {
    function Ordinal(): int
    {
      match this
      case Low => 1
      case Medium => 2
      case High => 3
      case Urgent => 4
    }
  }

  datatype VisitorStatus = CheckedIn | CheckedOut
  {
    function Ordinal(): int
    {
      match this
      case CheckedIn => 1
      case CheckedOut => 2
    }
  }

  /** The .NET day of the week, Sunday = 0 to Saturday = 6. */
  datatype DayOfWeek = Sunday | Monday | Tuesday | Wednesday | Thursday | Friday | Saturday

  /** Decoding of a stored ordinal; `None` for a number the enumeration does not declare. */
  function ComplaintStatusOf(n: int): Option<ComplaintStatus>
  {
    if n == 1 then Some(ComplaintStatus.Open)
    else if n == 2 then Some(ComplaintStatus.InProgress)
    else if n == 3 then Some(ComplaintStatus.Resolved)
    else if n == 4 then Some(ComplaintStatus.Closed)
    else None
  }

  function PaymentStatusOf(n: int): Option<PaymentStatus>
  {
    if n == 1 then Some(PaymentStatus.Pending)
    else if n == 2 then Some(PaymentStatus.Paid)
    else if n == 3 then Some(PaymentStatus.Late)
    else if n == 4 then Some(PaymentStatus.Overdue)
    else if n == 5 then Some(PaymentStatus.Waived)
    else None
  }

  function VisitorStatusOf(n: int): Option<VisitorStatus>
  {
    if n == 1 then Some(VisitorStatus.CheckedIn)
    else if n == 2 then Some(VisitorStatus.CheckedOut)
    else None
  }

  function NoticePriorityOf(n: int): Option<NoticePriority>
  {
    if n == 1 then Some(NoticePriority.Low)
    else if n == 2 then Some(NoticePriority.Medium)
    else if n == 3 then Some(NoticePriority.High)
    else if n == 4 then Some(NoticePriority.Urgent)
    else None
  }

  /** The status enumerations occupy exactly the ordinals 1..k, and decoding inverts `Ordinal`. */
  lemma StatusOrdinals(c: ComplaintStatus, p: PaymentStatus, v: VisitorStatus, n: int)
    ensures 1 <= c.Ordinal() <= 4 && ComplaintStatusOf(c.Ordinal()) == Some(c)
    ensures 1 <= p.Ordinal() <= 5 && PaymentStatusOf(p.Ordinal()) == Some(p)
    ensures 1 <= v.Ordinal() <= 2 && VisitorStatusOf(v.Ordinal()) == Some(v)
    ensures ComplaintStatusOf(n).Some? <==> 1 <= n <= 4
    ensures PaymentStatusOf(n).Some? <==> 1 <= n <= 5
    ensures VisitorStatusOf(n).Some? <==> 1 <= n <= 2
    ensures ComplaintStatusOf(n).Some? ==> ComplaintStatusOf(n).value.Ordinal() == n
    ensures PaymentStatusOf(n).Some? ==> PaymentStatusOf(n).value.Ordinal() == n
    ensures VisitorStatusOf(n).Some? ==> VisitorStatusOf(n).value.Ordinal() == n
  {
  }

  /** Notice priorities are ordered Low < Medium < High < Urgent by their ordinals 1..4. */
  lemma NoticePriorityOrder(a: NoticePriority, n: int)
    ensures NoticePriority.Low.Ordinal() < NoticePriority.Medium.Ordinal()
              < NoticePriority.High.Ordinal() < NoticePriority.Urgent.Ordinal()
    ensures 1 <= a.Ordinal() <= 4 && NoticePriorityOf(a.Ordinal()) == Some(a)
    ensures NoticePriorityOf(n).Some? <==> 1 <= n <= 4
    ensures NoticePriorityOf(n).Some? ==> NoticePriorityOf(n).value.Ordinal() == n
  {
  }

  // ─────────────────────── records ───────────────────────

  datatype StudentAttrs = StudentAttrs(
    firstName: string,
    lastName: string,
    registrationNumber: string,
    cnic: string,
    phone: string,
    email: string,
    address: string,
    guardianName: string,
    guardianPhone: string,
    department: string,
    roomId: Option<int>,
    roomNumber: Option<string>,
    joinDate: int,
    leaveDate: Option<int>,
    isActive: bool)

  datatype RoomAttrs = RoomAttrs(
    roomNumber: string,
    floor: int,
    capacity: int,
    currentOccupancy: int,
    roomType: RoomType,
    monthlyRent: int,
    hasAC: bool,
    hasAttachedBath: bool,
    isActive: bool)

  datatype BookingAttrs = BookingAttrs(
    studentId: int,
    studentName: string,
    roomId: int,
    roomNumber: string,
    startDate: int,
    endDate: Option<int>,
    isCurrent: bool)

  datatype PaymentAttrs = PaymentAttrs(
    studentId: int,
    studentName: string,
    amount: int,
    month: int,
    year: int,
    paymentDate: int,
    paymentMethod: PaymentMethod,
    receiptNumber: string,
    status: PaymentStatus,
    remarks: string)

  datatype FeeStructureAttrs = FeeStructureAttrs(
    roomType: RoomType,
    monthlyRent: int,
    messFee: int,
    utilityCharges: int,
    securityDeposit: int,
    laundryFee: int,
    description: string,
    isActive: bool)

  datatype ComplaintAttrs = ComplaintAttrs(
    studentId: int,
    studentName: string,
    title: string,
    description: string,
    category: ComplaintCategory,
    priority: ComplaintPriority,
    createdAt: int,
    resolvedAt: Option<int>,
    status: ComplaintStatus,
    assignedStaffId: Option<int>,
    assignedStaffName: Option<string>,
    resolutionNotes: Option<string>)

  datatype StaffAttrs = StaffAttrs(
    fullName: string,
    phone: string,
    email: string,
    cnic: string,
    role: StaffRole,
    salary: int,
    shift: string,
    joinDate: int,
    isActive: bool)

  datatype VisitorAttrs = VisitorAttrs(
    visitorName: string,
    cnic: string,
    phone: string,
    relationship: string,
    studentId: int,
    studentName: string,
    purpose: string,
    checkInTime: int,
    checkOutTime: Option<int>,
    status: VisitorStatus,
    passNumber: string)

  datatype AttendanceAttrs = AttendanceAttrs(
    studentId: int,
    studentName: string,
    date: int,
    status: AttendanceStatus,
    remarks: string)

  datatype MessMenuAttrs = MessMenuAttrs(
    day: DayOfWeek,
    mealType: MealType,
    items: string,
    isActive: bool)

  datatype NoticeAttrs = NoticeAttrs(
    title: string,
    content: string,
    postedBy: string,
    postedAt: int,
    expiresAt: Option<int>,
    priority: NoticePriority,
    isActive: bool)

  datatype AuditLogAttrs = AuditLogAttrs(
    action: string,
    moduleName: string,
    performedBy: string,
    timestamp: int,
    details: string)

  datatype AdminAttrs = AdminAttrs(
    username: string,
    passwordHash: string,
    fullName: string,
    role: string,
    lastLogin: int,
    isActive: bool)

  // ─────────────────────── computed properties ───────────────────────

  /** `Room.IsFull`: the occupancy has reached (or passed) the capacity. */
  predicate IsFull(r: RoomAttrs): (b: bool)
    ensures !b ==> r.currentOccupancy + 1 <= r.capacity
    ensures r.capacity <= 0 && r.currentOccupancy >= 0 ==> b
  {
    r.currentOccupancy >= r.capacity
  }

  /**
   * A room with no beds is full, an over-filled room is still full, and for a room whose
   * occupancy lies within `0..capacity` "full" means exactly "occupancy == capacity".
   */
  lemma FullRoomCases(r: RoomAttrs)
    ensures r.capacity == 0 && r.currentOccupancy >= 0 ==> IsFull(r)
    ensures r.currentOccupancy > r.capacity ==> IsFull(r)
    ensures 0 <= r.currentOccupancy <= r.capacity ==> (IsFull(r) <==> r.currentOccupancy == r.capacity)
    ensures !IsFull(r) ==> r.currentOccupancy + 1 <= r.capacity
  {
  }

  /** `FeeStructure.TotalMonthly`: the four monthly charges; the security deposit is not one of them. */
  function TotalMonthly(f: FeeStructureAttrs): (t: int)
    ensures f.monthlyRent >= 0 && f.messFee >= 0 && f.utilityCharges >= 0 && f.laundryFee >= 0 ==>
              t >= f.monthlyRent && t >= f.messFee && t >= f.utilityCharges && t >= f.laundryFee
  {
    f.monthlyRent + f.messFee + f.utilityCharges + f.laundryFee
  }

  /** The security deposit never enters the monthly total, and every monthly charge enters it once. */
  lemma TotalMonthlyParts(f: FeeStructureAttrs, deposit: int, delta: int)
    ensures TotalMonthly(f.(securityDeposit := deposit)) == TotalMonthly(f)
    ensures TotalMonthly(f.(monthlyRent := f.monthlyRent + delta)) == TotalMonthly(f) + delta
    ensures TotalMonthly(f.(messFee := f.messFee + delta)) == TotalMonthly(f) + delta
    ensures TotalMonthly(f.(utilityCharges := f.utilityCharges + delta)) == TotalMonthly(f) + delta
    ensures TotalMonthly(f.(laundryFee := f.laundryFee + delta)) == TotalMonthly(f) + delta
  {
  }

  /** `Student.FullName`: first name, one space, last name, each recoverable from the result. */
  function FullName(s: StudentAttrs): (r: string)
    ensures |r| == |s.firstName| + 1 + |s.lastName|
    ensures r[..|s.firstName|] == s.firstName && r[|s.firstName|] == ' '
    ensures r[|s.firstName| + 1..] == s.lastName
  {
    s.firstName + " " + s.lastName
  }

  // ─────────────────────── defaults ───────────────────────
  // A record built with `new` before any field is assigned: empty strings, zero numbers and
  // times, absent optional values, and the initialisers the source declares. An enumeration
  // field defaults in C# to the ordinal 0, which no enumeration here declares, so such a
  // field is supplied by the caller.

  function NewStudent(): StudentAttrs
  {
    StudentAttrs("", "", "", "", "", "", "", "", "", "", None, None, 0, None, true)
  }

  function NewRoom(roomType: RoomType): RoomAttrs
  {
    RoomAttrs("", 0, 0, 0, roomType, 0, false, false, true)
  }

  function NewFeeStructure(roomType: RoomType): FeeStructureAttrs
  {
    FeeStructureAttrs(roomType, 0, 0, 0, 0, 0, "", true)
  }

  function NewStaff(role: StaffRole): StaffAttrs
  {
    StaffAttrs("", "", "", "", role, 0, "Day", 0, true)
  }

  function NewMessMenu(day: DayOfWeek, mealType: MealType): MessMenuAttrs
  {
    MessMenuAttrs(day, mealType, "", true)
  }

  function NewNotice(priority: NoticePriority): NoticeAttrs
  {
    NoticeAttrs("", "", "Admin", 0, None, priority, true)
  }

  function NewAdmin(): AdminAttrs
  {
    AdminAttrs("", "", "", "Admin", 0, true)
  }

  /** The declared initialisers: every entity with an active flag starts active, and the three string defaults. */
  lemma Defaults(t: RoomType, role: StaffRole, d: DayOfWeek, m: MealType, p: NoticePriority)
    ensures NewStudent().isActive && NewStudent().roomId.None? && NewStudent().roomNumber.None?
    ensures NewRoom(t).isActive && NewRoom(t).currentOccupancy == 0
    ensures NewFeeStructure(t).isActive
    ensures NewStaff(role).isActive && NewStaff(role).shift == "Day"
    ensures NewMessMenu(d, m).isActive
    ensures NewNotice(p).isActive && NewNotice(p).postedBy == "Admin" && NewNotice(p).expiresAt.None?
    ensures NewAdmin().isActive && NewAdmin().role == "Admin"
  {
  }
}
