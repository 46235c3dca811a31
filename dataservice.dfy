/** The data service the views read from: the employee record, its
    conversion to a visa case (with the days left computed from the
    expiration), the look-ups, the update merge and the statistics. */
module DataService {
  import opened Wrappers
  import opened Seqs
  import opened Text
  import opened DataTable
  import Dashboard

  /** `1000 * 60 * 60 * 24`. */
  const MsPerDay := 86_400_000

  /** `Math.ceil(diffTime / MsPerDay)` for the difference in milliseconds
      between the expiration and now: the smallest whole number of days that
      reaches the expiration. */
  function CalculateDaysLeft(expirationMs: int, todayMs: int): (r: int)
    ensures (r - 1) * MsPerDay < expirationMs - todayMs <= r * MsPerDay
  {
    var late := todayMs - expirationMs;
    var q := late / MsPerDay;
    assert late == q * MsPerDay + late % MsPerDay;
    -q
  }

  /** Any whole number of days that brackets the difference the same way is the result. */
  lemma DaysLeftIsCeiling(expirationMs: int, todayMs: int, r: int)
    requires (r - 1) * MsPerDay < expirationMs - todayMs <= r * MsPerDay
    ensures r == CalculateDaysLeft(expirationMs, todayMs)
  {
    var c := CalculateDaysLeft(expirationMs, todayMs);
    assert (r - 1) * MsPerDay < c * MsPerDay && (c - 1) * MsPerDay < r * MsPerDay;
    assert (r - 1 - c) * MsPerDay < 0 && (c - 1 - r) * MsPerDay < 0;
  }

  /** The count is negative only once the expiration is a full day or more in
      the past; an expiration less than a day ago, or up to now, gives 0. */
  lemma DaysLeftSign(expirationMs: int, todayMs: int)
    ensures CalculateDaysLeft(expirationMs, todayMs) < 0 <==> expirationMs - todayMs <= -MsPerDay
    ensures CalculateDaysLeft(expirationMs, todayMs) == 0 <==> -MsPerDay < expirationMs - todayMs <= 0
  {
    var r := CalculateDaysLeft(expirationMs, todayMs);
    if r < 0 {
      assert r * MsPerDay <= -MsPerDay;
    } else if r > 0 {
      assert (r - 1) * MsPerDay >= 0;
    }
  }

  /** The count is within 1 to 60 days exactly when the expiration is after
      now and at most sixty whole days ahead. */
  lemma DaysLeftWithin60(expirationMs: int, todayMs: int)
    ensures 0 < CalculateDaysLeft(expirationMs, todayMs) <= 60 <==> 0 < expirationMs - todayMs <= 60 * MsPerDay
  {
    var r := CalculateDaysLeft(expirationMs, todayMs);
    DaysLeftSign(expirationMs, todayMs);
    if r > 60 {
      assert (r - 1) * MsPerDay >= 60 * MsPerDay;
    } else if r > 0 {
      assert r * MsPerDay <= 60 * MsPerDay;
    }
  }

  /** A later expiration never has fewer days left. */
  lemma DaysLeftMonotone(e1: int, e2: int, todayMs: int)
    requires e1 <= e2
    ensures CalculateDaysLeft(e1, todayMs) <= CalculateDaysLeft(e2, todayMs)
  {
    var r1, r2 := CalculateDaysLeft(e1, todayMs), CalculateDaysLeft(e2, todayMs);
    assert (r1 - 1) * MsPerDay < r2 * MsPerDay;
    assert (r1 - 1 - r2) * MsPerDay < 0;
  }

  /** An employee record as stored. `status` is declared as one of "Active",
      "Pending" and "Expired". */
  datatype Employee = Employee(
    id: int,
    employeeName: string,
    department: string,
    visaType: string,
    status: string,
    expirationDate: string,
    visaStartDate: string,
    email: string,
    phone: string,
    address: string,
    nationality: string,
    dateOfBirth: string,
    passportNumber: string,
    i94Number: string,
    sevisId: string,
    startDate: string)

  const DeclaredStatuses := {"Active", "Pending", "Expired"}

  /** `employeeToVisaCase`. `parseDate` stands for `new Date(s).getTime()`. */
  function EmployeeToVisaCase(e: Employee, parseDate: string -> int, todayMs: int): (c: VisaCase)
    ensures c.id == IntToString(e.id)
    ensures c.employee == Person(e.employeeName, e.department, Some(e.email), Some(e.phone))
    ensures c.visaType == e.visaType && c.status == e.status
    ensures c.expirationDate == e.expirationDate && c.visaStartDate == Some(e.visaStartDate)
    ensures c.daysLeft == CalculateDaysLeft(parseDate(e.expirationDate), todayMs)
    ensures (c.daysLeft - 1) * MsPerDay < parseDate(e.expirationDate) - todayMs <= c.daysLeft * MsPerDay
    ensures c.daysLeft < 0 <==> parseDate(e.expirationDate) - todayMs <= -MsPerDay
  {
    DaysLeftSign(parseDate(e.expirationDate), todayMs);
    VisaCase(
      IntToString(e.id),
      Person(e.employeeName, e.department, Some(e.email), Some(e.phone)),
      e.visaType,
      e.status,
      e.expirationDate,
      Some(e.visaStartDate),
      CalculateDaysLeft(parseDate(e.expirationDate), todayMs))
  }

  function CaseOf(parseDate: string -> int, todayMs: int): Employee -> VisaCase
  {
    (e: Employee) => EmployeeToVisaCase(e, parseDate, todayMs)
  }

  /** `fetchVisaCases`: one case per employee, in the same order. */
  function FetchVisaCases(employees: seq<Employee>, parseDate: string -> int, todayMs: int): (cases: seq<VisaCase>)
    ensures |cases| == |employees|
    ensures forall i :: 0 <= i < |employees| ==> cases[i] == EmployeeToVisaCase(employees[i], parseDate, todayMs)
  {
    Map(employees, CaseOf(parseDate, todayMs))
  }

  /** Array `find`: the first element that passes, or none. */
  function Find(es: seq<Employee>, p: Employee -> bool): (r: Option<Employee>)
    ensures r.None? <==> forall i :: 0 <= i < |es| ==> !p(es[i])
    ensures r.Some? ==> exists i :: 0 <= i < |es| && es[i] == r.value && p(es[i]) &&
                                    forall j :: 0 <= j < i ==> !p(es[j])
    decreases |es|
  {
    if es == [] then None
    else if p(es[0]) then Some(es[0])
    else
      var r := Find(es[1..], p);
      assert r.Some? ==> exists i :: 1 <= i < |es| && es[i] == r.value && p(es[i]) &&
                                     forall j :: 0 <= j < i ==> !p(es[j]) by {
        if r.Some? {
          var k :| 0 <= k < |es| - 1 && es[1..][k] == r.value && p(es[1..][k]) &&
                   forall j :: 0 <= j < k ==> !p(es[1..][j]);
          assert forall j :: 1 <= j < k + 1 ==> !p(es[j]) by {
            forall j | 1 <= j < k + 1
              ensures !p(es[j])
            {
              assert es[j] == es[1..][j - 1];
            }
          }
        }
      }
      r
  }

  function IdStringIs(id: string): Employee -> bool
  {
    (e: Employee) => IntToString(e.id) == id
  }

  /** `fetchEmployeeById`: the first employee whose id, as a string, is `id`; or null. */
  function FetchEmployeeById(employees: seq<Employee>, id: string): (r: Option<Employee>)
    ensures r.None? <==> forall i :: 0 <= i < |employees| ==> IntToString(employees[i].id) != id
    ensures r.Some? ==>
      IntToString(r.value.id) == id &&
      exists i :: 0 <= i < |employees| && employees[i] == r.value &&
        forall j :: 0 <= j < i ==> IntToString(employees[j].id) != id
  {
    Find(employees, IdStringIs(id))
  }

  /** When ids are distinct, looking up a case's id finds the employee it came from. */
  lemma FetchFindsCaseEmployee(employees: seq<Employee>, parseDate: string -> int, todayMs: int, i: int)
    requires forall j, k :: 0 <= j < k < |employees| ==> employees[j].id != employees[k].id
    requires 0 <= i < |employees|
    ensures FetchEmployeeById(employees, FetchVisaCases(employees, parseDate, todayMs)[i].id) == Some(employees[i])
  {
    var id := IntToString(employees[i].id);
    var r := FetchEmployeeById(employees, id);
    assert IdStringIs(id)(employees[i]);
    var k :| 0 <= k < |employees| && employees[k] == r.value && IdStringIs(id)(employees[k]);
    IntToStringInjective(employees[k].id, employees[i].id);
  }

  // ---- updateEmployee ----

  /** The subset of JavaScript values compared here, for `===`. */
  datatype JsValue = JsNumber(n: int) | JsString(s: string)

  /** `===` on primitives: equal kinds and equal values. */
  function StrictEquals(a: JsValue, b: JsValue): (r: bool)
    ensures r ==> a.JsNumber? == b.JsNumber?
    ensures a.JsNumber? == b.JsNumber? ==> (r <==> a == b)
  {
    a == b
  }

  /** `Partial<Employee>`: the fields present in the patch. */
  datatype EmployeePatch = EmployeePatch(
    id: Option<int>,
    employeeName: Option<string>,
    department: Option<string>,
    visaType: Option<string>,
    status: Option<string>,
    expirationDate: Option<string>,
    visaStartDate: Option<string>,
    email: Option<string>,
    phone: Option<string>,
    address: Option<string>,
    nationality: Option<string>,
    dateOfBirth: Option<string>,
    passportNumber: Option<string>,
    i94Number: Option<string>,
    sevisId: Option<string>,
    startDate: Option<string>)

  const EmptyPatch := EmployeePatch(None, None, None, None, None, None, None, None,
                                    None, None, None, None, None, None, None, None)

  datatype EmployeeField =
    | IdField | NameField | DepartmentField | VisaTypeField | StatusField
    | ExpirationField | VisaStartField | EmailField | PhoneField | AddressField
    | NationalityField | BirthField | PassportField | I94Field | SevisField | StartField

  function FieldValue(e: Employee, f: EmployeeField): JsValue
  {
    match f
    case IdField => JsNumber(e.id)
    case NameField => JsString(e.employeeName)
    case DepartmentField => JsString(e.department)
    case VisaTypeField => JsString(e.visaType)
    case StatusField => JsString(e.status)
    case ExpirationField => JsString(e.expirationDate)
    case VisaStartField => JsString(e.visaStartDate)
    case EmailField => JsString(e.email)
    case PhoneField => JsString(e.phone)
    case AddressField => JsString(e.address)
    case NationalityField => JsString(e.nationality)
    case BirthField => JsString(e.dateOfBirth)
    case PassportField => JsString(e.passportNumber)
    case I94Field => JsString(e.i94Number)
    case SevisField => JsString(e.sevisId)
    case StartField => JsString(e.startDate)
  }

  function Str(o: Option<string>): Option<JsValue>
  {
    if o.Some? then Some(JsString(o.value)) else None
  }

  function PatchValue(p: EmployeePatch, f: EmployeeField): Option<JsValue>
  {
    match f
    case IdField => if p.id.Some? then Some(JsNumber(p.id.value)) else None
    case NameField => Str(p.employeeName)
    case DepartmentField => Str(p.department)
    case VisaTypeField => Str(p.visaType)
    case StatusField => Str(p.status)
    case ExpirationField => Str(p.expirationDate)
    case VisaStartField => Str(p.visaStartDate)
    case EmailField => Str(p.email)
    case PhoneField => Str(p.phone)
    case AddressField => Str(p.address)
    case NationalityField => Str(p.nationality)
    case BirthField => Str(p.dateOfBirth)
    case PassportField => Str(p.passportNumber)
    case I94Field => Str(p.i94Number)
    case SevisField => Str(p.sevisId)
    case StartField => Str(p.startDate)
  }

  function Pick<T>(o: Option<T>, d: T): T
  {
    if o.Some? then o.value else d
  }

  /** `{ ...employee, ...employeeData }`: every field the patch carries
      overrides, every other field is kept. */
  function Merge(e: Employee, p: EmployeePatch): (r: Employee)
    ensures forall f :: FieldValue(r, f) == Pick(PatchValue(p, f), FieldValue(e, f))
  {
    Employee(
      Pick(p.id, e.id), Pick(p.employeeName, e.employeeName), Pick(p.department, e.department),
      Pick(p.visaType, e.visaType), Pick(p.status, e.status), Pick(p.expirationDate, e.expirationDate),
      Pick(p.visaStartDate, e.visaStartDate), Pick(p.email, e.email), Pick(p.phone, e.phone),
      Pick(p.address, e.address), Pick(p.nationality, e.nationality), Pick(p.dateOfBirth, e.dateOfBirth),
      Pick(p.passportNumber, e.passportNumber), Pick(p.i94Number, e.i94Number), Pick(p.sevisId, e.sevisId),
      Pick(p.startDate, e.startDate))
  }

  /** Two employees that agree on every field are the same record. */
  lemma FieldsDetermineEmployee(a: Employee, b: Employee)
    requires forall f :: FieldValue(a, f) == FieldValue(b, f)
    ensures a == b
  {
    assert FieldValue(a, IdField) == FieldValue(b, IdField);
    assert FieldValue(a, NameField) == FieldValue(b, NameField);
    assert FieldValue(a, DepartmentField) == FieldValue(b, DepartmentField);
    assert FieldValue(a, VisaTypeField) == FieldValue(b, VisaTypeField);
    assert FieldValue(a, StatusField) == FieldValue(b, StatusField);
    assert FieldValue(a, ExpirationField) == FieldValue(b, ExpirationField);
    assert FieldValue(a, VisaStartField) == FieldValue(b, VisaStartField);
    assert FieldValue(a, EmailField) == FieldValue(b, EmailField);
    assert FieldValue(a, PhoneField) == FieldValue(b, PhoneField);
    assert FieldValue(a, AddressField) == FieldValue(b, AddressField);
    assert FieldValue(a, NationalityField) == FieldValue(b, NationalityField);
    assert FieldValue(a, BirthField) == FieldValue(b, BirthField);
    assert FieldValue(a, PassportField) == FieldValue(b, PassportField);
    assert FieldValue(a, I94Field) == FieldValue(b, I94Field);
    assert FieldValue(a, SevisField) == FieldValue(b, SevisField);
    assert FieldValue(a, StartField) == FieldValue(b, StartField);
  }

  /** An empty patch changes nothing, and applying the same patch twice is applying it once. */
  lemma MergeLaws(e: Employee, p: EmployeePatch)
    ensures Merge(e, EmptyPatch) == e
    ensures Merge(Merge(e, p), p) == Merge(e, p)
  {
    FieldsDetermineEmployee(Merge(e, EmptyPatch), e);
    FieldsDetermineEmployee(Merge(Merge(e, p), p), Merge(e, p));
  }

  function NotFound(id: string): string
  {
    "Employee with ID " + id + " not found"
  }

  function StrictIdIs(id: string): Employee -> bool
  {
    (e: Employee) => StrictEquals(JsNumber(e.id), JsString(id))
  }

  /** `updateEmployee` as written: the look-up compares the numeric id with the
      string argument using `===`. */
  function UpdateEmployeeAsWritten(employees: seq<Employee>, id: string, p: EmployeePatch): (r: Result<Employee, string>)
    ensures r.Err? <==> forall i :: 0 <= i < |employees| ==> !StrictIdIs(id)(employees[i])
    ensures r.Err? ==> r.error == NotFound(id)
  {
    match Find(employees, StrictIdIs(id))
    case None => Err(NotFound(id))
    case Some(e) => Ok(Merge(e, p))
  }

  /** A number is never `===` a string, so the as-written update always throws. */
  lemma UpdateAsWrittenAlwaysFails(employees: seq<Employee>, id: string, p: EmployeePatch)
    ensures UpdateEmployeeAsWritten(employees, id, p) == Err(NotFound(id))
  {
    assert forall i :: 0 <= i < |employees| ==> !StrictIdIs(id)(employees[i]);
  }

  /** `updateEmployee` with the look-up `fetchEmployeeById` uses: the first
      employee whose id, as a string, is `id`, merged with the patch; an unknown
      id is an error. */
  function UpdateEmployee(employees: seq<Employee>, id: string, p: EmployeePatch): (r: Result<Employee, string>)
    ensures r.Err? <==> FetchEmployeeById(employees, id).None?
    ensures r.Err? ==> r.error == NotFound(id)
    ensures r.Ok? ==> r.value == Merge(FetchEmployeeById(employees, id).value, p)
  {
    var found := FetchEmployeeById(employees, id);
    if found.None? then Err(NotFound(id)) else Ok(Merge(found.value, p))
  }

  /** An employee with id 7, updated by the id "7": the corrected update
      succeeds where the as-written one throws. */
  lemma UpdateDiscrepancy(e: Employee, p: EmployeePatch)
    requires e.id == 7
    ensures UpdateEmployee([e], "7", p) == Ok(Merge(e, p))
    ensures UpdateEmployeeAsWritten([e], "7", p).Err?
  {
    assert IntToString(7) == "7";
    assert IdStringIs("7")(e);
    UpdateAsWrittenAlwaysFails([e], "7", p);
  }

  // ---- fetchStatistics ----

  function EmployeeStatusIs(status: string): Employee -> bool
  {
    (e: Employee) => e.status == status
  }

  function ExpiredAt(parseDate: string -> int, todayMs: int): Employee -> bool
  {
    (e: Employee) => parseDate(e.expirationDate) - todayMs <= -MsPerDay
  }

  /** Converting to cases keeps the number of employees with a given status. */
  lemma StatusCountCarries(employees: seq<Employee>, parseDate: string -> int, todayMs: int, status: string)
    ensures |Filter(FetchVisaCases(employees, parseDate, todayMs), Dashboard.HasStatus(status))|
            == |Filter(employees, EmployeeStatusIs(status))|
  {
    FilterMapCount(employees, CaseOf(parseDate, todayMs), Dashboard.HasStatus(status), EmployeeStatusIs(status));
  }

  /** A case is overdue exactly when its employee's date is a full day or more past. */
  lemma ExpiredCountCarries(employees: seq<Employee>, parseDate: string -> int, todayMs: int)
    ensures |Filter(FetchVisaCases(employees, parseDate, todayMs), Dashboard.Overdue())|
            == |Filter(employees, ExpiredAt(parseDate, todayMs))|
  {
    FilterMapCount(employees, CaseOf(parseDate, todayMs), Dashboard.Overdue(), ExpiredAt(parseDate, todayMs));
  }

  function ExpiringAt(parseDate: string -> int, todayMs: int): Employee -> bool
  {
    (e: Employee) => 0 < parseDate(e.expirationDate) - todayMs <= 60 * MsPerDay
  }

  /** A case is within the 60-day window exactly when its employee's date is
      after now and at most sixty days ahead. */
  lemma ExpiringCountCarries(employees: seq<Employee>, parseDate: string -> int, todayMs: int)
    ensures |Filter(FetchVisaCases(employees, parseDate, todayMs), Dashboard.ExpiringWithin60())|
            == |Filter(employees, ExpiringAt(parseDate, todayMs))|
  {
    forall e: Employee
      ensures ExpiringAt(parseDate, todayMs)(e) == Dashboard.ExpiringWithin60()(CaseOf(parseDate, todayMs)(e))
    {
      DaysLeftWithin60(parseDate(e.expirationDate), todayMs);
    }
    FilterMapCount(employees, CaseOf(parseDate, todayMs), Dashboard.ExpiringWithin60(), ExpiringAt(parseDate, todayMs));
  }

  /** "Processing" is not a declared status, so with only declared statuses no
      employee counts as pending. */
  lemma NoProcessingAmongDeclared(employees: seq<Employee>)
    ensures (forall i :: 0 <= i < |employees| ==> employees[i].status in DeclaredStatuses) ==>
              Filter(employees, EmployeeStatusIs("Processing")) == []
  {
    if forall i :: 0 <= i < |employees| ==> employees[i].status in DeclaredStatuses {
      assert "Processing" !in DeclaredStatuses;
      NoneKeptBy(employees, EmployeeStatusIs("Processing"));
    }
  }

  /** `fetchStatistics`: the dashboard cards over the converted cases. Active and
      pending count statuses, expiring counts expirations after now and at
      most sixty days ahead, expired counts expirations a full day or more
      past, and pending is 0 whenever every status is a declared one. */
  function FetchStatistics(employees: seq<Employee>, parseDate: string -> int, todayMs: int): (k: Dashboard.Kpis)
    ensures k.activeVisas == |Filter(employees, EmployeeStatusIs("Active"))|
    ensures k.pending == |Filter(employees, EmployeeStatusIs("Processing"))|
    ensures k.expiringWithin60Days == |Filter(employees, ExpiringAt(parseDate, todayMs))|
    ensures k.expired == |Filter(employees, ExpiredAt(parseDate, todayMs))|
    ensures (forall i :: 0 <= i < |employees| ==> employees[i].status in DeclaredStatuses) ==> k.pending == 0
    ensures k.completed == 312
  {
    var cases := FetchVisaCases(employees, parseDate, todayMs);
    StatusCountCarries(employees, parseDate, todayMs, "Active");
    StatusCountCarries(employees, parseDate, todayMs, "Processing");
    ExpiredCountCarries(employees, parseDate, todayMs);
    ExpiringCountCarries(employees, parseDate, todayMs);
    NoProcessingAmongDeclared(employees);
    Dashboard.ComputeKpis(cases)
  }
}
