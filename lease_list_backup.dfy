/**
 * The full leases screen (kept as a backup, not wired into the application):
 * the status badge of a lease, the validation of the lease form, the labels of
 * tenants and units, and the units the form offers. The day arithmetic comes
 * from the formatting utilities; the current instant is the parameter `now`.
 */
module LeaseListBackup {
  import opened Wrappers
  import opened Entities
  import opened Views
  import opened Forms
  import opened Formatters
  import opened Lookups
  import Text

  // ---------------------------------------------------------------- the status badge

  /** The four badges; an expiring lease shows its days left. */
  datatype Badge = ExpiringSoon(daysLeft: int) | Active | Expired | Upcoming

  /**
   * `getLeaseStatusBadge` as written: an active lease with under 30 days left is
   * expiring, any other active lease active; an inactive lease is expired when its
   * day count is negative and upcoming otherwise. The day count rounds up, so a
   * lease that ended less than a day ago counts 0 days and shows as upcoming.
   */
  function LeaseStatusBadgeAsWritten(lease: Lease, now: int): (b: Badge)
    ensures b.ExpiringSoon? <==> lease.startDate <= now <= lease.endDate && lease.endDate - now <= 29 * MsPerDay
    ensures b.ExpiringSoon? ==> b.daysLeft == DaysUntil(lease.endDate, now) && 0 <= b.daysLeft < 30
    ensures b.Active? <==> lease.startDate <= now && lease.endDate - now > 29 * MsPerDay
    ensures b.Expired? <==> lease.endDate <= now - MsPerDay
    ensures b.Upcoming? <==> (now < lease.startDate && now - MsPerDay < lease.endDate)
                             || now - MsPerDay < lease.endDate < now
  {
    var active := IsLeaseActive(lease.startDate, lease.endDate, now);
    var daysLeft := DaysUntil(lease.endDate, now);
    if active && daysLeft < 30 then ExpiringSoon(daysLeft)
    else if active then Active
    else if daysLeft < 0 then Expired
    else Upcoming
  }

  /** A lease that ended one millisecond ago shows as upcoming, not as expired. */
  lemma RecentlyEndedShowsUpcoming(now: int)
    ensures LeaseStatusBadgeAsWritten(Lease(1, 1, 1, now - 30 * MsPerDay, now - 1, 1000), now) == Upcoming
  {
    assert DaysUntil(now - 1, now) == 0;
  }

  /**
   * The badge with expiry decided by the dates: an inactive lease whose end has
   * passed is expired, and only a lease that has not started yet is upcoming.
   */
  function LeaseStatusBadge(lease: Lease, now: int): (b: Badge)
    ensures b.ExpiringSoon? <==> lease.startDate <= now <= lease.endDate && lease.endDate - now <= 29 * MsPerDay
    ensures b.ExpiringSoon? ==> b.daysLeft == DaysUntil(lease.endDate, now) && 0 <= b.daysLeft < 30
    ensures b.Active? <==> lease.startDate <= now && lease.endDate - now > 29 * MsPerDay
    ensures b.Expired? <==> now > lease.endDate
    ensures b.Upcoming? <==> now < lease.startDate && now <= lease.endDate
  {
    var active := IsLeaseActive(lease.startDate, lease.endDate, now);
    var daysLeft := DaysUntil(lease.endDate, now);
    if active && daysLeft < 30 then ExpiringSoon(daysLeft)
    else if active then Active
    else if now > lease.endDate then Expired
    else Upcoming
  }

  /** The two badges differ exactly on the leases that ended less than a day ago. */
  lemma BadgeDiffersOnlyOnLastDay(lease: Lease, now: int)
    ensures LeaseStatusBadgeAsWritten(lease, now) != LeaseStatusBadge(lease, now)
        <==> now - MsPerDay < lease.endDate < now
  {
  }

  /** An upcoming lease has not started, and an active or expiring one has. */
  lemma BadgeAgreesWithActivity(lease: Lease, now: int)
    ensures LeaseStatusBadge(lease, now).Upcoming? ==> now < lease.startDate
    ensures LeaseStatusBadge(lease, now).ExpiringSoon? || LeaseStatusBadge(lease, now).Active?
        <==> IsLeaseActive(lease.startDate, lease.endDate, now)
  {
  }

  // ---------------------------------------------------------------- the form

  const EmptyLeaseForm: Form :=
    map["tenantId" := "", "unitId" := "", "startDate" := "", "endDate" := "", "rentAmount" := ""]

  /** The date a form field holds as `new Date(text)` sees it; a missing field is `undefined`. */
  function DateOf(form: Form, field: string): Option<int> {
    if field in form then Text.ParseInt(form[field]) else None
  }

  /** `new Date(end) <= new Date(start)`: false as soon as one of them is an invalid date. */
  predicate EndNotAfterStart(form: Form) {
    DateOf(form, "endDate").Some? && DateOf(form, "startDate").Some?
    && DateOf(form, "endDate").value <= DateOf(form, "startDate").value
  }

  /** The errors `validateForm` collects: all five fields are required, the end date
      must follow the start date and a rent that parses must be above 0. */
  function LeaseFormErrors(form: Form): (errors: Form)
    ensures errors.Keys <= {"tenantId", "unitId", "startDate", "endDate", "rentAmount"}
    ensures "tenantId" in errors <==> !Filled(form, "tenantId")
    ensures "tenantId" in errors ==> errors["tenantId"] == "Tenant is required"
    ensures "unitId" in errors <==> !Filled(form, "unitId")
    ensures "unitId" in errors ==> errors["unitId"] == "Unit is required"
    ensures "startDate" in errors <==> !Filled(form, "startDate")
    ensures "startDate" in errors ==> errors["startDate"] == "Start date is required"
    ensures "endDate" in errors <==> !Filled(form, "endDate") || EndNotAfterStart(form)
    ensures "endDate" in errors ==>
      errors["endDate"] == (if !Filled(form, "endDate") then "End date is required" else "End date must be after start date")
    ensures "rentAmount" in errors <==> !Filled(form, "rentAmount") || NotPositive(form["rentAmount"])
    ensures "rentAmount" in errors ==>
      errors["rentAmount"]
      == (if !Filled(form, "rentAmount") then "Rent amount is required" else "Rent amount must be greater than 0")
  {
    var party, term := PartyErrors(form), TermErrors(form);
    assert "tenantId" !in term && "unitId" !in term;
    assert "startDate" !in party && "endDate" !in party && "rentAmount" !in party;
    party + term
  }

  /** The errors of the tenant and the unit. */
  function PartyErrors(form: Form): (errors: Form)
    ensures errors.Keys <= {"tenantId", "unitId"}
    ensures "tenantId" in errors <==> !Filled(form, "tenantId")
    ensures "tenantId" in errors ==> errors["tenantId"] == "Tenant is required"
    ensures "unitId" in errors <==> !Filled(form, "unitId")
    ensures "unitId" in errors ==> errors["unitId"] == "Unit is required"
  {
    RequiredError(form, "tenantId", "Tenant is required") + RequiredError(form, "unitId", "Unit is required")
  }

  /** The errors of the dates and the rent. */
  function TermErrors(form: Form): (errors: Form)
    ensures errors.Keys <= {"startDate", "endDate", "rentAmount"}
    ensures "startDate" in errors <==> !Filled(form, "startDate")
    ensures "startDate" in errors ==> errors["startDate"] == "Start date is required"
    ensures "endDate" in errors <==> "endDate" in EndDateError(form)
    ensures "endDate" in errors ==> errors["endDate"] == EndDateError(form)["endDate"]
    ensures "rentAmount" in errors <==> "rentAmount" in RentError(form)
    ensures "rentAmount" in errors ==> errors["rentAmount"] == RentError(form)["rentAmount"]
  {
    RequiredError(form, "startDate", "Start date is required") + EndDateError(form) + RentError(form)
  }

  /** The end date's error: required, then after the start date. */
  function EndDateError(form: Form): (errors: Form)
    ensures errors.Keys <= {"endDate"}
    ensures "endDate" in errors <==> !Filled(form, "endDate") || EndNotAfterStart(form)
    ensures "endDate" in errors ==>
      errors["endDate"] == (if !Filled(form, "endDate") then "End date is required" else "End date must be after start date")
  {
    if !Filled(form, "endDate") then map["endDate" := "End date is required"]
    else if EndNotAfterStart(form) then map["endDate" := "End date must be after start date"]
    else map[]
  }

  /** The rent's error: required, then above 0. */
  function RentError(form: Form): (errors: Form)
    ensures errors.Keys <= {"rentAmount"}
    ensures "rentAmount" in errors <==> !Filled(form, "rentAmount") || NotPositive(form["rentAmount"])
    ensures "rentAmount" in errors ==>
      errors["rentAmount"]
      == (if !Filled(form, "rentAmount") then "Rent amount is required" else "Rent amount must be greater than 0")
  {
    if !Filled(form, "rentAmount") then map["rentAmount" := "Rent amount is required"]
    else if NotPositive(form["rentAmount"]) then map["rentAmount" := "Rent amount must be greater than 0"]
    else map[]
  }

  /** The form passes exactly when all five fields are filled in, the end date is not
      at or before the start date, and the rent does not parse to a number at most 0. */
  lemma LeaseFormValid(form: Form)
    ensures LeaseFormErrors(form) == map[] <==>
      Filled(form, "tenantId") && Filled(form, "unitId") && Filled(form, "startDate") && Filled(form, "endDate")
      && Filled(form, "rentAmount") && !EndNotAfterStart(form) && !NotPositive(form["rentAmount"])
  {
    var e := LeaseFormErrors(form);
    if e != map[] {
      var k :| k in e;
    }
  }

  /** A filled-in form whose dates are a lease's, start before end, passes the date check. */
  lemma LeaseDatesPass(form: Form, start: int, end: int)
    requires "startDate" in form && "endDate" in form
    requires form["startDate"] == Text.IntToString(start) && form["endDate"] == Text.IntToString(end)
    ensures !EndNotAfterStart(form) <==> start < end
  {
    Text.ParseIntRoundTrip(start);
    Text.ParseIntRoundTrip(end);
  }

  // ---------------------------------------------------------------- the unit choices

  /** The test `unit.status === 'available' || editingId`. */
  function Offered(editingId: Option<int>): Unit -> bool {
    (u: Unit) => u.status == "available" || Editing(editingId)
  }

  /** `getAvailableUnits`: none when the units are not an array; all of them while
      editing; otherwise exactly the available ones, in order. */
  function AvailableUnits(units: Fetched<Unit>, editingId: Option<int>): (r: seq<Unit>)
    ensures units.NotArray? ==> r == []
    ensures units.Array? ==> multiset(r) <= multiset(units.items)
    ensures units.Array? && Editing(editingId) ==> r == units.items
    ensures units.Array? && !Editing(editingId) ==>
      (forall u :: u in r <==> u in units.items && u.status == "available")
  {
    if units.NotArray? then []
    else
      KeepMembers(units.items, Offered(editingId));
      if Editing(editingId) then KeepAll(units.items, Offered(editingId)); Keep(units.items, Offered(editingId))
      else Keep(units.items, Offered(editingId))
  }

  /** Without an edit in progress the choices are the available units in load order. */
  lemma AvailableUnitsInOrder(units: seq<Unit>, editingId: Option<int>)
    requires !Editing(editingId)
    ensures AvailableUnits(Array(units), editingId) == Keep(units, (u: Unit) => u.status == "available")
  {
    KeepAgree(units, Offered(editingId), (u: Unit) => u.status == "available");
  }
}
