/**
 * The pure helpers of the formatting utilities: the status colour lookup, the
 * day count to a date, and lease activity. Dates are time values in
 * milliseconds and the current instant is the parameter `now`; both helpers
 * read the clock on their own in the program, the model gives them one `now`.
 */
module Formatters {

  /** Milliseconds in a day: `1000 * 60 * 60 * 24`. */
  const MsPerDay: int := 86400000

  // ---------------------------------------------------------------- status colours

  /** The object literal used as the status table: each own key with its colour. */
  const StatusTable: map<string, string> := map[
    "available" := "success",
    "occupied" := "danger",
    "maintenance" := "warning",
    "completed" := "success",
    "pending" := "warning",
    "failed" := "danger"
  ]

  /** The properties every object literal inherits from `Object.prototype`; a
      bracket lookup with one of these names finds a function (or, for
      `__proto__`, the prototype object), never `undefined`. */
  const PrototypeMembers: set<string> := {
    "constructor", "toString", "toLocaleString", "valueOf", "hasOwnProperty",
    "isPrototypeOf", "propertyIsEnumerable", "__proto__", "__defineGetter__",
    "__defineSetter__", "__lookupGetter__", "__lookupSetter__"
  }

  /** What `getStatusColor` can return: a colour name, or an inherited member. */
  datatype LookupResult = Colour(name: string) | InheritedMember(member: string)

  /**
   * `getStatusColor` as written: `statusMap[status] || 'secondary'`. A bracket
   * lookup walks the prototype chain, and every inherited member is truthy, so
   * the fallback is only reached for names that are neither own keys nor
   * inherited members.
   */
  function StatusColorAsWritten(status: string): (r: LookupResult)
    ensures r.InheritedMember? <==> status !in StatusTable && status in PrototypeMembers
    ensures r.Colour? ==> r.name in {"success", "danger", "warning", "secondary"}
  {
    if status in StatusTable then Colour(StatusTable[status])
    else if status in PrototypeMembers then InheritedMember(status)
    else Colour("secondary")
  }

  /** `getStatusColor("toString")` returns the inherited `toString` function, not a colour. */
  lemma StatusColorAsWrittenLeaks()
    ensures StatusColorAsWritten("toString") == InheritedMember("toString")
    ensures StatusColorAsWritten("constructor") == InheritedMember("constructor")
  {
    assert "toString" !in StatusTable;
    assert "constructor" !in StatusTable;
  }

  /**
   * The status colour with an own-property lookup: the six statuses of the table
   * get their colour and every other text, the empty one included, 'secondary'.
   */
  function StatusColor(status: string): (r: string)
    ensures status == "available" || status == "completed" ==> r == "success"
    ensures status == "occupied" || status == "failed" ==> r == "danger"
    ensures status == "maintenance" || status == "pending" ==> r == "warning"
    ensures r == "secondary" <==> status !in {"available", "occupied", "maintenance", "completed", "pending", "failed"}
  {
    if status in StatusTable then StatusTable[status] else "secondary"
  }

  /** The lookup as written agrees with the own-property lookup on every status
      that is not the name of an inherited member. */
  lemma StatusColorAgrees(status: string)
    requires status !in PrototypeMembers
    ensures StatusColorAsWritten(status) == Colour(StatusColor(status))
  {
  }

  // ---------------------------------------------------------------- dates

  /**
   * `daysUntil`: `Math.ceil((date - now) / MsPerDay)`. Dafny's division rounds
   * down for a positive divisor, so the ceiling is the negated floor of the
   * negated difference. The result is the least whole number of days that
   * reaches the date.
   */
  function DaysUntil(date: int, now: int): (days: int)
    ensures (days - 1) * MsPerDay < date - now <= days * MsPerDay
  {
    -((now - date) / MsPerDay)
  }

  /** The day count is at most zero exactly when the date is not after now. */
  lemma DaysUntilNonPositive(date: int, now: int)
    ensures DaysUntil(date, now) <= 0 <==> date <= now
  {
  }

  /** A later date never gives fewer days. */
  lemma DaysUntilMonotone(d1: int, d2: int, now: int)
    requires d1 <= d2
    ensures DaysUntil(d1, now) <= DaysUntil(d2, now)
  {
  }

  /** A date a whole number of days away gives exactly that number. */
  lemma DaysUntilWholeDays(now: int, k: int)
    ensures DaysUntil(now + k * MsPerDay, now) == k
  {
  }

  /** `isLeaseActive`: now lies between the start and the end, both included. */
  predicate IsLeaseActive(start: int, end: int, now: int) {
    now >= start && now <= end
  }

  /** A lease whose end precedes its start is never active. */
  lemma InvertedLeaseNeverActive(start: int, end: int, now: int)
    requires start > end
    ensures !IsLeaseActive(start, end, now)
  {
  }

  /** While a lease is active the count of days to its end is not negative. */
  lemma ActiveLeaseDaysLeft(start: int, end: int, now: int)
    requires IsLeaseActive(start, end, now)
    ensures DaysUntil(end, now) >= 0
  {
  }
}
