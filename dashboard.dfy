/**
 * The dashboard's statistics: the sizes of the four collections, the units
 * available and occupied, the leases active at the current instant `now`, and
 * the five most recent payments, which the screen takes after sorting the
 * fetched payments array in place, newest first.
 */
module Dashboard {
  import opened Wrappers
  import opened Entities
  import opened Views
  import opened Forms
  import opened Formatters

  /** The `stats` state record. */
  datatype Stats = Stats(
    totalTenants: nat,
    totalUnits: nat,
    availableUnits: nat,
    occupiedUnits: nat,
    activeLeases: nat,
    totalPayments: nat,
    recentPayments: seq<Payment>)

  const InitialStats := Stats(0, 0, 0, 0, 0, 0, [])

  /** How many recent payments the dashboard lists. */
  const RecentCount: nat := 5

  function Min(a: nat, b: nat): nat {
    if a < b then a else b
  }

  predicate IsAvailable(u: Unit) {
    u.status == "available"
  }

  predicate IsOccupied(u: Unit) {
    u.status == "occupied"
  }

  /** The filter of the active leases: now lies between the start and end dates. */
  predicate ActiveAt(now: int, l: Lease) {
    IsLeaseActive(l.startDate, l.endDate, now)
  }

  /** The payment date as the sort key: its time value. */
  function PaymentDateKey(p: Payment): Key {
    Num(p.paymentDate)
  }

  /** The comparator `(a, b) => new Date(b.paymentDate) - new Date(a.paymentDate)`. */
  function NewestFirst(a: Payment, b: Payment): int {
    b.paymentDate - a.paymentDate
  }

  /** In the descending order of dates, a payment is placed after another exactly
      when it is older. */
  lemma BehindIsOlder(a: Payment, b: Payment)
    ensures Behind(PaymentDateKey, Desc)(a, b) <==> a.paymentDate < b.paymentDate
  {
    var key := PaymentDateKey;
    assert key(a) == Num(a.paymentDate) && key(b) == Num(b.paymentDate);
    assert Behind(key, Desc)(a, b) == After(Desc, key(a), key(b));
  }

  /** `sort` only looks at the comparator's sign, and the sign of the date difference
      is that of the descending comparison of the dates: sorting with it is `SortBy`
      on the date key, descending. */
  lemma NewestFirstIsDescending(a: Payment, b: Payment)
    ensures NewestFirst(a, b) > 0 <==> Behind(PaymentDateKey, Desc)(a, b)
    ensures NewestFirst(a, b) < 0 <==> Behind(PaymentDateKey, Desc)(b, a)
  {
    BehindIsOlder(a, b);
    BehindIsOlder(b, a);
  }

  /** `payments.sort(NewestFirst).slice(0, 5)`, on the value of the array. */
  function RecentPayments(payments: seq<Payment>): (recent: seq<Payment>)
    ensures |recent| == Min(RecentCount, |payments|)
    ensures multiset(recent) <= multiset(payments)
  {
    var sorted := SortBy(payments, PaymentDateKey, Desc);
    assert sorted == sorted[..Min(RecentCount, |payments|)] + sorted[Min(RecentCount, |payments|)..];
    sorted[..Min(RecentCount, |payments|)]
  }

  /** The statistics `fetchDashboardData` stores for the fetched collections. */
  function StatsOf(tenants: seq<Tenant>, units: seq<Unit>, leases: seq<Lease>, payments: seq<Payment>, now: int): (s: Stats)
    ensures s.totalTenants == |tenants| && s.totalUnits == |units| && s.totalPayments == |payments|
    ensures s.availableUnits + s.occupiedUnits <= s.totalUnits
    ensures s.activeLeases <= |leases|
    ensures |s.recentPayments| == Min(RecentCount, |payments|)
  {
    CountDisjoint(units, IsAvailable, IsOccupied);
    KeepMembers(leases, (l: Lease) => ActiveAt(now, l));
    Stats(|tenants|, |units|, Count(units, IsAvailable), Count(units, IsOccupied),
          Count(leases, (l: Lease) => ActiveAt(now, l)), |payments|, RecentPayments(payments))
  }

  /** The counted units and leases are exactly those with the status or activity. */
  lemma StatsCounts(tenants: seq<Tenant>, units: seq<Unit>, leases: seq<Lease>, payments: seq<Payment>, now: int)
    ensures StatsOf(tenants, units, leases, payments, now).availableUnits
         == |Keep(units, (u: Unit) => u.status == "available")|
    ensures StatsOf(tenants, units, leases, payments, now).occupiedUnits
         == |Keep(units, (u: Unit) => u.status == "occupied")|
    ensures forall l ::
      l in Keep(leases, (l: Lease) => ActiveAt(now, l)) <==> l in leases && l.startDate <= now <= l.endDate
  {
    KeepAgree(units, IsAvailable, (u: Unit) => u.status == "available");
    KeepAgree(units, IsOccupied, (u: Unit) => u.status == "occupied");
    KeepMembers(leases, (l: Lease) => ActiveAt(now, l));
  }

  /** The recent payments are listed newest first. */
  lemma RecentPaymentsNewestFirst(payments: seq<Payment>)
    ensures forall i, j :: 0 <= i < j < |RecentPayments(payments)| ==>
      RecentPayments(payments)[i].paymentDate >= RecentPayments(payments)[j].paymentDate
  {
    var sorted := SortBy(payments, PaymentDateKey, Desc);
    SortByOrdered(payments, PaymentDateKey, Desc);
    var recent := RecentPayments(payments);
    forall i, j | 0 <= i < j < |recent|
      ensures recent[i].paymentDate >= recent[j].paymentDate
    {
      assert recent[i] == sorted[i] && recent[j] == sorted[j];
      BehindIsOlder(sorted[i], sorted[j]);
    }
  }

  /** What a prefix leaves out of a sequence is its suffix. */
  lemma PrefixLeavesSuffix<T>(s: seq<T>, n: nat)
    requires n <= |s|
    ensures multiset(s) - multiset(s[..n]) == multiset(s[n..])
  {
    assert s == s[..n] + s[n..];
  }

  /** No payment left out of the recent ones is newer than the last one listed. */
  lemma RecentPaymentsNewest(payments: seq<Payment>)
    requires payments != []
    ensures forall p :: p in multiset(payments) - multiset(RecentPayments(payments)) ==>
      p.paymentDate <= RecentPayments(payments)[|RecentPayments(payments)| - 1].paymentDate
  {
    var sorted := SortBy(payments, PaymentDateKey, Desc);
    var n := Min(RecentCount, |payments|);
    PrefixLeavesSuffix(sorted, n);
    assert RecentPayments(payments) == sorted[..n];
    SortByOrdered(payments, PaymentDateKey, Desc);
    var rest := sorted[n..];
    forall p: Payment | p in multiset(rest)
      ensures p.paymentDate <= sorted[n - 1].paymentDate
    {
      assert p in rest;
      var k :| 0 <= k < |rest| && rest[k] == p;
      assert sorted[n + k] == p;
      BehindIsOlder(sorted[n - 1], sorted[n + k]);
    }
  }

  class DashboardScreen {
    var stats: Stats
    var loading: bool

    /** The state on mount: zero statistics while loading. */
    constructor ()
      ensures stats == InitialStats && loading
    {
      stats := InitialStats;
      loading := true;
    }

    /**
     * `fetchDashboardData` once the four requests are answered: `failure` is the
     * message of a failed request, if any. On success the payments array is sorted
     * in place, newest first, and the statistics are stored; on failure they stay as
     * they were and the error is reported. Loading ends either way.
     */
    method FetchDashboardData(tenants: seq<Tenant>, units: seq<Unit>, leases: seq<Lease>, payments: array<Payment>,
                              now: int, failure: Option<string>)
      returns (notice: Option<Notice>)
      modifies this`stats, this`loading, payments
      ensures !loading
      ensures failure.Some? ==>
        (stats == old(stats) && payments[..] == old(payments[..])
         && notice == Some(Notice("Failed to fetch dashboard data: " + failure.value, Error)))
      ensures failure.None? ==>
        (payments[..] == SortBy(old(payments[..]), PaymentDateKey, Desc)
         && stats == StatsOf(tenants, units, leases, old(payments[..]), now) && notice.None?)
    {
      loading := true;
      if failure.Some? {
        loading := false;
        return Some(Notice("Failed to fetch dashboard data: " + failure.value, Error));
      }
      var fetched := payments[..];
      var availableUnits := Count(units, IsAvailable);
      var occupiedUnits := Count(units, IsOccupied);
      var activeLeases := Count(leases, (l: Lease) => ActiveAt(now, l));
      SortInPlace(payments, Behind(PaymentDateKey, Desc));
      var recent := payments[..Min(RecentCount, payments.Length)];
      stats := Stats(|tenants|, |units|, availableUnits, occupiedUnits, activeLeases, payments.Length, recent);
      loading := false;
      notice := None;
    }
  }
}
