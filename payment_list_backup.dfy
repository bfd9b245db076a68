/**
 * The full payments screen (kept as a backup, not wired into the application):
 * the search by tenant name or payment number combined with the status filter,
 * the sortable table, the lookups of tenant names and leases, the validation of
 * the payment form, and the total of the completed payments shown.
 */
module PaymentListBackup {
  import opened Wrappers
  import opened Entities
  import opened Views
  import opened Forms
  import Text
  import opened Lookups
  import PaymentList

  // ---------------------------------------------------------------- lookups

  /** `getTenantLeases`: no leases while no tenant is chosen; otherwise every copy of
      each lease of the tenant whose id the chosen text parses to, and nothing else. */
  function TenantLeases(chosen: string, leases: Fetched<Lease>): (r: seq<Lease>)
    ensures chosen == "" || leases.NotArray? ==> r == []
    ensures chosen != "" && leases.Array? ==>
      forall l :: l in r <==> l in leases.items && Text.ParseInt(chosen) == Some(l.tenantId)
    ensures chosen != "" && leases.Array? ==>
      forall l :: multiset(r)[l] == if Text.ParseInt(chosen) == Some(l.tenantId) then multiset(leases.items)[l] else 0
  {
    if chosen == "" || leases.NotArray? then []
    else
      KeepMembers(leases.items, (l: Lease) => Some(l.tenantId) == Text.ParseInt(chosen));
      KeepMultiset(leases.items, (l: Lease) => Some(l.tenantId) == Text.ParseInt(chosen));
      Keep(leases.items, (l: Lease) => Some(l.tenantId) == Text.ParseInt(chosen))
  }

  /** Once a tenant id is chosen, its leases are listed in their loaded order. */
  lemma TenantLeasesInOrder(chosen: string, items: seq<Lease>, id: int)
    requires Text.ParseInt(chosen) == Some(id)
    ensures TenantLeases(chosen, Array(items)) == Keep(items, (l: Lease) => l.tenantId == id)
  {
    assert chosen != "";
    KeepAgree(items, (l: Lease) => Some(l.tenantId) == Text.ParseInt(chosen), (l: Lease) => l.tenantId == id);
  }

  /** A chosen text that is not a number selects no lease: `===` against `NaN` fails. */
  lemma NaNTenantHasNoLeases(chosen: string, leases: Fetched<Lease>)
    requires Text.ParseInt(chosen).None?
    ensures TenantLeases(chosen, leases) == []
  {
  }

  /** `getLeaseInfo`, with `formatCurrency` as the parameter `money`: the label of the
      first lease with the id, 'Unknown' when there is none or the leases are not an array. */
  function LeaseInfo(leases: Fetched<Lease>, id: int, money: int -> string): (info: string)
    ensures leases.NotArray? ==> info == "Unknown"
    ensures leases.Array? && (forall i :: 0 <= i < |leases.items| ==> leases.items[i].leaseId != id) ==> info == "Unknown"
    ensures leases.Array? && (exists i :: 0 <= i < |leases.items| && leases.items[i].leaseId == id) ==>
      info == "Lease #" + Text.IntToString(id) + " (" + money(leases.items[FirstLease(leases.items, id)].rentAmount) + "/mo)"
  {
    if leases.NotArray? then "Unknown"
    else LabelOf(leases.items, (l: Lease) => l.leaseId == id,
                 (l: Lease) => "Lease #" + Text.IntToString(l.leaseId) + " (" + money(l.rentAmount) + "/mo)")
  }

  /** The position of the first lease with the id. */
  function FirstLease(leases: seq<Lease>, id: int): (i: nat)
    requires exists i :: 0 <= i < |leases| && leases[i].leaseId == id
    ensures i < |leases| && leases[i].leaseId == id
    ensures forall j :: 0 <= j < i ==> leases[j].leaseId != id
  {
    FindIndex(leases, (l: Lease) => l.leaseId == id).value
  }

  // ---------------------------------------------------------------- search and status filter

  /** The filter of `filterAndSortPayments`: the lower-cased term occurs in the
      resolved tenant name (lower-cased) or in the payment number, and the status
      filter is 'all' or names the payment's status. */
  function PaymentMatches(tenants: Fetched<Tenant>, term: string, filterStatus: string): Payment -> bool {
    (p: Payment) =>
      (Text.Includes(Text.Lower(FetchedTenantName(tenants, p.tenantId)), Text.Lower(term))
       || Text.Includes(Text.IntToString(p.paymentId), Text.Lower(term)))
      && (filterStatus == "all" || p.status == filterStatus)
  }

  /** A payment whose tenant is not found is searched under the name 'Unknown', so it
      matches every term that occurs in 'unknown'. */
  lemma UnresolvedTenantMatchesUnknown(tenants: Fetched<Tenant>, term: string, filterStatus: string, p: Payment)
    requires tenants.NotArray? || forall i :: 0 <= i < |tenants.items| ==> tenants.items[i].tenantId != p.tenantId
    requires Text.Includes("unknown", Text.Lower(term))
    requires filterStatus == "all" || p.status == filterStatus
    ensures PaymentMatches(tenants, term, filterStatus)(p)
  {
    assert Text.Lower("Unknown") == "unknown";
  }

  // ---------------------------------------------------------------- sorting

  /** The sortable columns; the payment date compares as a date, that is by its time value. */
  datatype PaymentField = PaymentId | TenantId | LeaseId | Amount | PaymentDate | Status

  function PaymentKey(f: PaymentField): Payment -> Key {
    match f
    case PaymentId => (p: Payment) => Num(p.paymentId)
    case TenantId => (p: Payment) => Num(p.tenantId)
    case LeaseId => (p: Payment) => Num(p.leaseId)
    case Amount => (p: Payment) => Num(p.amount)
    case PaymentDate => (p: Payment) => Num(p.paymentDate)
    case Status => (p: Payment) => Str(p.status)
  }

  function PaymentSortKey(key: Option<PaymentField>): Option<Payment -> Key> {
    if key.Some? then Some(PaymentKey(key.value)) else None
  }

  /** The table: empty when the payments are not an array, otherwise the matching
      payments, sorted when a column is chosen. */
  function PaymentView(payments: Fetched<Payment>, tenants: Fetched<Tenant>, term: string, filterStatus: string,
                       config: SortConfig<PaymentField>): seq<Payment>
  {
    if payments.NotArray? then []
    else View(payments.items, PaymentMatches(tenants, term, filterStatus), PaymentSortKey(config.key), config.direction)
  }

  /** The table holds exactly the matching payments, each as often as loaded (none
      when the payments are not an array); with no sort key in load order; with a key
      in column order, ties in load order. */
  lemma PaymentViewProperties(payments: Fetched<Payment>, tenants: Fetched<Tenant>, term: string, filterStatus: string,
                              config: SortConfig<PaymentField>)
    ensures payments.NotArray? ==> PaymentView(payments, tenants, term, filterStatus, config) == []
    ensures payments.Array? ==>
      multiset(PaymentView(payments, tenants, term, filterStatus, config))
      == multiset(Keep(payments.items, PaymentMatches(tenants, term, filterStatus)))
    ensures payments.Array? ==> forall p ::
      p in PaymentView(payments, tenants, term, filterStatus, config)
      <==> p in payments.items && PaymentMatches(tenants, term, filterStatus)(p)
    ensures payments.Array? && config.key.None? ==>
      PaymentView(payments, tenants, term, filterStatus, config) == Keep(payments.items, PaymentMatches(tenants, term, filterStatus))
    ensures config.key.Some? ==>
      Ordered(PaymentView(payments, tenants, term, filterStatus, config), PaymentKey(config.key.value), config.direction)
    ensures payments.Array? && config.key.Some? ==> forall k ::
      Keep(PaymentView(payments, tenants, term, filterStatus, config), HasKey(PaymentKey(config.key.value), k))
      == Keep(Keep(payments.items, PaymentMatches(tenants, term, filterStatus)), HasKey(PaymentKey(config.key.value), k))
  {
    if payments.Array? {
      ViewProperties(payments.items, PaymentMatches(tenants, term, filterStatus), PaymentSortKey(config.key), config.direction);
    }
  }

  // ---------------------------------------------------------------- total

  predicate Completed(p: Payment) {
    p.status == "completed"
  }

  /** `getTotalAmount`: the sum of the amounts of the completed payments shown. */
  function TotalAmount(view: seq<Payment>): int {
    SumOf(Keep(view, (p: Payment) => Completed(p)), (p: Payment) => p.amount)
  }

  /** What a payment adds to the total: its amount when completed, nothing otherwise. */
  function CompletedAmount(p: Payment): int {
    if Completed(p) then p.amount else 0
  }

  /** The total counts each completed payment once and every other payment not at all. */
  lemma TotalAmountCountsCompleted(view: seq<Payment>)
    ensures TotalAmount(view) == SumOf(view, CompletedAmount)
  {
    SumOfKeep(view, (p: Payment) => Completed(p), (p: Payment) => p.amount, CompletedAmount);
  }

  /** The total does not depend on the order of the table, so sorting never changes it. */
  lemma TotalAmountOrderFree(a: seq<Payment>, b: seq<Payment>)
    requires multiset(a) == multiset(b)
    ensures TotalAmount(a) == TotalAmount(b)
  {
    TotalAmountCountsCompleted(a);
    TotalAmountCountsCompleted(b);
    SumOfPermutation(a, b, CompletedAmount);
  }

  /** Whatever column the table is sorted by, the total is that of the unsorted table. */
  lemma TotalAmountUnsorted(payments: Fetched<Payment>, tenants: Fetched<Tenant>, term: string, filterStatus: string,
                            config: SortConfig<PaymentField>)
    ensures TotalAmount(PaymentView(payments, tenants, term, filterStatus, config))
         == TotalAmount(PaymentView(payments, tenants, term, filterStatus, SortConfig(None, Asc)))
  {
    PaymentViewProperties(payments, tenants, term, filterStatus, config);
    PaymentViewProperties(payments, tenants, term, filterStatus, SortConfig(None, Asc));
    TotalAmountOrderFree(PaymentView(payments, tenants, term, filterStatus, config),
                         PaymentView(payments, tenants, term, filterStatus, SortConfig(None, Asc)));
  }

  // ---------------------------------------------------------------- the form

  /** The errors `validateForm` records: tenant, lease, amount and date are required,
      and an amount that parses must be above 0. */
  function PaymentFormErrors(form: Form): (errors: Form)
    ensures errors.Keys <= {"tenantId", "leaseId", "amount", "paymentDate"}
    ensures "tenantId" in errors <==> !Filled(form, "tenantId")
    ensures "tenantId" in errors ==> errors["tenantId"] == "Tenant is required"
    ensures "leaseId" in errors <==> !Filled(form, "leaseId")
    ensures "leaseId" in errors ==> errors["leaseId"] == "Lease is required"
    ensures "amount" in errors <==> !Filled(form, "amount") || NotPositive(form["amount"])
    ensures "amount" in errors ==>
      errors["amount"] == (if !Filled(form, "amount") then "Amount is required" else "Amount must be greater than 0")
    ensures "paymentDate" in errors <==> !Filled(form, "paymentDate")
    ensures "paymentDate" in errors ==> errors["paymentDate"] == "Payment date is required"
  {
    var e1: Form := if !Filled(form, "tenantId") then map["tenantId" := "Tenant is required"] else map[];
    var e2 := if !Filled(form, "leaseId") then e1["leaseId" := "Lease is required"] else e1;
    var e3 :=
      if !Filled(form, "amount") then e2["amount" := "Amount is required"]
      else if NotPositive(form["amount"]) then e2["amount" := "Amount must be greater than 0"]
      else e2;
    if !Filled(form, "paymentDate") then e3["paymentDate" := "Payment date is required"] else e3
  }

  /** The form passes exactly when tenant, lease, amount and date are filled in and
      the amount does not parse to a number at most 0. */
  lemma PaymentFormValid(form: Form)
    ensures PaymentFormErrors(form) == map[] <==>
      Filled(form, "tenantId") && Filled(form, "leaseId") && Filled(form, "amount")
      && Filled(form, "paymentDate") && !NotPositive(form["amount"])
  {
    var e := PaymentFormErrors(form);
    if e != map[] {
      var k :| k in e;
    }
  }

  /** A payment loaded into the form passes the validation exactly when its amount
      is above 0. */
  lemma EditedPaymentValid(p: Payment)
    ensures PaymentFormErrors(PaymentList.PaymentEditForm(p)) == map[] <==> p.amount > 0
  {
    PaymentFormValid(PaymentList.PaymentEditForm(p));
    Text.ParseIntRoundTrip(p.amount);
  }

  // ---------------------------------------------------------------- the screen

  /** The messages of its saves. */
  const Messages := SaveMessages("Payment updated successfully", "Payment recorded successfully", "Failed to save payment: ")

  class PaymentBackupScreen {
    var payments: Fetched<Payment>
    var filteredPayments: seq<Payment>
    var tenants: Fetched<Tenant>
    var leases: Fetched<Lease>
    var searchTerm: string
    var filterStatus: string
    var sortConfig: SortConfig<PaymentField>
    var showForm: bool
    var editingId: Option<int>
    var formData: Form
    var formErrors: Form

    /** The state on mount, after the recomputation of the empty table. */
    constructor ()
      ensures payments == Array([]) && filteredPayments == [] && tenants == Array([]) && leases == Array([])
      ensures searchTerm == "" && filterStatus == "all" && sortConfig == SortConfig(None, Asc)
      ensures !showForm && editingId == None
      ensures formData == PaymentList.EmptyPaymentForm && formErrors == map[]
    {
      payments := Array([]);
      filteredPayments := [];
      tenants := Array([]);
      leases := Array([]);
      searchTerm := "";
      filterStatus := "all";
      sortConfig := SortConfig(None, Asc);
      showForm := false;
      editingId := None;
      formData := PaymentList.EmptyPaymentForm;
      formErrors := map[];
    }

    /** `filterAndSortPayments`: recomputes the table from the current state. */
    method FilterAndSortPayments()
      modifies this`filteredPayments
      ensures filteredPayments == PaymentView(payments, tenants, searchTerm, filterStatus, sortConfig)
    {
      if payments.NotArray? {
        filteredPayments := [];
        return;
      }
      filteredPayments := Recompute(payments.items, PaymentMatches(tenants, searchTerm, filterStatus),
                                    PaymentSortKey(sortConfig.key), sortConfig.direction);
    }

    /** A successful payments fetch; the effect then recomputes the table. */
    method LoadPayments(data: Fetched<Payment>)
      modifies this`payments, this`filteredPayments
      ensures payments == data
      ensures filteredPayments == PaymentView(data, tenants, searchTerm, filterStatus, sortConfig)
    {
      payments := data;
      FilterAndSortPayments();
    }

    /** A successful tenants fetch. The tenants are not among the effect's
        dependencies, so the table keeps the names resolved before they arrived. */
    method LoadTenants(data: Fetched<Tenant>)
      modifies this`tenants
      ensures tenants == data
    {
      tenants := data;
    }

    /** A successful leases fetch. */
    method LoadLeases(data: Fetched<Lease>)
      modifies this`leases
      ensures leases == data
    {
      leases := data;
    }

    /** Typing in the search bar; the effect then recomputes the table. */
    method SetSearchTerm(term: string)
      modifies this`searchTerm, this`filteredPayments
      ensures searchTerm == term
      ensures filteredPayments == PaymentView(payments, tenants, term, filterStatus, sortConfig)
    {
      searchTerm := term;
      FilterAndSortPayments();
    }

    /** Choosing a status in the filter; the effect then recomputes the table. */
    method SetFilterStatus(status: string)
      modifies this`filterStatus, this`filteredPayments
      ensures filterStatus == status
      ensures filteredPayments == PaymentView(payments, tenants, searchTerm, status, sortConfig)
    {
      filterStatus := status;
      FilterAndSortPayments();
    }

    /** `handleSort(k)`; the effect then recomputes the table. */
    method HandleSort(k: PaymentField)
      modifies this`sortConfig, this`filteredPayments
      ensures sortConfig == NextSort(old(sortConfig), k)
      ensures filteredPayments == PaymentView(payments, tenants, searchTerm, filterStatus, sortConfig)
    {
      sortConfig := NextSort(sortConfig, k);
      FilterAndSortPayments();
    }

    /** `handleInputChange`: the named field takes the value and its error is cleared. */
    method HandleInputChange(name: string, value: string)
      modifies this`formData, this`formErrors
      ensures formData == WithInput(old(formData), name, value)
      ensures formErrors == ClearError(old(formErrors), name)
    {
      formData := WithInput(formData, name, value);
      formErrors := ClearError(formErrors, name);
    }

    /** `validateForm`: records the errors and answers whether there are none. */
    method ValidateForm() returns (ok: bool)
      modifies this`formErrors
      ensures formErrors == PaymentFormErrors(formData)
      ensures ok <==> formErrors == map[]
    {
      formErrors := PaymentFormErrors(formData);
      ok := |formErrors| == 0;
    }

    /**
     * `handleSubmit`, with the awaited request's result as `outcome`. An invalid
     * form issues no request; a valid one sends tenant, lease and amount as
     * numbers in an update or a create, and after a successful save the form is
     * reset and hidden.
     */
    method HandleSubmit(outcome: Outcome) returns (request: Option<Request>, notice: Option<Notice>)
      modifies this`formData, this`formErrors, this`editingId, this`showForm
      ensures request.Some? <==> PaymentFormErrors(old(formData)) == map[]
      ensures request.None? ==>
        (notice.None? && formErrors == PaymentFormErrors(old(formData))
         && formData == old(formData) && editingId == old(editingId) && showForm == old(showForm))
      ensures request.Some? ==>
        (request.value == SaveRequest(old(editingId), Payload(old(formData), PaymentList.NumericFields))
         && notice == Some(SaveNotice(Messages, old(editingId), outcome)))
      ensures request.Some? && outcome.Saved? ==>
        formData == PaymentList.EmptyPaymentForm && formErrors == map[] && editingId == None && !showForm
      ensures request.Some? && outcome.Failed? ==>
        formData == old(formData) && formErrors == map[] && editingId == old(editingId) && showForm == old(showForm)
    {
      var ok := ValidateForm();
      if !ok {
        return None, None;
      }
      request := Some(SaveRequest(editingId, Payload(formData, PaymentList.NumericFields)));
      notice := Some(SaveNotice(Messages, editingId, outcome));
      if outcome.Saved? {
        HandleCancel();
      }
    }

    /** `handleEdit`: loads the payment into the form and opens it for an update. */
    method HandleEdit(p: Payment)
      modifies this`formData, this`editingId, this`showForm
      ensures formData == PaymentList.PaymentEditForm(p) && editingId == Some(p.paymentId) && showForm
    {
      formData := PaymentList.PaymentEditForm(p);
      editingId := Some(p.paymentId);
      showForm := true;
    }

    /** `handleCancel`: the same form state as after a successful save. */
    method HandleCancel()
      modifies this`formData, this`formErrors, this`editingId, this`showForm
      ensures formData == PaymentList.EmptyPaymentForm && formErrors == map[] && editingId == None && !showForm
    {
      showForm := false;
      editingId := None;
      formData := PaymentList.EmptyPaymentForm;
      formErrors := map[];
    }
  }

  /** Editing a payment with a positive amount and submitting the form untouched
      issues a request; with an amount at most 0 the validation stops it. */
  method EditThenSubmit(p: Payment) returns (request: Option<Request>)
    ensures request.Some? <==> p.amount > 0
  {
    var screen := new PaymentBackupScreen();
    screen.HandleEdit(p);
    EditedPaymentValid(p);
    var notice;
    request, notice := screen.HandleSubmit(Saved);
  }

  /** Neither 'Unknown' nor the payment number 7 contains a 'z'. */
  lemma NoZWithoutTenant(p: Payment)
    requires p == Payment(7, 1, 1, 100, 0, "completed")
    ensures !PaymentMatches(Array([]), "z", "all")(p)
  {
    assert Text.Lower("z") == "z";
    assert Text.Lower("Unknown") == "unknown";
    Text.MissingCharExcludes("unknown", "z", 0);
    assert Text.IntToString(7) == "7";
    Text.MissingCharExcludes("7", "z", 0);
  }

  /** Resolved to 'Zed', the tenant's name contains the 'z'. */
  lemma ZWithTenant(p: Payment, zed: Tenant)
    requires p == Payment(7, 1, 1, 100, 0, "completed") && zed == Tenant(1, "Zed", "zed@example.com")
    ensures PaymentMatches(Array([zed]), "z", "all")(p)
  {
    assert FetchedTenantName(Array([zed]), 1) == "Zed";
    assert Text.Lower("z") == "z";
    assert Text.Lower("Zed") == "zed" && "zed"[..1] == "z";
  }

  /** One payment of tenant 1 searched for 'z': while no tenant is loaded its tenant
      resolves to 'Unknown' and it is not shown; once tenant 1, 'Zed', is loaded it is. */
  lemma SearchDependsOnTenants()
    ensures PaymentView(Array([Payment(7, 1, 1, 100, 0, "completed")]), Array([]), "z", "all", SortConfig(None, Asc)) == []
    ensures PaymentView(Array([Payment(7, 1, 1, 100, 0, "completed")]), Array([Tenant(1, "Zed", "zed@example.com")]),
                        "z", "all", SortConfig(None, Asc)) == [Payment(7, 1, 1, 100, 0, "completed")]
  {
    var p := Payment(7, 1, 1, 100, 0, "completed");
    var zed := Tenant(1, "Zed", "zed@example.com");
    NoZWithoutTenant(p);
    ZWithTenant(p, zed);
    assert [p][..0] == [];
  }

  /** Tenants arriving after the payments leave the table as it was: the search
      above keeps showing nothing, although the table the current state describes
      holds the payment, until something the recomputation depends on changes. */
  method StaleTenantNames() returns (screen: PaymentBackupScreen)
    ensures screen.filteredPayments == []
    ensures PaymentView(screen.payments, screen.tenants, screen.searchTerm, screen.filterStatus, screen.sortConfig)
         == [Payment(7, 1, 1, 100, 0, "completed")]
  {
    screen := new PaymentBackupScreen();
    screen.SetSearchTerm("z");
    screen.LoadPayments(Array([Payment(7, 1, 1, 100, 0, "completed")]));
    SearchDependsOnTenants();
    screen.LoadTenants(Array([Tenant(1, "Zed", "zed@example.com")]));
  }
}
