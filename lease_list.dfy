/**
 * The leases screen the application renders: the lease form's state machine
 * (typing, the required-field gate of a submit, the update-or-create save,
 * editing a listed lease, cancelling). The labels of its table are
 * `Lookups.TenantName` and `Lookups.UnitInfo`.
 */
module LeaseList {
  import opened Wrappers
  import opened Entities
  import opened Forms
  import Text

  const EmptyLeaseForm: Form :=
    map["tenantId" := "", "unitId" := "", "startDate" := "", "endDate" := "", "rentAmount" := ""]

  /** The fields sent as numbers. */
  const NumericFields: set<string> := {"tenantId", "unitId", "rentAmount"}

  /** The gate of `handleSubmit`: all five fields are filled in. */
  predicate LeaseFormComplete(form: Form) {
    Filled(form, "tenantId") && Filled(form, "unitId") && Filled(form, "startDate")
    && Filled(form, "endDate") && Filled(form, "rentAmount")
  }

  /** The form `handleEdit` fills in from a listed lease: its numbers as decimal
      texts and its dates as date texts. Every field the submit gate demands is
      filled in. */
  function LeaseEditForm(l: Lease): (form: Form)
    ensures form.Keys == EmptyLeaseForm.Keys
    ensures LeaseFormComplete(form)
  {
    map["tenantId" := Text.IntToString(l.tenantId), "unitId" := Text.IntToString(l.unitId),
        "startDate" := Text.IntToString(l.startDate), "endDate" := Text.IntToString(l.endDate),
        "rentAmount" := Text.IntToString(l.rentAmount)]
  }

  /** Submitting a form loaded from a lease unchanged sends that lease's numbers and
      dates back: editing and saving is a round trip. */
  lemma EditThenSaveRoundTrip(l: Lease)
    ensures Payload(LeaseEditForm(l), NumericFields)["tenantId"] == NumberValue(Some(l.tenantId))
    ensures Payload(LeaseEditForm(l), NumericFields)["unitId"] == NumberValue(Some(l.unitId))
    ensures Payload(LeaseEditForm(l), NumericFields)["rentAmount"] == NumberValue(Some(l.rentAmount))
    ensures Text.ParseInt(LeaseEditForm(l)["startDate"]) == Some(l.startDate)
    ensures Text.ParseInt(LeaseEditForm(l)["endDate"]) == Some(l.endDate)
  {
    Text.ParseIntRoundTrip(l.tenantId);
    Text.ParseIntRoundTrip(l.unitId);
    Text.ParseIntRoundTrip(l.rentAmount);
    Text.ParseIntRoundTrip(l.startDate);
    Text.ParseIntRoundTrip(l.endDate);
  }

  /** The messages of its saves. */
  const Messages := SaveMessages("Lease updated successfully", "Lease created successfully", "Failed to save lease: ")

  class LeaseScreen {
    var leases: seq<Lease>
    var tenants: seq<Tenant>
    var units: seq<Unit>
    var showForm: bool
    var editingId: Option<int>
    var formData: Form

    /** The state on mount. */
    constructor ()
      ensures leases == [] && tenants == [] && units == []
      ensures !showForm && editingId == None && formData == EmptyLeaseForm
    {
      leases := [];
      tenants := [];
      units := [];
      showForm := false;
      editingId := None;
      formData := EmptyLeaseForm;
    }

    /** `handleInputChange`: only the named field changes. */
    method HandleInputChange(name: string, value: string)
      modifies this`formData
      ensures formData == WithInput(old(formData), name, value)
    {
      formData := WithInput(formData, name, value);
    }

    /**
     * `handleSubmit`, with the awaited request's result as `outcome`. A form missing
     * one of the five fields issues no request and changes nothing; otherwise the
     * save is an update exactly when `editingId` is truthy, and after a successful
     * save the form is reset and hidden.
     */
    method HandleSubmit(outcome: Outcome) returns (request: Option<Request>, notice: Notice)
      modifies this`formData, this`editingId, this`showForm
      ensures request.Some? <==> LeaseFormComplete(old(formData))
      ensures request.None? ==>
        (notice == Notice("Please fill in all fields", Error)
         && formData == old(formData) && editingId == old(editingId) && showForm == old(showForm))
      ensures request.Some? ==>
        (request.value == SaveRequest(old(editingId), Payload(old(formData), NumericFields))
         && notice == SaveNotice(Messages, old(editingId), outcome))
      ensures request.Some? && outcome.Saved? ==> formData == EmptyLeaseForm && editingId == None && !showForm
      ensures request.Some? && outcome.Failed? ==>
        formData == old(formData) && editingId == old(editingId) && showForm == old(showForm)
    {
      if !LeaseFormComplete(formData) {
        return None, Notice("Please fill in all fields", Error);
      }
      request := Some(SaveRequest(editingId, Payload(formData, NumericFields)));
      notice := SaveNotice(Messages, editingId, outcome);
      if outcome.Saved? {
        formData := EmptyLeaseForm;
        editingId := None;
        showForm := false;
      }
    }

    /** `handleEdit`: loads the lease into the form and opens it for an update. */
    method HandleEdit(l: Lease)
      modifies this`formData, this`editingId, this`showForm
      ensures formData == LeaseEditForm(l) && editingId == Some(l.leaseId) && showForm
    {
      formData := LeaseEditForm(l);
      editingId := Some(l.leaseId);
      showForm := true;
    }

    /** `handleCancel`: the same form state as after a successful save. */
    method HandleCancel()
      modifies this`formData, this`editingId, this`showForm
      ensures formData == EmptyLeaseForm && editingId == None && !showForm
    {
      showForm := false;
      editingId := None;
      formData := EmptyLeaseForm;
    }
  }

  /** A fresh screen's empty form is turned away by the gate without a request. */
  method SubmitEmptyForm() returns (request: Option<Request>, notice: Notice)
    ensures request.None? && notice == Notice("Please fill in all fields", Error)
  {
    var screen := new LeaseScreen();
    request, notice := screen.HandleSubmit(Saved);
  }

  /** Editing a lease and submitting the form untouched issues an update of that lease
      when its id is not 0, carrying its rent back. */
  method EditThenSubmit(l: Lease) returns (request: Option<Request>)
    ensures request.Some?
    ensures l.leaseId != 0 ==> request.value.Update? && request.value.id == l.leaseId
    ensures l.leaseId == 0 ==> request.value.Create?
    ensures "rentAmount" in request.value.body && request.value.body["rentAmount"] == NumberValue(Some(l.rentAmount))
  {
    var screen := new LeaseScreen();
    screen.HandleEdit(l);
    EditThenSaveRoundTrip(l);
    var notice;
    request, notice := screen.HandleSubmit(Saved);
  }
}
