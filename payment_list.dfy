/**
 * The payments screen the application renders: the payment form's state
 * machine (typing, the required-field gate of a submit, the update-or-create
 * save, editing a listed payment, cancelling). The tenant names of its table are
 * `Lookups.TenantName`.
 */
module PaymentList {
  import opened Wrappers
  import opened Entities
  import opened Forms
  import Text

  const EmptyPaymentForm: Form :=
    map["tenantId" := "", "leaseId" := "", "amount" := "", "paymentDate" := "", "status" := "completed"]

  /** The fields the submit gate demands and the fields sent as numbers. */
  const NumericFields: set<string> := {"tenantId", "leaseId", "amount"}

  /** The gate of `handleSubmit`: tenant, lease, amount and date are all filled in. */
  predicate PaymentFormComplete(form: Form) {
    Filled(form, "tenantId") && Filled(form, "leaseId") && Filled(form, "amount") && Filled(form, "paymentDate")
  }

  /** The form `handleEdit` fills in from a listed payment: its numbers as decimal
      texts, its date as the date text, its status as is. Every field the submit gate
      demands is filled in. */
  function PaymentEditForm(p: Payment): (form: Form)
    ensures form.Keys == EmptyPaymentForm.Keys
    ensures PaymentFormComplete(form)
    ensures form["status"] == p.status
  {
    map["tenantId" := Text.IntToString(p.tenantId), "leaseId" := Text.IntToString(p.leaseId),
        "amount" := Text.IntToString(p.amount), "paymentDate" := Text.IntToString(p.paymentDate),
        "status" := p.status]
  }

  /** Submitting a form loaded from a payment unchanged sends that payment's numbers
      and date back: editing and saving is a round trip. */
  lemma EditThenSaveRoundTrip(p: Payment)
    ensures Payload(PaymentEditForm(p), NumericFields)["tenantId"] == NumberValue(Some(p.tenantId))
    ensures Payload(PaymentEditForm(p), NumericFields)["leaseId"] == NumberValue(Some(p.leaseId))
    ensures Payload(PaymentEditForm(p), NumericFields)["amount"] == NumberValue(Some(p.amount))
    ensures Payload(PaymentEditForm(p), NumericFields)["paymentDate"] == TextValue(Text.IntToString(p.paymentDate))
    ensures Text.ParseInt(PaymentEditForm(p)["paymentDate"]) == Some(p.paymentDate)
    ensures Payload(PaymentEditForm(p), NumericFields)["status"] == TextValue(p.status)
  {
    Text.ParseIntRoundTrip(p.tenantId);
    Text.ParseIntRoundTrip(p.leaseId);
    Text.ParseIntRoundTrip(p.amount);
    Text.ParseIntRoundTrip(p.paymentDate);
  }

  /** The messages of its saves. */
  const Messages := SaveMessages("Payment updated successfully", "Payment created successfully", "Failed to save payment: ")

  class PaymentScreen {
    var payments: seq<Payment>
    var tenants: seq<Tenant>
    var leases: seq<Lease>
    var showForm: bool
    var editingId: Option<int>
    var formData: Form

    /** The state on mount. */
    constructor ()
      ensures payments == [] && tenants == [] && leases == []
      ensures !showForm && editingId == None && formData == EmptyPaymentForm
    {
      payments := [];
      tenants := [];
      leases := [];
      showForm := false;
      editingId := None;
      formData := EmptyPaymentForm;
    }

    /** `handleInputChange`: only the named field changes. */
    method HandleInputChange(name: string, value: string)
      modifies this`formData
      ensures formData == WithInput(old(formData), name, value)
    {
      formData := WithInput(formData, name, value);
    }

    /**
     * `handleSubmit`, with the awaited request's result as `outcome`. A form missing
     * one of the four fields issues no request and changes nothing; otherwise the
     * save is an update exactly when `editingId` is truthy, and after a successful
     * save the form is reset and hidden.
     */
    method HandleSubmit(outcome: Outcome) returns (request: Option<Request>, notice: Notice)
      modifies this`formData, this`editingId, this`showForm
      ensures request.Some? <==> PaymentFormComplete(old(formData))
      ensures request.None? ==>
        (notice == Notice("Please fill in all fields", Error)
         && formData == old(formData) && editingId == old(editingId) && showForm == old(showForm))
      ensures request.Some? ==>
        (request.value == SaveRequest(old(editingId), Payload(old(formData), NumericFields))
         && notice == SaveNotice(Messages, old(editingId), outcome))
      ensures request.Some? && outcome.Saved? ==> formData == EmptyPaymentForm && editingId == None && !showForm
      ensures request.Some? && outcome.Failed? ==>
        formData == old(formData) && editingId == old(editingId) && showForm == old(showForm)
    {
      if !PaymentFormComplete(formData) {
        return None, Notice("Please fill in all fields", Error);
      }
      request := Some(SaveRequest(editingId, Payload(formData, NumericFields)));
      notice := SaveNotice(Messages, editingId, outcome);
      if outcome.Saved? {
        formData := EmptyPaymentForm;
        editingId := None;
        showForm := false;
      }
    }

    /** `handleEdit`: loads the payment into the form and opens it for an update. */
    method HandleEdit(p: Payment)
      modifies this`formData, this`editingId, this`showForm
      ensures formData == PaymentEditForm(p) && editingId == Some(p.paymentId) && showForm
    {
      formData := PaymentEditForm(p);
      editingId := Some(p.paymentId);
      showForm := true;
    }

    /** `handleCancel`: the same form state as after a successful save. */
    method HandleCancel()
      modifies this`formData, this`editingId, this`showForm
      ensures formData == EmptyPaymentForm && editingId == None && !showForm
    {
      showForm := false;
      editingId := None;
      formData := EmptyPaymentForm;
    }
  }

  /** Editing a payment with a non-zero id and submitting the form untouched issues
      an update of that payment; with the id 0 it issues a create. */
  method EditThenSubmit(p: Payment) returns (request: Option<Request>)
    ensures request.Some?
    ensures p.paymentId != 0 ==> request.value.Update? && request.value.id == p.paymentId
    ensures p.paymentId == 0 ==> request.value.Create?
    ensures "amount" in request.value.body && request.value.body["amount"] == NumberValue(Some(p.amount))
  {
    var screen := new PaymentScreen();
    screen.HandleEdit(p);
    EditThenSaveRoundTrip(p);
    var notice;
    request, notice := screen.HandleSubmit(Saved);
  }
}
