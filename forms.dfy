/**
 * What the edit forms of the screens share: the form object (field name to the
 * text typed in it), the per-field error object, the truthiness of `editingId`,
 * the request a save issues and the notice shown to the user afterwards.
 */
module Forms {
  import opened Wrappers
  import Text

  /** A plain JavaScript object whose values are the texts of the inputs. */
  type Form = map<string, string>

  /** The test `if (form.field)`: a present, non-empty text. */
  predicate Filled(form: Form, field: string) {
    field in form && form[field] != ""
  }

  /** The test `if (!form.field.trim())` on a present field. */
  predicate Blank(form: Form, field: string)
    requires field in form
  {
    Text.IsBlank(form[field])
  }

  /** The test `parseFloat(text) <= 0`: the text parses to a number that is not
      above 0; `NaN` compares false, so a text that does not parse passes. */
  predicate NotPositive(text: string) {
    Text.ParseInt(text).Some? && Text.ParseInt(text).value <= 0
  }

  /** The check `if (!form.field) errors.field = message`, as the errors it adds. */
  function RequiredError(form: Form, field: string, message: string): (errors: Form)
    ensures errors.Keys <= {field}
    ensures field in errors <==> !Filled(form, field)
    ensures field in errors ==> errors[field] == message
  {
    if !Filled(form, field) then map[field := message] else map[]
  }

  /** `{ ...prev, [name]: value }`: the named field takes the value, the others stay. */
  function WithInput(form: Form, name: string, value: string): (r: Form)
    ensures r.Keys == form.Keys + {name}
    ensures r[name] == value
    ensures forall k :: k in form && k != name ==> r[k] == form[k]
  {
    form[name := value]
  }

  /** The error clearing of `handleInputChange`: when the field has a (truthy)
      error message, it becomes the empty text; nothing else changes. */
  function ClearError(errors: Form, name: string): (r: Form)
    ensures r.Keys == errors.Keys
    ensures !Filled(r, name)
    ensures forall k :: k in errors && k != name ==> r[k] == errors[k]
  {
    if Filled(errors, name) then errors[name := ""] else errors
  }

  /** The truthiness of `editingId`: `null` and `0` are falsy. */
  predicate Editing(editingId: Option<int>) {
    editingId.Some? && editingId.value != 0
  }

  /** A value of the request body: a text, or a number from `parseInt` /
      `parseFloat` where `None` is `NaN`. */
  datatype Value = TextValue(text: string) | NumberValue(number: Option<int>)

  /** `{ ...formData, f: parseInt(formData.f), ... }` for the fields in `numeric`. */
  function Payload(form: Form, numeric: set<string>): (body: map<string, Value>)
    ensures body.Keys == form.Keys
    ensures forall k :: k in form && k !in numeric ==> body[k] == TextValue(form[k])
    ensures forall k :: k in form && k in numeric ==> body[k] == NumberValue(Text.ParseInt(form[k]))
  {
    map k | k in form :: if k in numeric then NumberValue(Text.ParseInt(form[k])) else TextValue(form[k])
  }

  /** The request a save issues: `PUT /collection/{id}` or `POST /collection`. */
  datatype Request = Create(body: map<string, Value>) | Update(id: int, body: map<string, Value>)

  /** `if (editingId) put(...) else post(...)`: an update exactly when `editingId` is
      truthy, so an `editingId` of 0 creates. */
  function SaveRequest(editingId: Option<int>, body: map<string, Value>): (r: Request)
    ensures r.Update? <==> Editing(editingId)
    ensures r.Update? ==> r.id == editingId.value
    ensures r.body == body
  {
    if Editing(editingId) then Update(editingId.value, body) else Create(body)
  }

  /** How the awaited request ended; the server's message when it failed. */
  datatype Outcome = Saved | Failed(message: string)

  datatype Kind = Success | Error

  /** A call of the `onMessage` callback. */
  datatype Notice = Notice(text: string, kind: Kind)

  /** The messages a screen reports after a save: on an update, on a create, and the
      prefix of a failure, which the server's message completes. */
  datatype SaveMessages = SaveMessages(updated: string, created: string, failed: string)

  /** The `onMessage` call after the awaited save: the success message of the request
      that was issued, or the failure with the server's message. */
  function SaveNotice(m: SaveMessages, editingId: Option<int>, outcome: Outcome): (n: Notice)
    ensures n.kind == Success <==> outcome.Saved?
    ensures outcome.Saved? ==> n.text == (if Editing(editingId) then m.updated else m.created)
    ensures outcome.Failed? ==> n.text == m.failed + outcome.message
  {
    if outcome.Failed? then Notice(m.failed + outcome.message, Error)
    else if Editing(editingId) then Notice(m.updated, Success)
    else Notice(m.created, Success)
  }

  /** A successful save reports an update exactly when the request it issued was an
      update, whatever was sent. */
  lemma NoticeMatchesRequest(m: SaveMessages, editingId: Option<int>, body: map<string, Value>)
    requires m.updated != m.created
    ensures SaveNotice(m, editingId, Saved).text == m.updated <==> SaveRequest(editingId, body).Update?
    ensures SaveNotice(m, editingId, Saved).text == m.created <==> SaveRequest(editingId, body).Create?
  {
  }
}
