/**
 * The tenants screen: the search over name and contact, the sortable table,
 * and the add/edit form with its validation of the contact as an email
 * address or a phone number.
 */
module TenantList {
  import opened Wrappers
  import opened Entities
  import opened Views
  import opened Forms
  import Text

  // ---------------------------------------------------------------- search

  /** The search: the lower-cased term occurs in the lower-cased name or contact. */
  function TenantMatches(term: string): Tenant -> bool {
    (t: Tenant) => Text.Includes(Text.Lower(t.name), Text.Lower(term))
      || Text.Includes(Text.Lower(t.contactInfo), Text.Lower(term))
  }

  /** A tenant is kept exactly when the lower-cased term occurs at some position
      of its lower-cased name or of its lower-cased contact. */
  lemma TenantMatchesIff(term: string, t: Tenant)
    ensures TenantMatches(term)(t) <==>
      (exists i :: Text.OccursAt(Text.Lower(t.name), Text.Lower(term), i))
      || (exists i :: Text.OccursAt(Text.Lower(t.contactInfo), Text.Lower(term), i))
  {
    Text.IncludesIffOccurs(Text.Lower(t.name), Text.Lower(term));
    Text.IncludesIffOccurs(Text.Lower(t.contactInfo), Text.Lower(term));
  }

  /** An empty search keeps every tenant, in order. */
  lemma EmptySearchKeepsAll(tenants: seq<Tenant>)
    ensures Keep(tenants, TenantMatches("")) == tenants
  {
    forall t | t in tenants ensures TenantMatches("")(t) {
      Text.IncludesEmpty(Text.Lower(t.name));
    }
    KeepAll(tenants, TenantMatches(""));
  }

  // ---------------------------------------------------------------- sorting

  /** The sortable columns. */
  datatype TenantField = TenantId | Name | ContactInfo

  function TenantKey(f: TenantField): Tenant -> Key {
    match f
    case TenantId => (t: Tenant) => Num(t.tenantId)
    case Name => (t: Tenant) => Str(t.name)
    case ContactInfo => (t: Tenant) => Str(t.contactInfo)
  }

  function TenantSortKey(key: Option<TenantField>): Option<Tenant -> Key> {
    if key.Some? then Some(TenantKey(key.value)) else None
  }

  /** The table the screen shows for the loaded tenants, search term and sort. */
  function TenantView(tenants: seq<Tenant>, term: string, config: SortConfig<TenantField>): seq<Tenant> {
    View(tenants, TenantMatches(term), TenantSortKey(config.key), config.direction)
  }

  /** The table holds exactly the matching tenants, each as often as loaded; with no
      sort key in load order; with a key in column order, ties in load order. */
  lemma TenantViewProperties(tenants: seq<Tenant>, term: string, config: SortConfig<TenantField>)
    ensures multiset(TenantView(tenants, term, config)) == multiset(Keep(tenants, TenantMatches(term)))
    ensures forall t :: t in TenantView(tenants, term, config) <==> t in tenants && TenantMatches(term)(t)
    ensures config.key.None? ==> TenantView(tenants, term, config) == Keep(tenants, TenantMatches(term))
    ensures config.key.Some? ==> Ordered(TenantView(tenants, term, config), TenantKey(config.key.value), config.direction)
    ensures config.key.Some? ==> forall k ::
      Keep(TenantView(tenants, term, config), HasKey(TenantKey(config.key.value), k))
      == Keep(Keep(tenants, TenantMatches(term)), HasKey(TenantKey(config.key.value), k))
  {
    ViewProperties(tenants, TenantMatches(term), TenantSortKey(config.key), config.direction);
  }

  // ---------------------------------------------------------------- contact validation

  /** `[^\s@]+`: one or more characters, none white space or '@'. */
  predicate Plain(s: string) {
    |s| > 0 && forall k :: 0 <= k < |s| ==> !Text.IsSpace(s[k]) && s[k] != '@'
  }

  /** A match of `/^[^\s@]+@[^\s@]+\.[^\s@]+$/` with the '@' at `i` and the '.' at `j`. */
  predicate EmailSplit(s: string, i: int, j: int) {
    0 < i && i + 1 < j < |s| - 1
    && Plain(s[..i]) && s[i] == '@' && Plain(s[i + 1..j]) && s[j] == '.' && Plain(s[j + 1..])
  }

  /** `isValidEmail`: the pattern matches the whole text. */
  predicate IsValidEmail(s: string) {
    exists i, j | 0 <= i < |s| && 0 <= j < |s| :: EmailSplit(s, i, j)
  }

  predicate NoSpace(s: string) {
    forall k :: 0 <= k < |s| ==> !Text.IsSpace(s[k])
  }

  /** The domain has a '.' that is neither its first nor its last character. */
  predicate InnerDot(d: string) {
    exists j :: 0 < j < |d| - 1 && d[j] == '.'
  }

  /** `s` has its only '@' at `i`, after a non-empty local part. */
  predicate OnlyAtAt(s: string, i: int) {
    0 < i < |s| && s[i] == '@' && forall k :: 0 <= k < |s| && s[k] == '@' ==> k == i
  }

  /** What the pattern accepts: no white space, exactly one '@', a non-empty part
      before it, and a domain after it with a '.' strictly inside. */
  lemma EmailShape(s: string)
    ensures IsValidEmail(s) <==> NoSpace(s) && exists i :: OnlyAtAt(s, i) && InnerDot(s[i + 1..])
  {
    if IsValidEmail(s) {
      var i, j :| 0 <= i < |s| && 0 <= j < |s| && EmailSplit(s, i, j);
      var a, b, c := s[..i], s[i + 1..j], s[j + 1..];
      forall k | 0 <= k < |s|
        ensures !Text.IsSpace(s[k]) && (s[k] == '@' ==> k == i)
      {
        if k < i {
          assert s[k] == a[k];
        } else if i < k < j {
          assert s[k] == b[k - i - 1];
        } else if j < k {
          assert s[k] == c[k - j - 1];
        }
      }
      assert s[i + 1..][j - i - 1] == s[j];
      assert OnlyAtAt(s, i) && InnerDot(s[i + 1..]);
    }
    if NoSpace(s) && exists i :: OnlyAtAt(s, i) && InnerDot(s[i + 1..]) {
      var i :| OnlyAtAt(s, i) && InnerDot(s[i + 1..]);
      var d := s[i + 1..];
      var j' :| 0 < j' < |d| - 1 && d[j'] == '.';
      var j := i + 1 + j';
      assert s[j] == d[j'];
      var a, b, c := s[..i], s[i + 1..j], s[j + 1..];
      forall k | 0 <= k < |a| ensures !Text.IsSpace(a[k]) && a[k] != '@' {
        assert a[k] == s[k];
      }
      forall k | 0 <= k < |b| ensures !Text.IsSpace(b[k]) && b[k] != '@' {
        assert b[k] == s[i + 1 + k];
      }
      forall k | 0 <= k < |c| ensures !Text.IsSpace(c[k]) && c[k] != '@' {
        assert c[k] == s[j + 1 + k];
      }
      assert EmailSplit(s, i, j);
    }
  }

  /** `[\d\s\-\(\)]`. */
  predicate PhoneChar(c: char) {
    Text.IsDigit(c) || Text.IsSpace(c) || c == '-' || c == '(' || c == ')'
  }

  /** `phone.replace(/\D/g, '')`: every digit of the text, each as often as it occurs,
      and nothing else. */
  function DigitsOf(s: string): (r: string)
    ensures forall c :: c in r <==> c in s && Text.IsDigit(c)
    ensures forall c :: multiset(r)[c] == if Text.IsDigit(c) then multiset(s)[c] else 0
    ensures |r| <= |s|
  {
    KeepMembers(s, c => Text.IsDigit(c));
    KeepMultiset(s, c => Text.IsDigit(c));
    Keep(s, c => Text.IsDigit(c))
  }

  /** `isValidPhone`: only digits, white space, '-', '(' and ')', and at least ten digits. */
  predicate IsValidPhone(s: string) {
    |s| > 0 && (forall k :: 0 <= k < |s| ==> PhoneChar(s[k])) && |DigitsOf(s)| >= 10
  }

  /** A valid phone number has at least ten characters. */
  lemma PhoneLength(s: string)
    requires IsValidPhone(s)
    ensures |s| >= 10
  {
  }

  /** No text is both: an email has an '@', which a phone number never contains. */
  lemma EmailPhoneExclusive(s: string)
    ensures !(IsValidEmail(s) && IsValidPhone(s))
  {
    if IsValidEmail(s) {
      var i, j :| 0 <= i < |s| && 0 <= j < |s| && EmailSplit(s, i, j);
      assert !PhoneChar(s[i]);
    }
  }

  /** A valid email or phone number is never blank, so the 'required' test can only
      fire on a text that also fails both patterns. */
  lemma ContactNotBlank(s: string)
    requires IsValidEmail(s) || IsValidPhone(s)
    ensures !Text.IsBlank(s)
  {
    var k: int;
    if IsValidEmail(s) {
      var i, j :| 0 <= i < |s| && 0 <= j < |s| && EmailSplit(s, i, j);
      k := i;
    } else {
      var d := DigitsOf(s);
      assert d[0] in d;
      k :| 0 <= k < |s| && s[k] == d[0];
    }
    Text.NonSpaceNotBlank(s, k);
  }

  // ---------------------------------------------------------------- the form

  const EmptyTenantForm: Form := map["name" := "", "contactInfo" := ""]

  /** The errors `validateForm` records: name required; contact required, or
      neither an email nor a phone number. */
  function TenantFormErrors(form: Form): (errors: Form)
    requires "name" in form && "contactInfo" in form
    ensures errors.Keys <= {"name", "contactInfo"}
    ensures "name" in errors <==> Text.IsBlank(form["name"])
    ensures "name" in errors ==> errors["name"] == "Name is required"
    ensures "contactInfo" in errors <==> !(IsValidEmail(form["contactInfo"]) || IsValidPhone(form["contactInfo"]))
    ensures "contactInfo" in errors ==>
      errors["contactInfo"] == (if Text.IsBlank(form["contactInfo"]) then "Contact info is required"
                                else "Please enter a valid email or phone number")
  {
    var contact := form["contactInfo"];
    var nameErrors: Form := if Text.IsBlank(form["name"]) then map["name" := "Name is required"] else map[];
    if Text.IsBlank(contact) then
      assert !(IsValidEmail(contact) || IsValidPhone(contact)) by {
        if IsValidEmail(contact) || IsValidPhone(contact) {
          ContactNotBlank(contact);
        }
      }
      nameErrors["contactInfo" := "Contact info is required"]
    else if !IsValidEmail(contact) && !IsValidPhone(contact) then
      nameErrors["contactInfo" := "Please enter a valid email or phone number"]
    else nameErrors
  }

  /** The form passes exactly when the name is not blank and the contact is an
      email address or a phone number. */
  lemma TenantFormValid(form: Form)
    requires "name" in form && "contactInfo" in form
    ensures TenantFormErrors(form) == map[] <==>
      !Text.IsBlank(form["name"]) && (IsValidEmail(form["contactInfo"]) || IsValidPhone(form["contactInfo"]))
  {
    var e := TenantFormErrors(form);
    if e != map[] {
      var k :| k in e;
    }
  }

  // ---------------------------------------------------------------- the screen

  /** The messages of its saves. */
  const Messages := SaveMessages("Tenant updated successfully", "Tenant created successfully", "Failed to save tenant: ")

  class TenantScreen {
    var tenants: seq<Tenant>
    var filteredTenants: seq<Tenant>
    var showForm: bool
    var editingId: Option<int>
    var searchTerm: string
    var sortConfig: SortConfig<TenantField>
    var formData: Form
    var formErrors: Form

    /** The form always has the two fields the validation reads. */
    ghost predicate Valid()
      reads this
    {
      "name" in formData && "contactInfo" in formData
    }

    /** The state on mount, after the recomputation of the empty table. */
    constructor ()
      ensures Valid()
      ensures tenants == [] && filteredTenants == [] && !showForm && editingId == None
      ensures searchTerm == "" && sortConfig == SortConfig(None, Asc)
      ensures formData == EmptyTenantForm && formErrors == map[]
    {
      tenants := [];
      filteredTenants := [];
      showForm := false;
      editingId := None;
      searchTerm := "";
      sortConfig := SortConfig(None, Asc);
      formData := EmptyTenantForm;
      formErrors := map[];
    }

    /** `filterAndSortTenants`: recomputes the table from the current state. */
    method FilterAndSortTenants()
      modifies this`filteredTenants
      ensures filteredTenants == TenantView(tenants, searchTerm, sortConfig)
    {
      filteredTenants := Recompute(tenants, TenantMatches(searchTerm), TenantSortKey(sortConfig.key), sortConfig.direction);
    }

    /** A successful fetch stores the tenants; the effect then recomputes the table. */
    method LoadTenants(data: seq<Tenant>)
      modifies this`tenants, this`filteredTenants
      ensures tenants == data
      ensures filteredTenants == TenantView(data, searchTerm, sortConfig)
    {
      tenants := data;
      FilterAndSortTenants();
    }

    /** Typing in the search bar; the effect then recomputes the table. */
    method SetSearchTerm(term: string)
      modifies this`searchTerm, this`filteredTenants
      ensures searchTerm == term
      ensures filteredTenants == TenantView(tenants, term, sortConfig)
    {
      searchTerm := term;
      FilterAndSortTenants();
    }

    /** `handleSort(k)`; the effect then recomputes the table. */
    method HandleSort(k: TenantField)
      modifies this`sortConfig, this`filteredTenants
      ensures sortConfig == NextSort(old(sortConfig), k)
      ensures filteredTenants == TenantView(tenants, searchTerm, sortConfig)
    {
      sortConfig := NextSort(sortConfig, k);
      FilterAndSortTenants();
    }

    /** `handleInputChange`: the named field takes the value and its error is cleared. */
    method HandleInputChange(name: string, value: string)
      requires Valid()
      modifies this`formData, this`formErrors
      ensures Valid()
      ensures formData == WithInput(old(formData), name, value)
      ensures formErrors == ClearError(old(formErrors), name)
    {
      formData := WithInput(formData, name, value);
      formErrors := ClearError(formErrors, name);
    }

    /** `validateForm`: records the errors and answers whether there are none. */
    method ValidateForm() returns (ok: bool)
      requires Valid()
      modifies this`formErrors
      ensures formErrors == TenantFormErrors(formData)
      ensures ok <==> formErrors == map[]
    {
      formErrors := TenantFormErrors(formData);
      ok := |formErrors| == 0;
    }

    /**
     * `handleSubmit`, with the awaited request's result as `outcome`. An invalid
     * form issues no request; a valid one issues an update or a create, and after
     * a successful save the form is reset and hidden.
     */
    method HandleSubmit(outcome: Outcome) returns (request: Option<Request>, notice: Option<Notice>)
      requires Valid()
      modifies this`formData, this`formErrors, this`editingId, this`showForm
      ensures Valid()
      ensures request.Some? <==> TenantFormErrors(old(formData)) == map[]
      ensures request.None? ==>
        (notice.None? && formErrors == TenantFormErrors(old(formData))
         && formData == old(formData) && editingId == old(editingId) && showForm == old(showForm))
      ensures request.Some? ==>
        (request.value == SaveRequest(old(editingId), Payload(old(formData), {}))
         && notice == Some(SaveNotice(Messages, old(editingId), outcome)))
      ensures request.Some? && outcome.Saved? ==>
        formData == EmptyTenantForm && formErrors == map[] && editingId == None && !showForm
      ensures request.Some? && outcome.Failed? ==>
        formData == old(formData) && formErrors == map[] && editingId == old(editingId) && showForm == old(showForm)
    {
      var ok := ValidateForm();
      if !ok {
        return None, None;
      }
      request := Some(SaveRequest(editingId, Payload(formData, {})));
      notice := Some(SaveNotice(Messages, editingId, outcome));
      if outcome.Saved? {
        HandleCancel();
      }
    }

    /** `handleEdit`: loads the tenant into the form and opens it for an update. */
    method HandleEdit(t: Tenant)
      modifies this`formData, this`editingId, this`showForm
      ensures Valid()
      ensures formData == map["name" := t.name, "contactInfo" := t.contactInfo]
      ensures editingId == Some(t.tenantId) && showForm
    {
      formData := map["name" := t.name, "contactInfo" := t.contactInfo];
      editingId := Some(t.tenantId);
      showForm := true;
    }

    /** `handleCancel`: the same form state as after a successful save. */
    method HandleCancel()
      modifies this`formData, this`formErrors, this`editingId, this`showForm
      ensures Valid()
      ensures formData == EmptyTenantForm && formErrors == map[] && editingId == None && !showForm
    {
      showForm := false;
      editingId := None;
      formData := EmptyTenantForm;
      formErrors := map[];
    }
  }
}
