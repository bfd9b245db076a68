/**
 * The units screen: the search over unit number and building combined with the
 * status filter, the sortable table, and the add/edit form.
 */
module UnitList {
  import opened Wrappers
  import opened Entities
  import opened Views
  import opened Forms
  import Text

  // ---------------------------------------------------------------- search and status filter

  /** The term occurs, case-insensitively, in the unit number or the building. */
  predicate MatchesSearch(u: Unit, term: string) {
    Text.Includes(Text.Lower(u.unitNumber), Text.Lower(term))
    || Text.Includes(Text.Lower(u.building), Text.Lower(term))
  }

  /** The filter is 'all' or names the unit's status. */
  predicate MatchesStatus(u: Unit, filterStatus: string) {
    filterStatus == "all" || u.status == filterStatus
  }

  /** The filter of `filterAndSortUnits`: the search and the status filter both hold. */
  function UnitMatches(term: string, filterStatus: string): Unit -> bool {
    (u: Unit) => MatchesSearch(u, term) && MatchesStatus(u, filterStatus)
  }

  /** A unit is kept exactly when the lower-cased term occurs in its lower-cased unit
      number or building, and the filter is 'all' or equals its status. */
  lemma UnitMatchesIff(term: string, filterStatus: string, u: Unit)
    ensures UnitMatches(term, filterStatus)(u) <==>
      ((exists i :: Text.OccursAt(Text.Lower(u.unitNumber), Text.Lower(term), i))
       || (exists i :: Text.OccursAt(Text.Lower(u.building), Text.Lower(term), i)))
      && (filterStatus == "all" || u.status == filterStatus)
  {
    Text.IncludesIffOccurs(Text.Lower(u.unitNumber), Text.Lower(term));
    Text.IncludesIffOccurs(Text.Lower(u.building), Text.Lower(term));
  }

  /** An empty search with the filter 'all' keeps every unit, in order. */
  lemma NoFilterKeepsAll(units: seq<Unit>)
    ensures Keep(units, UnitMatches("", "all")) == units
  {
    forall u | u in units ensures UnitMatches("", "all")(u) {
      Text.IncludesEmpty(Text.Lower(u.unitNumber));
    }
    KeepAll(units, UnitMatches("", "all"));
  }

  /** Applying the same search and status filter to the filtered units changes nothing. */
  lemma UnitFilterIdempotent(units: seq<Unit>, term: string, filterStatus: string)
    ensures Keep(Keep(units, UnitMatches(term, filterStatus)), UnitMatches(term, filterStatus))
         == Keep(units, UnitMatches(term, filterStatus))
  {
    KeepIdempotent(units, UnitMatches(term, filterStatus));
  }

  // ---------------------------------------------------------------- sorting

  /** The sortable columns: the id compares as a number, the others as strings. */
  datatype UnitField = UnitId | UnitNumber | Building | Status

  function UnitKey(f: UnitField): Unit -> Key {
    match f
    case UnitId => (u: Unit) => Num(u.unitId)
    case UnitNumber => (u: Unit) => Str(u.unitNumber)
    case Building => (u: Unit) => Str(u.building)
    case Status => (u: Unit) => Str(u.status)
  }

  function UnitSortKey(key: Option<UnitField>): Option<Unit -> Key> {
    if key.Some? then Some(UnitKey(key.value)) else None
  }

  /** The table for the loaded units, search term, status filter and sort. */
  function UnitView(units: seq<Unit>, term: string, filterStatus: string, config: SortConfig<UnitField>): seq<Unit> {
    View(units, UnitMatches(term, filterStatus), UnitSortKey(config.key), config.direction)
  }

  /** The table holds exactly the matching units, each as often as loaded; with no
      sort key in load order; with a key in column order, ties in load order. */
  lemma UnitViewProperties(units: seq<Unit>, term: string, filterStatus: string, config: SortConfig<UnitField>)
    ensures multiset(UnitView(units, term, filterStatus, config)) == multiset(Keep(units, UnitMatches(term, filterStatus)))
    ensures forall u :: u in UnitView(units, term, filterStatus, config) <==> u in units && UnitMatches(term, filterStatus)(u)
    ensures config.key.None? ==> UnitView(units, term, filterStatus, config) == Keep(units, UnitMatches(term, filterStatus))
    ensures config.key.Some? ==> Ordered(UnitView(units, term, filterStatus, config), UnitKey(config.key.value), config.direction)
    ensures config.key.Some? ==> forall k ::
      Keep(UnitView(units, term, filterStatus, config), HasKey(UnitKey(config.key.value), k))
      == Keep(Keep(units, UnitMatches(term, filterStatus)), HasKey(UnitKey(config.key.value), k))
  {
    ViewProperties(units, UnitMatches(term, filterStatus), UnitSortKey(config.key), config.direction);
  }

  // ---------------------------------------------------------------- the form

  const EmptyUnitForm: Form := map["unitNumber" := "", "building" := "", "status" := "available"]

  /** The errors `validateForm` records: unit number and building are required; the
      status is not checked. */
  function UnitFormErrors(form: Form): (errors: Form)
    requires "unitNumber" in form && "building" in form
    ensures errors.Keys <= {"unitNumber", "building"}
    ensures "unitNumber" in errors <==> Text.IsBlank(form["unitNumber"])
    ensures "unitNumber" in errors ==> errors["unitNumber"] == "Unit number is required"
    ensures "building" in errors <==> Text.IsBlank(form["building"])
    ensures "building" in errors ==> errors["building"] == "Building is required"
  {
    var numberErrors: Form := if Text.IsBlank(form["unitNumber"]) then map["unitNumber" := "Unit number is required"] else map[];
    if Text.IsBlank(form["building"]) then numberErrors["building" := "Building is required"] else numberErrors
  }

  /** The status is never checked: changing it leaves the errors as they are. */
  lemma StatusNotValidated(form: Form, status: string)
    requires "unitNumber" in form && "building" in form
    ensures UnitFormErrors(form["status" := status]) == UnitFormErrors(form)
  {
    var form' := form["status" := status];
    assert form'["unitNumber"] == form["unitNumber"] && form'["building"] == form["building"];
  }

  /** The form passes exactly when neither the unit number nor the building is blank. */
  lemma UnitFormValid(form: Form)
    requires "unitNumber" in form && "building" in form
    ensures UnitFormErrors(form) == map[] <==> !Text.IsBlank(form["unitNumber"]) && !Text.IsBlank(form["building"])
  {
    var e := UnitFormErrors(form);
    if e != map[] {
      var k :| k in e;
    }
  }

  // ---------------------------------------------------------------- the screen

  /** The messages of its saves. */
  const Messages := SaveMessages("Unit updated successfully", "Unit created successfully", "Failed to save unit: ")

  class UnitScreen {
    var units: seq<Unit>
    var filteredUnits: seq<Unit>
    var showForm: bool
    var editingId: Option<int>
    var searchTerm: string
    var filterStatus: string
    var sortConfig: SortConfig<UnitField>
    var formData: Form
    var formErrors: Form

    /** The form always has the fields the validation reads. */
    ghost predicate Valid()
      reads this
    {
      "unitNumber" in formData && "building" in formData
    }

    /** The state on mount, after the recomputation of the empty table. */
    constructor ()
      ensures Valid()
      ensures units == [] && filteredUnits == [] && !showForm && editingId == None
      ensures searchTerm == "" && filterStatus == "all" && sortConfig == SortConfig(None, Asc)
      ensures formData == EmptyUnitForm && formErrors == map[]
    {
      units := [];
      filteredUnits := [];
      showForm := false;
      editingId := None;
      searchTerm := "";
      filterStatus := "all";
      sortConfig := SortConfig(None, Asc);
      formData := EmptyUnitForm;
      formErrors := map[];
    }

    /** `filterAndSortUnits`: recomputes the table from the current state. */
    method FilterAndSortUnits()
      modifies this`filteredUnits
      ensures filteredUnits == UnitView(units, searchTerm, filterStatus, sortConfig)
    {
      filteredUnits := Recompute(units, UnitMatches(searchTerm, filterStatus), UnitSortKey(sortConfig.key), sortConfig.direction);
    }

    /** A successful fetch stores the units; the effect then recomputes the table. */
    method LoadUnits(data: seq<Unit>)
      modifies this`units, this`filteredUnits
      ensures units == data
      ensures filteredUnits == UnitView(data, searchTerm, filterStatus, sortConfig)
    {
      units := data;
      FilterAndSortUnits();
    }

    /** Typing in the search bar; the effect then recomputes the table. */
    method SetSearchTerm(term: string)
      modifies this`searchTerm, this`filteredUnits
      ensures searchTerm == term
      ensures filteredUnits == UnitView(units, term, filterStatus, sortConfig)
    {
      searchTerm := term;
      FilterAndSortUnits();
    }

    /** Choosing a status in the filter; the effect then recomputes the table. */
    method SetFilterStatus(status: string)
      modifies this`filterStatus, this`filteredUnits
      ensures filterStatus == status
      ensures filteredUnits == UnitView(units, searchTerm, status, sortConfig)
    {
      filterStatus := status;
      FilterAndSortUnits();
    }

    /** `handleSort(k)`; the effect then recomputes the table. */
    method HandleSort(k: UnitField)
      modifies this`sortConfig, this`filteredUnits
      ensures sortConfig == NextSort(old(sortConfig), k)
      ensures filteredUnits == UnitView(units, searchTerm, filterStatus, sortConfig)
    {
      sortConfig := NextSort(sortConfig, k);
      FilterAndSortUnits();
    }

    /** `handleInputChange`: the named field takes the value and its error is cleared. */
    method HandleInputChange(name: string, value: string)
      requires Valid()
      modifies this`formData, this`formErrors
      ensures Valid()
      ensures formData == WithInput(old(formData), name, value)
      ensures formErrors == ClearError(old(formErrors), name)
    {
      formData := WithInput(formData, name, value);
      formErrors := ClearError(formErrors, name);
    }

    /** `validateForm`: records the errors and answers whether there are none. */
    method ValidateForm() returns (ok: bool)
      requires Valid()
      modifies this`formErrors
      ensures formErrors == UnitFormErrors(formData)
      ensures ok <==> formErrors == map[]
    {
      formErrors := UnitFormErrors(formData);
      ok := |formErrors| == 0;
    }

    /**
     * `handleSubmit`, with the awaited request's result as `outcome`. An invalid
     * form issues no request; a valid one issues an update or a create, and after
     * a successful save the form is reset and hidden.
     */
    method HandleSubmit(outcome: Outcome) returns (request: Option<Request>, notice: Option<Notice>)
      requires Valid()
      modifies this`formData, this`formErrors, this`editingId, this`showForm
      ensures Valid()
      ensures request.Some? <==> UnitFormErrors(old(formData)) == map[]
      ensures request.None? ==>
        (notice.None? && formErrors == UnitFormErrors(old(formData))
         && formData == old(formData) && editingId == old(editingId) && showForm == old(showForm))
      ensures request.Some? ==>
        (request.value == SaveRequest(old(editingId), Payload(old(formData), {}))
         && notice == Some(SaveNotice(Messages, old(editingId), outcome)))
      ensures request.Some? && outcome.Saved? ==>
        formData == EmptyUnitForm && formErrors == map[] && editingId == None && !showForm
      ensures request.Some? && outcome.Failed? ==>
        formData == old(formData) && formErrors == map[] && editingId == old(editingId) && showForm == old(showForm)
    {
      var ok := ValidateForm();
      if !ok {
        return None, None;
      }
      request := Some(SaveRequest(editingId, Payload(formData, {})));
      notice := Some(SaveNotice(Messages, editingId, outcome));
      if outcome.Saved? {
        HandleCancel();
      }
    }

    /** `handleEdit`: loads the unit into the form and opens it for an update. */
    method HandleEdit(u: Unit)
      modifies this`formData, this`editingId, this`showForm
      ensures Valid()
      ensures formData == map["unitNumber" := u.unitNumber, "building" := u.building, "status" := u.status]
      ensures editingId == Some(u.unitId) && showForm
    {
      formData := map["unitNumber" := u.unitNumber, "building" := u.building, "status" := u.status];
      editingId := Some(u.unitId);
      showForm := true;
    }

    /** `handleCancel`: the same form state as after a successful save. */
    method HandleCancel()
      modifies this`formData, this`formErrors, this`editingId, this`showForm
      ensures Valid()
      ensures formData == EmptyUnitForm && formErrors == map[] && editingId == None && !showForm
    {
      showForm := false;
      editingId := None;
      formData := EmptyUnitForm;
      formErrors := map[];
    }
  }
}
