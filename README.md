# Apartment rental front end: a verified model of its screen logic

This project models, in Dafny, what the screens of the apartment rental front end
do with the collections they hold in memory:

- **the list views**: the table each screen recomputes from its raw collection, a
  case-insensitive substring search combined with an optional status filter,
  then an in-place sort of the filtered copy by the chosen column with the
  `<`/`>` comparator, and the `handleSort` toggle of the sort key and direction;
- **the forms**: the validators (required fields, the email and phone patterns
  of the tenant contact, positive amounts, the end date after the start date),
  typing into a field and clearing its error, loading a record for editing,
  cancelling, and the submit that becomes an update when `editingId` is truthy
  and a create otherwise;
- **the foreign-key labels**: a linear `find` by id rendered as a label, with the
  literal 'Unknown' when nothing has the id or the collection is not an array;
- **the lease badge**: Expiring Soon, Active, Expired or Upcoming, from
  `isLeaseActive` and `daysUntil` of the formatting utilities;
- **the aggregates**: the total of the completed payments shown, and the
  dashboard's counts and its five most recent payments.

Modules, one per source file, plus shared ones:

| module | models |
|---|---|
| `Wrappers`, `Entities` | `null`/not found as `Option`; the tenant, unit, lease and payment records; a fetched body that may not be an array |
| `Text` | `trim`, ASCII `toLowerCase`, `includes`, number to decimal text and back |
| `Views` | `filter`, `find`, `reduce`, the comparator, the stable sort (as a function and in place on an array), the recomputed view |
| `Forms` | the form object, `if (form.field)`, `parseFloat(x) <= 0`, `{ ...prev, [name]: value }`, the request body and the update-or-create choice |
| `Formatters` | `getStatusColor`, `daysUntil`, `isLeaseActive` |
| `Lookups` | `getTenantName`, `getTenantNameWithContact`, `getUnitInfo` |
| `TenantList`, `UnitList` | the tenants and units screens |
| `PaymentListBackup`, `LeaseListBackup` | the full payments and leases screens |
| `PaymentList`, `LeaseList` | the minimal payments and leases screens the application renders |
| `Dashboard` | the statistics of `fetchDashboardData` |

Conventions:

- Dates and the current instant are integer millisecond time values, and `now` is
  a parameter. The text of a date or a number in a form is its decimal rendering
  (`Text.IntToString`), and `new Date(text)`, `parseInt` and `parseFloat` are
  `Text.ParseInt`, where `None` stands for `NaN` or an invalid date.
- Amounts are integers.
- A screen's state is a class whose fields are its `useState` values. A method
  stands for an event handler. Where an effect recomputes the table, the method
  calls the recomputation after the change, because the effect's dependencies
  changed.
- The result of an awaited request is an input `outcome` (saved, or failed with a
  message). A handler returns the request it issues and the `onMessage` notice.

## Model

| member | source | states |
|---|---|---|
| Formatters.StatusColorAsWritten | apartment-frontend/src/utils/formatters.js:21-31 | the lookup as written: an inherited member is returned exactly for names that are not own keys but are `Object.prototype` members; otherwise one of the four colours |
| Formatters.StatusColorAsWrittenLeaks | apartment-frontend/src/utils/formatters.js:30 | 'toString' and 'constructor' give the inherited member, not a colour |
| Formatters.StatusColor | apartment-frontend/src/utils/formatters.js:21-31 | available/completed give 'success', occupied/failed 'danger', maintenance/pending 'warning'; the result is 'secondary' exactly for every other status, the empty one included |
| Formatters.StatusColorAgrees | apartment-frontend/src/utils/formatters.js:21-31 | on every status that is not an inherited member name, the lookup as written gives the corrected colour |
| Formatters.DaysUntil | apartment-frontend/src/utils/formatters.js:34-40 | the result is the ceiling of the difference in days: the least whole count of days that reaches the date |
| Formatters.DaysUntilNonPositive | apartment-frontend/src/utils/formatters.js:34-40 | the day count is at most 0 exactly when the date is not after now |
| Formatters.DaysUntilMonotone | apartment-frontend/src/utils/formatters.js:37-38 | a later date never gives fewer days |
| Formatters.DaysUntilWholeDays | apartment-frontend/src/utils/formatters.js:38 | a date exactly k days away gives k |
| Formatters.IsLeaseActive | apartment-frontend/src/utils/formatters.js:43-48 | definition: now lies between the start and the end, both included; see InvertedLeaseNeverActive, ActiveLeaseDaysLeft and LeaseListBackup.BadgeAgreesWithActivity |
| Formatters.InvertedLeaseNeverActive | apartment-frontend/src/utils/formatters.js:43-48 | a lease whose start is after its end is never active |
| Formatters.ActiveLeaseDaysLeft | apartment-frontend/src/utils/formatters.js:38-47 | while a lease is active, the day count to its end is not negative |
| Text.BlankIffAllSpace | apartment-frontend/src/components/TenantList.jsx:88 | `!text.trim()` holds exactly when every character is white space |
| Text.IncludesIffOccurs | apartment-frontend/src/components/TenantList.jsx:34-37 | `includes` holds exactly when the part occurs at some position |
| Text.IncludesEmpty | apartment-frontend/src/components/TenantList.jsx:34-37 | every text includes the empty text |
| Text.NatToString | apartment-frontend/src/components/PaymentList.jsx:102-104 | `toString` of a number is a non-empty run of digits |
| Text.ParseInt | apartment-frontend/src/components/PaymentList.backup.jsx:163-165 | definition of `parseInt`, `parseFloat` and `new Date` on the texts the forms hold: an optional '-' and a non-empty run of digits, `None` for `NaN`; see ParseIntRoundTrip |
| Text.ParseIntRoundTrip | apartment-frontend/src/components/PaymentList.jsx:77-104 | parsing the decimal text of a number gives the number back |
| Views.KeepMembers | apartment-frontend/src/components/TenantList.jsx:34-37 | `filter` keeps exactly the elements satisfying the test, each at most as often as in the input |
| Views.KeepMultiset | apartment-frontend/src/components/PaymentList.backup.jsx:229 | `filter` keeps every copy of each element that passes and no copy of one that fails |
| Views.KeepIdempotent | apartment-frontend/src/components/UnitList.jsx:36-44 | filtering twice with one test is filtering once |
| Views.FindIndex | apartment-frontend/src/components/PaymentList.jsx:131 | `find` stops at the first element satisfying the test, and finds nothing exactly when no element does |
| Views.LabelOf | apartment-frontend/src/components/PaymentList.jsx:130-133 | the label of the first matching element, 'Unknown' when none matches |
| Views.SumOfPermutation | apartment-frontend/src/components/PaymentList.backup.jsx:246-248 | the `reduce` sum does not depend on the order of its terms |
| Views.NextSort | apartment-frontend/src/components/TenantList.jsx:54-59 | the key becomes k; the direction becomes descending exactly when the previous key was k, ascending |
| Views.NextSortCycle | apartment-frontend/src/components/TenantList.jsx:54-59 | repeated clicks on a key alternate the direction, with period two |
| Views.KeyLessOrder | apartment-frontend/src/components/TenantList.jsx:41-44 | `<` on the values of one column is a strict total order: numbers by value, strings by character codes |
| Views.CompareProperties | apartment-frontend/src/components/TenantList.jsx:40-48 | the comparator is antisymmetric, answers 0 only on equal keys, and descending negates ascending, so only strict comparisons are inverted |
| Views.AfterOrder | apartment-frontend/src/components/TenantList.jsx:40-48 | "placed after" is irreflexive and asymmetric, and its complement is transitive |
| Views.SortBy | apartment-frontend/src/components/TenantList.jsx:39-49 | the sorted collection is a permutation of its input |
| Views.SortByOrdered | apartment-frontend/src/components/TenantList.jsx:39-49 | the sorted collection is in comparator order |
| Views.SortByStable | apartment-frontend/src/components/TenantList.jsx:39-49 | for every key value, the elements with that key keep their input order |
| Views.SortByIdempotent | apartment-frontend/src/components/TenantList.jsx:39-49 | sorting a sorted collection again by the same column changes nothing |
| Views.AscThenDescKeepsTies | apartment-frontend/src/components/TenantList.jsx:39-49 | sorting ascending and then descending keeps the equal keys in input order |
| Views.SortInPlace | apartment-frontend/src/components/TenantList.jsx:40-48 | sorting the array in place leaves in it the stable sort of its old contents |
| Views.ViewProperties | apartment-frontend/src/components/TenantList.jsx:33-52 | the view is a permutation of the filtered input; without a key it is the filtered input in order; with a key it is in comparator order, with ties in filtered order |
| Views.Recompute | apartment-frontend/src/components/TenantList.jsx:33-52 | filtering into a fresh array and sorting it in place gives the view |
| Forms.RequiredError | apartment-frontend/src/components/PaymentList.backup.jsx:131-133 | the field gets the message exactly when it is missing or empty, and no other field gets one |
| Forms.WithInput | apartment-frontend/src/components/TenantList.jsx:73-78 | only the named field changes, and it takes the typed value |
| Forms.ClearError | apartment-frontend/src/components/TenantList.jsx:80-82 | the named field's error is no longer truthy; every other error stays |
| Forms.Payload | apartment-frontend/src/components/PaymentList.backup.jsx:161-166 | the body has the form's fields; the numeric ones are parsed and the others are sent as typed |
| Forms.SaveRequest | apartment-frontend/src/components/PaymentList.backup.jsx:168-174 | the save is an update of `editingId` exactly when `editingId` is truthy, so an id of 0 creates |
| Forms.SaveNotice | apartment-frontend/src/components/TenantList.jsx:117-131 | a success notice exactly when the save succeeded: the update message when `editingId` is truthy, the create message otherwise; on a failure the screen's prefix followed by the server's message |
| Forms.NoticeMatchesRequest | apartment-frontend/src/components/UnitList.jsx:113-127 | after a successful save the notice names an update exactly when the request issued was an update, and a create exactly when it was a create |
| Lookups.TenantName | apartment-frontend/src/components/PaymentList.jsx:130-133 | the name of the first tenant with the id; 'Unknown' when no tenant has it |
| Lookups.FetchedTenantName | apartment-frontend/src/components/PaymentList.backup.jsx:220-224 | 'Unknown' when the tenants are not an array; otherwise the name of the first tenant with the id |
| Lookups.TenantNameWithContact | apartment-frontend/src/components/LeaseList.backup.jsx:171-174 | "name (contact)" of the first tenant with the id; 'Unknown' when none has it |
| Lookups.UnitInfo | apartment-frontend/src/components/LeaseList.jsx:135-138 | "unitNumber - building" of the first unit with the id; 'Unknown' when none has it |
| Lookups.FetchedUnitInfo | apartment-frontend/src/components/LeaseList.backup.jsx:176-180 | 'Unknown' when the units are not an array; otherwise the unit's label |
| Lookups.FirstTenantWins | apartment-frontend/src/components/PaymentList.jsx:131 | the first tenant with the id names it, whatever tenants follow it |
| TenantList.TenantMatchesIff | apartment-frontend/src/components/TenantList.jsx:34-37 | a tenant is kept exactly when the lower-cased term occurs in its lower-cased name or contact |
| TenantList.TenantMatches | apartment-frontend/src/components/TenantList.jsx:34-37 | definition of the search test; see TenantMatchesIff, EmptySearchKeepsAll |
| TenantList.EmptySearchKeepsAll | apartment-frontend/src/components/TenantList.jsx:34-37 | an empty search keeps every tenant, in order |
| TenantList.TenantViewProperties | apartment-frontend/src/components/TenantList.jsx:33-52 | the table holds exactly the matching tenants; without a key in load order; with a key in column order and stable |
| TenantList.EmailShape | apartment-frontend/src/components/TenantList.jsx:102-104 | the email pattern accepts exactly: no white space, one '@' after a non-empty part, and a domain with a '.' strictly inside |
| TenantList.IsValidEmail | apartment-frontend/src/components/TenantList.jsx:102-104 | definition of the email pattern; see EmailShape, EmailPhoneExclusive, ContactNotBlank |
| TenantList.DigitsOf | apartment-frontend/src/components/TenantList.jsx:107 | removing the non-digits keeps every digit as often as it occurs and nothing else, so its length is the count of digits, never more than the text's |
| TenantList.IsValidPhone | apartment-frontend/src/components/TenantList.jsx:106-108 | definition of the phone pattern; see DigitsOf, PhoneLength, EmailPhoneExclusive |
| TenantList.PhoneLength | apartment-frontend/src/components/TenantList.jsx:106-108 | a valid phone number has at least ten characters |
| TenantList.EmailPhoneExclusive | apartment-frontend/src/components/TenantList.jsx:102-108 | no text is both an email and a phone number |
| TenantList.ContactNotBlank | apartment-frontend/src/components/TenantList.jsx:92-96 | a valid email or phone number is never blank |
| TenantList.TenantFormErrors | apartment-frontend/src/components/TenantList.jsx:85-100 | 'Name is required' exactly for a blank name; a contact error exactly when the contact is neither an email nor a phone, 'Contact info is required' when it is blank |
| TenantList.TenantFormValid | apartment-frontend/src/components/TenantList.jsx:85-100 | the form passes exactly when the name is not blank and the contact is an email or a phone number |
| TenantList.TenantScreen.constructor | apartment-frontend/src/components/TenantList.jsx:11-23 | the initial state |
| TenantList.TenantScreen.FilterAndSortTenants | apartment-frontend/src/components/TenantList.jsx:33-52 | the table becomes the view of the current tenants, term and sort; nothing else changes |
| TenantList.TenantScreen.LoadTenants | apartment-frontend/src/components/TenantList.jsx:61-71 | the fetched tenants are stored and the table is recomputed for them |
| TenantList.TenantScreen.SetSearchTerm | apartment-frontend/src/components/TenantList.jsx:29-31 | a new term recomputes the table |
| TenantList.TenantScreen.HandleSort | apartment-frontend/src/components/TenantList.jsx:54-59 | the sort configuration steps by the toggle and the table is recomputed |
| TenantList.TenantScreen.HandleInputChange | apartment-frontend/src/components/TenantList.jsx:73-83 | only the named field changes, and only its error is cleared |
| TenantList.TenantScreen.ValidateForm | apartment-frontend/src/components/TenantList.jsx:85-100 | the errors are recorded, and the answer is true exactly when there are none |
| TenantList.TenantScreen.HandleSubmit | apartment-frontend/src/components/TenantList.jsx:110-133 | an invalid form issues nothing and only records errors; a valid one issues an update or a create and a notice; a successful save resets and hides the form, a failed one keeps it |
| TenantList.TenantScreen.HandleEdit | apartment-frontend/src/components/TenantList.jsx:135-142 | the form holds the tenant's name and contact, `editingId` its id, and the form is shown |
| TenantList.TenantScreen.HandleCancel | apartment-frontend/src/components/TenantList.jsx:159-164 | the empty form, no errors, no `editingId`, hidden |
| UnitList.UnitMatchesIff | apartment-frontend/src/components/UnitList.jsx:36-44 | a unit is kept exactly when the term occurs in its number or building, and the filter is 'all' or its status |
| UnitList.UnitMatches | apartment-frontend/src/components/UnitList.jsx:36-44 | definition of the search and status test; see UnitMatchesIff, NoFilterKeepsAll, UnitFilterIdempotent |
| UnitList.NoFilterKeepsAll | apartment-frontend/src/components/UnitList.jsx:36-44 | an empty term with the filter 'all' keeps every unit, in order |
| UnitList.UnitFilterIdempotent | apartment-frontend/src/components/UnitList.jsx:36-44 | filtering the filtered units again changes nothing |
| UnitList.UnitViewProperties | apartment-frontend/src/components/UnitList.jsx:35-59 | the table holds exactly the matching units; without a key in load order; with a key in column order and stable |
| UnitList.UnitFormErrors | apartment-frontend/src/components/UnitList.jsx:91-104 | an error exactly for a blank unit number and for a blank building, with their messages |
| UnitList.StatusNotValidated | apartment-frontend/src/components/UnitList.jsx:91-104 | the status never affects the errors |
| UnitList.UnitFormValid | apartment-frontend/src/components/UnitList.jsx:91-104 | the form passes exactly when neither the number nor the building is blank |
| UnitList.UnitScreen.constructor | apartment-frontend/src/components/UnitList.jsx:11-25 | the initial state |
| UnitList.UnitScreen.FilterAndSortUnits | apartment-frontend/src/components/UnitList.jsx:35-59 | the table becomes the view of the current units, term, status filter and sort |
| UnitList.UnitScreen.LoadUnits | apartment-frontend/src/components/UnitList.jsx:68-78 | the fetched units are stored and the table is recomputed |
| UnitList.UnitScreen.SetSearchTerm | apartment-frontend/src/components/UnitList.jsx:31-33 | a new term recomputes the table |
| UnitList.UnitScreen.SetFilterStatus | apartment-frontend/src/components/UnitList.jsx:31-33 | a new status filter recomputes the table |
| UnitList.UnitScreen.HandleSort | apartment-frontend/src/components/UnitList.jsx:61-66 | the sort configuration steps by the toggle and the table is recomputed |
| UnitList.UnitScreen.HandleInputChange | apartment-frontend/src/components/UnitList.jsx:80-89 | only the named field changes, and only its error is cleared |
| UnitList.UnitScreen.ValidateForm | apartment-frontend/src/components/UnitList.jsx:91-104 | the errors are recorded, and the answer is true exactly when there are none |
| UnitList.UnitScreen.HandleSubmit | apartment-frontend/src/components/UnitList.jsx:106-129 | an invalid form issues nothing; a valid one issues an update or a create; a successful save resets and hides the form |
| UnitList.UnitScreen.HandleEdit | apartment-frontend/src/components/UnitList.jsx:131-139 | the form holds the unit's number, building and status, `editingId` its id, and the form is shown |
| UnitList.UnitScreen.HandleCancel | apartment-frontend/src/components/UnitList.jsx:156-161 | the form is reset to the defaults with status 'available', no errors, no `editingId`, hidden |
| PaymentListBackup.TenantLeases | apartment-frontend/src/components/PaymentList.backup.jsx:226-230 | no leases when no tenant is chosen or the leases are not an array; otherwise every copy of each lease whose tenant is the parsed id, and no other lease |
| PaymentListBackup.TenantLeasesInOrder | apartment-frontend/src/components/PaymentList.backup.jsx:229 | once the chosen text parses to a tenant id, the leases are that tenant's, in loaded order |
| PaymentListBackup.NaNTenantHasNoLeases | apartment-frontend/src/components/PaymentList.backup.jsx:229 | a chosen text that is not a number selects no lease |
| PaymentListBackup.LeaseInfo | apartment-frontend/src/components/PaymentList.backup.jsx:232-237 | 'Unknown' when the leases are not an array or none has the id; otherwise the first such lease's number and rent |
| PaymentListBackup.FirstLease | apartment-frontend/src/components/PaymentList.backup.jsx:234 | the position of the first lease with the id |
| PaymentListBackup.UnresolvedTenantMatchesUnknown | apartment-frontend/src/components/PaymentList.backup.jsx:48-55 | a payment whose tenant is not found matches every term that occurs in 'unknown' |
| PaymentListBackup.PaymentMatches | apartment-frontend/src/components/PaymentList.backup.jsx:48-55 | definition of the search by tenant name or payment number and the status test; see UnresolvedTenantMatchesUnknown, SearchDependsOnTenants |
| PaymentListBackup.PaymentViewProperties | apartment-frontend/src/components/PaymentList.backup.jsx:42-78 | empty when the payments are not an array; otherwise exactly the matching payments; without a key in load order; with a key in column order (dates by time value) and stable |
| PaymentListBackup.TotalAmount | apartment-frontend/src/components/PaymentList.backup.jsx:244-249 | definition of `getTotalAmount`; see TotalAmountCountsCompleted, TotalAmountOrderFree, TotalAmountUnsorted |
| PaymentListBackup.TotalAmountCountsCompleted | apartment-frontend/src/components/PaymentList.backup.jsx:244-249 | the total adds the amount of each completed payment once and nothing for the others |
| PaymentListBackup.TotalAmountOrderFree | apartment-frontend/src/components/PaymentList.backup.jsx:244-249 | two tables with the same payments have the same total |
| PaymentListBackup.TotalAmountUnsorted | apartment-frontend/src/components/PaymentList.backup.jsx:244-249 | sorting the table never changes the total |
| PaymentListBackup.PaymentFormErrors | apartment-frontend/src/components/PaymentList.backup.jsx:128-151 | tenant, lease and date errors exactly when missing; an amount error when it is missing or parses to at most 0, with the message of each case |
| PaymentListBackup.PaymentFormValid | apartment-frontend/src/components/PaymentList.backup.jsx:128-151 | the form passes exactly when the four fields are filled in and the amount does not parse to at most 0 |
| PaymentListBackup.EditedPaymentValid | apartment-frontend/src/components/PaymentList.backup.jsx:185-195 | a payment loaded into the form passes exactly when its amount is above 0 |
| PaymentListBackup.PaymentBackupScreen.constructor | apartment-frontend/src/components/PaymentList.backup.jsx:12-30 | the initial state |
| PaymentListBackup.PaymentBackupScreen.FilterAndSortPayments | apartment-frontend/src/components/PaymentList.backup.jsx:42-78 | the table becomes the view of the current state |
| PaymentListBackup.PaymentBackupScreen.LoadPayments | apartment-frontend/src/components/PaymentList.backup.jsx:87-97 | the fetched payments are stored and the table is recomputed |
| PaymentListBackup.PaymentBackupScreen.LoadTenants | apartment-frontend/src/components/PaymentList.backup.jsx:99-106 | the tenants are stored and the table is not recomputed |
| PaymentListBackup.PaymentBackupScreen.LoadLeases | apartment-frontend/src/components/PaymentList.backup.jsx:108-115 | the leases are stored |
| PaymentListBackup.PaymentBackupScreen.SetSearchTerm | apartment-frontend/src/components/PaymentList.backup.jsx:38-40 | a new term recomputes the table |
| PaymentListBackup.PaymentBackupScreen.SetFilterStatus | apartment-frontend/src/components/PaymentList.backup.jsx:38-40 | a new status filter recomputes the table |
| PaymentListBackup.PaymentBackupScreen.HandleSort | apartment-frontend/src/components/PaymentList.backup.jsx:80-85 | the sort configuration steps by the toggle and the table is recomputed |
| PaymentListBackup.PaymentBackupScreen.HandleInputChange | apartment-frontend/src/components/PaymentList.backup.jsx:117-126 | only the named field changes, and only its error is cleared |
| PaymentListBackup.PaymentBackupScreen.ValidateForm | apartment-frontend/src/components/PaymentList.backup.jsx:128-151 | the errors are recorded, and the answer is true exactly when there are none |
| PaymentListBackup.PaymentBackupScreen.HandleSubmit | apartment-frontend/src/components/PaymentList.backup.jsx:153-183 | an invalid form issues nothing; a valid one sends tenant, lease and amount as numbers in an update or a create; a successful save resets and hides the form |
| PaymentListBackup.PaymentBackupScreen.HandleEdit | apartment-frontend/src/components/PaymentList.backup.jsx:185-195 | the form holds the payment, `editingId` its id, and the form is shown |
| PaymentListBackup.PaymentBackupScreen.HandleCancel | apartment-frontend/src/components/PaymentList.backup.jsx:213-218 | the empty form with status 'completed', no errors, no `editingId`, hidden |
| PaymentListBackup.EditThenSubmit | apartment-frontend/src/components/PaymentList.backup.jsx:153-195 | editing a payment and submitting it untouched issues a request exactly when its amount is above 0 |
| PaymentListBackup.NoZWithoutTenant | apartment-frontend/src/components/PaymentList.backup.jsx:48-55 | with no tenants, payment 7 does not match 'z' |
| PaymentListBackup.ZWithTenant | apartment-frontend/src/components/PaymentList.backup.jsx:48-55 | with its tenant 'Zed' loaded, payment 7 matches 'z' |
| PaymentListBackup.SearchDependsOnTenants | apartment-frontend/src/components/PaymentList.backup.jsx:48-55 | the same search shows nothing before the tenant is loaded and the payment after |
| PaymentListBackup.StaleTenantNames | apartment-frontend/src/components/PaymentList.backup.jsx:38-40 | tenants arriving after the payments leave the table empty although the current state's view holds the payment |
| LeaseListBackup.LeaseStatusBadgeAsWritten | apartment-frontend/src/components/LeaseList.backup.jsx:192-205 | the badge as written, by dates: expiring within 29 days of the end, active before that, expired from a whole day after the end, upcoming before the start or in the day after the end |
| LeaseListBackup.RecentlyEndedShowsUpcoming | apartment-frontend/src/components/LeaseList.backup.jsx:200-204 | a lease that ended a millisecond ago shows as upcoming |
| LeaseListBackup.LeaseStatusBadge | apartment-frontend/src/components/LeaseList.backup.jsx:192-205 | expiring and active as written; expired exactly when the end has passed; upcoming exactly when the lease has not started and not ended |
| LeaseListBackup.BadgeDiffersOnlyOnLastDay | apartment-frontend/src/components/LeaseList.backup.jsx:200-204 | the two badges differ exactly on leases that ended less than a day ago |
| LeaseListBackup.BadgeAgreesWithActivity | apartment-frontend/src/components/LeaseList.backup.jsx:192-205 | an upcoming lease has not started; the badge is expiring or active exactly when the lease is active |
| LeaseListBackup.LeaseFormErrors | apartment-frontend/src/components/LeaseList.backup.jsx:67-96 | the five required-field errors, the end date error when it is at or before a parsable start date, and the rent error when it parses to at most 0, with their messages |
| LeaseListBackup.PartyErrors | apartment-frontend/src/components/LeaseList.backup.jsx:70-76 | the tenant and unit errors exactly when missing |
| LeaseListBackup.TermErrors | apartment-frontend/src/components/LeaseList.backup.jsx:78-92 | the start date error exactly when missing, and the end date and rent errors |
| LeaseListBackup.EndDateError | apartment-frontend/src/components/LeaseList.backup.jsx:82-86 | 'End date is required' when missing, 'End date must be after start date' when not after the start |
| LeaseListBackup.RentError | apartment-frontend/src/components/LeaseList.backup.jsx:88-92 | 'Rent amount is required' when missing, 'Rent amount must be greater than 0' when it parses to at most 0 |
| LeaseListBackup.LeaseFormValid | apartment-frontend/src/components/LeaseList.backup.jsx:67-96 | the form passes exactly when the five fields are filled in, the end is not at or before the start, and the rent does not parse to at most 0 |
| LeaseListBackup.LeaseDatesPass | apartment-frontend/src/components/LeaseList.backup.jsx:84 | for the texts of two dates, the date check passes exactly when the start is before the end |
| LeaseListBackup.AvailableUnits | apartment-frontend/src/components/LeaseList.backup.jsx:182-185 | none when the units are not an array; all of them while editing; otherwise exactly the available ones |
| LeaseListBackup.AvailableUnitsInOrder | apartment-frontend/src/components/LeaseList.backup.jsx:182-185 | without an edit, the available units in load order |
| PaymentList.PaymentEditForm | apartment-frontend/src/components/PaymentList.jsx:100-107 | the loaded form has the default fields, passes the submit gate, and keeps the status |
| PaymentList.EditThenSaveRoundTrip | apartment-frontend/src/components/PaymentList.jsx:65-107 | submitting a loaded form sends the payment's tenant, lease, amount, date and status back |
| PaymentList.PaymentScreen.constructor | apartment-frontend/src/components/PaymentList.jsx:7-19 | the initial state |
| PaymentList.PaymentScreen.HandleInputChange | apartment-frontend/src/components/PaymentList.jsx:57-63 | only the named field changes |
| PaymentList.PaymentScreen.HandleSubmit | apartment-frontend/src/components/PaymentList.jsx:65-98 | a form missing one of the four fields gives 'Please fill in all fields', no request and no change; otherwise an update exactly when `editingId` is truthy; a successful save resets and hides the form |
| PaymentList.PaymentScreen.HandleEdit | apartment-frontend/src/components/PaymentList.jsx:100-110 | the form holds the payment, `editingId` its id, and the form is shown |
| PaymentList.PaymentScreen.HandleCancel | apartment-frontend/src/components/PaymentList.jsx:124-128 | the same state as after a successful save |
| PaymentList.EditThenSubmit | apartment-frontend/src/components/PaymentList.jsx:65-110 | editing a payment and submitting it untouched updates that payment, or creates when its id is 0, with its amount |
| LeaseList.LeaseEditForm | apartment-frontend/src/components/LeaseList.jsx:100-107 | the loaded form has the default fields and passes the submit gate |
| LeaseList.EditThenSaveRoundTrip | apartment-frontend/src/components/LeaseList.jsx:65-107 | submitting a loaded form sends the lease's tenant, unit, rent and dates back |
| LeaseList.LeaseScreen.constructor | apartment-frontend/src/components/LeaseList.jsx:7-19 | the initial state |
| LeaseList.LeaseScreen.HandleInputChange | apartment-frontend/src/components/LeaseList.jsx:57-63 | only the named field changes |
| LeaseList.LeaseScreen.HandleSubmit | apartment-frontend/src/components/LeaseList.jsx:65-98 | a form missing one of the five fields gives 'Please fill in all fields', no request and no change; otherwise an update exactly when `editingId` is truthy; a successful save resets and hides the form |
| LeaseList.LeaseScreen.HandleEdit | apartment-frontend/src/components/LeaseList.jsx:100-110 | the form holds the lease, `editingId` its id, and the form is shown |
| LeaseList.LeaseScreen.HandleCancel | apartment-frontend/src/components/LeaseList.jsx:124-128 | the same state as after a successful save |
| LeaseList.SubmitEmptyForm | apartment-frontend/src/components/LeaseList.jsx:68-71 | a fresh form is turned away with 'Please fill in all fields' |
| LeaseList.EditThenSubmit | apartment-frontend/src/components/LeaseList.jsx:65-110 | editing a lease and submitting it untouched updates that lease, or creates when its id is 0, with its rent |
| Dashboard.BehindIsOlder | apartment-frontend/src/components/Dashboard.jsx:56-58 | in the newest-first order, a payment goes after another exactly when it is older |
| Dashboard.NewestFirstIsDescending | apartment-frontend/src/components/Dashboard.jsx:57 | the sign of the date difference is the descending comparison of the dates |
| Dashboard.RecentPayments | apartment-frontend/src/components/Dashboard.jsx:56-58 | at most five payments, all from the fetched ones |
| Dashboard.StatsOf | apartment-frontend/src/components/Dashboard.jsx:45-68 | the totals are the collection sizes; available plus occupied is at most the units; the active leases at most the leases; min(5, payments) recent payments |
| Dashboard.StatsCounts | apartment-frontend/src/components/Dashboard.jsx:46-54 | the counts are of the units with each status and of the leases with start at or before now and end at or after it |
| Dashboard.RecentPaymentsNewestFirst | apartment-frontend/src/components/Dashboard.jsx:56-58 | the recent payments are newest first |
| Dashboard.RecentPaymentsNewest | apartment-frontend/src/components/Dashboard.jsx:56-58 | no payment left out is newer than the last one listed |
| Dashboard.DashboardScreen.constructor | apartment-frontend/src/components/Dashboard.jsx:15-24 | zero statistics while loading |
| Dashboard.DashboardScreen.FetchDashboardData | apartment-frontend/src/components/Dashboard.jsx:30-74 | on success the fetched array is sorted newest first in place and the statistics are stored; on failure they stay and the error is reported; loading ends either way |

## Left out

- HTTP: `apiClient`, the `fetch*` functions, `handleDelete`, `openDeleteModal`, `window.confirm` and the order in which concurrent responses arrive. A fetch is a load method with the response's data; a save is the request a submit returns.
- Rendering: the JSX, `getSortIcon`, `loading` flags other than the dashboard's, and the `occupancyRate` percentage, which is floating point formatted with `toFixed`.
- `formatCurrency` and `formatDate`, which wrap `Intl`: the money text in `PaymentListBackup.LeaseInfo` is the parameter `money`.
- Floating point: amounts and rents are integers, and `parseFloat` is the integer parse, so fractional amounts are not modelled.
- Date parsing and time zones: a date is its time value, and both date helpers read one `now`, where the program reads the clock once per call.
- Lower-casing covers ASCII letters only.
- Strings are sequences of Unicode scalar values, where the language compares UTF-16 code units: `Views.StrLess` orders characters beyond U+FFFF after U+E000 to U+FFFF, where the program orders them before.
- The re-fetch after a save is not modelled. The table after a save is whatever a later load brings.
- `Views.SortInPlace`: a stable insertion sort stands for the engine's `Array.prototype.sort`. The key order is a strict weak order, so equal keys tie; a sort that is also stable has exactly one result, so the outcome is the same.
- `Dashboard.NewestFirst`: the dashboard comparator is modelled on valid dates only; an invalid date makes it `NaN`, and then the engine's order is not defined.
- `LeaseList.backup.jsx` `handleInputChange`, `handleSubmit` and `handleCancel` read or call `formErrors` and `setFormErrors`, which the component never declares. Each of them throws a `ReferenceError`, so the screen never issues a save.
  - The validation those handlers would store is modelled as `LeaseListBackup.LeaseFormErrors`.
  - The backup `handleEdit` is the same as the rendered screen's, modelled as `LeaseList.LeaseScreen.HandleEdit`.
  - The other undeclared identifiers (`sortConfig`, `filteredLeases`, `setDeleteModal`) only affect rendering and deleting.
- The minimal screens' `payments`, `tenants`, `leases` and `units` fields are written only by their fetches, which are left out. Their labels are the functions of `Lookups`.

## Findings

| source | as written | input that shows it | evidently intended | confidence | as-written member | corrected member |
|---|---|---|---|---|---|---|
| apartment-frontend/src/utils/formatters.js:30 | `statusMap[status]` also finds the members every object inherits, and those are truthy, so the 'secondary' fallback is skipped | `getStatusColor('toString')` returns the inherited function, not a colour | every status outside the six known ones gets 'secondary' | not executed; follows from the property lookup rules of the language | Formatters.StatusColorAsWritten | Formatters.StatusColor |
| apartment-frontend/src/components/LeaseList.backup.jsx:200-204 | `daysUntil` rounds up, so a lease that ended less than a day ago counts 0 days, is not `< 0`, and falls through to 'Upcoming' | a lease whose end date is one millisecond before now (for a date-only end, any time during the end date itself, in UTC, after its midnight) | such a lease is 'Expired'; only a lease that has not started is 'Upcoming' | not executed | LeaseListBackup.LeaseStatusBadgeAsWritten | LeaseListBackup.LeaseStatusBadge |
