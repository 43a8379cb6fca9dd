# 311 Chicago incidents — a verified model of the core

This project models the rules at the heart of the 311 Chicago incidents
application in Dafny and proves properties of them:

- **Backend (Django REST framework).**
  - The `Incident` record: its status and service-type choice lists, its column constraints and `__str__`.
  - The "not every field is null" validators of the abandoned-vehicle, activity, graffiti and rodent-baiting-premises serializers, and their variants for incident creation, which drop the unique-together check.
  - Validation of the nested abandoned-vehicle incident payload.
  - Its `create`: five get-or-create writes over the incident, vehicle, activity and two join tables. The database is a class whose fields are those tables.
  - Validation of the analytics query parameters (`DateRangeParams`, `DateAndRequestTypeParams`, `DateParam`), with a concrete model of the `%Y-%m-%d` date format.
  - The CSV import command's dispatch loop over file names, which a CSV read that raises ends early.
- **Frontend (Vue).**
  - The create-incident service: the `_prepare*` normalisers and the request bodies built from them.
  - The queries service: `_prepareDate` and the query strings each query method builds.
  - The router: its routes table and its `beforeEach` guard.
- **Across both.** Lemmas connect the two sides: what the frontend sends is what the backend accepts, or rejects.

The modules, one per source file (plus two shared ones):

| module | file | models |
|---|---|---|
| `Common` | `common.dfy` | `Option`/`Result`, get-or-create on a sequence, the serializer error values |
| `IncidentModel` | `incident_model.dfy` | `models.py` |
| `AbandonedVehicleSerializers`, `ActivitySerializers`, `GraffitiSerializers`, `RodentBaitingSerializers` | one file each | the sub-entity serializers |
| `IncidentSerializer` | `incident_serializer.dfy` | the validation half of `serializers/incident.py` |
| `IncidentStore` | `incident_store.dfy` | `create` of `serializers/incident.py`, the tables, and the request as a whole |
| `QueryParams` | `query_params.dfy` | `serializers/queries.py` |
| `ImportCommand` | `import_command.dfy` | `import_incidents_from_csvs.py` |
| `JsValues` | `js_values.dfy` | the JavaScript values, truthiness, objects, `parseInt`/`parseFloat` the frontend relies on |
| `CreateIncidentService` | `create_incident_service.dfy` | `create-incident.service.js` |
| `QueriesService` | `queries_service.dfy` | `queries.service.js` |
| `RequestDecoding` | `request_decoding.dfy` | a body built by the frontend, as the backend serializer reads it |
| `Router` | `router.dfy` | `router.js` |

Host services are parameters:

- `Builtins` carries `Number.prototype.toString` and `new Date(v).toISOString()`. The second may throw; that is `None`.
- The backend's date-time parser is a function `string -> Option<Instant>`.
- The browser's stored `user` entry is an `Option<string>`.

## Model

| member | source | states |
|---|---|---|
| IncidentModel.StatusCode | backend/chicago_incidents/models.py:17-23 | every status code is non-empty and fits the 15-character `status` column |
| IncidentModel.ServiceTypeCode | backend/chicago_incidents/models.py:25-35 | every service-type code is non-empty and fits the 30-character `type_of_service_request` column |
| IncidentModel.ParseStatus | backend/chicago_incidents/models.py:21-23 | a status found for a code has that code, and a code for which none is found is the code of no status |
| IncidentModel.ParseServiceType | backend/chicago_incidents/models.py:36-48 | a service type found for a code has that code, and a code for which none is found is the code of no service type |
| IncidentModel.StatusChoicesEnumerate | backend/chicago_incidents/models.py:21-23 | the status choice list pairs the four statuses, in declaration order, with their codes |
| IncidentModel.ServiceTypeChoicesEnumerate | backend/chicago_incidents/models.py:36-48 | the service-type choice list has 11 entries and pairs each service type, in order, with its code |
| IncidentModel.StatusCodeRoundTrip | backend/chicago_incidents/models.py:17-23 | parsing the code of a status gives that status back |
| IncidentModel.ServiceTypeCodeRoundTrip | backend/chicago_incidents/models.py:25-35 | parsing the code of a service type gives that service type back |
| IncidentModel.StatusCodeListed | backend/chicago_incidents/models.py:21-23 | every status's code is in the choice list |
| IncidentModel.StatusChoiceFieldAcceptsListed | backend/chicago_incidents/models.py:51 | the `status` choice field accepts a code if and only if it is listed |
| IncidentModel.StatusCodesDistinct | backend/chicago_incidents/models.py:17-23 | the four status codes are pairwise distinct |
| IncidentModel.ServiceTypeCodeListed | backend/chicago_incidents/models.py:36-48 | every service type's code is in the choice list |
| IncidentModel.ServiceTypeChoiceFieldAcceptsListed | backend/chicago_incidents/models.py:54 | the `type_of_service_request` choice field accepts a code if and only if it is listed |
| IncidentModel.ServiceTypeCodesDistinct | backend/chicago_incidents/models.py:25-35 | the 11 service-type codes are pairwise distinct |
| IncidentModel.ChoiceLabelsUnique | backend/chicago_incidents/models.py:21-48 | in both choice lists a code has exactly one label |
| IncidentModel.IncidentToString | backend/chicago_incidents/models.py:77-82 | `__str__` of a valid incident is a non-empty text that fits the 20-character request-number column |
| AbandonedVehicleSerializers.Validate | backend/chicago_incidents/serializers/abandoned_vehicle.py:26-29 | rejected with the "all None" error exactly when all three fields are null; otherwise returned unchanged |
| AbandonedVehicleSerializers.ValidateForCreate | backend/chicago_incidents/serializers/abandoned_vehicle.py:18-29 | accepted exactly when some field is set and the triple is not a stored, fully non-null one; the latter is a not-unique error |
| AbandonedVehicleSerializers.ValidateForIncident | backend/chicago_incidents/serializers/abandoned_vehicle.py:32-38 | accepted exactly when some field is set, whatever is stored |
| AbandonedVehicleSerializers.ForIncidentIgnoresTable | backend/chicago_incidents/serializers/abandoned_vehicle.py:36-38 | the variant for incidents decides alike for any two vehicle tables |
| AbandonedVehicleSerializers.ExistingVehicleOnlyReusable | backend/chicago_incidents/serializers/abandoned_vehicle.py:32-38 | a stored, fully set vehicle passes the variant for incidents and is rejected as not unique by the plain serializer |
| AbandonedVehicleSerializers.CreateStricterThanForIncident | backend/chicago_incidents/serializers/abandoned_vehicle.py:18-38 | whatever the plain serializer accepts, the variant for incidents accepts with the same result |
| AbandonedVehicleSerializers.EmptyStringIsAValue | backend/chicago_incidents/serializers/abandoned_vehicle.py:27 | the test is `is None`: an empty plate alone passes, all-null fails |
| ActivitySerializers.Validate | backend/chicago_incidents/serializers/activity.py:26-29 | rejected with the "all None" error exactly when both fields are null; otherwise returned unchanged |
| ActivitySerializers.ValidateForCreate | backend/chicago_incidents/serializers/activity.py:18-29 | accepted exactly when some field is set and the pair is not a stored, fully non-null one; the latter is a not-unique error |
| ActivitySerializers.ValidateForIncident | backend/chicago_incidents/serializers/activity.py:32-35 | accepted exactly when some field is set, whatever is stored |
| ActivitySerializers.ForIncidentIgnoresTable | backend/chicago_incidents/serializers/activity.py:32-35 | the variant for incidents decides alike for any two activity tables |
| ActivitySerializers.ExistingActivityOnlyReusable | backend/chicago_incidents/serializers/activity.py:18-35 | a stored, fully set activity passes the variant for incidents and is rejected as not unique by the plain serializer |
| ActivitySerializers.EmptyStringIsAValue | backend/chicago_incidents/serializers/activity.py:27 | an empty current activity alone passes; both null fails |
| GraffitiSerializers.Validate | backend/chicago_incidents/serializers/graffiti.py:26-29 | rejected exactly when surface and location are both null; otherwise returned unchanged |
| GraffitiSerializers.ValidateForCreate | backend/chicago_incidents/serializers/graffiti.py:18-29 | accepted exactly when some field is set and the pair is not a stored, fully non-null one |
| GraffitiSerializers.ValidateForIncident | backend/chicago_incidents/serializers/graffiti.py:32-35 | accepted exactly when some field is set, whatever is stored |
| GraffitiSerializers.SameGraffitiTwiceLeavesOneRow | backend/chicago_incidents/serializers/graffiti.py:32-35 | the same graffiti posted twice through the variant for incidents, each time followed by get-or-create, is accepted twice and leaves one row |
| GraffitiSerializers.SameGraffitiTwiceRejectedByCreate | backend/chicago_incidents/serializers/graffiti.py:18-29 | the plain serializer rejects a fully set graffiti once it is stored |
| RodentBaitingSerializers.Validate | backend/chicago_incidents/serializers/rodent_baiting_premises.py:17-21 | rejected exactly when all three counts are null; otherwise returned unchanged |
| RodentBaitingSerializers.ValidateForIncident | backend/chicago_incidents/serializers/rodent_baiting_premises.py:24-30 | the variant for incidents accepts exactly when some count is set |
| RodentBaitingSerializers.ZeroIsAValue | backend/chicago_incidents/serializers/rodent_baiting_premises.py:18-19 | a count of 0 alone passes; all null fails |
| Common.Find | backend/chicago_incidents/serializers/incident.py:44-48 | the lookup of a get-or-create on every column, a loop scanning from the front, returns the position of the first equal row, or none |
| Common.GetOrCreate | backend/chicago_incidents/serializers/incident.py:44-48 | the returned position holds the row; an existing row is found, not re-inserted; a new row is appended last |
| Common.GetOrCreateNoDuplicates | backend/chicago_incidents/serializers/incident.py:44-48 | a get-or-create never introduces a duplicate row |
| Common.GetOrCreateIdempotent | backend/chicago_incidents/serializers/incident.py:44-48 | repeating a get-or-create changes nothing |
| Common.GetOrCreateCount | backend/chicago_incidents/serializers/incident.py:44-45 | after a get-or-create a row occurs as often as before, and at least once |
| Common.MatchingPositions | backend/chicago_incidents/serializers/incident.py:43 | the positions a filter matches, in increasing order: each holds a matching row, and every matching row's position is listed |
| Common.FindAll | backend/chicago_incidents/serializers/incident.py:43 | the query of a filtered get, a loop scanning from the front, collects exactly the matching positions |
| Common.GetOrCreateWhere | backend/chicago_incidents/serializers/incident.py:43 | a filtered get-or-create that succeeds returns a position inside the table it leaves |
| Common.MatchingPositionsAppend | backend/chicago_incidents/serializers/incident.py:43 | appending a row adds its position exactly when it matches |
| Common.MatchingPositionsNone | backend/chicago_incidents/serializers/incident.py:43 | a filter that matches no row has no position |
| Common.MatchingPositionsOne | backend/chicago_incidents/serializers/incident.py:43 | a filter that matches exactly one row has exactly that row's position |
| Common.MatchingPositionsTwo | backend/chicago_incidents/serializers/incident.py:43 | a filter that matches two rows has at least two positions |
| Common.GetOrCreateWhereNone | backend/chicago_incidents/serializers/incident.py:43 | with no matching row, the new row is appended and its position returned |
| Common.GetOrCreateWhereOne | backend/chicago_incidents/serializers/incident.py:43 | with exactly one matching row, its position is returned and the table is unchanged |
| Common.GetOrCreateWhereTwo | backend/chicago_incidents/serializers/incident.py:43 | with two matching rows, the get raises `MultipleObjectsReturned` |
| Common.GetOrCreateWhereEquality | backend/chicago_incidents/serializers/incident.py:44-45 | on a table without duplicate rows, a get-or-create filtered on every column never raises and is `GetOrCreate` |
| Common.GetOrCreateWhereFails | backend/chicago_incidents/serializers/incident.py:43 | a filtered get-or-create fails exactly when two rows match the filter |
| Common.GetOrCreateWhereMatches | backend/chicago_incidents/serializers/incident.py:43 | the returned row matches the filter, given that the new row does |
| Common.GetOrCreateWhereIdempotent | backend/chicago_incidents/serializers/incident.py:43 | repeating a successful filtered get-or-create whose new row matches returns the same row and writes nothing |
| IncidentSerializer.Strip | backend/chicago_incidents/models.py:53 | the stripped text is a slice of the input that neither starts nor ends with white space, with only white space cut off |
| IncidentSerializer.RequiredDateTime | backend/chicago_incidents/models.py:50 | accepted exactly when given and readable; missing is "required", null is "not null" |
| IncidentSerializer.NullableDateTime | backend/chicago_incidents/models.py:52 | null is stored as null; a given text must be readable; missing is "required" |
| IncidentSerializer.StatusField | backend/chicago_incidents/models.py:51 | accepted exactly when a listed code is given; the result's code is the text; other texts are an invalid choice |
| IncidentSerializer.ServiceTypeField | backend/chicago_incidents/models.py:54 | accepted exactly when a listed code is given; other texts are an invalid choice |
| IncidentSerializer.RequiredText | backend/chicago_incidents/models.py:53 | accepted exactly when given and, once stripped, non-empty and within the length; blank and null are errors |
| IncidentSerializer.NullableText | backend/chicago_incidents/models.py:57 | null is stored as null; a text is stripped and must fit the length |
| IncidentSerializer.IntegerColumn | backend/chicago_incidents/models.py:58-69 | a value must lie in the 32-bit range, with a max- or min-value error otherwise; null, and a missing key (whose column then gets its null default), give null |
| IncidentSerializer.ValidateGeo | backend/chicago_incidents/models.py:58-71 | accepted exactly when every integer column is in range; the decimals pass through |
| IncidentSerializer.IncidentFields | backend/chicago_incidents/serializers/incident.py:20-29 | accepted exactly when every field is; the incident built is valid, holds the validated values and has no activity texts |
| IncidentSerializer.ValidateIncident | backend/chicago_incidents/serializers/incident.py:20-29 | the fields decide, and then a complete natural key already stored is rejected under `non_field_errors` |
| IncidentSerializer.NullableValue | backend/chicago_incidents/serializers/abandoned_vehicle.py:22-24 | a sub-entity text must be present; null is stored as null; a text is stored stripped, so whitespace alone is stored as empty |
| IncidentSerializer.SentColumns | backend/chicago_incidents/serializers/incident.py:26-29 | an optional incident column is in the validated data exactly when the nested incident sends its key, with a value or null |
| IncidentSerializer.NonFieldErrors | backend/chicago_incidents/serializers/abandoned_vehicle.py:26-28 | a `validate` error is reported under `non_field_errors`, and nothing else changes |
| IncidentSerializer.VehicleFields | backend/chicago_incidents/serializers/abandoned_vehicle.py:22-24 | the vehicle's fields decode exactly when all three keys are present |
| IncidentSerializer.ActivityFields | backend/chicago_incidents/serializers/activity.py:22-24 | the activity's fields decode exactly when both keys are present |
| IncidentSerializer.ValidateVehicle | backend/chicago_incidents/serializers/incident.py:37 | the nested vehicle is accepted exactly when its fields decode and one is not null; no table lookup |
| IncidentSerializer.ValidateActivity | backend/chicago_incidents/serializers/incident.py:36 | accepted exactly when the fields decode, one is not null and, with the unique-together check, the pair is not a stored, fully set one |
| IncidentSerializer.NestedField | backend/chicago_incidents/serializers/incident.py:35-37 | a nested key is required and not nullable; a given object's own errors are nested under the key |
| IncidentSerializer.ValidatePayloadWith | backend/chicago_incidents/serializers/incident.py:32-37 | accepted exactly when all three nested parts are, with their values and the optional incident columns sent; otherwise the errors are those of the failing parts, each under its key |
| IncidentSerializer.IncidentErrorReported | backend/chicago_incidents/serializers/incident.py:35 | a failing nested incident's error is reported under `incident` |
| IncidentSerializer.ValidatePayload | backend/chicago_incidents/serializers/incident.py:32-37 | an accepted payload was sent all three keys and has a valid incident whose complete key is free, and a vehicle and activity with some field set |
| IncidentSerializer.ValidatePayloadAccepts | backend/chicago_incidents/serializers/incident.py:32-37 | the payload is accepted exactly when all three keys are given, the incident validates and the vehicle and activity each decode with some field set; the validated payload is made of those results and the optional incident columns sent |
| IncidentSerializer.AbsentVehicleRejected | backend/chicago_incidents/serializers/incident.py:37 | a payload without the `abandoned_vehicle` key is rejected, with "required" under that key |
| IncidentSerializer.ValidatePayloadAsWritten | backend/chicago_incidents/serializers/incident.py:36 | whatever it accepts the corrected validation accepts alike, and its activity is never a stored, fully set pair |
| IncidentStore.IncidentLookupCases | backend/chicago_incidents/serializers/incident.py:43 | a successful incident get-or-create either returns a stored row matching on the columns sent, table unchanged, or appends the payload's incident, which no stored row equals |
| IncidentStore.CreateStoresPayload | backend/chicago_incidents/serializers/incident.py:39-49 | a successful `create` returns an incident agreeing with the payload's on the natural key and every optional column sent (equal to it when inserted), joined to a vehicle row and an activity row holding the payload's vehicle and activity |
| IncidentStore.CreateFailsOnAmbiguousIncident | backend/chicago_incidents/serializers/incident.py:43 | `create` raises `MultipleObjectsReturned` exactly when two stored incidents agree with the payload's on the columns sent, and then writes nothing |
| IncidentStore.CreateOnlyGrows | backend/chicago_incidents/serializers/incident.py:43-48 | every table keeps its rows in place and gains at most one row |
| IncidentStore.CreateReturnsExistingIncident | backend/chicago_incidents/serializers/incident.py:43 | when exactly one stored incident agrees with the payload's on the columns sent, it is returned whatever its other columns hold, and the incident table is unchanged |
| IncidentStore.CreateIdempotent | backend/chicago_incidents/serializers/incident.py:43-48 | running a successful `create` again with the same payload changes nothing and returns the same id |
| IncidentStore.LinksGrow | backend/chicago_incidents/serializers/incident.py:46-48 | join rows keep pointing at existing rows as the tables grow |
| IncidentStore.KeysStayUnique | backend/chicago_incidents/serializers/incident.py:43 | adding an incident whose natural key is incomplete or not yet taken keeps complete natural keys unique |
| IncidentStore.SubEntityLookupsNeverRaise | backend/chicago_incidents/serializers/incident.py:44-45 | in valid tables the vehicle and activity lookups of `create` never raise `MultipleObjectsReturned` and are `GetOrCreate` |
| IncidentStore.CreatePreservesValid | backend/chicago_incidents/serializers/incident.py:39-49 | `create` on a validated payload whose key is free keeps every table invariant, whether it succeeds or raises |
| IncidentStore.JoinRowsAtMostOnce | backend/chicago_incidents/serializers/incident.py:46-48 | in valid tables each join row occurs at most once |
| IncidentStore.SubmitPreservesValid | backend/chicago_incidents/serializers/incident.py:32-49 | a request, accepted or rejected, keeps every table invariant |
| IncidentStore.RejectedSubmitWritesNothing | backend/chicago_incidents/serializers/incident.py:32-49 | a failed request, invalid or raising in `create`, leaves the tables unchanged |
| IncidentStore.SubmitTwiceRejected | backend/chicago_incidents/tests/test_incidents.py:276-288 | an accepted payload submitted again is rejected as not unique and writes nothing |
| IncidentStore.TakenKeyRejected | backend/chicago_incidents/serializers/incident.py:20-37 | a request whose incident's complete natural key is already stored is rejected with the not-unique error under `incident`, and writes nothing |
| IncidentStore.CreateTakesOnlyItsKey | backend/chicago_incidents/serializers/incident.py:43 | `create` takes no natural key other than its own incident's |
| IncidentStore.ReusedSubEntitiesAccepted | backend/chicago_incidents/serializers/abandoned_vehicle.py:32-38 | with the corrected nested activity serializer, a new incident with the same vehicle and activity is accepted later, with the same validated sub-entities |
| IncidentStore.NoMatchAfterCreate | backend/chicago_incidents/serializers/incident.py:43 | an incident that matches no stored row and has another natural key still matches none after a successful `create` |
| IncidentStore.UnmatchedCreateStoresOnce | backend/chicago_incidents/serializers/incident.py:43-48 | `create` into valid tables of a payload no stored incident matches succeeds and leaves its vehicle and its activity in one row each |
| IncidentStore.SameVehicleAndActivityStoredOnce | backend/chicago_incidents/tests/test_incidents.py:322-338 | with the corrected nested activity serializer, two accepted requests with the same vehicle and activity and an incident no stored row matches leave one row for each |
| IncidentStore.AsWrittenRejectsReusedActivity | backend/chicago_incidents/serializers/incident.py:36 | with the activity serializer as written, the second such request is rejected as not unique |
| IncidentStore.StoredActivityRejectedAsWritten | backend/chicago_incidents/serializers/incident.py:36 | as written, a request whose fully filled activity is already stored is rejected as not unique |
| IncidentStore.AsWrittenAgreesWhenAccepted | backend/chicago_incidents/serializers/incident.py:36-37 | when the request as written is accepted, the corrected one has the same result and tables |
| IncidentStore.MalformedIncidentRejected | backend/chicago_incidents/tests/test_incidents.py:340-393 | an unlisted status or service type, a null request number or an unreadable creation date is rejected, and nothing is written |
| IncidentStore.AllNullSubEntityRejected | backend/chicago_incidents/tests/test_incidents.py:395-418 | an all-null vehicle or activity is rejected, and nothing is written |
| IncidentStore.MissingSubEntityRejected | backend/chicago_incidents/serializers/incident.py:35-42 | a payload without its activity or vehicle is rejected as "required", and nothing is written |
| IncidentStore.MalformedCodesNotListed | backend/chicago_incidents/tests/test_incidents.py:340-371 | `asdf`, `unknown type` and `TREE_TRIMS` are not listed codes |
| IncidentStore.Store.constructor | backend/chicago_incidents/serializers/incident.py:43-48 | the store starts empty and valid |
| IncidentStore.Store.GetOrCreateIncident | backend/chicago_incidents/serializers/incident.py:43 | the incident table becomes the get-or-create filtered on the validated data's columns: the one matching row, a new row, or `MultipleObjectsReturned` with nothing written; no other table changes |
| IncidentStore.Store.GetOrCreateVehicle | backend/chicago_incidents/serializers/incident.py:44 | the vehicle table becomes its get-or-create; no other table changes |
| IncidentStore.Store.GetOrCreateActivity | backend/chicago_incidents/serializers/incident.py:45 | the activity table becomes its get-or-create; no other table changes |
| IncidentStore.Store.GetOrCreateVehicleIncident | backend/chicago_incidents/serializers/incident.py:46-47 | the vehicle join table becomes its get-or-create; no other table changes |
| IncidentStore.Store.GetOrCreateActivityIncident | backend/chicago_incidents/serializers/incident.py:48 | the activity join table becomes its get-or-create; no other table changes |
| IncidentStore.Store.Create | backend/chicago_incidents/serializers/incident.py:39-49 | the five writes in place give the result and tables of the pure `create`, stopping at a raising incident lookup |
| IncidentStore.Store.Submit | backend/chicago_incidents/serializers/incident.py:32-49 | with the corrected nested activity serializer, validation then `create` agrees with the pure request, keeps the store valid, and a failed request writes nothing |
| QueryParams.MatchMonthDash | backend/chicago_incidents/serializers/queries.py:7 | a matched month lies in 1..12, and text is consumed |
| QueryParams.MatchDay | backend/chicago_incidents/serializers/queries.py:7 | a matched day lies in 1..31 and takes one or two characters |
| QueryParams.ParseYmd | backend/chicago_incidents/serializers/queries.py:7 | every date read from `%Y-%m-%d` is a real calendar date |
| QueryParams.ParseSpelling | backend/chicago_incidents/serializers/queries.py:7 | every spelling the format allows for a date (zero-padded or not) reads back as that date |
| QueryParams.ParseFormatRoundTrip | backend/chicago_incidents/serializers/queries.py:7 | `YYYY-MM-DD` of a valid date reads back as that date |
| QueryParams.ParseOnlySpellings | backend/chicago_incidents/serializers/queries.py:7 | conversely, every accepted text is an allowed spelling of the date read |
| QueryParams.LastValue | backend/chicago_incidents/serializers/queries.py:14-17 | a name's value is the last one given for it, and none exactly when it is not given |
| QueryParams.DateField | backend/chicago_incidents/serializers/queries.py:14-17 | accepted exactly when given and readable; missing is "required", unreadable is "invalid" |
| QueryParams.ServiceTypeField | backend/chicago_incidents/serializers/queries.py:28-29 | accepted exactly when a listed code is given, giving the service type with that code |
| QueryParams.ValidateDateRange | backend/chicago_incidents/serializers/queries.py:11-22 | accepted exactly when both dates are valid and the start is not after the end; field errors by name, a reversed range under the combined key only |
| QueryParams.ValidateDateAndRequestType | backend/chicago_incidents/serializers/queries.py:25-29 | accepted exactly when the range and the type are, as that range with that type |
| QueryParams.DateAndRequestTypeErrorKeys | backend/chicago_incidents/serializers/queries.py:25-29 | a rejection reports each field that failed, and the range error only when all three fields are valid |
| QueryParams.ValidateDate | backend/chicago_incidents/serializers/queries.py:32-36 | accepted exactly when the one `date` field is, and the error is under `date` |
| QueryParams.SameDayRangeAccepted | backend/chicago_incidents/serializers/queries.py:19-22 | the comparison is strict: a one-day range is accepted |
| QueryParams.ReversedRangeRejected | backend/chicago_incidents/tests/test_queries.py:32-39 | any two valid dates with the start after the end, sent end first, are rejected under the combined key only |
| QueryParams.TrailingCharactersRejected | backend/chicago_incidents/tests/test_queries.py:41-55 | any text after a valid date's day makes that date invalid; each such date, and only those, is reported |
| QueryParams.MissingDatesRequired | backend/chicago_incidents/tests/test_queries.py:57-71 | each missing date is reported as required |
| QueryParams.CalendarChecked | backend/chicago_incidents/serializers/queries.py:7 | 29 February exists only in leap years; year 0 is rejected; unpadded months and days are read |
| QueryParams.RequestTypeKeepsRangeRules | backend/chicago_incidents/serializers/queries.py:25-29 | an accepted request with a type has an accepted date range |
| QueryParams.BadTypeHidesReversedRange | backend/chicago_incidents/serializers/queries.py:19-29 | with an unlisted type, a reversed range is reported only as the invalid choice |
| ImportCommand.AllFileLines | backend/chicago_incidents/management/commands/import_incidents_from_csvs.py:26-31 | two lines are written per input file |
| ImportCommand.LinesInOrder | backend/chicago_incidents/management/commands/import_incidents_from_csvs.py:26-31 | the i-th file's lines are "Processing file", then the importer's line or the skip notice, at 2i and 2i+1, so a skipped file stops nothing |
| ImportCommand.ImportedFiles | backend/chicago_incidents/management/commands/import_incidents_from_csvs.py:28-29 | exactly the files ending in `abandoned-vehicles.csv` are imported |
| ImportCommand.SummaryNotAFileLine | backend/chicago_incidents/management/commands/import_incidents_from_csvs.py:33-34 | no per-file line equals the summary line |
| ImportCommand.FirstUnreadableIsFirst | backend/chicago_incidents/management/commands/import_incidents_from_csvs.py:26-42 | the position of the first abandoned-vehicle file whose CSV read raises: it raises, and no file before it does; none when no file's read raises |
| ImportCommand.FirstUnreadableFound | backend/chicago_incidents/management/commands/import_incidents_from_csvs.py:26-42 | the position found is a file handed to the importer whose CSV read raises |
| ImportCommand.FirstUnreadableAt | backend/chicago_incidents/management/commands/import_incidents_from_csvs.py:26-42 | a raising read at position i, after a prefix whose reads all succeed, is the first one |
| ImportCommand.UnreadableFileStopsCommand | backend/chicago_incidents/management/commands/import_incidents_from_csvs.py:26-42 | a raising read ends the command: the output stops after that file's announcement and the importer's line, with no summary, and no later file is imported |
| ImportCommand.SummaryWrittenOnce | backend/chicago_incidents/management/commands/import_incidents_from_csvs.py:33-34 | the summary is written exactly once, last, when no read raises, and never when one does |
| ImportCommand.ImporterLinePerImportedFile | backend/chicago_incidents/management/commands/import_incidents_from_csvs.py:28-31 | the importer announces itself once per imported file |
| ImportCommand.SuffixMatchExamples | backend/chicago_incidents/management/commands/import_incidents_from_csvs.py:28 | the suffix test is exact and case-sensitive |
| ImportCommand.Command.constructor | backend/chicago_incidents/management/commands/import_incidents_from_csvs.py:9-12 | a new command has written nothing and imported nothing |
| ImportCommand.Command.Write | backend/chicago_incidents/management/commands/import_incidents_from_csvs.py:27 | one line is appended to the output |
| ImportCommand.Command.ImportAbandonedVehicles | backend/chicago_incidents/management/commands/import_incidents_from_csvs.py:36-44 | the importer writes its one line, records the file, and reports whether its CSV read succeeds |
| ImportCommand.Command.HandleFile | backend/chicago_incidents/management/commands/import_incidents_from_csvs.py:27-31 | one turn of the loop writes the file's two lines, imports it when it ends in the suffix, and fails only when that import's read raises |
| ImportCommand.Command.HandleFiles | backend/chicago_incidents/management/commands/import_incidents_from_csvs.py:26-31 | the loop handles the files in order until a read raises, reporting that file; output and imports are exactly those of the files reached |
| ImportCommand.Command.Handle | backend/chicago_incidents/management/commands/import_incidents_from_csvs.py:21-34 | the command writes exactly the per-file lines in order, then the summary, and imports exactly the matching files in order; a raising read ends it there, without the summary |
| JsValues.Get | frontend/src/services/create-incident.service.js:11 | reading a property of `null` or `undefined` throws a TypeError; otherwise it reads the own property |
| JsValues.Put | frontend/src/services/create-incident.service.js:136-144 | `data[key] = v` sets that key only; a new key is added last and an existing one keeps its place |
| JsValues.ParseIntText | frontend/src/services/create-incident.service.js:30 | `parseInt` gives NaN or a whole number |
| JsValues.ParseIntOfIntText | frontend/src/services/create-incident.service.js:30 | `parseInt(String(n))` is n for every integer |
| JsValues.ParseFloatOfIntText | frontend/src/services/create-incident.service.js:31 | `parseFloat(String(n))` is n for every integer |
| JsValues.ParseIntStopsAtNonDigit | frontend/src/services/create-incident.service.js:30 | `parseInt("12abc")` is 12 |
| JsValues.ParseIntSkipsSpaceAndSign | frontend/src/services/create-incident.service.js:30 | any leading white space, then `-` and the digits of n, gives -n (`parseInt("  -7")` is -7) |
| JsValues.ParseIntOfDigitsThen | frontend/src/services/create-incident.service.js:30 | decimal digits not starting with `0`, then text not starting with a digit, give the digits' value |
| JsValues.ParseIntHexPrefix | frontend/src/services/create-incident.service.js:30 | `0x` followed by base-16 digits gives their base-16 value (with `HexOneA`, `parseInt("0x1A")` is 26) |
| JsValues.ParseIntNoDigits | frontend/src/services/create-incident.service.js:30 | `parseInt("abc")` and `parseInt("")` are NaN |
| CreateIncidentService.NullIfFalsy | frontend/src/services/create-incident.service.js:23-29 | `v \|\| null` is null exactly when v is falsy, and v otherwise |
| CreateIncidentService.IsoDateOrNull | frontend/src/services/create-incident.service.js:11-21 | a falsy date gives null; a truthy one its ISO string, or a RangeError when the host cannot convert it |
| CreateIncidentService.PrepareIncidentData | frontend/src/services/create-incident.service.js:8-44 | throws exactly when the incident is null or undefined (TypeError) or a set date is invalid; otherwise an object |
| CreateIncidentService.PreparedIncidentTexts | frontend/src/services/create-incident.service.js:25-29 | each of the five texts is sent as given or as null when falsy, so a `zip_code` of 0 is sent as null |
| CreateIncidentService.PreparedIncidentEmptyDates | frontend/src/services/create-incident.service.js:11-24 | an empty creation or completion date is sent as null |
| CreateIncidentService.PrepareIncidentActivityData | frontend/src/services/create-incident.service.js:46-56 | null exactly when both fields are falsy; otherwise both fields, falsy ones as null |
| CreateIncidentService.PrepareAbandonedVehicleData | frontend/src/services/create-incident.service.js:58-68 | null exactly when all three fields are falsy; otherwise all three, falsy ones as null |
| CreateIncidentService.PrepareGarbageCartsPotholesData | frontend/src/services/create-incident.service.js:70-78 | null exactly when the count is falsy (so 0 is dropped); otherwise the parsed count |
| CreateIncidentService.PrepareGraffitiData | frontend/src/services/create-incident.service.js:80-89 | null exactly when both fields are falsy; otherwise both, falsy ones as null |
| CreateIncidentService.PrepareRodentBaitingData | frontend/src/services/create-incident.service.js:91-104 | null exactly when all three counts are falsy; otherwise all three through `parseInt` |
| CreateIncidentService.PrepareSanitationCodeData | frontend/src/services/create-incident.service.js:106-114 | null exactly when the description is falsy; otherwise the description |
| CreateIncidentService.PrepareTreeData | frontend/src/services/create-incident.service.js:116-124 | never throws; null only for a falsy tree; a tree with an empty location gives `{location: null}` |
| CreateIncidentService.Assemble | frontend/src/services/create-incident.service.js:132-221 | a body exists exactly when nothing thrown while preparing; an incident error comes first |
| CreateIncidentService.AssembleOne | frontend/src/services/create-incident.service.js:165-176 | with one sub-entity: the first error in order, or `incident`, the sub-entity only when not null, then the trailing entries |
| CreateIncidentService.AssembleTwo | frontend/src/services/create-incident.service.js:149-163 | with two sub-entities: the first error in order, or `incident`, then each non-null sub-entity in order, then the trailing entries |
| CreateIncidentService.BodyOne | frontend/src/services/create-incident.service.js:168-172 | the `data` object is `incident`, then the sub-entity's key only when its value is not null |
| CreateIncidentService.BodyTwo | frontend/src/services/create-incident.service.js:153-160 | the `data` object is `incident`, then each non-null sub-entity in the order set |
| CreateIncidentService.AbandonedVehicleBody | frontend/src/services/create-incident.service.js:136-144 | as above for activity and vehicle, then `days_of_report_as_parked` always, last |
| CreateIncidentService.AbandonedVehicleIncident | frontend/src/services/create-incident.service.js:132-147 | the body is the assembled incident, activity, vehicle and days parked, or the first exception |
| CreateIncidentService.GarbageCartsPotholesIncident | frontend/src/services/create-incident.service.js:149-163 | the body is the assembled incident, activity and `carts_and_potholes`, or the first exception |
| CreateIncidentService.GraffitiIncident | frontend/src/services/create-incident.service.js:165-176 | the body is the assembled incident and `graffiti`, or the first exception |
| CreateIncidentService.RodentBaitingIncident | frontend/src/services/create-incident.service.js:178-193 | the body is the assembled incident, activity and `rodent_baiting_premises`, or the first exception |
| CreateIncidentService.SanitationCodeIncident | frontend/src/services/create-incident.service.js:195-205 | the body is the assembled incident and `sanitation_code_violation`, or the first exception |
| CreateIncidentService.TreeIncident | frontend/src/services/create-incident.service.js:207-221 | the body is the assembled incident, activity and `tree`, or the first exception |
| CreateIncidentService.AbandonedVehicleBodyKeys | frontend/src/services/create-incident.service.js:136-144 | in the body, `incident` and the days parked are always read back; `activity` and `abandoned_vehicle` are read back exactly when not null, and are undefined otherwise |
| CreateIncidentService.AbandonedVehicleFieldsLookup | frontend/src/services/create-incident.service.js:136-144 | the same, read off the body's entries |
| RequestDecoding.NestedOf | backend/chicago_incidents/serializers/incident.py:35-37 | a missing nested key is absent, and a decodable object is given as its decoding |
| RequestDecoding.SentText | frontend/src/services/create-incident.service.js:61-63 | a form text sent through `v \|\| null` reaches the backend as its text when filled and as null otherwise, and is stored stripped |
| RequestDecoding.PreparedVehicleAccepted | frontend/src/services/create-incident.service.js:58-68 | a vehicle form with a filled field is prepared into an object the nested serializer accepts, holding the stripped text of each filled field and null for the others |
| RequestDecoding.PreparedActivityAccepted | frontend/src/services/create-incident.service.js:46-56 | an activity form with a filled field is accepted by the nested serializer without unique-together, whatever is stored, holding the stripped texts of its filled fields |
| RequestDecoding.RepeatedActivityRejectedAsWritten | backend/chicago_incidents/serializers/incident.py:36 | with the serializer as written, an activity form repeating a stored, fully filled pair is rejected |
| RequestDecoding.ActivityDecoded | frontend/src/services/create-incident.service.js:138-140 | the body's activity is given exactly when a field was filled, and then validates to the stripped texts of the filled fields |
| RequestDecoding.VehicleDecoded | frontend/src/services/create-incident.service.js:141-143 | a filled vehicle form is given in the body and validates to the stripped texts of the filled fields |
| RequestDecoding.EmptyVehicleFormRejected | frontend/src/services/create-incident.service.js:141-143 | an empty vehicle form sends no `abandoned_vehicle`, which the backend reports as required, rejecting the request |
| RequestDecoding.EmptyVehicleNotSent | frontend/src/services/create-incident.service.js:141-143 | a body carrying an empty vehicle form has no `abandoned_vehicle` key |
| RequestDecoding.EmptyVehicleRejected | backend/chicago_incidents/serializers/incident.py:37 | a body without the vehicle is rejected with "required" under its key |
| RequestDecoding.FilledFormsAccepted | frontend/src/services/create-incident.service.js:132-147 | filled forms and an acceptable incident give a body the backend accepts, storing the stripped texts of the filled fields and null for the others |
| RequestDecoding.FilledAccepted | backend/chicago_incidents/serializers/incident.py:32-37 | a body carrying filled forms and an acceptable incident is accepted, with sub-entities holding the stripped filled texts |
| QueriesService.BeforeT | frontend/src/services/queries.service.js:12 | `split('T')[0]` is the prefix before the first `T`, or all of the text |
| QueriesService.PrepareDate | frontend/src/services/queries.service.js:8-17 | null exactly for a falsy date; a RangeError when the host cannot convert it; otherwise the ISO text before `T` |
| QueriesService.DateRangeRequest | frontend/src/services/queries.service.js:19-31 | throws exactly when a set date is invalid; otherwise `start_date` then `end_date`, each only when set |
| QueriesService.TotalRequestsPerType | frontend/src/services/queries.service.js:19-31 | its endpoint with the date-range query |
| QueriesService.AverageCompletionTimePerRequest | frontend/src/services/queries.service.js:58-70 | its endpoint with the date-range query |
| QueriesService.Top5SSA | frontend/src/services/queries.service.js:86-98 | its endpoint with the date-range query |
| QueriesService.TotalRequestsPerDay | frontend/src/services/queries.service.js:33-46 | the date-range query, then `type_of_service_request` always, last |
| QueriesService.MostCommonServicePerZipcode | frontend/src/services/queries.service.js:48-56 | at most one parameter, `date`, only when set |
| QueriesService.MostCommonServiceInBoundingBox | frontend/src/services/queries.service.js:72-84 | the optional `date`, then the four corners always, in order, through `parseFloat(...).toString()` |
| QueriesService.AppendCorners | frontend/src/services/queries.service.js:78-81 | the four corner appends, in order |
| QueriesService.LicensePlates | frontend/src/services/queries.service.js:100-103 | no parameters |
| QueriesService.SecondMostCommonColor | frontend/src/services/queries.service.js:105-108 | no parameters |
| QueriesService.RodentBaiting | frontend/src/services/queries.service.js:110-117 | `page`, `threshold`, `type_of_premises`, always, in that order |
| QueriesService.BeforeTOfIso | frontend/src/services/queries.service.js:12 | a `T`-free date followed by `T` and a time splits back to the date |
| QueriesService.PreparedDateParses | frontend/src/services/queries.service.js:8-17 | a picked date is sent as its `YYYY-MM-DD` text, which the backend reads back as that date |
| QueriesService.DateRangeQueryValidated | frontend/src/services/queries.service.js:19-31 | two picked dates pass `DateRangeParams` exactly when the start is not after the end, as that range |
| QueriesService.PreparedRangeQuery | frontend/src/services/queries.service.js:20-28 | two picked dates are sent as `start_date` then `end_date`, as their `YYYY-MM-DD` text |
| QueriesService.MissingStartDateRequired | frontend/src/services/queries.service.js:23-25 | an empty start date is not sent, and the backend reports it as required |
| QueriesService.RequestsPerDayValidated | frontend/src/services/queries.service.js:33-46 | two picked dates and a listed type pass `DateAndRequestTypeParams` exactly when the range is in order, with that type |
| QueriesService.RangeAndTypeValidated | backend/chicago_incidents/serializers/queries.py:25-29 | `YYYY-MM-DD` texts of two valid dates and a listed code pass `DateAndRequestTypeParams` exactly when the range is in order, with that code's type |
| QueriesService.ZipcodeQueryValidated | frontend/src/services/queries.service.js:48-56 | a picked date passes `DateParam` as itself |
| QueriesService.ZipcodeQueryWithoutDateRejected | frontend/src/services/queries.service.js:48-56 | an empty date sends no parameter, and `DateParam` reports it as required |
| QueriesService.ParseIntegerText | frontend/src/services/queries.service.js:112-113 | typed whole-number text reads back as that number through `parseInt` and `parseFloat` |
| QueriesService.IntegerTextSentUnchanged | frontend/src/services/queries.service.js:112-113 | a whole number typed as text, of magnitude below 10^21, is sent as the same text through `parseInt` and through `parseFloat` |
| QueriesService.NonNumericPageSentAsNaN | frontend/src/services/queries.service.js:112 | a non-numeric or missing page is sent as `NaN` |
| Router.ResolveIn | frontend/src/router.js:11-119 | a path resolves exactly when some route has it, to the component of the first such route |
| Router.BeforeEach | frontend/src/router.js:122-134 | redirected exactly when the path is not public and no user is stored, and then to `/login` |
| Router.PublicPagesNeverRedirected | frontend/src/router.js:123-132 | `/login` and `/register` are never redirected |
| Router.AnonymousRedirectedToLogin | frontend/src/router.js:124-130 | with no stored user, any other path goes to `/login` |
| Router.LoggedInNeverRedirected | frontend/src/router.js:125-132 | with a stored user, nothing is redirected |
| Router.FromPathIgnored | frontend/src/router.js:122-134 | the decision does not depend on the page navigated from |
| Router.LoginWithTrailingSlashGuarded | frontend/src/router.js:123-124 | membership is exact equality: `/login/` is guarded |
| Router.RedirectSettles | frontend/src/router.js:122-134 | the redirect target is let through and resolves to the login page, so a redirect never chains |
| Router.PremisesPathsShareComponent | frontend/src/router.js:89-106 | the three premises paths all resolve to the rodent-baiting page |
| Router.RoutePathsDistinct | frontend/src/router.js:11-119 | no two routes share a path |

## Left out

- I/O:
  - the HTTP requests, made with axios and their auth header;
  - `console.log`;
  - the timing of the import command; its summary takes the elapsed time as text;
  - the CSV reading and printing of `import_abandoned_vehicles`, which is pandas. The importer is modelled by its one announcement line and by whether `pd.read_csv` raises, which is the parameter `readable`.
- Host services are parameters, not models:
  - the JavaScript `Date` conversion, which depends on time zone and parsing;
  - `Number.prototype.toString`;
  - the browser's stored `user` entry;
  - the backend's date-time parser.
- Numbers are exact reals in the frontend model: double rounding, overflow to Infinity and negative zero are not modelled.
- The decimal columns pass through without their digit limits. The JSON `location` column is not modelled.
- How the backend reads the nested `incident` object from JSON is not modelled: it is a parameter of `RequestDecoding.PayloadOf`. DRF's coercion of numbers into `CharField` text is not modelled either; a non-text JSON value is simply not decoded.
- Django's rejection of text containing a NUL character is not modelled.
- Column lengths of the vehicle and activity models are not modelled.
- The model assumes these unique-together constraints: incident (creation_date, status, completion_date, service_request_number, type_of_service_request, street_address), vehicle (license_plate, vehicle_make_model, vehicle_color), activity (current_activity, most_recent_action) and graffiti (surface, location). `Incident` in `models.py` declares none, and the other models are not part of this model.
- `IncidentSerializer.NullableValue`: a vehicle or activity text made only of whitespace is stored as the empty text. This assumes those text columns allow blanks (`blank=True`, like the nullable text columns of `Incident`); with `blank=False` the serializer would reject such a text as blank.
- `QueryParams.ParseYmd`: reads ASCII digits only. `strptime`'s `\d` also matches other Unicode decimal digits (full-width ones, for example), which the program accepts as a date and the model rejects.
- `IncidentStore.ReusedSubEntitiesAccepted`: stated for the corrected nested activity serializer only. As written, a reused activity whose two fields are set is rejected (`IncidentStore.StoredActivityRejectedAsWritten`); see Findings. `IncidentStore.SubmitSpec`, `IncidentStore.Store.Submit` and `IncidentStore.SameVehicleAndActivityStoredOnce` also use the corrected serializer; `IncidentStore.SubmitAsWrittenSpec` is the request as written.
- `IncidentStore.CreateSpec`, `IncidentStore.Store.Create` and `IncidentStore.CreateFailsOnAmbiguousIncident` assume the vehicle and activity tables hold no duplicate rows, which this endpoint keeps (`IncidentStore.SubEntityLookupsNeverRaise`). The other endpoints write those tables through the create serializers, whose unique-together validator is skipped when a value is null; so two vehicle rows such as (null, "Ford", "red") can be stored. A request with that vehicle then makes the lookup at `serializers/incident.py:44` raise `MultipleObjectsReturned` (a server error), after line 43 may already have inserted the incident. The model does not capture that failure or that partial write: its `create` fails only on the incident lookup.
- `get_or_create`'s retry after an `IntegrityError` from a concurrent insert is not modelled: requests run one after another.
- The `days_of_report_as_parked` value is sent by the frontend but never read by the backend serializer, so it is not validated.
- `CreateIncidentService.incident` (the single-incident post) is the prepared incident plus the post; it is covered by `PrepareIncidentData`.
- The analytics queries themselves (database aggregation) and the views, URLs, pagination, admin, authentication and user services are not part of this model.
- vue-router's own path matching (trailing slash and case folding) is not modelled: `Router.ResolveIn` matches paths exactly. The lazily loaded components are named, not modelled.
- Only `AbandonedVehicleIncidentCreateSerializer` of the nested create serializers is modelled on the backend; the other endpoints' create serializers are not part of this model.
- Code and tests disagree in two places; the model follows the code:
  - `IncidentStore.MissingSubEntityRejected`: a payload without `activity` or `abandoned_vehicle` is rejected, because both nested keys are required. The tests at `tests/test_incidents.py:290-320` expect such payloads to succeed.
  - No check ties the service type to the endpoint. The "wrong type" tests are rejected only because `TREE_TRIMS` is not a listed code (`IncidentStore.MalformedCodesNotListed`).
- `IncidentModel.IncidentToString`: states only the bound and non-blankness of the request number it returns, for valid incidents.

## Findings

| source | as written | input that shows it | evidently intended | confidence | as-written member | corrected member |
|---|---|---|---|---|---|---|
| backend/chicago_incidents/serializers/incident.py:6,36 | the payload serializer nests `ActivityCreateSerializer`, whose unique-together validator rejects an activity pair already stored | two abandoned-vehicle requests with different service request numbers and the same fully filled activity: the second is rejected as not unique | the variant without unique-together validation (`ActivityCreateSerializerForIncident`, as for the vehicle), so that the activity is reused; the tests at `tests/test_incidents.py:322-338` expect both requests to succeed with one activity row | not executed | IncidentStore.AsWrittenRejectsReusedActivity | IncidentStore.SameVehicleAndActivityStoredOnce |
