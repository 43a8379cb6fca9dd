/**
 * Validation of the composite payload accepted by
 * `AbandonedVehicleIncidentCreateSerializer`: a nested incident, a nested
 * activity and a nested abandoned vehicle, each checked field by field, then
 * by its unique-together validator, then by its own `validate`.
 */
module IncidentSerializer {
  import opened Common
  import opened IncidentModel
  import AV = AbandonedVehicleSerializers
  import AS = ActivitySerializers

  /** A key of a JSON object: left out, given as `null`, or given a value. */
  datatype Field<+T> = Absent | Null | Given(value: T)

  /** The integer columns of the incident as they arrive. */
  datatype GeoInput = GeoInput(
    zipCodes: Field<int>, xCoordinate: Field<real>, yCoordinate: Field<real>,
    latitude: Field<real>, longitude: Field<real>, ward: Field<int>, wards: Field<int>,
    historicalWards0315: Field<int>, policeDistrict: Field<int>, communityArea: Field<int>,
    communityAreas: Field<int>, ssa: Field<int>, censusTracts: Field<int>)

  /** The `incident` object of the payload (`IncidentCreateSerializer`'s fields). */
  datatype IncidentInput = IncidentInput(
    creationDate: Field<string>, completionDate: Field<string>, status: Field<string>,
    serviceRequestNumber: Field<string>, serviceType: Field<string>, streetAddress: Field<string>,
    zipCode: Field<int>, geo: GeoInput)

  datatype VehicleInput = VehicleInput(licensePlate: Field<string>, vehicleMakeModel: Field<string>, vehicleColor: Field<string>)

  datatype ActivityInput = ActivityInput(currentActivity: Field<string>, mostRecentAction: Field<string>)

  datatype PayloadInput = PayloadInput(
    incident: Field<IncidentInput>, activity: Field<ActivityInput>, abandonedVehicle: Field<VehicleInput>)

  /**
   * What validation hands to `create`. `sent` names the optional incident
   * columns whose keys the request held; the others are skipped and so are
   * not among the incident's validated data.
   */
  datatype ValidatedPayload = ValidatedPayload(incident: Incident, sent: set<Column>, activity: AS.ActivityAttrs, vehicle: AV.VehicleAttrs)

  /** The optional columns of the incident serializer: a key left out of the request is skipped, not stored as null. */
  datatype Column =
    | ZipCode | ZipCodes | XCoordinate | YCoordinate | Latitude | Longitude | Ward | Wards
    | HistoricalWards0315 | PoliceDistrict | CommunityArea | CommunityAreas | Ssa | CensusTracts

  /** The value a row holds in an optional column. */
  datatype ColumnValue = IntValue(n: Option<int>) | DecimalValue(d: Option<real>)

  function ValueOf(i: Incident, c: Column): ColumnValue {
    match c
    case ZipCode => IntValue(i.zipCode)
    case ZipCodes => IntValue(i.geo.zipCodes)
    case XCoordinate => DecimalValue(i.geo.xCoordinate)
    case YCoordinate => DecimalValue(i.geo.yCoordinate)
    case Latitude => DecimalValue(i.geo.latitude)
    case Longitude => DecimalValue(i.geo.longitude)
    case Ward => IntValue(i.geo.ward)
    case Wards => IntValue(i.geo.wards)
    case HistoricalWards0315 => IntValue(i.geo.historicalWards0315)
    case PoliceDistrict => IntValue(i.geo.policeDistrict)
    case CommunityArea => IntValue(i.geo.communityArea)
    case CommunityAreas => IntValue(i.geo.communityAreas)
    case Ssa => IntValue(i.geo.ssa)
    case CensusTracts => IntValue(i.geo.censusTracts)
  }

  /** The key of column `c` is in the request, with a value or `null`. */
  predicate Sends(input: IncidentInput, c: Column) {
    match c
    case ZipCode => !input.zipCode.Absent?
    case ZipCodes => !input.geo.zipCodes.Absent?
    case XCoordinate => !input.geo.xCoordinate.Absent?
    case YCoordinate => !input.geo.yCoordinate.Absent?
    case Latitude => !input.geo.latitude.Absent?
    case Longitude => !input.geo.longitude.Absent?
    case Ward => !input.geo.ward.Absent?
    case Wards => !input.geo.wards.Absent?
    case HistoricalWards0315 => !input.geo.historicalWards0315.Absent?
    case PoliceDistrict => !input.geo.policeDistrict.Absent?
    case CommunityArea => !input.geo.communityArea.Absent?
    case CommunityAreas => !input.geo.communityAreas.Absent?
    case Ssa => !input.geo.ssa.Absent?
    case CensusTracts => !input.geo.censusTracts.Absent?
  }

  const AllColumns: set<Column> := {ZipCode, ZipCodes, XCoordinate, YCoordinate, Latitude, Longitude, Ward, Wards,
                                    HistoricalWards0315, PoliceDistrict, CommunityArea, CommunityAreas, Ssa, CensusTracts}

  /** The optional columns a nested incident object sends. */
  function SentColumns(f: Field<IncidentInput>): (r: set<Column>)
    ensures forall c :: c in r <==> f.Given? && Sends(f.value, c)
  {
    if f.Given? then set c | c in AllColumns && Sends(f.value, c) else {}
  }

  /** The error reported under a key of the payload: about the key itself, or the nested object's own errors. */
  datatype NestedError = FieldError(error: ValidationError) | Nested(errors: map<string, ValidationError>)

  /** The key under which unique-together and `validate` errors are reported. */
  const NonFieldErrorsKey: string := "non_field_errors"

  /** The range of the 32-bit integer columns. */
  const IntMin: int := -2147483648
  const IntMax: int := 2147483647

  /** Characters Python's `str.strip()` removes (those for which `str.isspace` holds). */
  predicate IsPythonSpace(c: char) {
    || c == ' ' || ('\t' <= c <= '\r') || ('\U{1c}' <= c <= '\U{1f}') || c == '\U{85}' || c == '\U{a0}'
    || c == '\U{1680}' || ('\U{2000}' <= c <= '\U{200a}') || c == '\U{2028}' || c == '\U{2029}'
    || c == '\U{202f}' || c == '\U{205f}' || c == '\U{3000}'
  }

  function TrimStart(s: string): (r: string)
    ensures |r| <= |s| && r == s[|s| - |r|..]
    ensures forall k :: 0 <= k < |s| - |r| ==> IsPythonSpace(s[k])
    ensures |r| > 0 ==> !IsPythonSpace(r[0])
  {
    if |s| > 0 && IsPythonSpace(s[0]) then TrimStart(s[1..]) else s
  }

  function TrimEnd(s: string): (r: string)
    ensures |r| <= |s| && r == s[..|r|]
    ensures forall k :: |r| <= k < |s| ==> IsPythonSpace(s[k])
    ensures |r| > 0 ==> !IsPythonSpace(r[|r| - 1])
  {
    if |s| > 0 && IsPythonSpace(s[|s| - 1]) then TrimEnd(s[..|s| - 1]) else s
  }

  /**
   * `str.strip()`: the part of `s` between its leading and trailing
   * whitespace, which itself neither starts nor ends with whitespace.
   */
  function Strip(s: string): (r: string)
    ensures exists i, j :: 0 <= i <= j <= |s| && r == s[i..j]
              && (forall k :: 0 <= k < i ==> IsPythonSpace(s[k]))
              && (forall k :: j <= k < |s| ==> IsPythonSpace(s[k]))
    ensures |r| > 0 ==> !IsPythonSpace(r[0]) && !IsPythonSpace(r[|r| - 1])
  {
    var t := TrimStart(s);
    var r := TrimEnd(t);
    var i := |s| - |t|;
    assert r == s[i..i + |r|];
    r
  }

  /** A required, non-null date-time; the text is read by `parse`, which stands for the date-time parser. */
  function RequiredDateTime(f: Field<string>, parse: string -> Option<Instant>): (r: Result<Instant, ValidationError>)
    ensures r.Ok? <==> f.Given? && parse(f.value).Some?
    ensures r.Ok? ==> r.value == parse(f.value).value
    ensures f == Absent ==> r == Err(Required)
    ensures f == Null ==> r == Err(NotNull)
  {
    match f
    case Absent => Err(Required)
    case Null => Err(NotNull)
    case Given(text) => if parse(text).None? then Err(InvalidDateTime) else Ok(parse(text).value)
  }

  /** A required but nullable date-time: `null` is stored as null. */
  function NullableDateTime(f: Field<string>, parse: string -> Option<Instant>): (r: Result<Option<Instant>, ValidationError>)
    ensures r.Ok? <==> f.Null? || (f.Given? && parse(f.value).Some?)
    ensures r.Ok? ==> r.value == (if f.Null? then None else parse(f.value))
    ensures f == Absent ==> r == Err(Required)
  {
    match f
    case Absent => Err(Required)
    case Null => Ok(None)
    case Given(text) => if parse(text).None? then Err(InvalidDateTime) else Ok(parse(text))
  }

  /** The `status` choice field: a required, non-null code from the status choice list. */
  function StatusField(f: Field<string>): (r: Result<Status, ValidationError>)
    ensures r.Ok? <==> f.Given? && f.value in Codes(StatusChoices)
    ensures r.Ok? ==> StatusCode(r.value) == f.value
    ensures f.Given? && r.Err? ==> r.error == InvalidChoice(f.value)
  {
    match f
    case Absent => Err(Required)
    case Null => Err(NotNull)
    case Given(code) =>
      StatusChoiceFieldAcceptsListed(code);
      if ParseStatus(code).None? then Err(InvalidChoice(code)) else Ok(ParseStatus(code).value)
  }

  /** The `type_of_service_request` choice field: a required, non-null code from the service-type list. */
  function ServiceTypeField(f: Field<string>): (r: Result<ServiceType, ValidationError>)
    ensures r.Ok? <==> f.Given? && f.value in Codes(ServiceTypeChoices)
    ensures r.Ok? ==> ServiceTypeCode(r.value) == f.value
    ensures f.Given? && r.Err? ==> r.error == InvalidChoice(f.value)
  {
    match f
    case Absent => Err(Required)
    case Null => Err(NotNull)
    case Given(code) =>
      ServiceTypeChoiceFieldAcceptsListed(code);
      if ParseServiceType(code).None? then Err(InvalidChoice(code)) else Ok(ParseServiceType(code).value)
  }

  /**
   * A required, non-null text field that may not be blank: the text is
   * stripped, must not be empty after stripping, and must then fit `maxLength`.
   */
  function RequiredText(f: Field<string>, maxLength: nat): (r: Result<string, ValidationError>)
    ensures r.Ok? <==> f.Given? && 0 < |Strip(f.value)| <= maxLength
    ensures r.Ok? ==> r.value == Strip(f.value)
    ensures f.Given? && Strip(f.value) == "" ==> r == Err(Blank)
    ensures f == Null ==> r == Err(NotNull)
  {
    match f
    case Absent => Err(Required)
    case Null => Err(NotNull)
    case Given(text) =>
      var stripped := Strip(text);
      if stripped == "" then Err(Blank)
      else if |stripped| > maxLength then Err(MaxLength(maxLength))
      else Ok(stripped)
  }

  /** A required, nullable text field that may be blank: stripped, then limited to `maxLength`. */
  function NullableText(f: Field<string>, maxLength: nat): (r: Result<Option<string>, ValidationError>)
    ensures r.Ok? <==> f.Null? || (f.Given? && |Strip(f.value)| <= maxLength)
    ensures r.Ok? ==> r.value == (if f.Null? then None else Some(Strip(f.value)))
    ensures f == Absent ==> r == Err(Required)
  {
    match f
    case Absent => Err(Required)
    case Null => Ok(None)
    case Given(text) =>
      var stripped := Strip(text);
      if |stripped| > maxLength then Err(MaxLength(maxLength)) else Ok(Some(stripped))
  }

  /** An optional, nullable integer column: left out or null stores null; the value must fit 32 bits. */
  function IntegerColumn(f: Field<int>): (r: Result<Option<int>, ValidationError>)
    ensures r.Ok? <==> !f.Given? || IntMin <= f.value <= IntMax
    ensures r.Ok? ==> r.value == (if f.Given? then Some(f.value) else None)
    ensures f.Given? && f.value > IntMax ==> r == Err(MaxValue(IntMax))
    ensures f.Given? && f.value < IntMin ==> r == Err(MinValue(IntMin))
  {
    match f
    case Given(n) =>
      if n > IntMax then Err(MaxValue(IntMax))
      else if n < IntMin then Err(MinValue(IntMin))
      else Ok(Some(n))
    case _ => Ok(None)
  }

  /** An optional, nullable decimal column; its digit limits are not modelled. */
  function DecimalColumn(f: Field<real>): Option<real> {
    if f.Given? then Some(f.value) else None
  }

  predicate InIntRange(n: Option<int>) {
    n.Some? ==> IntMin <= n.value <= IntMax
  }

  /** Every integer column of `g` fits 32 bits. */
  predicate GeoInRange(g: Geo) {
    && InIntRange(g.zipCodes) && InIntRange(g.ward) && InIntRange(g.wards) && InIntRange(g.historicalWards0315)
    && InIntRange(g.policeDistrict) && InIntRange(g.communityArea) && InIntRange(g.communityAreas)
    && InIntRange(g.ssa) && InIntRange(g.censusTracts)
  }

  /** Records a field's error, if it reported one, under the field's name. */
  function AddError<T>(errors: map<string, ValidationError>, key: string, r: Result<T, ValidationError>): (m: map<string, ValidationError>)
    ensures r.Ok? ==> m == errors
    ensures r.Err? ==> m == errors[key := r.error]
  {
    if r.Err? then errors[key := r.error] else errors
  }

  /**
   * The geographic columns: the integer ones are range-checked and their
   * errors collected by name; the decimal ones pass through.
   */
  function ValidateGeo(g: GeoInput): (r: Result<Geo, map<string, ValidationError>>)
    ensures r.Ok? <==> IntegerColumn(g.zipCodes).Ok? && IntegerColumn(g.ward).Ok? && IntegerColumn(g.wards).Ok?
                       && IntegerColumn(g.historicalWards0315).Ok? && IntegerColumn(g.policeDistrict).Ok?
                       && IntegerColumn(g.communityArea).Ok? && IntegerColumn(g.communityAreas).Ok?
                       && IntegerColumn(g.ssa).Ok? && IntegerColumn(g.censusTracts).Ok?
    ensures r.Ok? ==> GeoInRange(r.value)
    ensures r.Ok? ==> r.value.xCoordinate == DecimalColumn(g.xCoordinate) && r.value.latitude == DecimalColumn(g.latitude)
  {
    var zipCodes := IntegerColumn(g.zipCodes);
    var ward := IntegerColumn(g.ward);
    var wards := IntegerColumn(g.wards);
    var historical := IntegerColumn(g.historicalWards0315);
    var police := IntegerColumn(g.policeDistrict);
    var area := IntegerColumn(g.communityArea);
    var areas := IntegerColumn(g.communityAreas);
    var ssa := IntegerColumn(g.ssa);
    var tracts := IntegerColumn(g.censusTracts);
    if zipCodes.Ok? && ward.Ok? && wards.Ok? && historical.Ok? && police.Ok? && area.Ok? && areas.Ok? && ssa.Ok? && tracts.Ok? then
      Ok(Geo(zipCodes.value, DecimalColumn(g.xCoordinate), DecimalColumn(g.yCoordinate),
             DecimalColumn(g.latitude), DecimalColumn(g.longitude), ward.value, wards.value, historical.value,
             police.value, area.value, areas.value, ssa.value, tracts.value))
    else
      var e1 := AddError(AddError(AddError(map[], "zip_codes", zipCodes), "ward", ward), "wards", wards);
      var e2 := AddError(AddError(AddError(e1, "historical_wards_03_15", historical), "police_district", police), "community_area", area);
      Err(AddError(AddError(AddError(e2, "community_areas", areas), "ssa", ssa), "census_tracts", tracts))
  }

  /** The fields of the unique-together validator on the incident's natural key. */
  const IncidentUniqueFields: seq<string> :=
    ["creation_date", "status", "completion_date", "service_request_number", "type_of_service_request", "street_address"]

  /** Some row of `existing` has the natural key `k`. */
  predicate KeyTaken(existing: seq<Incident>, k: NaturalKey) {
    exists j :: 0 <= j < |existing| && KeyOf(existing[j]) == k
  }

  /**
   * `IncidentCreateSerializer`'s fields. The incident it builds has no
   * activity texts (they are not among the serializer's fields).
   */
  function IncidentFields(input: IncidentInput, parse: string -> Option<Instant>): (r: Result<Incident, map<string, ValidationError>>)
    ensures r.Ok? <==> RequiredDateTime(input.creationDate, parse).Ok? && NullableDateTime(input.completionDate, parse).Ok?
                       && StatusField(input.status).Ok? && RequiredText(input.serviceRequestNumber, ServiceRequestNumberMaxLength).Ok?
                       && ServiceTypeField(input.serviceType).Ok? && NullableText(input.streetAddress, StreetAddressMaxLength).Ok?
                       && IntegerColumn(input.zipCode).Ok? && ValidateGeo(input.geo).Ok?
    ensures r.Ok? ==> IncidentValid(r.value) && GeoInRange(r.value.geo) && InIntRange(r.value.zipCode)
    ensures r.Ok? ==> r.value.currentActivity.None? && r.value.mostRecentAction.None?
    ensures r.Ok? ==> && r.value.creationDate == RequiredDateTime(input.creationDate, parse).value
                      && StatusCode(r.value.status) == input.status.value
                      && ServiceTypeCode(r.value.serviceType) == input.serviceType.value
                      && r.value.serviceRequestNumber == Strip(input.serviceRequestNumber.value)
  {
    var creation := RequiredDateTime(input.creationDate, parse);
    var completion := NullableDateTime(input.completionDate, parse);
    var status := StatusField(input.status);
    var number := RequiredText(input.serviceRequestNumber, ServiceRequestNumberMaxLength);
    var serviceType := ServiceTypeField(input.serviceType);
    var street := NullableText(input.streetAddress, StreetAddressMaxLength);
    var zip := IntegerColumn(input.zipCode);
    var geo := ValidateGeo(input.geo);
    if creation.Ok? && completion.Ok? && status.Ok? && number.Ok? && serviceType.Ok? && street.Ok? && zip.Ok? && geo.Ok? then
      Ok(Incident(creation.value, status.value, completion.value, number.value, serviceType.value,
                  None, None, street.value, zip.value, geo.value))
    else
      var geoErrors := if geo.Err? then geo.error else map[];
      var e1 := AddError(AddError(AddError(geoErrors, "creation_date", creation), "completion_date", completion), "status", status);
      var e2 := AddError(AddError(AddError(e1, "service_request_number", number), "type_of_service_request", serviceType), "street_address", street);
      Err(AddError(e2, "zip_code", zip))
  }

  /**
   * The whole nested incident serializer: its fields, then the
   * unique-together validator on the natural key, which is skipped when
   * the completion date or the street address is null.
   */
  function ValidateIncident(input: IncidentInput, parse: string -> Option<Instant>, existing: seq<Incident>): (r: Result<Incident, map<string, ValidationError>>)
    ensures r.Ok? <==> IncidentFields(input, parse).Ok?
                       && !(KeyComplete(IncidentFields(input, parse).value) && KeyTaken(existing, KeyOf(IncidentFields(input, parse).value)))
    ensures r.Ok? ==> r == IncidentFields(input, parse)
    ensures IncidentFields(input, parse).Ok? && r.Err? ==> r.error == map[NonFieldErrorsKey := NotUnique(IncidentUniqueFields)]
  {
    var incident :- IncidentFields(input, parse);
    if KeyComplete(incident) && KeyTaken(existing, KeyOf(incident)) then
      Err(map[NonFieldErrorsKey := NotUnique(IncidentUniqueFields)])
    else
      Ok(incident)
  }

  /**
   * A text field of a sub-entity: required (its model's unique-together
   * constraint makes it so) but nullable. A text is stripped like every
   * `CharField`'s, so one made only of whitespace is stored as "".
   */
  function NullableValue(f: Field<string>): (r: Result<Option<string>, ValidationError>)
    ensures r.Ok? <==> !f.Absent?
    ensures r.Ok? ==> r.value == (if f.Given? then Some(Strip(f.value)) else None)
    ensures f.Given? && (forall k :: 0 <= k < |f.value| ==> IsPythonSpace(f.value[k])) ==> r == Ok(Some(""))
  {
    match f
    case Absent => Err(Required)
    case Null => Ok(None)
    case Given(text) => Ok(Some(Strip(text)))
  }

  /** Reports the error of `validate` or of a unique-together validator under the non-field key. */
  function NonFieldErrors<T>(r: Result<T, ValidationError>): (m: Result<T, map<string, ValidationError>>)
    ensures m.Ok? <==> r.Ok?
    ensures m.Ok? ==> m.value == r.value
    ensures m.Err? ==> m.error == map[NonFieldErrorsKey := r.error]
  {
    if r.Err? then Err(map[NonFieldErrorsKey := r.error]) else Ok(r.value)
  }

  /** The fields of the nested abandoned vehicle, before any validator. */
  function VehicleFields(input: VehicleInput): (r: Result<AV.VehicleAttrs, map<string, ValidationError>>)
    ensures r.Ok? <==> !input.licensePlate.Absent? && !input.vehicleMakeModel.Absent? && !input.vehicleColor.Absent?
    ensures r.Ok? ==> r.value == AV.VehicleAttrs(NullableValue(input.licensePlate).value,
                                                 NullableValue(input.vehicleMakeModel).value, NullableValue(input.vehicleColor).value)
  {
    var plate := NullableValue(input.licensePlate);
    var model := NullableValue(input.vehicleMakeModel);
    var color := NullableValue(input.vehicleColor);
    if plate.Ok? && model.Ok? && color.Ok? then Ok(AV.VehicleAttrs(plate.value, model.value, color.value))
    else Err(AddError(AddError(AddError(map[], "license_plate", plate), "vehicle_make_model", model), "vehicle_color", color))
  }

  /** The fields of the nested activity, before any validator. */
  function ActivityFields(input: ActivityInput): (r: Result<AS.ActivityAttrs, map<string, ValidationError>>)
    ensures r.Ok? <==> !input.currentActivity.Absent? && !input.mostRecentAction.Absent?
    ensures r.Ok? ==> r.value == AS.ActivityAttrs(NullableValue(input.currentActivity).value, NullableValue(input.mostRecentAction).value)
  {
    var current := NullableValue(input.currentActivity);
    var recent := NullableValue(input.mostRecentAction);
    if current.Ok? && recent.Ok? then Ok(AS.ActivityAttrs(current.value, recent.value))
    else Err(AddError(AddError(map[], "current_activity", current), "most_recent_action", recent))
  }

  /** The nested `AbandonedVehicleCreateSerializerForIncident`: fields, then `validate`, with no unique-together check. */
  function ValidateVehicle(input: VehicleInput, existing: seq<AV.VehicleAttrs>): (r: Result<AV.VehicleAttrs, map<string, ValidationError>>)
    ensures r.Ok? <==> VehicleFields(input).Ok? && AV.SomeFieldSet(VehicleFields(input).value)
    ensures r.Ok? ==> r == VehicleFields(input)
  {
    var attrs :- VehicleFields(input);
    NonFieldErrors(AV.ValidateForIncident(attrs, existing))
  }

  /**
   * The nested activity serializer. `uniqueTogether` chooses between
   * `ActivityCreateSerializer`, whose unique-together validator rejects a
   * pair already stored, and `ActivityCreateSerializerForIncident`, which
   * has none.
   */
  function ValidateActivity(input: ActivityInput, existing: seq<AS.ActivityAttrs>, uniqueTogether: bool): (r: Result<AS.ActivityAttrs, map<string, ValidationError>>)
    ensures r.Ok? <==> ActivityFields(input).Ok? && AS.SomeFieldSet(ActivityFields(input).value)
                       && !(uniqueTogether && AS.AllFieldsSet(ActivityFields(input).value) && ActivityFields(input).value in existing)
    ensures r.Ok? ==> r == ActivityFields(input)
  {
    var attrs :- ActivityFields(input);
    if uniqueTogether then NonFieldErrors(AS.ValidateForCreate(attrs, existing))
    else NonFieldErrors(AS.ValidateForIncident(attrs, existing))
  }

  /**
   * A nested serializer's key in the payload: required and not nullable;
   * otherwise the nested object's own result, given here as `f`'s value.
   */
  function NestedField<U>(f: Field<Result<U, map<string, ValidationError>>>): (r: Result<U, NestedError>)
    ensures r.Ok? <==> f.Given? && f.value.Ok?
    ensures r.Ok? ==> r.value == f.value.value
    ensures f.Absent? ==> r == Err(FieldError(Required))
    ensures f.Null? ==> r == Err(FieldError(NotNull))
    ensures f.Given? && r.Err? ==> r.error == Nested(f.value.error)
  {
    match f
    case Absent => Err(FieldError(Required))
    case Null => Err(FieldError(NotNull))
    case Given(validated) => if validated.Err? then Err(Nested(validated.error)) else Ok(validated.value)
  }

  /** Records a nested key's error, if it reported one. */
  function AddNested<U>(errors: map<string, NestedError>, key: string, r: Result<U, NestedError>): (m: map<string, NestedError>)
    ensures r.Ok? ==> m == errors
    ensures r.Err? ==> m == errors[key := r.error]
  {
    if r.Err? then errors[key := r.error] else errors
  }

  const IncidentKey: string := "incident"
  const ActivityKey: string := "activity"
  const VehicleKey: string := "abandoned_vehicle"

  function IncidentPart(input: PayloadInput, parse: string -> Option<Instant>, incidents: seq<Incident>): Result<Incident, NestedError> {
    NestedField(match input.incident
                case Absent => Absent
                case Null => Null
                case Given(i) => Given(ValidateIncident(i, parse, incidents)))
  }

  function ActivityPart(input: PayloadInput, activities: seq<AS.ActivityAttrs>, uniqueTogether: bool): Result<AS.ActivityAttrs, NestedError> {
    NestedField(match input.activity
                case Absent => Absent
                case Null => Null
                case Given(a) => Given(ValidateActivity(a, activities, uniqueTogether)))
  }

  function VehiclePart(input: PayloadInput, vehicles: seq<AV.VehicleAttrs>): Result<AV.VehicleAttrs, NestedError> {
    NestedField(match input.abandonedVehicle
                case Absent => Absent
                case Null => Null
                case Given(v) => Given(ValidateVehicle(v, vehicles)))
  }

  /**
   * The payload serializer: the three nested keys are validated against
   * the current tables and their errors collected by key; `validate` of the
   * payload itself does nothing.
   */
  function ValidatePayloadWith(input: PayloadInput, parse: string -> Option<Instant>, incidents: seq<Incident>,
                               vehicles: seq<AV.VehicleAttrs>, activities: seq<AS.ActivityAttrs>, uniqueTogether: bool)
    : (r: Result<ValidatedPayload, map<string, NestedError>>)
    ensures r.Ok? <==> IncidentPart(input, parse, incidents).Ok? && ActivityPart(input, activities, uniqueTogether).Ok?
                       && VehiclePart(input, vehicles).Ok?
    ensures r.Ok? ==> r.value == ValidatedPayload(IncidentPart(input, parse, incidents).value, SentColumns(input.incident),
                                                  ActivityPart(input, activities, uniqueTogether).value, VehiclePart(input, vehicles).value)
    ensures r.Err? ==> r.error == PayloadErrors(IncidentPart(input, parse, incidents), ActivityPart(input, activities, uniqueTogether),
                                                VehiclePart(input, vehicles))
  {
    var incident := IncidentPart(input, parse, incidents);
    var activity := ActivityPart(input, activities, uniqueTogether);
    var vehicle := VehiclePart(input, vehicles);
    if incident.Ok? && activity.Ok? && vehicle.Ok? then
      Ok(ValidatedPayload(incident.value, SentColumns(input.incident), activity.value, vehicle.value))
    else
      Err(PayloadErrors(incident, activity, vehicle))
  }

  /** The errors of the three nested parts, each under its key. */
  function PayloadErrors<A, B, C>(incident: Result<A, NestedError>, activity: Result<B, NestedError>, vehicle: Result<C, NestedError>)
    : map<string, NestedError>
  {
    AddNested(AddNested(AddNested(map[], IncidentKey, incident), ActivityKey, activity), VehicleKey, vehicle)
  }

  /** A failed nested incident is reported under `incident`, whatever the other parts report. */
  lemma IncidentErrorReported<A, B, C>(incident: Result<A, NestedError>, activity: Result<B, NestedError>, vehicle: Result<C, NestedError>)
    requires incident.Err?
    ensures IncidentKey in PayloadErrors(incident, activity, vehicle)
    ensures PayloadErrors(incident, activity, vehicle)[IncidentKey] == incident.error
  {
    assert IncidentKey[0] != ActivityKey[0] && IncidentKey[0] != VehicleKey[0];
  }

  /**
   * Validation as the evidently intended design has it: the nested activity
   * is the variant without unique-together validation, like the vehicle, so
   * that an existing activity is reused.
   */
  function ValidatePayload(input: PayloadInput, parse: string -> Option<Instant>, incidents: seq<Incident>,
                           vehicles: seq<AV.VehicleAttrs>, activities: seq<AS.ActivityAttrs>)
    : (r: Result<ValidatedPayload, map<string, NestedError>>)
    ensures r.Ok? ==> input.incident.Given? && input.activity.Given? && input.abandonedVehicle.Given?
    ensures r.Ok? ==> && IncidentValid(r.value.incident) && AV.SomeFieldSet(r.value.vehicle) && AS.SomeFieldSet(r.value.activity)
                      && !(KeyComplete(r.value.incident) && KeyTaken(incidents, KeyOf(r.value.incident)))
  {
    IncidentPartMeaning(input, parse, incidents);
    ValidatePayloadWith(input, parse, incidents, vehicles, activities, false)
  }

  /** A payload without the `abandoned_vehicle` key is rejected, with that key reported as required. */
  lemma AbsentVehicleRejected(input: PayloadInput, parse: string -> Option<Instant>, incidents: seq<Incident>,
                              vehicles: seq<AV.VehicleAttrs>, activities: seq<AS.ActivityAttrs>)
    requires input.abandonedVehicle.Absent?
    ensures VehiclePart(input, vehicles) == Err(FieldError(Required))
    ensures ValidatePayload(input, parse, incidents, vehicles, activities).Err?
  {
    assert VehiclePart(input, vehicles) == NestedField(Absent);
  }

  /**
   * The corrected payload validation accepts exactly when all three keys
   * are given, the incident validates and the vehicle and activity each
   * decode with some field set; what it hands to `create` is made of those
   * results and the optional incident columns sent.
   */
  lemma ValidatePayloadAccepts(input: PayloadInput, parse: string -> Option<Instant>, incidents: seq<Incident>,
                               vehicles: seq<AV.VehicleAttrs>, activities: seq<AS.ActivityAttrs>)
    ensures var r := ValidatePayload(input, parse, incidents, vehicles, activities);
            && (r.Ok? <==> input.incident.Given? && input.activity.Given? && input.abandonedVehicle.Given?
                           && ValidateIncident(input.incident.value, parse, incidents).Ok?
                           && ActivityFields(input.activity.value).Ok? && AS.SomeFieldSet(ActivityFields(input.activity.value).value)
                           && VehicleFields(input.abandonedVehicle.value).Ok? && AV.SomeFieldSet(VehicleFields(input.abandonedVehicle.value).value))
            && (r.Ok? ==> r.value == ValidatedPayload(ValidateIncident(input.incident.value, parse, incidents).value,
                                                      SentColumns(input.incident),
                                                      ActivityFields(input.activity.value).value,
                                                      VehicleFields(input.abandonedVehicle.value).value))
  {
    IncidentPartMeaning(input, parse, incidents);
    ActivityPartMeaning(input, activities);
    VehiclePartMeaning(input, vehicles);
  }

  lemma IncidentPartMeaning(input: PayloadInput, parse: string -> Option<Instant>, incidents: seq<Incident>)
    ensures var r := IncidentPart(input, parse, incidents);
            && (r.Ok? <==> input.incident.Given? && ValidateIncident(input.incident.value, parse, incidents).Ok?)
            && (r.Ok? ==> r.value == ValidateIncident(input.incident.value, parse, incidents).value)
  {
    if input.incident.Given? {
      var v := ValidateIncident(input.incident.value, parse, incidents);
      assert IncidentPart(input, parse, incidents) == NestedField(Given(v));
    }
  }

  lemma ActivityPartMeaning(input: PayloadInput, activities: seq<AS.ActivityAttrs>)
    ensures var r := ActivityPart(input, activities, false);
            && (r.Ok? <==> input.activity.Given? && ActivityFields(input.activity.value).Ok?
                           && AS.SomeFieldSet(ActivityFields(input.activity.value).value))
            && (r.Ok? ==> r.value == ActivityFields(input.activity.value).value)
  {
  }

  lemma VehiclePartMeaning(input: PayloadInput, vehicles: seq<AV.VehicleAttrs>)
    ensures var r := VehiclePart(input, vehicles);
            && (r.Ok? <==> input.abandonedVehicle.Given? && VehicleFields(input.abandonedVehicle.value).Ok?
                           && AV.SomeFieldSet(VehicleFields(input.abandonedVehicle.value).value))
            && (r.Ok? ==> r.value == VehicleFields(input.abandonedVehicle.value).value)
  {
  }

  /** The nested activity with unique-together validation accepts only what the variant without it accepts, alike. */
  lemma ActivityPartsAgree(input: PayloadInput, activities: seq<AS.ActivityAttrs>)
    ensures var strict := ActivityPart(input, activities, true);
            strict.Ok? ==> && ActivityPart(input, activities, false) == strict
                           && !(AS.AllFieldsSet(strict.value) && strict.value in activities)
  {
  }

  /**
   * Validation as written: the nested activity is `ActivityCreateSerializer`,
   * whose unique-together validator rejects an activity pair already stored.
   */
  function ValidatePayloadAsWritten(input: PayloadInput, parse: string -> Option<Instant>, incidents: seq<Incident>,
                                    vehicles: seq<AV.VehicleAttrs>, activities: seq<AS.ActivityAttrs>)
    : (r: Result<ValidatedPayload, map<string, NestedError>>)
    ensures r.Ok? ==> ValidatePayload(input, parse, incidents, vehicles, activities) == r
    ensures r.Ok? ==> !(AS.AllFieldsSet(r.value.activity) && r.value.activity in activities)
  {
    ActivityPartsAgree(input, activities);
    ValidatePayloadWith(input, parse, incidents, vehicles, activities, true)
  }
}
