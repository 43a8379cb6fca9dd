/**
 * The frontend's incident-creation service: the `_prepare*` functions that
 * turn form objects into request bodies (falsy inputs become `null`, an
 * all-falsy sub-entity becomes `null`) and the builders that assemble the
 * body for each endpoint, adding a sub-entity only when it is not `null`.
 *
 * A body is the JavaScript object handed to the HTTP client; sending it is
 * not modelled. Every function reads properties of its arguments, which
 * throws a TypeError when an argument is `null` or `undefined`, and a
 * date that cannot be converted throws a RangeError: both are the `Err`
 * of the result.
 */
module CreateIncidentService {
  import opened Common
  import opened JsValues
  import IS = IncidentSerializer
  import AV = AbandonedVehicleSerializers
  import AS = ActivitySerializers
  import RB = RodentBaitingSerializers

  /** `v || null`. */
  function NullIfFalsy(v: JsValue): (r: JsValue)
    ensures r == Null <==> !Truthy(v)
    ensures Truthy(v) ==> r == v
  {
    Or(v, Null)
  }

  /** A date input converted with `new Date(v).toISOString()` when it is truthy, `null` otherwise. */
  function IsoDateOrNull(v: JsValue, host: Builtins): (r: Result<JsValue, JsError>)
    ensures r.Err? <==> Truthy(v) && host.toIsoString(v).None?
    ensures r.Err? ==> r.error == RangeError
    ensures r.Ok? ==> r.value == (if Truthy(v) then Str(host.toIsoString(v).value) else Null)
  {
    if !Truthy(v) then Ok(Null)
    else match host.toIsoString(v)
      case None => Err(RangeError)
      case Some(iso) => Ok(Str(iso))
  }

  /** The incident texts sent as `null` when falsy. */
  const IncidentTextKeys: seq<string> :=
    ["status", "service_request_number", "type_of_service_request", "street_address", "zip_code"]

  /** The incident numbers read with `parseInt`. */
  const IncidentIntKeys: seq<string> :=
    ["zip_codes", "ward", "wards", "historical_wards_03_15", "police_district", "community_area",
     "community_areas", "ssa", "census_tracts"]

  /** The incident coordinates read with `parseFloat`. */
  const IncidentFloatKeys: seq<string> := ["x_coordinate", "y_coordinate", "latitude", "longitude"]

  /** A date that is set but that the host cannot convert. */
  predicate DateThrows(v: JsValue, host: Builtins) {
    Truthy(v) && host.toIsoString(v).None?
  }

  /**
   * `_prepareIncidentData`: the two dates as ISO strings or `null`, the
   * five texts as given or `null` when falsy, the other numbers through
   * `parseInt` / `parseFloat`.
   */
  function PrepareIncidentData(incident: JsValue, host: Builtins): (r: Result<JsValue, JsError>)
    ensures r.Err? <==> IsNullish(incident) || DateThrows(Prop(incident, "creation_date"), host)
                        || DateThrows(Prop(incident, "completion_date"), host)
    ensures IsNullish(incident) ==> r == Err(TypeError)
    ensures r.Ok? ==> r.value.Obj?
  {
    if IsNullish(incident) then Err(TypeError)
    else
    var crDate :- IsoDateOrNull(Prop(incident, "creation_date"), host);
    var cmDate :- IsoDateOrNull(Prop(incident, "completion_date"), host);
    Ok(Obj([("creation_date", NullIfFalsy(crDate)), ("completion_date", NullIfFalsy(cmDate))]
           + IncidentTexts(incident) + IncidentNumbers(incident, host)))
  }

  /** The five texts of the prepared incident, in the order they are set. */
  function IncidentTexts(incident: JsValue): seq<(string, JsValue)> {
    seq(5, i requires 0 <= i < 5 => (IncidentTextKeys[i], NullIfFalsy(Prop(incident, IncidentTextKeys[i]))))
  }

  /** The numbers of the prepared incident, in the order they are set. */
  function IncidentNumbers(incident: JsValue, host: Builtins): seq<(string, JsValue)> {
    [("zip_codes", ParseInt(Prop(incident, "zip_codes"), host))]
    + seq(4, i requires 0 <= i < 4 => (IncidentFloatKeys[i], ParseFloat(Prop(incident, IncidentFloatKeys[i]), host)))
    + seq(8, i requires 0 <= i < 8 => (IncidentIntKeys[i + 1], ParseInt(Prop(incident, IncidentIntKeys[i + 1]), host)))
  }

  /**
   * What the prepared incident sends for its texts: each as given, or
   * `null` when falsy, so a `zip_code` of 0 is sent as `null`.
   */
  lemma PreparedIncidentTexts(incident: JsValue, host: Builtins)
    requires PrepareIncidentData(incident, host).Ok?
    ensures var data := PrepareIncidentData(incident, host).value;
            && (forall i :: 0 <= i < |IncidentTextKeys| ==>
                  Prop(data, IncidentTextKeys[i]) == NullIfFalsy(Prop(incident, IncidentTextKeys[i])))
            && (Prop(incident, "zip_code") == Num(0.0) ==> Prop(data, "zip_code") == Null)
  {
    var dates := PreparedIncidentShape(incident, host);
    var texts := IncidentTexts(incident);
    var rest := IncidentNumbers(incident, host);
    forall i | 0 <= i < |IncidentTextKeys|
      ensures Lookup(dates + texts + rest, IncidentTextKeys[i]) == NullIfFalsy(Prop(incident, IncidentTextKeys[i]))
    {
      IncidentTextLookup(dates, texts, rest, i);
    }
    assert IncidentTextKeys[4] == "zip_code";
  }

  /** A date left empty is sent as `null`. */
  lemma PreparedIncidentEmptyDates(incident: JsValue, host: Builtins)
    requires PrepareIncidentData(incident, host).Ok?
    ensures var data := PrepareIncidentData(incident, host).value;
            && (!Truthy(Prop(incident, "creation_date")) ==> Prop(data, "creation_date") == Null)
            && (!Truthy(Prop(incident, "completion_date")) ==> Prop(data, "completion_date") == Null)
  {
    var dates := PreparedIncidentShape(incident, host);
    var tail := IncidentTexts(incident) + IncidentNumbers(incident, host);
    assert dates + IncidentTexts(incident) + IncidentNumbers(incident, host) == dates + tail;
    DateLookup(dates, tail);
  }

  /** The prepared incident's entries: the two dates, then the texts, then the numbers. */
  lemma PreparedIncidentShape(incident: JsValue, host: Builtins) returns (dates: seq<(string, JsValue)>)
    requires PrepareIncidentData(incident, host).Ok?
    ensures |dates| == 2 && dates[0].0 == "creation_date" && dates[1].0 == "completion_date"
    ensures dates[0].1 == NullIfFalsy(IsoDateOrNull(Prop(incident, "creation_date"), host).value)
    ensures dates[1].1 == NullIfFalsy(IsoDateOrNull(Prop(incident, "completion_date"), host).value)
    ensures PrepareIncidentData(incident, host).value == Obj(dates + IncidentTexts(incident) + IncidentNumbers(incident, host))
  {
    var crDate := IsoDateOrNull(Prop(incident, "creation_date"), host).value;
    var cmDate := IsoDateOrNull(Prop(incident, "completion_date"), host).value;
    dates := [("creation_date", NullIfFalsy(crDate)), ("completion_date", NullIfFalsy(cmDate))];
  }

  /** Reading a date of the prepared incident finds its entry among the first two. */
  lemma DateLookup(dates: seq<(string, JsValue)>, tail: seq<(string, JsValue)>)
    requires |dates| == 2 && dates[0].0 == "creation_date" && dates[1].0 == "completion_date"
    ensures Lookup(dates + tail, "creation_date") == dates[0].1
    ensures Lookup(dates + tail, "completion_date") == dates[1].1
  {
    assert (dates + tail)[1..] == [dates[1]] + tail;
    assert "creation_date" != "completion_date" by { assert "creation_date"[1] != "completion_date"[1]; }
  }

  /** Reading a text key of the prepared incident finds the text entry, past the two dates. */
  lemma IncidentTextLookup(dates: seq<(string, JsValue)>, texts: seq<(string, JsValue)>, rest: seq<(string, JsValue)>, i: nat)
    requires |dates| == 2 && dates[0].0 == "creation_date" && dates[1].0 == "completion_date"
    requires |texts| == 5 && forall k :: 0 <= k < 5 ==> texts[k].0 == IncidentTextKeys[k]
    requires i < 5
    ensures Lookup(dates + texts + rest, IncidentTextKeys[i]) == texts[i].1
  {
    assert dates + texts + rest == dates + (texts + rest);
    assert Keys(dates) == ["creation_date", "completion_date"];
    assert IncidentTextKeys[i] !in Keys(dates) by {
      assert IncidentTextKeys[i][0] != 'c';
    }
    LookupAppend(dates, texts + rest, IncidentTextKeys[i]);
    assert NoDuplicates(Keys(texts)) by {
      assert Keys(texts) == IncidentTextKeys;
      assert "status"[1] != "service_request_number"[1];
      assert "status"[2] != "street_address"[2];
      assert "service_request_number"[1] != "street_address"[1];
    }
    LookupAt(texts, i);
    assert IncidentTextKeys[i] in Keys(texts) by { assert Keys(texts)[i] == IncidentTextKeys[i]; }
    LookupAppend(texts, rest, IncidentTextKeys[i]);
  }

  /** `_prepareIncidentActivityData`: `null` when both fields are falsy, otherwise both with falsy ones as `null`. */
  function PrepareIncidentActivityData(activity: JsValue): (r: Result<JsValue, JsError>)
    ensures r.Err? <==> IsNullish(activity)
    ensures r.Ok? ==> (r.value == Null <==> !Truthy(Prop(activity, "current_activity")) && !Truthy(Prop(activity, "most_recent_action")))
    ensures r.Ok? ==> r.value.Null? || r.value.Obj?
    ensures r.Ok? && r.value.Obj? ==>
      r.value.fields == [("current_activity", NullIfFalsy(Prop(activity, "current_activity"))),
                         ("most_recent_action", NullIfFalsy(Prop(activity, "most_recent_action")))]
  {
    if IsNullish(activity) then Err(TypeError)
    else
    var current := Prop(activity, "current_activity");
    var recent := Prop(activity, "most_recent_action");
    if Truthy(current) || Truthy(recent) then
      Ok(Obj([("current_activity", NullIfFalsy(current)), ("most_recent_action", NullIfFalsy(recent))]))
    else
      Ok(Null)
  }

  /** `_prepareAbandonedVehicleData`: `null` when all three fields are falsy, otherwise all three with falsy ones as `null`. */
  function PrepareAbandonedVehicleData(vehicle: JsValue): (r: Result<JsValue, JsError>)
    ensures r.Err? <==> IsNullish(vehicle)
    ensures r.Ok? ==> (r.value == Null <==> (!Truthy(Prop(vehicle, "license_plate"))
                        && !Truthy(Prop(vehicle, "vehicle_make_model")) && !Truthy(Prop(vehicle, "vehicle_color"))))
    ensures r.Ok? ==> r.value.Null? || r.value.Obj?
    ensures r.Ok? && r.value.Obj? ==>
      r.value.fields == [("license_plate", NullIfFalsy(Prop(vehicle, "license_plate"))),
                         ("vehicle_make_model", NullIfFalsy(Prop(vehicle, "vehicle_make_model"))),
                         ("vehicle_color", NullIfFalsy(Prop(vehicle, "vehicle_color")))]
  {
    if IsNullish(vehicle) then Err(TypeError)
    else
    var plate := Prop(vehicle, "license_plate");
    var model := Prop(vehicle, "vehicle_make_model");
    var color := Prop(vehicle, "vehicle_color");
    if Truthy(plate) || Truthy(model) || Truthy(color) then
      Ok(Obj([("license_plate", NullIfFalsy(plate)), ("vehicle_make_model", NullIfFalsy(model)),
              ("vehicle_color", NullIfFalsy(color))]))
    else
      Ok(Null)
  }

  /** `_prepareGarbageCartsPotholesData`: `null` when the count is falsy (so 0 is dropped), otherwise the parsed count. */
  function PrepareGarbageCartsPotholesData(garbageCartPothole: JsValue, host: Builtins): (r: Result<JsValue, JsError>)
    ensures r.Err? <==> IsNullish(garbageCartPothole)
    ensures r.Ok? ==> (r.value == Null <==> !Truthy(Prop(garbageCartPothole, "number_of_elements")))
    ensures r.Ok? ==> r.value.Null? || r.value.Obj?
    ensures r.Ok? && r.value.Obj? ==>
      r.value.fields == [("number_of_elements", ParseInt(Prop(garbageCartPothole, "number_of_elements"), host))]
  {
    if IsNullish(garbageCartPothole) then Err(TypeError)
    else
    var count := Prop(garbageCartPothole, "number_of_elements");
    if Truthy(count) then Ok(Obj([("number_of_elements", ParseInt(count, host))])) else Ok(Null)
  }

  /** `_prepareGraffitiData`: `null` when both fields are falsy, otherwise both with falsy ones as `null`. */
  function PrepareGraffitiData(graffiti: JsValue): (r: Result<JsValue, JsError>)
    ensures r.Err? <==> IsNullish(graffiti)
    ensures r.Ok? ==> (r.value == Null <==> !Truthy(Prop(graffiti, "surface")) && !Truthy(Prop(graffiti, "location")))
    ensures r.Ok? ==> r.value.Null? || r.value.Obj?
    ensures r.Ok? && r.value.Obj? ==>
      r.value.fields == [("surface", NullIfFalsy(Prop(graffiti, "surface"))),
                         ("location", NullIfFalsy(Prop(graffiti, "location")))]
  {
    if IsNullish(graffiti) then Err(TypeError)
    else
    var surface := Prop(graffiti, "surface");
    var location := Prop(graffiti, "location");
    if Truthy(surface) || Truthy(location) then
      Ok(Obj([("surface", NullIfFalsy(surface)), ("location", NullIfFalsy(location))]))
    else
      Ok(Null)
  }

  /** `_prepareRodentBaitingData`: `null` when all three counts are falsy, otherwise all three through `parseInt`. */
  function PrepareRodentBaitingData(rodentBaiting: JsValue, host: Builtins): (r: Result<JsValue, JsError>)
    ensures r.Err? <==> IsNullish(rodentBaiting)
    ensures r.Ok? ==> (r.value == Null <==> (!Truthy(Prop(rodentBaiting, "number_of_premises_baited"))
                        && !Truthy(Prop(rodentBaiting, "number_of_premises_w_garbage"))
                        && !Truthy(Prop(rodentBaiting, "number_of_premises_w_rats"))))
    ensures r.Ok? ==> r.value.Null? || r.value.Obj?
    ensures r.Ok? && r.value.Obj? ==>
      r.value.fields == [("number_of_premises_baited", ParseInt(Prop(rodentBaiting, "number_of_premises_baited"), host)),
                         ("number_of_premises_w_garbage", ParseInt(Prop(rodentBaiting, "number_of_premises_w_garbage"), host)),
                         ("number_of_premises_w_rats", ParseInt(Prop(rodentBaiting, "number_of_premises_w_rats"), host))]
  {
    if IsNullish(rodentBaiting) then Err(TypeError)
    else
    var baited := Prop(rodentBaiting, "number_of_premises_baited");
    var garbage := Prop(rodentBaiting, "number_of_premises_w_garbage");
    var rats := Prop(rodentBaiting, "number_of_premises_w_rats");
    if Truthy(baited) || Truthy(garbage) || Truthy(rats) then
      Ok(Obj([("number_of_premises_baited", ParseInt(baited, host)),
              ("number_of_premises_w_garbage", ParseInt(garbage, host)),
              ("number_of_premises_w_rats", ParseInt(rats, host))]))
    else
      Ok(Null)
  }

  /** `_prepareSanitationCodeData`: `null` when the description is falsy, otherwise the description itself. */
  function PrepareSanitationCodeData(codeViolation: JsValue): (r: Result<JsValue, JsError>)
    ensures r.Err? <==> IsNullish(codeViolation)
    ensures r.Ok? ==> (r.value == Null <==> !Truthy(Prop(codeViolation, "nature_of_code_violation")))
    ensures r.Ok? ==> r.value.Null? || r.value.Obj?
    ensures r.Ok? && r.value.Obj? ==>
      r.value.fields == [("nature_of_code_violation", Prop(codeViolation, "nature_of_code_violation"))]
  {
    if IsNullish(codeViolation) then Err(TypeError)
    else
    var nature := Prop(codeViolation, "nature_of_code_violation");
    if Truthy(nature) then Ok(Obj([("nature_of_code_violation", NullIfFalsy(nature))])) else Ok(Null)
  }

  /**
   * `_prepareTreeData`: `null` only when the tree itself is falsy; a tree
   * with an empty location still gives `{location: null}`. It never throws.
   */
  function PrepareTreeData(tree: JsValue): (r: Result<JsValue, JsError>)
    ensures r.Ok?
    ensures r.value == Null <==> !Truthy(tree)
    ensures r.value.Null? || r.value.Obj?
    ensures Truthy(tree) ==> r.value == Obj([("location", NullIfFalsy(Prop(tree, "location")))])
  {
    if Truthy(tree) then
      Ok(Obj([("location", NullIfFalsy(Prop(tree, "location")))]))
    else
      Ok(Null)
  }

  const IncidentKey: string := "incident"

  /** The first error among the prepared sub-entities, in the order they were prepared. */
  function FirstError(parts: seq<(string, Result<JsValue, JsError>)>): (e: Option<JsError>)
    ensures e.None? <==> forall i :: 0 <= i < |parts| ==> parts[i].1.Ok?
  {
    if |parts| == 0 then None
    else if parts[0].1.Err? then Some(parts[0].1.error)
    else
      var rest := FirstError(parts[1..]);
      assert forall i :: 1 <= i < |parts| ==> parts[i] == parts[1..][i - 1];
      rest
  }

  /** The sub-entities that are sent: those whose prepared value is not `null`, in order. */
  function Present(parts: seq<(string, Result<JsValue, JsError>)>): seq<(string, JsValue)>
    requires forall i :: 0 <= i < |parts| ==> parts[i].1.Ok?
  {
    if |parts| == 0 then []
    else (if parts[0].1.value == Null then [] else [(parts[0].0, parts[0].1.value)]) + Present(parts[1..])
  }

  /**
   * The body a builder sends: the prepared incident under `incident`,
   * then each prepared sub-entity that is not `null` under its key, then
   * the `trailing` entries; or the first exception thrown while preparing.
   */
  function Assemble(incident: Result<JsValue, JsError>, parts: seq<(string, Result<JsValue, JsError>)>,
                    trailing: seq<(string, JsValue)>): (r: Result<JsValue, JsError>)
    ensures r.Ok? <==> incident.Ok? && forall i :: 0 <= i < |parts| ==> parts[i].1.Ok?
    ensures incident.Err? ==> r == Err(incident.error)
  {
    if incident.Err? then Err(incident.error)
    else match FirstError(parts)
      case Some(e) => Err(e)
      case None => Ok(Obj([(IncidentKey, incident.value)] + Present(parts) + trailing))
  }

  /** The entry a prepared sub-entity contributes to the body: none when it is `null`. */
  function Entry(key: string, value: JsValue): seq<(string, JsValue)> {
    if value == Null then [] else [(key, value)]
  }

  lemma AssembleOne(incident: Result<JsValue, JsError>, p: (string, Result<JsValue, JsError>), trailing: seq<(string, JsValue)>)
    ensures Assemble(incident, [p], trailing) ==
      if incident.Err? then Err(incident.error)
      else if p.1.Err? then Err(p.1.error)
      else Ok(Obj([(IncidentKey, incident.value)] + Entry(p.0, p.1.value) + trailing))
  {
    var parts := [p];
    assert parts[1..] == [];
    if incident.Ok? && p.1.Ok? {
      assert FirstError(parts) == None;
      assert Present(parts[1..]) == [];
      assert Present(parts) == Entry(p.0, p.1.value) + Present(parts[1..]);
      assert Present(parts) == Entry(p.0, p.1.value);
    } else if incident.Ok? {
      assert FirstError(parts) == Some(p.1.error);
    }
  }

  lemma AssembleTwo(incident: Result<JsValue, JsError>, p: (string, Result<JsValue, JsError>),
                    q: (string, Result<JsValue, JsError>), trailing: seq<(string, JsValue)>)
    ensures Assemble(incident, [p, q], trailing) ==
      if incident.Err? then Err(incident.error)
      else if p.1.Err? then Err(p.1.error)
      else if q.1.Err? then Err(q.1.error)
      else Ok(Obj([(IncidentKey, incident.value)] + Entry(p.0, p.1.value) + Entry(q.0, q.1.value) + trailing))
  {
    var parts := [p, q];
    assert parts[1..] == [q];
    assert parts[1..][1..] == [];
    if incident.Ok? && p.1.Ok? && q.1.Ok? {
      assert FirstError(parts) == None;
      assert Present(parts[1..][1..]) == [];
      assert Present(parts[1..]) == Entry(q.0, q.1.value) + Present(parts[1..][1..]);
      assert Present(parts) == Entry(p.0, p.1.value) + Present(parts[1..]);
      assert Present(parts) == Entry(p.0, p.1.value) + Entry(q.0, q.1.value);
      var head := [(IncidentKey, incident.value)];
      assert head + Present(parts) + trailing == head + Entry(p.0, p.1.value) + Entry(q.0, q.1.value) + trailing;
    } else if incident.Ok? && p.1.Ok? {
      assert FirstError(parts[1..]) == Some(q.1.error);
      assert FirstError(parts) == Some(q.1.error);
    } else if incident.Ok? {
      assert FirstError(parts) == Some(p.1.error);
    }
  }

  /** The builders' `data` object: `incident` first, then `data[key] = value` for a truthy prepared sub-entity. */
  method BodyOne(incidentData: JsValue, key: string, value: JsValue) returns (data: seq<(string, JsValue)>)
    requires key != IncidentKey
    requires value.Null? || value.Obj?
    ensures data == [(IncidentKey, incidentData)] + Entry(key, value)
  {
    data := [];
    data := Put(data, IncidentKey, incidentData);
    if Truthy(value) {
      data := Put(data, key, value);
    }
  }

  /** As `BodyOne` for two sub-entities, set in the order given. */
  method BodyTwo(incidentData: JsValue, key1: string, value1: JsValue, key2: string, value2: JsValue)
    returns (data: seq<(string, JsValue)>)
    requires key1 != IncidentKey && key2 != IncidentKey && key1 != key2
    requires value1.Null? || value1.Obj?
    requires value2.Null? || value2.Obj?
    ensures data == [(IncidentKey, incidentData)] + Entry(key1, value1) + Entry(key2, value2)
  {
    data := BodyOne(incidentData, key1, value1);
    assert Keys(data) == [IncidentKey] + Keys(Entry(key1, value1));
    if Truthy(value2) {
      data := Put(data, key2, value2);
    }
  }

  /** `abandonedVehicleIncident`: the body for `incidents/createAbandonedVehicleIncidents/`. */
  method AbandonedVehicleIncident(incident: JsValue, activity: JsValue, vehicle: JsValue,
                                  daysOfReportAsParked: JsValue, host: Builtins)
    returns (r: Result<JsValue, JsError>)
    ensures r == Assemble(PrepareIncidentData(incident, host),
                          [(ActivityKey, PrepareIncidentActivityData(activity)),
                           (VehicleKey, PrepareAbandonedVehicleData(vehicle))],
                          [(DaysParkedKey, ParseInt(daysOfReportAsParked, host))])
  {
    AssembleTwo(PrepareIncidentData(incident, host), (ActivityKey, PrepareIncidentActivityData(activity)),
                (VehicleKey, PrepareAbandonedVehicleData(vehicle)),
                [(DaysParkedKey, ParseInt(daysOfReportAsParked, host))]);
    var incidentData :- PrepareIncidentData(incident, host);
    var activityData :- PrepareIncidentActivityData(activity);
    var vehicleData :- PrepareAbandonedVehicleData(vehicle);
    var data := AbandonedVehicleBody(incidentData, activityData, vehicleData, ParseInt(daysOfReportAsParked, host));
    return Ok(Obj(data));
  }

  const ActivityKey: string := "activity"
  const VehicleKey: string := "abandoned_vehicle"
  const DaysParkedKey: string := "days_of_report_as_parked"

  /** The abandoned-vehicle `data` object: as `BodyTwo`, then the days parked set unconditionally. */
  method AbandonedVehicleBody(incidentData: JsValue, activityData: JsValue, vehicleData: JsValue, days: JsValue)
    returns (data: seq<(string, JsValue)>)
    requires activityData.Null? || activityData.Obj?
    requires vehicleData.Null? || vehicleData.Obj?
    ensures data == [(IncidentKey, incidentData)] + Entry(ActivityKey, activityData) + Entry(VehicleKey, vehicleData)
                    + [(DaysParkedKey, days)]
  {
    BodyKeysDistinct();
    data := BodyTwo(incidentData, ActivityKey, activityData, VehicleKey, vehicleData);
    EntryKeys(ActivityKey, activityData);
    EntryKeys(VehicleKey, vehicleData);
    assert Keys(data) == [IncidentKey] + Keys(Entry(ActivityKey, activityData)) + Keys(Entry(VehicleKey, vehicleData));
    assert DaysParkedKey !in Keys(data);
    data := Put(data, DaysParkedKey, days);
  }

  /** The four keys of the abandoned-vehicle body are distinct. */
  lemma BodyKeysDistinct()
    ensures ActivityKey != IncidentKey && VehicleKey != IncidentKey && ActivityKey != VehicleKey
    ensures DaysParkedKey != IncidentKey && DaysParkedKey != ActivityKey && DaysParkedKey != VehicleKey
  {
    assert ActivityKey[0] == 'a' && VehicleKey[0] == 'a' && IncidentKey[0] == 'i' && DaysParkedKey[0] == 'd';
    assert ActivityKey[1] != VehicleKey[1];
  }

  lemma EntryKeys(key: string, value: JsValue)
    ensures Keys(Entry(key, value)) == if value == Null then [] else [key]
  {
  }

  /** `garbageCartsPotholesIncident`: the body for `incidents/createGarbageCartsAndPotholesIncidents/`. */
  method GarbageCartsPotholesIncident(incident: JsValue, activity: JsValue, garbageCartPothole: JsValue, host: Builtins)
    returns (r: Result<JsValue, JsError>)
    ensures r == Assemble(PrepareIncidentData(incident, host),
                          [(ActivityKey, PrepareIncidentActivityData(activity)),
                           ("carts_and_potholes", PrepareGarbageCartsPotholesData(garbageCartPothole, host))],
                          [])
  {
    AssembleTwo(PrepareIncidentData(incident, host), (ActivityKey, PrepareIncidentActivityData(activity)),
                ("carts_and_potholes", PrepareGarbageCartsPotholesData(garbageCartPothole, host)), []);
    var incidentData :- PrepareIncidentData(incident, host);
    var activityData :- PrepareIncidentActivityData(activity);
    var garbageCartPotholeData :- PrepareGarbageCartsPotholesData(garbageCartPothole, host);
    assert ActivityKey != IncidentKey by { assert ActivityKey[0] != IncidentKey[0]; }
    var data := BodyTwo(incidentData, ActivityKey, activityData, "carts_and_potholes", garbageCartPotholeData);
    assert data + [] == data;
    return Ok(Obj(data));
  }

  /** `graffitiIncident`: the body for `incidents/createGraffitiIncidents/`. */
  method GraffitiIncident(incident: JsValue, graffiti: JsValue, host: Builtins) returns (r: Result<JsValue, JsError>)
    ensures r == Assemble(PrepareIncidentData(incident, host), [("graffiti", PrepareGraffitiData(graffiti))], [])
  {
    AssembleOne(PrepareIncidentData(incident, host), ("graffiti", PrepareGraffitiData(graffiti)), []);
    var incidentData :- PrepareIncidentData(incident, host);
    var graffitiData :- PrepareGraffitiData(graffiti);
    assert "graffiti" != IncidentKey by { assert "graffiti"[0] != IncidentKey[0]; }
    var data := BodyOne(incidentData, "graffiti", graffitiData);
    assert data + [] == data;
    return Ok(Obj(data));
  }

  /** `rodentBaitingIncident`: the body for `incidents/createRodentBaitingIncidents/`. */
  method RodentBaitingIncident(incident: JsValue, activity: JsValue, rodentBaiting: JsValue, host: Builtins)
    returns (r: Result<JsValue, JsError>)
    ensures r == Assemble(PrepareIncidentData(incident, host),
                          [(ActivityKey, PrepareIncidentActivityData(activity)),
                           ("rodent_baiting_premises", PrepareRodentBaitingData(rodentBaiting, host))],
                          [])
  {
    AssembleTwo(PrepareIncidentData(incident, host), (ActivityKey, PrepareIncidentActivityData(activity)),
                ("rodent_baiting_premises", PrepareRodentBaitingData(rodentBaiting, host)), []);
    var incidentData :- PrepareIncidentData(incident, host);
    var activityData :- PrepareIncidentActivityData(activity);
    var rodentBaitingData :- PrepareRodentBaitingData(rodentBaiting, host);
    assert ActivityKey != IncidentKey by { assert ActivityKey[0] != IncidentKey[0]; }
    var data := BodyTwo(incidentData, ActivityKey, activityData, "rodent_baiting_premises", rodentBaitingData);
    assert data + [] == data;
    return Ok(Obj(data));
  }

  /** `sanitationCodeIncident`: the body for `incidents/createSanitationCodeViolationIncidents/`. */
  method SanitationCodeIncident(incident: JsValue, sanitationCode: JsValue, host: Builtins) returns (r: Result<JsValue, JsError>)
    ensures r == Assemble(PrepareIncidentData(incident, host),
                          [("sanitation_code_violation", PrepareSanitationCodeData(sanitationCode))], [])
  {
    AssembleOne(PrepareIncidentData(incident, host), ("sanitation_code_violation", PrepareSanitationCodeData(sanitationCode)), []);
    var incidentData :- PrepareIncidentData(incident, host);
    var sanitationCodeData :- PrepareSanitationCodeData(sanitationCode);
    var data := BodyOne(incidentData, "sanitation_code_violation", sanitationCodeData);
    assert data + [] == data;
    return Ok(Obj(data));
  }

  /** `treeIncident`: the body for `incidents/createTreeIncidents/`. */
  method TreeIncident(incident: JsValue, activity: JsValue, tree: JsValue, host: Builtins) returns (r: Result<JsValue, JsError>)
    ensures r == Assemble(PrepareIncidentData(incident, host),
                          [(ActivityKey, PrepareIncidentActivityData(activity)), ("tree", PrepareTreeData(tree))], [])
  {
    AssembleTwo(PrepareIncidentData(incident, host), (ActivityKey, PrepareIncidentActivityData(activity)),
                ("tree", PrepareTreeData(tree)), []);
    var incidentData :- PrepareIncidentData(incident, host);
    var activityData :- PrepareIncidentActivityData(activity);
    var treeData := PrepareTreeData(tree).value;
    assert ActivityKey != IncidentKey by { assert ActivityKey[0] != IncidentKey[0]; }
    var data := BodyTwo(incidentData, ActivityKey, activityData, "tree", treeData);
    assert data + [] == data;
    return Ok(Obj(data));
  }

  /**
   * In the abandoned-vehicle body, `activity` and `abandoned_vehicle` are
   * present exactly when their prepared value is not `null` (an empty form
   * sends no key at all), and `incident` and the days parked always are.
   */
  lemma AbandonedVehicleBodyKeys(incident: JsValue, activity: JsValue, vehicle: JsValue,
                                 daysOfReportAsParked: JsValue, host: Builtins, body: JsValue)
    requires Assemble(PrepareIncidentData(incident, host),
                      [(ActivityKey, PrepareIncidentActivityData(activity)), (VehicleKey, PrepareAbandonedVehicleData(vehicle))],
                      [(DaysParkedKey, ParseInt(daysOfReportAsParked, host))]) == Ok(body)
    ensures PrepareIncidentData(incident, host).Ok? && Prop(body, IncidentKey) == PrepareIncidentData(incident, host).value
    ensures PrepareIncidentActivityData(activity).Ok?
    ensures Prop(body, ActivityKey) == if PrepareIncidentActivityData(activity).value == Null then Undefined
                                       else PrepareIncidentActivityData(activity).value
    ensures PrepareAbandonedVehicleData(vehicle).Ok?
    ensures Prop(body, VehicleKey) == if PrepareAbandonedVehicleData(vehicle).value == Null then Undefined
                                      else PrepareAbandonedVehicleData(vehicle).value
    ensures Prop(body, DaysParkedKey) == ParseInt(daysOfReportAsParked, host)
  {
    var inc, act, veh := PrepareIncidentData(incident, host), PrepareIncidentActivityData(activity), PrepareAbandonedVehicleData(vehicle);
    var days := ParseInt(daysOfReportAsParked, host);
    AssembleTwo(inc, (ActivityKey, act), (VehicleKey, veh), [(DaysParkedKey, days)]);
    assert inc.Ok? && act.Ok? && veh.Ok?;
    var fields := [(IncidentKey, inc.value)] + Entry(ActivityKey, act.value) + Entry(VehicleKey, veh.value) + [(DaysParkedKey, days)];
    assert body == Obj(fields);
    AbandonedVehicleFieldsLookup(inc.value, act.value, veh.value, days);
  }

  lemma AbandonedVehicleFieldsLookup(incidentData: JsValue, activityData: JsValue, vehicleData: JsValue, days: JsValue)
    ensures var fields := [(IncidentKey, incidentData)] + Entry(ActivityKey, activityData) + Entry(VehicleKey, vehicleData)
                          + [(DaysParkedKey, days)];
            && Lookup(fields, IncidentKey) == incidentData
            && Lookup(fields, ActivityKey) == (if activityData == Null then Undefined else activityData)
            && Lookup(fields, VehicleKey) == (if vehicleData == Null then Undefined else vehicleData)
            && Lookup(fields, DaysParkedKey) == days
  {
    var head := [(IncidentKey, incidentData)];
    var a := Entry(ActivityKey, activityData);
    var v := Entry(VehicleKey, vehicleData);
    var tail := [(DaysParkedKey, days)];
    assert head + a + v + tail == head + (a + (v + tail));
    assert ActivityKey != IncidentKey by { assert ActivityKey[0] != IncidentKey[0]; }
    assert Keys(head) == [IncidentKey];
    assert Keys(tail) == [DaysParkedKey];
    LookupAppend(head, a + (v + tail), IncidentKey);
    LookupAppend(head, a + (v + tail), ActivityKey);
    LookupAppend(a, v + tail, ActivityKey);
    LookupAppend(head, a + (v + tail), VehicleKey);
    LookupAppend(a, v + tail, VehicleKey);
    LookupAppend(v, tail, VehicleKey);
    LookupAppend(head, a + (v + tail), DaysParkedKey);
    LookupAppend(a, v + tail, DaysParkedKey);
    LookupAppend(v, tail, DaysParkedKey);
  }
}
