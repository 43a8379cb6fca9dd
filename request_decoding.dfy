/**
 * How `AbandonedVehicleIncidentCreateSerializer` reads the body that the
 * frontend's `abandonedVehicleIncident` sends: each key of the JSON object
 * becomes a serializer field that is absent, `null` or given. These lemmas
 * join the two halves: a form the user filled in is accepted by the nested
 * serializers, and a form left empty is rejected because its key is not
 * sent at all.
 *
 * Only text values are decoded here; a CharField's coercion of numbers and
 * booleans, and the decoding of the nested incident (its dates and
 * numbers), are not part of this model, so the incident arrives as a
 * serializer field already.
 */
module RequestDecoding {
  import opened Common
  import opened JsValues
  import IS = IncidentSerializer
  import AV = AbandonedVehicleSerializers
  import AS = ActivitySerializers
  import CIS = CreateIncidentService
  import IncidentModel

  /** A text field of a nested object; `None` for a JSON value that is not text or null. */
  function TextField(v: JsValue): (r: Option<IS.Field<string>>)
    ensures r.Some? <==> v.Undefined? || v.Null? || v.Str?
  {
    match v
    case Undefined => Some(IS.Absent)
    case Null => Some(IS.Null)
    case Str(s) => Some(IS.Given(s))
    case _ => None
  }

  /** The nested `abandoned_vehicle` object as the serializer reads it. */
  function VehicleInputOf(v: JsValue): Option<IS.VehicleInput> {
    var plate := TextField(Prop(v, "license_plate"));
    var model := TextField(Prop(v, "vehicle_make_model"));
    var color := TextField(Prop(v, "vehicle_color"));
    if plate.Some? && model.Some? && color.Some? then Some(IS.VehicleInput(plate.value, model.value, color.value))
    else None
  }

  /** The nested `activity` object as the serializer reads it. */
  function ActivityInputOf(v: JsValue): Option<IS.ActivityInput> {
    var current := TextField(Prop(v, "current_activity"));
    var recent := TextField(Prop(v, "most_recent_action"));
    if current.Some? && recent.Some? then Some(IS.ActivityInput(current.value, recent.value)) else None
  }

  /** A nested key of the payload: missing, `null`, or an object decoded by `decode`. */
  function NestedOf<T>(v: JsValue, decode: JsValue -> Option<T>): (r: Option<IS.Field<T>>)
    ensures v.Undefined? ==> r == Some(IS.Absent)
    ensures v.Obj? && decode(v).Some? ==> r == Some(IS.Given(decode(v).value))
  {
    match v
    case Undefined => Some(IS.Absent)
    case Null => Some(IS.Null)
    case Obj(_) => if decode(v).Some? then Some(IS.Given(decode(v).value)) else None
    case _ => None
  }

  /** The payload the serializer sees for `body`, given how it reads the nested incident. */
  function PayloadOf(body: JsValue, incident: IS.Field<IS.IncidentInput>): Option<IS.PayloadInput> {
    var activity := NestedOf(Prop(body, "activity"), ActivityInputOf);
    var vehicle := NestedOf(Prop(body, "abandoned_vehicle"), VehicleInputOf);
    if activity.Some? && vehicle.Some? then Some(IS.PayloadInput(incident, activity.value, vehicle.value)) else None
  }

  /** What a form input holds: text, or nothing yet. */
  predicate TextInput(v: JsValue) {
    v.Undefined? || v.Null? || v.Str?
  }

  /** The text a form input contributes: its string when it is not empty. */
  function Filled(v: JsValue): Option<string> {
    if v.Str? && v.s != "" then Some(v.s) else None
  }

  /** The text a filled input leaves in its column: stripped, as the serializer's `CharField` does. */
  function Stored(v: JsValue): Option<string> {
    if Filled(v).Some? then Some(IS.Strip(Filled(v).value)) else None
  }

  predicate VehicleForm(vehicle: JsValue) {
    && vehicle.Obj?
    && TextInput(Prop(vehicle, "license_plate"))
    && TextInput(Prop(vehicle, "vehicle_make_model"))
    && TextInput(Prop(vehicle, "vehicle_color"))
  }

  predicate ActivityForm(activity: JsValue) {
    && activity.Obj?
    && TextInput(Prop(activity, "current_activity"))
    && TextInput(Prop(activity, "most_recent_action"))
  }

  /**
   * A text input sent through `v || null` arrives as its text when filled
   * and as `null` otherwise; the serializer keeps the text stripped.
   */
  lemma SentText(v: JsValue)
    requires TextInput(v)
    ensures TextField(CIS.NullIfFalsy(v)) == Some(if Filled(v).Some? then IS.Given(Filled(v).value) else IS.Null)
    ensures IS.NullableValue(TextField(CIS.NullIfFalsy(v)).value) == Ok(Stored(v))
  {
  }

  /**
   * A vehicle form with at least one field filled in is prepared into an
   * object that the nested serializer accepts, holding the stripped text
   * of each filled field and null for the others.
   */
  lemma PreparedVehicleAccepted(vehicle: JsValue, existing: seq<AV.VehicleAttrs>)
    requires VehicleForm(vehicle)
    requires CIS.PrepareAbandonedVehicleData(vehicle).value.Obj?
    ensures VehicleInputOf(CIS.PrepareAbandonedVehicleData(vehicle).value).Some?
    ensures IS.ValidateVehicle(VehicleInputOf(CIS.PrepareAbandonedVehicleData(vehicle).value).value, existing)
            == Ok(AV.VehicleAttrs(Stored(Prop(vehicle, "license_plate")), Stored(Prop(vehicle, "vehicle_make_model")),
                                  Stored(Prop(vehicle, "vehicle_color"))))
  {
    var plate, model, color := Prop(vehicle, "license_plate"), Prop(vehicle, "vehicle_make_model"), Prop(vehicle, "vehicle_color");
    var fields := CIS.PrepareAbandonedVehicleData(vehicle).value.fields;
    assert "vehicle_color"[0] != "license_plate"[0];
    assert fields[1..][1..] == [("vehicle_color", CIS.NullIfFalsy(color))];
    assert Lookup(fields, "license_plate") == CIS.NullIfFalsy(plate);
    assert Lookup(fields, "vehicle_make_model") == CIS.NullIfFalsy(model);
    assert fields[1..][0].0 == "vehicle_make_model" != "vehicle_color";
    assert Lookup(fields[1..], "vehicle_color") == Lookup(fields[1..][1..], "vehicle_color");
    assert Lookup(fields, "vehicle_color") == CIS.NullIfFalsy(color);
    SentText(plate);
    SentText(model);
    SentText(color);
  }

  /**
   * An activity form with at least one field filled in is accepted by the
   * nested serializer without a unique-together validator, whatever
   * activities are already stored, as the stripped texts of its filled
   * fields.
   */
  lemma PreparedActivityAccepted(activity: JsValue, existing: seq<AS.ActivityAttrs>)
    requires ActivityForm(activity)
    requires CIS.PrepareIncidentActivityData(activity).value.Obj?
    ensures ActivityInputOf(CIS.PrepareIncidentActivityData(activity).value).Some?
    ensures IS.ValidateActivity(ActivityInputOf(CIS.PrepareIncidentActivityData(activity).value).value, existing, false)
            == Ok(AS.ActivityAttrs(Stored(Prop(activity, "current_activity")), Stored(Prop(activity, "most_recent_action"))))
  {
    var current, recent := Prop(activity, "current_activity"), Prop(activity, "most_recent_action");
    var fields := CIS.PrepareIncidentActivityData(activity).value.fields;
    assert fields[1..] == [("most_recent_action", CIS.NullIfFalsy(recent))];
    assert Lookup(fields, "current_activity") == CIS.NullIfFalsy(current);
    assert Lookup(fields, "most_recent_action") == CIS.NullIfFalsy(recent);
    SentText(current);
    SentText(recent);
  }

  /**
   * With the unique-together validator the payload serializer actually
   * nests, an activity form whose two fields repeat a stored activity is
   * rejected.
   */
  lemma RepeatedActivityRejectedAsWritten(activity: JsValue, existing: seq<AS.ActivityAttrs>)
    requires ActivityForm(activity)
    requires Filled(Prop(activity, "current_activity")).Some? && Filled(Prop(activity, "most_recent_action")).Some?
    requires AS.ActivityAttrs(Stored(Prop(activity, "current_activity")), Stored(Prop(activity, "most_recent_action"))) in existing
    ensures ActivityInputOf(CIS.PrepareIncidentActivityData(activity).value).Some?
    ensures IS.ValidateActivity(ActivityInputOf(CIS.PrepareIncidentActivityData(activity).value).value, existing, true).Err?
  {
    PreparedActivityAccepted(activity, existing);
  }

  /** The nested activity of a body holding what `_prepareIncidentActivityData` made of `activity`. */
  predicate CarriesActivity(body: JsValue, activity: JsValue) {
    && CIS.PrepareIncidentActivityData(activity).Ok?
    && Prop(body, CIS.ActivityKey) == if CIS.PrepareIncidentActivityData(activity).value == Null then Undefined
                                      else CIS.PrepareIncidentActivityData(activity).value
  }

  /** The nested vehicle of a body holding what `_prepareAbandonedVehicleData` made of `vehicle`. */
  predicate CarriesVehicle(body: JsValue, vehicle: JsValue) {
    && CIS.PrepareAbandonedVehicleData(vehicle).Ok?
    && Prop(body, CIS.VehicleKey) == if CIS.PrepareAbandonedVehicleData(vehicle).value == Null then Undefined
                                     else CIS.PrepareAbandonedVehicleData(vehicle).value
  }

  /** The payload of a body carrying an activity form: it decodes, and the form decides the nested activity. */
  lemma ActivityDecoded(body: JsValue, activity: JsValue, activities: seq<AS.ActivityAttrs>)
    requires ActivityForm(activity) && CarriesActivity(body, activity)
    ensures NestedOf(Prop(body, "activity"), ActivityInputOf).Some?
    ensures var f := NestedOf(Prop(body, "activity"), ActivityInputOf).value;
            && (f.Given? <==> Filled(Prop(activity, "current_activity")).Some? || Filled(Prop(activity, "most_recent_action")).Some?)
            && (f.Given? ==>
                  IS.ValidateActivity(f.value, activities, false)
                  == Ok(AS.ActivityAttrs(Stored(Prop(activity, "current_activity")), Stored(Prop(activity, "most_recent_action")))))
  {
    if CIS.PrepareIncidentActivityData(activity).value.Obj? {
      PreparedActivityAccepted(activity, activities);
    }
  }

  /** The payload of a body carrying a filled vehicle form: it decodes, and the form decides the nested vehicle. */
  lemma VehicleDecoded(body: JsValue, vehicle: JsValue, vehicles: seq<AV.VehicleAttrs>)
    requires VehicleForm(vehicle) && CarriesVehicle(body, vehicle)
    requires Filled(Prop(vehicle, "license_plate")).Some? || Filled(Prop(vehicle, "vehicle_make_model")).Some?
             || Filled(Prop(vehicle, "vehicle_color")).Some?
    ensures NestedOf(Prop(body, "abandoned_vehicle"), VehicleInputOf).Some?
    ensures var f := NestedOf(Prop(body, "abandoned_vehicle"), VehicleInputOf).value;
            && f.Given?
            && IS.ValidateVehicle(f.value, vehicles)
               == Ok(AV.VehicleAttrs(Stored(Prop(vehicle, "license_plate")), Stored(Prop(vehicle, "vehicle_make_model")),
                                     Stored(Prop(vehicle, "vehicle_color"))))
  {
    PreparedVehicleAccepted(vehicle, vehicles);
  }

  /**
   * An abandoned-vehicle form left empty is not sent, so the payload
   * serializer reports its key as required and rejects the whole request.
   */
  lemma EmptyVehicleFormRejected(incident: JsValue, activity: JsValue, vehicle: JsValue, days: JsValue, host: Builtins,
                                 body: JsValue, incidentField: IS.Field<IS.IncidentInput>, parse: string -> Option<IncidentModel.Instant>,
                                 incidents: seq<IncidentModel.Incident>, vehicles: seq<AV.VehicleAttrs>, activities: seq<AS.ActivityAttrs>)
    requires VehicleForm(vehicle) && ActivityForm(activity)
    requires CIS.Assemble(CIS.PrepareIncidentData(incident, host),
                          [(CIS.ActivityKey, CIS.PrepareIncidentActivityData(activity)),
                           (CIS.VehicleKey, CIS.PrepareAbandonedVehicleData(vehicle))],
                          [(CIS.DaysParkedKey, ParseInt(days, host))]) == Ok(body)
    requires Filled(Prop(vehicle, "license_plate")).None? && Filled(Prop(vehicle, "vehicle_make_model")).None?
             && Filled(Prop(vehicle, "vehicle_color")).None?
    ensures PayloadOf(body, incidentField).Some?
    ensures IS.VehiclePart(PayloadOf(body, incidentField).value, vehicles) == Err(IS.FieldError(Required))
    ensures IS.ValidatePayload(PayloadOf(body, incidentField).value, parse, incidents, vehicles, activities).Err?
  {
    CIS.AbandonedVehicleBodyKeys(incident, activity, vehicle, days, host, body);
    EmptyVehicleRejected(body, activity, vehicle, incidentField, parse, incidents, vehicles, activities);
  }

  lemma EmptyVehicleRejected(body: JsValue, activity: JsValue, vehicle: JsValue,
                             incidentField: IS.Field<IS.IncidentInput>, parse: string -> Option<IncidentModel.Instant>,
                             incidents: seq<IncidentModel.Incident>, vehicles: seq<AV.VehicleAttrs>, activities: seq<AS.ActivityAttrs>)
    requires VehicleForm(vehicle) && ActivityForm(activity)
    requires CarriesActivity(body, activity) && CarriesVehicle(body, vehicle)
    requires Filled(Prop(vehicle, "license_plate")).None? && Filled(Prop(vehicle, "vehicle_make_model")).None?
             && Filled(Prop(vehicle, "vehicle_color")).None?
    ensures PayloadOf(body, incidentField).Some?
    ensures IS.VehiclePart(PayloadOf(body, incidentField).value, vehicles) == Err(IS.FieldError(Required))
    ensures IS.ValidatePayload(PayloadOf(body, incidentField).value, parse, incidents, vehicles, activities).Err?
  {
    EmptyVehicleNotSent(body, vehicle);
    ActivityDecoded(body, activity, activities);
    var activityField := NestedOf(Prop(body, "activity"), ActivityInputOf).value;
    assert NestedOf(Prop(body, "abandoned_vehicle"), VehicleInputOf) == Some(IS.Absent);
    var payload := IS.PayloadInput(incidentField, activityField, IS.Absent);
    assert PayloadOf(body, incidentField) == Some(payload);
    IS.AbsentVehicleRejected(payload, parse, incidents, vehicles, activities);
  }

  /** A body carrying an empty abandoned-vehicle form has no `abandoned_vehicle` key. */
  lemma EmptyVehicleNotSent(body: JsValue, vehicle: JsValue)
    requires VehicleForm(vehicle) && CarriesVehicle(body, vehicle)
    requires Filled(Prop(vehicle, "license_plate")).None? && Filled(Prop(vehicle, "vehicle_make_model")).None?
             && Filled(Prop(vehicle, "vehicle_color")).None?
    ensures Prop(body, "abandoned_vehicle") == Undefined
  {
    EmptyInputFalsy(Prop(vehicle, "license_plate"));
    EmptyInputFalsy(Prop(vehicle, "vehicle_make_model"));
    EmptyInputFalsy(Prop(vehicle, "vehicle_color"));
    assert CIS.PrepareAbandonedVehicleData(vehicle).value == Null;
  }

  /** An empty form input is falsy. */
  lemma EmptyInputFalsy(v: JsValue)
    requires TextInput(v) && Filled(v).None?
    ensures !Truthy(v)
  {
  }

  /**
   * Filled-in activity and vehicle forms, with an incident the serializer
   * accepts, give a body the payload serializer accepts; the stored
   * sub-entities then hold the stripped texts of the filled fields and
   * null for the others.
   */
  lemma FilledFormsAccepted(incident: JsValue, activity: JsValue, vehicle: JsValue, days: JsValue, host: Builtins,
                            body: JsValue, incidentField: IS.Field<IS.IncidentInput>, parse: string -> Option<IncidentModel.Instant>,
                            incidents: seq<IncidentModel.Incident>, vehicles: seq<AV.VehicleAttrs>, activities: seq<AS.ActivityAttrs>)
    requires VehicleForm(vehicle) && ActivityForm(activity)
    requires CIS.Assemble(CIS.PrepareIncidentData(incident, host),
                          [(CIS.ActivityKey, CIS.PrepareIncidentActivityData(activity)),
                           (CIS.VehicleKey, CIS.PrepareAbandonedVehicleData(vehicle))],
                          [(CIS.DaysParkedKey, ParseInt(days, host))]) == Ok(body)
    requires Filled(Prop(vehicle, "license_plate")).Some? || Filled(Prop(vehicle, "vehicle_make_model")).Some?
             || Filled(Prop(vehicle, "vehicle_color")).Some?
    requires Filled(Prop(activity, "current_activity")).Some? || Filled(Prop(activity, "most_recent_action")).Some?
    requires incidentField.Given? && IS.ValidateIncident(incidentField.value, parse, incidents).Ok?
    ensures PayloadOf(body, incidentField).Some?
    ensures var r := IS.ValidatePayload(PayloadOf(body, incidentField).value, parse, incidents, vehicles, activities);
            && r.Ok?
            && r.value.vehicle == AV.VehicleAttrs(Stored(Prop(vehicle, "license_plate")), Stored(Prop(vehicle, "vehicle_make_model")),
                                                  Stored(Prop(vehicle, "vehicle_color")))
            && r.value.activity == AS.ActivityAttrs(Stored(Prop(activity, "current_activity")),
                                                    Stored(Prop(activity, "most_recent_action")))
  {
    CIS.AbandonedVehicleBodyKeys(incident, activity, vehicle, days, host, body);
    FilledAccepted(body, activity, vehicle, incidentField, parse, incidents, vehicles, activities);
  }

  lemma FilledAccepted(body: JsValue, activity: JsValue, vehicle: JsValue,
                       incidentField: IS.Field<IS.IncidentInput>, parse: string -> Option<IncidentModel.Instant>,
                       incidents: seq<IncidentModel.Incident>, vehicles: seq<AV.VehicleAttrs>, activities: seq<AS.ActivityAttrs>)
    requires VehicleForm(vehicle) && ActivityForm(activity)
    requires CarriesActivity(body, activity) && CarriesVehicle(body, vehicle)
    requires Filled(Prop(vehicle, "license_plate")).Some? || Filled(Prop(vehicle, "vehicle_make_model")).Some?
             || Filled(Prop(vehicle, "vehicle_color")).Some?
    requires Filled(Prop(activity, "current_activity")).Some? || Filled(Prop(activity, "most_recent_action")).Some?
    requires incidentField.Given? && IS.ValidateIncident(incidentField.value, parse, incidents).Ok?
    ensures PayloadOf(body, incidentField).Some?
    ensures var r := IS.ValidatePayload(PayloadOf(body, incidentField).value, parse, incidents, vehicles, activities);
            && r.Ok?
            && r.value.vehicle == AV.VehicleAttrs(Stored(Prop(vehicle, "license_plate")), Stored(Prop(vehicle, "vehicle_make_model")),
                                                  Stored(Prop(vehicle, "vehicle_color")))
            && r.value.activity == AS.ActivityAttrs(Stored(Prop(activity, "current_activity")),
                                                    Stored(Prop(activity, "most_recent_action")))
  {
    ActivityDecoded(body, activity, activities);
    VehicleDecoded(body, vehicle, vehicles);
    var a := NestedOf(Prop(body, "activity"), ActivityInputOf).value;
    var v := NestedOf(Prop(body, "abandoned_vehicle"), VehicleInputOf).value;
    var p := PayloadOf(body, incidentField).value;
    assert p == IS.PayloadInput(incidentField, a, v);
    assert IS.ActivityPart(p, activities, false) == Ok(IS.ValidateActivity(a.value, activities, false).value);
    assert IS.VehiclePart(p, vehicles) == Ok(IS.ValidateVehicle(v.value, vehicles).value);
  }
}
