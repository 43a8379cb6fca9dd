/**
 * The abandoned-vehicle create serializers: the "not every field is null"
 * check of `validate`, and the unique-together validator on the
 * (license plate, make/model, colour) triple that the variant used inside
 * incident creation switches off.
 */
module AbandonedVehicleSerializers {
  import opened Common

  /** The validated fields of an abandoned vehicle; each may be null. */
  datatype VehicleAttrs = VehicleAttrs(
    licensePlate: Option<string>, vehicleMakeModel: Option<string>, vehicleColor: Option<string>)

  const AllNoneMessage: string := "Abandoned vehicle fields are all None"

  /** The natural key checked by the unique-together validator. */
  const UniqueFields: seq<string> := ["license_plate", "vehicle_make_model", "vehicle_color"]

  /** The row invariant of an abandoned vehicle: at least one field is not null. */
  predicate SomeFieldSet(a: VehicleAttrs) {
    a.licensePlate.Some? || a.vehicleMakeModel.Some? || a.vehicleColor.Some?
  }

  /** No field is null; only then does the unique-together validator compare rows. */
  predicate AllFieldsSet(a: VehicleAttrs) {
    a.licensePlate.Some? && a.vehicleMakeModel.Some? && a.vehicleColor.Some?
  }

  /**
   * `validate`: a vehicle whose three fields are all null is rejected with a
   * non-field error; any other is returned unchanged. The test is "is null",
   * so an empty string counts as a value.
   */
  function Validate(attrs: VehicleAttrs): (r: Result<VehicleAttrs, ValidationError>)
    ensures r.Ok? <==> SomeFieldSet(attrs)
    ensures r.Ok? ==> r.value == attrs
    ensures r.Err? ==> r.error == NonField(AllNoneMessage)
  {
    if attrs.licensePlate.None? && attrs.vehicleColor.None? && attrs.vehicleMakeModel.None? then
      Err(NonField(AllNoneMessage))
    else
      Ok(attrs)
  }

  /**
   * `AbandonedVehicleCreateSerializer`: the unique-together validator runs
   * before `validate` and rejects a triple already in `table`, but it is
   * skipped when any of the three values is null.
   */
  function ValidateForCreate(attrs: VehicleAttrs, table: seq<VehicleAttrs>): (r: Result<VehicleAttrs, ValidationError>)
    ensures r.Ok? <==> SomeFieldSet(attrs) && !(AllFieldsSet(attrs) && attrs in table)
    ensures r.Ok? ==> r.value == attrs
    ensures AllFieldsSet(attrs) && attrs in table ==> r.error == NotUnique(UniqueFields)
  {
    if AllFieldsSet(attrs) && attrs in table then Err(NotUnique(UniqueFields)) else Validate(attrs)
  }

  /**
   * `AbandonedVehicleCreateSerializerForIncident`: no unique-together
   * validators, so only `validate` runs and an existing vehicle is accepted
   * (to be reused by the get-or-create that follows).
   */
  function ValidateForIncident(attrs: VehicleAttrs, table: seq<VehicleAttrs>): (r: Result<VehicleAttrs, ValidationError>)
    ensures r.Ok? <==> SomeFieldSet(attrs)
    ensures r.Ok? ==> r.value == attrs
  {
    Validate(attrs)
  }

  /** The variant used for incidents decides the same way whatever the vehicle table holds. */
  lemma ForIncidentIgnoresTable(attrs: VehicleAttrs, t1: seq<VehicleAttrs>, t2: seq<VehicleAttrs>)
    ensures ValidateForIncident(attrs, t1) == ValidateForIncident(attrs, t2)
  {
  }

  /** An existing vehicle with a value passes the incident variant but not the plain create serializer. */
  lemma ExistingVehicleOnlyReusable(attrs: VehicleAttrs, table: seq<VehicleAttrs>)
    requires AllFieldsSet(attrs) && attrs in table
    ensures ValidateForIncident(attrs, table) == Ok(attrs)
    ensures ValidateForCreate(attrs, table) == Err(NotUnique(UniqueFields))
  {
  }

  /** The plain create serializer is the stricter one: whatever it accepts, the incident variant accepts alike. */
  lemma CreateStricterThanForIncident(attrs: VehicleAttrs, table: seq<VehicleAttrs>)
    ensures ValidateForCreate(attrs, table).Ok? ==> ValidateForIncident(attrs, table) == ValidateForCreate(attrs, table)
  {
  }


  /** Only null is absence: an empty licence plate alone is enough. */
  lemma EmptyStringIsAValue()
    ensures Validate(VehicleAttrs(Some(""), None, None)).Ok?
    ensures Validate(VehicleAttrs(None, None, None)) == Err(NonField(AllNoneMessage))
  {
  }
}
