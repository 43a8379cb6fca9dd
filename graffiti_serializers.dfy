/**
 * The graffiti create serializers: the "not both fields are null" check of
 * `validate`, and the unique-together validator on the (surface, location)
 * pair that the variant for incidents switches off.
 */
module GraffitiSerializers {
  import opened Common

  /** The validated fields of a graffiti; each may be null. */
  datatype GraffitiAttrs = GraffitiAttrs(surface: Option<string>, location: Option<string>)

  const AllNoneMessage: string := "Graffiti fields are all None"

  /** The natural key checked by the unique-together validator. */
  const UniqueFields: seq<string> := ["surface", "location"]

  /** The row invariant of a graffiti: not both fields are null. */
  predicate SomeFieldSet(a: GraffitiAttrs) {
    a.surface.Some? || a.location.Some?
  }

  /** Neither field is null; only then does the unique-together validator compare rows. */
  predicate AllFieldsSet(a: GraffitiAttrs) {
    a.surface.Some? && a.location.Some?
  }

  /** `validate`: a graffiti whose two fields are both null is rejected; any other is returned unchanged. */
  function Validate(attrs: GraffitiAttrs): (r: Result<GraffitiAttrs, ValidationError>)
    ensures r.Ok? <==> SomeFieldSet(attrs)
    ensures r.Ok? ==> r.value == attrs
    ensures r.Err? ==> r.error == NonField(AllNoneMessage)
  {
    if attrs.surface.None? && attrs.location.None? then Err(NonField(AllNoneMessage)) else Ok(attrs)
  }

  /**
   * `GraffitiCreateSerializer`: the unique-together validator runs before
   * `validate` and rejects a pair already in `table`, unless one value is null.
   */
  function ValidateForCreate(attrs: GraffitiAttrs, table: seq<GraffitiAttrs>): (r: Result<GraffitiAttrs, ValidationError>)
    ensures r.Ok? <==> SomeFieldSet(attrs) && !(AllFieldsSet(attrs) && attrs in table)
    ensures r.Ok? ==> r.value == attrs
    ensures AllFieldsSet(attrs) && attrs in table ==> r.error == NotUnique(UniqueFields)
  {
    if AllFieldsSet(attrs) && attrs in table then Err(NotUnique(UniqueFields)) else Validate(attrs)
  }

  /** `GraffitiCreateSerializerForIncident`: no unique-together validators; only `validate` runs. */
  function ValidateForIncident(attrs: GraffitiAttrs, table: seq<GraffitiAttrs>): (r: Result<GraffitiAttrs, ValidationError>)
    ensures r.Ok? <==> SomeFieldSet(attrs)
    ensures r.Ok? ==> r.value == attrs
  {
    Validate(attrs)
  }

  /**
   * Posting the same graffiti twice through the variant for incidents, each
   * time followed by a get-or-create, is accepted both times and leaves
   * exactly one graffiti row equal to it.
   */
  lemma SameGraffitiTwiceLeavesOneRow(attrs: GraffitiAttrs, table: seq<GraffitiAttrs>)
    requires SomeFieldSet(attrs) && attrs !in table
    ensures ValidateForIncident(attrs, table).Ok?
    ensures ValidateForIncident(attrs, GetOrCreate(table, attrs).0).Ok?
    ensures Count(GetOrCreate(GetOrCreate(table, attrs).0, attrs).0, attrs) == 1
  {
    GetOrCreateIdempotent(table, attrs);
    GetOrCreateCount(table, attrs);
  }

  /** The plain create serializer would reject that second post instead. */
  lemma SameGraffitiTwiceRejectedByCreate(attrs: GraffitiAttrs, table: seq<GraffitiAttrs>)
    requires AllFieldsSet(attrs)
    ensures ValidateForCreate(attrs, GetOrCreate(table, attrs).0) == Err(NotUnique(UniqueFields))
  {
  }
}
