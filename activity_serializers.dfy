/**
 * The activity create serializers: the "not both fields are null" check of
 * `validate`, and the unique-together validator on the (current activity,
 * most recent action) pair that the variant for incidents switches off.
 */
module ActivitySerializers {
  import opened Common

  /** The validated fields of an activity; each may be null. */
  datatype ActivityAttrs = ActivityAttrs(currentActivity: Option<string>, mostRecentAction: Option<string>)

  const AllNoneMessage: string := "Activity fields are all None"

  /** The natural key checked by the unique-together validator. */
  const UniqueFields: seq<string> := ["current_activity", "most_recent_action"]

  /** The row invariant of an activity: not both fields are null. */
  predicate SomeFieldSet(a: ActivityAttrs) {
    a.currentActivity.Some? || a.mostRecentAction.Some?
  }

  /** Neither field is null; only then does the unique-together validator compare rows. */
  predicate AllFieldsSet(a: ActivityAttrs) {
    a.currentActivity.Some? && a.mostRecentAction.Some?
  }

  /**
   * `validate`: an activity whose two fields are both null is rejected with a
   * non-field error; any other is returned unchanged (an empty string is a value).
   */
  function Validate(attrs: ActivityAttrs): (r: Result<ActivityAttrs, ValidationError>)
    ensures r.Ok? <==> SomeFieldSet(attrs)
    ensures r.Ok? ==> r.value == attrs
    ensures r.Err? ==> r.error == NonField(AllNoneMessage)
  {
    if attrs.currentActivity.None? && attrs.mostRecentAction.None? then
      Err(NonField(AllNoneMessage))
    else
      Ok(attrs)
  }

  /**
   * `ActivityCreateSerializer`: the unique-together validator runs before
   * `validate` and rejects a pair already in `table`, unless one of the two
   * values is null.
   */
  function ValidateForCreate(attrs: ActivityAttrs, table: seq<ActivityAttrs>): (r: Result<ActivityAttrs, ValidationError>)
    ensures r.Ok? <==> SomeFieldSet(attrs) && !(AllFieldsSet(attrs) && attrs in table)
    ensures r.Ok? ==> r.value == attrs
    ensures AllFieldsSet(attrs) && attrs in table ==> r.error == NotUnique(UniqueFields)
  {
    if AllFieldsSet(attrs) && attrs in table then Err(NotUnique(UniqueFields)) else Validate(attrs)
  }

  /** `ActivityCreateSerializerForIncident`: no unique-together validators; only `validate` runs. */
  function ValidateForIncident(attrs: ActivityAttrs, table: seq<ActivityAttrs>): (r: Result<ActivityAttrs, ValidationError>)
    ensures r.Ok? <==> SomeFieldSet(attrs)
    ensures r.Ok? ==> r.value == attrs
  {
    Validate(attrs)
  }

  /** The variant for incidents decides the same way whatever the activity table holds. */
  lemma ForIncidentIgnoresTable(attrs: ActivityAttrs, t1: seq<ActivityAttrs>, t2: seq<ActivityAttrs>)
    ensures ValidateForIncident(attrs, t1) == ValidateForIncident(attrs, t2)
  {
  }

  /** An existing pair passes the variant for incidents and is rejected by the plain create serializer. */
  lemma ExistingActivityOnlyReusable(attrs: ActivityAttrs, table: seq<ActivityAttrs>)
    requires AllFieldsSet(attrs) && attrs in table
    ensures ValidateForIncident(attrs, table) == Ok(attrs)
    ensures ValidateForCreate(attrs, table) == Err(NotUnique(UniqueFields))
  {
  }


  /** Only null is absence: an empty current activity alone is enough. */
  lemma EmptyStringIsAValue()
    ensures Validate(ActivityAttrs(Some(""), None)).Ok?
    ensures Validate(ActivityAttrs(None, None)) == Err(NonField(AllNoneMessage))
  {
  }
}
