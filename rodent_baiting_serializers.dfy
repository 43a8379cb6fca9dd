/**
 * The rodent-baiting premises serializer: the "not every count is null"
 * check of `validate`. The premises row has no natural key, so the variant
 * for incidents, which drops unique-together validators, decides alike.
 */
module RodentBaitingSerializers {
  import opened Common

  /** The three premises counts; each may be null. */
  datatype PremisesAttrs = PremisesAttrs(baited: Option<int>, withGarbage: Option<int>, withRats: Option<int>)

  const AllNoneMessage: string := "Rodent baiting premises fields are all None"

  /** The row invariant of a premises record: at least one count is not null. */
  predicate SomeCountSet(a: PremisesAttrs) {
    a.baited.Some? || a.withGarbage.Some? || a.withRats.Some?
  }

  /**
   * `validate`: all three counts null is rejected; any other record is
   * returned unchanged. The test is "is null", so a count of 0 is a value.
   */
  function Validate(attrs: PremisesAttrs): (r: Result<PremisesAttrs, ValidationError>)
    ensures r.Ok? <==> SomeCountSet(attrs)
    ensures r.Ok? ==> r.value == attrs
    ensures r.Err? ==> r.error == NonField(AllNoneMessage)
  {
    if attrs.baited.None? && attrs.withGarbage.None? && attrs.withRats.None? then
      Err(NonField(AllNoneMessage))
    else
      Ok(attrs)
  }

  /** `RodentBaitingPremisesSerializerForIncident`: the same `validate` with no unique-together validators. */
  function ValidateForIncident(attrs: PremisesAttrs): (r: Result<PremisesAttrs, ValidationError>)
    ensures r.Ok? <==> SomeCountSet(attrs)
    ensures r.Ok? ==> r.value == attrs
  {
    Validate(attrs)
  }

  /** Only null is absence: a baited count of 0 alone is enough. */
  lemma ZeroIsAValue()
    ensures Validate(PremisesAttrs(Some(0), None, None)).Ok?
    ensures Validate(PremisesAttrs(None, None, None)) == Err(NonField(AllNoneMessage))
  {
  }
}
