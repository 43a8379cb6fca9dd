/**
 * `AbandonedVehicleIncidentCreateSerializer.create` and the request that
 * runs it: five get-or-create calls against the incident, vehicle and
 * activity tables and the two join tables, after the payload has been
 * validated against those same tables.
 */
module IncidentStore {
  import opened Common
  import opened IncidentModel
  import opened IncidentSerializer
  import AV = AbandonedVehicleSerializers
  import AS = ActivitySerializers

  /** A join row: the position of a sub-entity row and the position of an incident row. */
  datatype Link = Link(entity: nat, incident: nat)

  /** The tables `create` touches; a row's id is its position. */
  datatype Tables = Tables(
    incidents: seq<Incident>, vehicles: seq<AV.VehicleAttrs>, activities: seq<AS.ActivityAttrs>,
    vehicleIncidents: seq<Link>, activityIncidents: seq<Link>)

  const EmptyTables: Tables := Tables([], [], [], [], [])

  /** Every join row points at existing rows. */
  predicate LinksInRange(links: seq<Link>, entities: nat, incidents: nat) {
    forall l :: l in links ==> l.entity < entities && l.incident < incidents
  }

  /** No two incidents share a natural key whose values are all non-null. */
  ghost predicate KeysUnique(incidents: seq<Incident>) {
    forall i, j :: 0 <= i < j < |incidents| && KeyComplete(incidents[i]) ==> KeyOf(incidents[i]) != KeyOf(incidents[j])
  }

  /**
   * The invariants of the tables: no row occurs twice, join rows point at
   * existing rows, incidents respect their natural key and column
   * constraints, and no vehicle or activity has every field null.
   */
  ghost predicate TablesValid(t: Tables) {
    && NoDuplicates(t.incidents) && NoDuplicates(t.vehicles) && NoDuplicates(t.activities)
    && NoDuplicates(t.vehicleIncidents) && NoDuplicates(t.activityIncidents)
    && LinksInRange(t.vehicleIncidents, |t.vehicles|, |t.incidents|)
    && LinksInRange(t.activityIncidents, |t.activities|, |t.incidents|)
    && KeysUnique(t.incidents)
    && (forall i :: 0 <= i < |t.incidents| ==> IncidentValid(t.incidents[i]))
    && (forall v :: v in t.vehicles ==> AV.SomeFieldSet(v))
    && (forall a :: a in t.activities ==> AS.SomeFieldSet(a))
  }

  /**
   * The filter of `Incident.objects.get_or_create(**incident_data)`: the
   * validated data holds every natural-key column and the optional columns
   * the request sent, so a stored row matches when it agrees on those. The
   * columns the serializer does not know (the activity texts) and the
   * optional columns not sent are not compared.
   */
  predicate MatchesSent(row: Incident, data: Incident, sent: set<Column>) {
    && KeyOf(row) == KeyOf(data)
    && forall c :: c in sent ==> ValueOf(row, c) == ValueOf(data, c)
  }

  function IncidentFilter(p: ValidatedPayload): Incident -> bool {
    row => MatchesSent(row, p.incident, p.sent)
  }

  /**
   * `create`: get-or-create the incident by its validated data, then the
   * vehicle and the activity by all of their values, then the two join
   * rows. Returns the incident's id and the new tables; when the incident
   * lookup matches several rows, `MultipleObjectsReturned` is raised before
   * anything is written.
   */
  function CreateSpec(t: Tables, p: ValidatedPayload): (Result<nat, LookupError>, Tables) {
    match GetOrCreateWhere(t.incidents, IncidentFilter(p), p.incident)
    case Err(e) => (Err(e), t)
    case Ok((incidents, incident)) =>
      var (vehicles, vehicle) := GetOrCreate(t.vehicles, p.vehicle);
      var (activities, activity) := GetOrCreate(t.activities, p.activity);
      var (vehicleIncidents, _) := GetOrCreate(t.vehicleIncidents, Link(vehicle, incident));
      var (activityIncidents, _) := GetOrCreate(t.activityIncidents, Link(activity, incident));
      (Ok(incident), Tables(incidents, vehicles, activities, vehicleIncidents, activityIncidents))
  }

  /** Why a request fails: its payload is invalid (a 400 response), or `create` raised (a 500 response). */
  datatype SubmitError = Invalid(errors: map<string, NestedError>) | ServerError(cause: LookupError)

  /** `create`'s outcome as the outcome of the request. */
  function Respond(created: (Result<nat, LookupError>, Tables)): (Result<nat, SubmitError>, Tables) {
    match created.0
    case Ok(id) => (Ok(id), created.1)
    case Err(e) => (Err(ServerError(e)), created.1)
  }

  /**
   * One request, with the corrected nested activity serializer (see
   * `ValidatePayload`): validation against the current tables, then
   * `create` only if it passed.
   */
  function SubmitSpec(t: Tables, input: PayloadInput, parse: string -> Option<Instant>): (Result<nat, SubmitError>, Tables) {
    match ValidatePayload(input, parse, t.incidents, t.vehicles, t.activities)
    case Err(errors) => (Err(Invalid(errors)), t)
    case Ok(p) => Respond(CreateSpec(t, p))
  }

  /** The same request with the nested activity serializer as written. */
  function SubmitAsWrittenSpec(t: Tables, input: PayloadInput, parse: string -> Option<Instant>): (Result<nat, SubmitError>, Tables) {
    match ValidatePayloadAsWritten(input, parse, t.incidents, t.vehicles, t.activities)
    case Err(errors) => (Err(Invalid(errors)), t)
    case Ok(p) => Respond(CreateSpec(t, p))
  }

  /** `s` is `t` with at most one row appended. */
  ghost predicate GrowsByAtMostOne<T>(s: seq<T>, t: seq<T>) {
    |s| <= |t| <= |s| + 1 && t[..|s|] == s
  }

  /**
   * The incident lookup of `create`, when it succeeds, either leaves the
   * table as it was or appends the payload's incident, which no stored row
   * equals.
   */
  lemma IncidentLookupCases(t: Tables, p: ValidatedPayload)
    requires GetOrCreateWhere(t.incidents, IncidentFilter(p), p.incident).Ok?
    ensures var (incidents, id) := GetOrCreateWhere(t.incidents, IncidentFilter(p), p.incident).value;
            || (incidents == t.incidents && id < |t.incidents| && MatchesSent(t.incidents[id], p.incident, p.sent))
            || (incidents == t.incidents + [p.incident] && id == |t.incidents| && p.incident !in t.incidents)
  {
    var found := MatchingPositions(t.incidents, IncidentFilter(p));
    assert IncidentFilter(p)(p.incident);
    if |found| == 0 {
      forall k | 0 <= k < |t.incidents| ensures t.incidents[k] != p.incident {
        assert k !in found;
      }
    }
  }

  /**
   * A `create` that succeeds returns an incident holding the payload's
   * values in every column it filtered on (in every column, when it was
   * inserted), and join rows tie it to a vehicle row and an activity row
   * holding the payload's vehicle and activity.
   */
  lemma CreateStoresPayload(t: Tables, p: ValidatedPayload)
    requires CreateSpec(t, p).0.Ok?
    ensures var (r, t') := CreateSpec(t, p);
            && r.value < |t'.incidents| && MatchesSent(t'.incidents[r.value], p.incident, p.sent)
            && (r.value == |t.incidents| ==> t'.incidents[r.value] == p.incident)
            && (exists v :: 0 <= v < |t'.vehicles| && t'.vehicles[v] == p.vehicle && Link(v, r.value) in t'.vehicleIncidents)
            && (exists a :: 0 <= a < |t'.activities| && t'.activities[a] == p.activity && Link(a, r.value) in t'.activityIncidents)
  {
    IncidentLookupCases(t, p);
    var (r, t') := CreateSpec(t, p);
    var v := GetOrCreate(t.vehicles, p.vehicle).1;
    var a := GetOrCreate(t.activities, p.activity).1;
    assert t'.vehicles[v] == p.vehicle && Link(v, r.value) in t'.vehicleIncidents;
    assert t'.activities[a] == p.activity && Link(a, r.value) in t'.activityIncidents;
  }

  /**
   * `create` fails exactly when two stored incidents match the payload's
   * incident on the columns it sent, and then it writes nothing.
   */
  lemma CreateFailsOnAmbiguousIncident(t: Tables, p: ValidatedPayload)
    ensures CreateSpec(t, p).0.Err? <==>
              exists i, j :: 0 <= i < j < |t.incidents| && MatchesSent(t.incidents[i], p.incident, p.sent)
                             && MatchesSent(t.incidents[j], p.incident, p.sent)
    ensures CreateSpec(t, p).0.Err? ==> CreateSpec(t, p).1 == t && CreateSpec(t, p).0.error == MultipleObjectsReturned
  {
    var filter := IncidentFilter(p);
    GetOrCreateWhereFails(t.incidents, filter, p.incident);
    if exists i, j :: 0 <= i < j < |t.incidents| && MatchesSent(t.incidents[i], p.incident, p.sent)
                      && MatchesSent(t.incidents[j], p.incident, p.sent) {
      var i, j :| 0 <= i < j < |t.incidents| && MatchesSent(t.incidents[i], p.incident, p.sent)
                  && MatchesSent(t.incidents[j], p.incident, p.sent);
      assert filter(t.incidents[i]) && filter(t.incidents[j]);
    }
    if GetOrCreateWhere(t.incidents, filter, p.incident).Err? {
      var i, j :| 0 <= i < j < |t.incidents| && filter(t.incidents[i]) && filter(t.incidents[j]);
      assert MatchesSent(t.incidents[i], p.incident, p.sent) && MatchesSent(t.incidents[j], p.incident, p.sent);
    }
  }

  /** Tables only grow: every existing row keeps its position and value, and each table gains at most one row. */
  lemma CreateOnlyGrows(t: Tables, p: ValidatedPayload)
    ensures var t' := CreateSpec(t, p).1;
            && GrowsByAtMostOne(t.incidents, t'.incidents) && GrowsByAtMostOne(t.vehicles, t'.vehicles)
            && GrowsByAtMostOne(t.activities, t'.activities)
            && GrowsByAtMostOne(t.vehicleIncidents, t'.vehicleIncidents)
            && GrowsByAtMostOne(t.activityIncidents, t'.activityIncidents)
  {
    if CreateSpec(t, p).0.Ok? {
      IncidentLookupCases(t, p);
    }
  }

  /**
   * When exactly one stored incident matches the payload's incident on the
   * columns it sent, that incident is returned, whatever it holds in the
   * columns not sent, and the incident table is left as it was.
   */
  lemma CreateReturnsExistingIncident(t: Tables, p: ValidatedPayload, j: nat)
    requires j < |t.incidents| && MatchesSent(t.incidents[j], p.incident, p.sent)
    requires forall k :: 0 <= k < |t.incidents| && MatchesSent(t.incidents[k], p.incident, p.sent) ==> k == j
    ensures CreateSpec(t, p).0 == Ok(j)
    ensures CreateSpec(t, p).1.incidents == t.incidents
  {
    GetOrCreateWhereOne(t.incidents, IncidentFilter(p), p.incident, j);
  }

  /** Running a successful `create` again with the same payload changes nothing and returns the same incident. */
  lemma {:induction false} CreateIdempotent(t: Tables, p: ValidatedPayload)
    requires CreateSpec(t, p).0.Ok?
    ensures CreateSpec(CreateSpec(t, p).1, p) == CreateSpec(t, p)
  {
    var (r, t1) := CreateSpec(t, p);
    var id := r.value;
    assert IncidentFilter(p)(p.incident);
    GetOrCreateWhereIdempotent(t.incidents, IncidentFilter(p), p.incident);
    GetOrCreateIdempotent(t.vehicles, p.vehicle);
    GetOrCreateIdempotent(t.activities, p.activity);
    var v := GetOrCreate(t.vehicles, p.vehicle).1;
    var a := GetOrCreate(t.activities, p.activity).1;
    GetOrCreateIdempotent(t.vehicleIncidents, Link(v, id));
    GetOrCreateIdempotent(t.activityIncidents, Link(a, id));
  }

  /** Appending a row keeps the join rows pointing at existing rows. */
  lemma LinksGrow(links: seq<Link>, l: Link, entities: nat, entities': nat, incidents: nat, incidents': nat)
    requires LinksInRange(links, entities, incidents)
    requires entities <= entities' && incidents <= incidents'
    requires l.entity < entities' && l.incident < incidents'
    ensures LinksInRange(GetOrCreate(links, l).0, entities', incidents')
  {
  }

  /** Adding an incident whose key is not taken, or an exact copy of a stored one, keeps keys unique. */
  lemma KeysStayUnique(incidents: seq<Incident>, x: Incident)
    requires KeysUnique(incidents)
    requires !(KeyComplete(x) && KeyTaken(incidents, KeyOf(x)))
    ensures KeysUnique(GetOrCreate(incidents, x).0)
  {
    if x !in incidents {
      var s := incidents + [x];
      forall i, j | 0 <= i < j < |s| && KeyComplete(s[i]) ensures KeyOf(s[i]) != KeyOf(s[j]) {
        if j == |incidents| {
          assert s[i] == incidents[i];
        }
      }
    }
  }

  /**
   * In valid tables the vehicle and activity lookups of `create`, which
   * filter on every column of the row, find at most one row, so they never
   * raise and are `GetOrCreate`.
   */
  lemma SubEntityLookupsNeverRaise(t: Tables, p: ValidatedPayload)
    requires TablesValid(t)
    ensures GetOrCreateWhere(t.vehicles, EqualTo(p.vehicle), p.vehicle) == Ok(GetOrCreate(t.vehicles, p.vehicle))
    ensures GetOrCreateWhere(t.activities, EqualTo(p.activity), p.activity) == Ok(GetOrCreate(t.activities, p.activity))
  {
    GetOrCreateWhereEquality(t.vehicles, p.vehicle);
    GetOrCreateWhereEquality(t.activities, p.activity);
  }

  /** `create` on a validated payload keeps every table invariant, whether it succeeds or fails. */
  lemma CreatePreservesValid(t: Tables, p: ValidatedPayload)
    requires TablesValid(t)
    requires IncidentValid(p.incident) && AV.SomeFieldSet(p.vehicle) && AS.SomeFieldSet(p.activity)
    requires !(KeyComplete(p.incident) && KeyTaken(t.incidents, KeyOf(p.incident)))
    ensures TablesValid(CreateSpec(t, p).1)
  {
    CreateFailsOnAmbiguousIncident(t, p);
    if CreateSpec(t, p).0.Ok? {
      var (r, t') := CreateSpec(t, p);
      var id := r.value;
      IncidentLookupCases(t, p);
      var v := GetOrCreate(t.vehicles, p.vehicle).1;
      var a := GetOrCreate(t.activities, p.activity).1;
      if t'.incidents != t.incidents {
        assert t'.incidents == GetOrCreate(t.incidents, p.incident).0;
        GetOrCreateNoDuplicates(t.incidents, p.incident);
        KeysStayUnique(t.incidents, p.incident);
      }
      GetOrCreateNoDuplicates(t.vehicles, p.vehicle);
      GetOrCreateNoDuplicates(t.activities, p.activity);
      GetOrCreateNoDuplicates(t.vehicleIncidents, Link(v, id));
      GetOrCreateNoDuplicates(t.activityIncidents, Link(a, id));
      LinksGrow(t.vehicleIncidents, Link(v, id), |t.vehicles|, |t'.vehicles|, |t.incidents|, |t'.incidents|);
      LinksGrow(t.activityIncidents, Link(a, id), |t.activities|, |t'.activities|, |t.incidents|, |t'.incidents|);
      assert forall x :: x in t'.vehicles ==> x in t.vehicles || x == p.vehicle;
      assert forall x :: x in t'.activities ==> x in t.activities || x == p.activity;
    }
  }

  /** In valid tables a join row occurs at most once, however many requests ran. */
  lemma JoinRowsAtMostOnce(t: Tables, l: Link)
    requires TablesValid(t)
    ensures Count(t.vehicleIncidents, l) <= 1 && Count(t.activityIncidents, l) <= 1
  {
    CountNoDuplicates(t.vehicleIncidents, l);
    CountNoDuplicates(t.activityIncidents, l);
  }

  /** A request keeps every table invariant, whether it is accepted or rejected. */
  lemma SubmitPreservesValid(t: Tables, input: PayloadInput, parse: string -> Option<Instant>)
    requires TablesValid(t)
    ensures TablesValid(SubmitSpec(t, input, parse).1)
  {
    var v := ValidatePayload(input, parse, t.incidents, t.vehicles, t.activities);
    if v.Ok? {
      CreatePreservesValid(t, v.value);
      assert SubmitSpec(t, input, parse).1 == CreateSpec(t, v.value).1;
    }
  }

  /** A failed request, invalid or raising in `create`, writes nothing. */
  lemma RejectedSubmitWritesNothing(t: Tables, input: PayloadInput, parse: string -> Option<Instant>)
    ensures SubmitSpec(t, input, parse).0.Err? ==> SubmitSpec(t, input, parse).1 == t
  {
    var v := ValidatePayload(input, parse, t.incidents, t.vehicles, t.activities);
    if v.Ok? {
      CreateFailsOnAmbiguousIncident(t, v.value);
    }
  }

  /** The incident a payload's `incident` object validates to, whatever the tables hold. */
  function ParsedIncident(input: PayloadInput, parse: string -> Option<Instant>): Result<Incident, map<string, ValidationError>>
    requires input.incident.Given?
  {
    IncidentFields(input.incident.value, parse)
  }

  /**
   * Submitting an identical payload twice: the second request is rejected
   * by the incident's unique-together validator and writes nothing (when
   * none of the key's values is null).
   */
  lemma SubmitTwiceRejected(t: Tables, input: PayloadInput, parse: string -> Option<Instant>)
    requires SubmitSpec(t, input, parse).0.Ok?
    requires KeyComplete(ParsedIncident(input, parse).value)
    ensures var t1 := SubmitSpec(t, input, parse).1;
            && SubmitSpec(t1, input, parse).0.Err? && SubmitSpec(t1, input, parse).0.error.Invalid?
            && SubmitSpec(t1, input, parse).1 == t1
            && ValidateIncident(input.incident.value, parse, t1.incidents) == Err(map[NonFieldErrorsKey := NotUnique(IncidentUniqueFields)])
  {
    var p := ValidatePayload(input, parse, t.incidents, t.vehicles, t.activities).value;
    var x := ParsedIncident(input, parse).value;
    ValidatePayloadAccepts(input, parse, t.incidents, t.vehicles, t.activities);
    assert p.incident == x;
    var (r, t1) := CreateSpec(t, p);
    assert SubmitSpec(t, input, parse).1 == t1;
    CreateStoresPayload(t, p);
    assert KeyOf(t1.incidents[r.value]) == KeyOf(x);
    TakenKeyRejected(t1, input, parse);
  }

  /**
   * A request whose incident's complete natural key is already taken is
   * rejected with the unique-together error under `incident`, and nothing
   * is written.
   */
  lemma TakenKeyRejected(t: Tables, input: PayloadInput, parse: string -> Option<Instant>)
    requires input.incident.Given? && ParsedIncident(input, parse).Ok?
    requires KeyComplete(ParsedIncident(input, parse).value)
    requires KeyTaken(t.incidents, KeyOf(ParsedIncident(input, parse).value))
    ensures SubmitSpec(t, input, parse).1 == t
    ensures SubmitSpec(t, input, parse).0.Err? && SubmitSpec(t, input, parse).0.error.Invalid?
    ensures IncidentKey in SubmitSpec(t, input, parse).0.error.errors
    ensures SubmitSpec(t, input, parse).0.error.errors[IncidentKey] == Nested(map[NonFieldErrorsKey := NotUnique(IncidentUniqueFields)])
  {
    var v := ValidateIncident(input.incident.value, parse, t.incidents);
    assert v == Err(map[NonFieldErrorsKey := NotUnique(IncidentUniqueFields)]);
    var incident := IncidentPart(input, parse, t.incidents);
    assert incident == NestedField(Given(v));
    IncidentErrorReported(incident, ActivityPart(input, t.activities, false), VehiclePart(input, t.vehicles));
  }

  /** `create` takes no natural key other than its incident's. */
  lemma CreateTakesOnlyItsKey(t: Tables, p: ValidatedPayload, k: NaturalKey)
    requires !KeyTaken(t.incidents, k) && k != KeyOf(p.incident)
    ensures !KeyTaken(CreateSpec(t, p).1.incidents, k)
  {
    var s := CreateSpec(t, p).1.incidents;
    if CreateSpec(t, p).0.Ok? {
      IncidentLookupCases(t, p);
    }
    forall j | 0 <= j < |s| ensures KeyOf(s[j]) != k {
      if j < |t.incidents| {
        assert s[j] == t.incidents[j];
      }
    }
  }

  /**
   * With the corrected validation, a payload whose incident is valid and
   * whose key is free is accepted, when the same sub-entities were
   * accepted before; its vehicle and activity are validated alike.
   */
  lemma ReusedSubEntitiesAccepted(t: Tables, in1: PayloadInput, in2: PayloadInput, parse: string -> Option<Instant>, t1: Tables)
    requires ValidatePayload(in1, parse, t.incidents, t.vehicles, t.activities).Ok?
    requires in2.activity == in1.activity && in2.abandonedVehicle == in1.abandonedVehicle
    requires in2.incident.Given? && ParsedIncident(in2, parse).Ok?
    requires !KeyTaken(t1.incidents, KeyOf(ParsedIncident(in2, parse).value))
    ensures ValidatePayload(in2, parse, t1.incidents, t1.vehicles, t1.activities).Ok?
    ensures ValidatePayload(in2, parse, t1.incidents, t1.vehicles, t1.activities).value.vehicle
            == ValidatePayload(in1, parse, t.incidents, t.vehicles, t.activities).value.vehicle
    ensures ValidatePayload(in2, parse, t1.incidents, t1.vehicles, t1.activities).value.activity
            == ValidatePayload(in1, parse, t.incidents, t.vehicles, t.activities).value.activity
  {
    ValidatePayloadAccepts(in1, parse, t.incidents, t.vehicles, t.activities);
    ValidatePayloadAccepts(in2, parse, t1.incidents, t1.vehicles, t1.activities);
  }

  /** After a successful `create`, an incident that matches no stored row and has another key still matches none. */
  lemma NoMatchAfterCreate(t: Tables, p: ValidatedPayload, x: Incident, sent: set<Column>)
    requires CreateSpec(t, p).0.Ok?
    requires forall k :: 0 <= k < |t.incidents| ==> !MatchesSent(t.incidents[k], x, sent)
    requires KeyOf(x) != KeyOf(p.incident)
    ensures var s := CreateSpec(t, p).1.incidents;
            forall k :: 0 <= k < |s| ==> !MatchesSent(s[k], x, sent)
  {
    IncidentLookupCases(t, p);
    var s := CreateSpec(t, p).1.incidents;
    forall k | 0 <= k < |s| ensures !MatchesSent(s[k], x, sent) {
      if k < |t.incidents| {
        assert s[k] == t.incidents[k];
      }
    }
  }

  /**
   * `create` into valid tables, of a payload no stored row matches, keeps
   * the tables valid and leaves its vehicle and activity stored once each.
   */
  lemma UnmatchedCreateStoresOnce(t: Tables, p: ValidatedPayload)
    requires TablesValid(t)
    requires IncidentValid(p.incident) && AV.SomeFieldSet(p.vehicle) && AS.SomeFieldSet(p.activity)
    requires !(KeyComplete(p.incident) && KeyTaken(t.incidents, KeyOf(p.incident)))
    requires forall k :: 0 <= k < |t.incidents| ==> !MatchesSent(t.incidents[k], p.incident, p.sent)
    ensures CreateSpec(t, p).0.Ok?
    ensures Count(CreateSpec(t, p).1.vehicles, p.vehicle) == 1 && Count(CreateSpec(t, p).1.activities, p.activity) == 1
  {
    GetOrCreateWhereNone(t.incidents, IncidentFilter(p), p.incident);
    CreatePreservesValid(t, p);
    CreateStoresPayload(t, p);
    var t' := CreateSpec(t, p).1;
    assert p.vehicle in t'.vehicles && p.activity in t'.activities;
    CountNoDuplicates(t'.vehicles, p.vehicle);
    CountNoDuplicates(t'.activities, p.activity);
  }

  /**
   * With the corrected validation, two accepted requests with the same
   * vehicle and activity but another incident (one no stored row matches)
   * leave exactly one row for that vehicle and one for that activity.
   */
  lemma SameVehicleAndActivityStoredOnce(t: Tables, in1: PayloadInput, in2: PayloadInput, parse: string -> Option<Instant>)
    requires TablesValid(t)
    requires SubmitSpec(t, in1, parse).0.Ok?
    requires in2.activity == in1.activity && in2.abandonedVehicle == in1.abandonedVehicle
    requires in2.incident.Given? && ParsedIncident(in2, parse).Ok?
    requires KeyOf(ParsedIncident(in2, parse).value) != KeyOf(ParsedIncident(in1, parse).value)
    requires !KeyTaken(t.incidents, KeyOf(ParsedIncident(in2, parse).value))
    requires forall k :: 0 <= k < |t.incidents| ==> !MatchesSent(t.incidents[k], ParsedIncident(in2, parse).value, SentColumns(in2.incident))
    ensures var t1 := SubmitSpec(t, in1, parse).1;
            var t2 := SubmitSpec(t1, in2, parse).1;
            && SubmitSpec(t1, in2, parse).0.Ok?
            && Count(t2.vehicles, VehicleFields(in1.abandonedVehicle.value).value) == 1
            && Count(t2.activities, ActivityFields(in1.activity.value).value) == 1
  {
    var p1 := ValidatePayload(in1, parse, t.incidents, t.vehicles, t.activities).value;
    ValidatePayloadAccepts(in1, parse, t.incidents, t.vehicles, t.activities);
    var t1 := SubmitSpec(t, in1, parse).1;
    assert t1 == CreateSpec(t, p1).1;
    SubmitPreservesValid(t, in1, parse);
    CreateTakesOnlyItsKey(t, p1, KeyOf(ParsedIncident(in2, parse).value));
    ReusedSubEntitiesAccepted(t, in1, in2, parse, t1);
    var p2 := ValidatePayload(in2, parse, t1.incidents, t1.vehicles, t1.activities).value;
    ValidatePayloadAccepts(in2, parse, t1.incidents, t1.vehicles, t1.activities);
    NoMatchAfterCreate(t, p1, p2.incident, p2.sent);
    UnmatchedCreateStoresOnce(t1, p2);
    assert SubmitSpec(t1, in2, parse) == Respond(CreateSpec(t1, p2));
  }

  /**
   * As written, the second of those requests is rejected: the nested
   * activity serializer keeps its unique-together validator, and the
   * activity pair stored by the first request is found.
   */
  lemma AsWrittenRejectsReusedActivity(t: Tables, in1: PayloadInput, in2: PayloadInput, parse: string -> Option<Instant>)
    requires SubmitAsWrittenSpec(t, in1, parse).0.Ok?
    requires in2.activity == in1.activity
    requires AS.AllFieldsSet(ActivityFields(in1.activity.value).value)
    ensures var t1 := SubmitAsWrittenSpec(t, in1, parse).1;
            && SubmitAsWrittenSpec(t1, in2, parse).0.Err?
            && ValidateActivity(in2.activity.value, t1.activities, true)
               == Err(map[NonFieldErrorsKey := NotUnique(AS.UniqueFields)])
  {
    var p1 := ValidatePayloadAsWritten(in1, parse, t.incidents, t.vehicles, t.activities).value;
    var a := ActivityFields(in1.activity.value).value;
    assert p1.activity == a;
    var t1 := CreateSpec(t, p1).1;
    assert SubmitAsWrittenSpec(t, in1, parse).1 == t1;
    CreateStoresPayload(t, p1);
    assert a in t1.activities;
    StoredActivityRejectedAsWritten(t1, in2, parse);
  }

  /** As written, a request whose activity pair is complete and already stored is rejected. */
  lemma StoredActivityRejectedAsWritten(t: Tables, input: PayloadInput, parse: string -> Option<Instant>)
    requires input.activity.Given? && ActivityFields(input.activity.value).Ok?
    requires AS.AllFieldsSet(ActivityFields(input.activity.value).value)
    requires ActivityFields(input.activity.value).value in t.activities
    ensures SubmitAsWrittenSpec(t, input, parse).0.Err? && SubmitAsWrittenSpec(t, input, parse).1 == t
    ensures ValidateActivity(input.activity.value, t.activities, true) == Err(map[NonFieldErrorsKey := NotUnique(AS.UniqueFields)])
  {
    var v := ValidateActivity(input.activity.value, t.activities, true);
    assert v.Err?;
    assert ActivityPart(input, t.activities, true) == NestedField(Given(v));
  }

  /** Whenever the request as written is accepted, the corrected one is accepted with the same effect. */
  lemma AsWrittenAgreesWhenAccepted(t: Tables, input: PayloadInput, parse: string -> Option<Instant>)
    requires SubmitAsWrittenSpec(t, input, parse).0.Ok?
    ensures SubmitSpec(t, input, parse) == SubmitAsWrittenSpec(t, input, parse)
  {
  }

  /**
   * A nested incident with a status or service type outside the choice
   * lists, a null service request number or an unreadable creation date is
   * rejected, and nothing is written.
   */
  lemma MalformedIncidentRejected(t: Tables, input: PayloadInput, parse: string -> Option<Instant>)
    requires input.incident.Given?
    requires var i := input.incident.value;
             || (i.status.Given? && i.status.value !in Codes(StatusChoices))
             || (i.serviceType.Given? && i.serviceType.value !in Codes(ServiceTypeChoices))
             || i.serviceRequestNumber == Null
             || (i.creationDate.Given? && parse(i.creationDate.value).None?)
    ensures SubmitSpec(t, input, parse).0.Err? && SubmitSpec(t, input, parse).0.error.Invalid?
    ensures SubmitSpec(t, input, parse).1 == t
    ensures IncidentPart(input, parse, t.incidents).Err?
  {
    var i := input.incident.value;
    MalformedIncidentFields(i, parse);
    assert ValidateIncident(i, parse, t.incidents).Err?;
    IncidentPartMeaning(input, parse, t.incidents);
  }

  /** Each of those defects alone makes the nested incident's fields invalid. */
  lemma MalformedIncidentFields(i: IncidentInput, parse: string -> Option<Instant>)
    requires || (i.status.Given? && i.status.value !in Codes(StatusChoices))
             || (i.serviceType.Given? && i.serviceType.value !in Codes(ServiceTypeChoices))
             || i.serviceRequestNumber == Null
             || (i.creationDate.Given? && parse(i.creationDate.value).None?)
    ensures IncidentFields(i, parse).Err?
  {
    if i.status.Given? && i.status.value !in Codes(StatusChoices) {
      assert StatusField(i.status).Err?;
    } else if i.serviceType.Given? && i.serviceType.value !in Codes(ServiceTypeChoices) {
      assert ServiceTypeField(i.serviceType).Err?;
    } else if i.serviceRequestNumber == Null {
      assert RequiredText(i.serviceRequestNumber, ServiceRequestNumberMaxLength).Err?;
    } else {
      assert RequiredDateTime(i.creationDate, parse).Err?;
    }
  }

  /** A nested vehicle or activity with every field null is rejected, and nothing is written. */
  lemma AllNullSubEntityRejected(t: Tables, input: PayloadInput, parse: string -> Option<Instant>)
    requires || input.activity == Given(ActivityInput(Null, Null))
             || input.abandonedVehicle == Given(VehicleInput(Null, Null, Null))
    ensures SubmitSpec(t, input, parse).0.Err? && SubmitSpec(t, input, parse).0.error.Invalid?
    ensures SubmitSpec(t, input, parse).1 == t
  {
  }

  /** A payload without its activity or its vehicle is rejected: both nested keys are required. */
  lemma MissingSubEntityRejected(t: Tables, input: PayloadInput, parse: string -> Option<Instant>)
    requires input.activity == Absent || input.abandonedVehicle == Absent
    ensures SubmitSpec(t, input, parse).0.Err? && SubmitSpec(t, input, parse).0.error.Invalid?
    ensures SubmitSpec(t, input, parse).1 == t
    ensures input.activity == Absent ==> ActivityPart(input, t.activities, false) == Err(FieldError(Required))
  {
  }

  /** The codes of the malformed requests are indeed outside the choice lists. */
  lemma MalformedCodesNotListed()
    ensures "asdf" !in Codes(StatusChoices)
    ensures "unknown type" !in Codes(ServiceTypeChoices) && "TREE_TRIMS" !in Codes(ServiceTypeChoices)
  {
    StatusChoiceFieldAcceptsListed("asdf");
    ServiceTypeChoiceFieldAcceptsListed("unknown type");
    ServiceTypeChoiceFieldAcceptsListed("TREE_TRIMS");
  }

  /** The database: one field per table, each grown in place by get-or-create. */
  class Store {
    var incidents: seq<Incident>
    var vehicles: seq<AV.VehicleAttrs>
    var activities: seq<AS.ActivityAttrs>
    var vehicleIncidents: seq<Link>
    var activityIncidents: seq<Link>

    function Contents(): Tables
      reads this
    {
      Tables(incidents, vehicles, activities, vehicleIncidents, activityIncidents)
    }

    ghost predicate Valid()
      reads this
    {
      TablesValid(Contents())
    }

    constructor ()
      ensures Contents() == EmptyTables && Valid()
    {
      incidents := [];
      vehicles := [];
      activities := [];
      vehicleIncidents := [];
      activityIncidents := [];
    }

    /**
     * `Incident.objects.get_or_create(**incident_data)`: the id of the one
     * row matching the validated data, inserting it if none does;
     * `MultipleObjectsReturned` if several do.
     */
    method GetOrCreateIncident(p: ValidatedPayload) returns (r: Result<nat, LookupError>)
      modifies this
      ensures r.Ok? ==> GetOrCreateWhere(old(incidents), IncidentFilter(p), p.incident) == Ok((incidents, r.value))
      ensures r.Err? ==> GetOrCreateWhere(old(incidents), IncidentFilter(p), p.incident) == Err(r.error)
      ensures r.Err? ==> incidents == old(incidents)
      ensures vehicles == old(vehicles) && activities == old(activities)
      ensures vehicleIncidents == old(vehicleIncidents) && activityIncidents == old(activityIncidents)
    {
      var found := FindAll(incidents, IncidentFilter(p));
      if |found| == 0 {
        r := Ok(|incidents|);
        incidents := incidents + [p.incident];
      } else if |found| == 1 {
        r := Ok(found[0]);
      } else {
        r := Err(MultipleObjectsReturned);
      }
    }

    method GetOrCreateVehicle(data: AV.VehicleAttrs) returns (id: nat)
      modifies this
      ensures (vehicles, id) == GetOrCreate(old(vehicles), data)
      ensures incidents == old(incidents) && activities == old(activities)
      ensures vehicleIncidents == old(vehicleIncidents) && activityIncidents == old(activityIncidents)
    {
      var found := Find(vehicles, data);
      if found.Some? {
        id := found.value;
      } else {
        id := |vehicles|;
        vehicles := vehicles + [data];
      }
    }

    method GetOrCreateActivity(data: AS.ActivityAttrs) returns (id: nat)
      modifies this
      ensures (activities, id) == GetOrCreate(old(activities), data)
      ensures incidents == old(incidents) && vehicles == old(vehicles)
      ensures vehicleIncidents == old(vehicleIncidents) && activityIncidents == old(activityIncidents)
    {
      var found := Find(activities, data);
      if found.Some? {
        id := found.value;
      } else {
        id := |activities|;
        activities := activities + [data];
      }
    }

    /** `AbandonedVehicleIncident.objects.get_or_create(abandoned_vehicle=..., incident=...)`. */
    method GetOrCreateVehicleIncident(link: Link)
      modifies this
      ensures vehicleIncidents == GetOrCreate(old(vehicleIncidents), link).0
      ensures incidents == old(incidents) && vehicles == old(vehicles) && activities == old(activities)
      ensures activityIncidents == old(activityIncidents)
    {
      var found := Find(vehicleIncidents, link);
      if found.None? {
        vehicleIncidents := vehicleIncidents + [link];
      }
    }

    /** `ActivityIncident.objects.get_or_create(activity=..., incident=...)`. */
    method GetOrCreateActivityIncident(link: Link)
      modifies this
      ensures activityIncidents == GetOrCreate(old(activityIncidents), link).0
      ensures incidents == old(incidents) && vehicles == old(vehicles) && activities == old(activities)
      ensures vehicleIncidents == old(vehicleIncidents)
    {
      var found := Find(activityIncidents, link);
      if found.None? {
        activityIncidents := activityIncidents + [link];
      }
    }

    /** `create`: the five get-or-create calls in order; returns the incident's id, or the error the first one raised. */
    method Create(p: ValidatedPayload) returns (r: Result<nat, LookupError>)
      modifies this
      ensures (r, Contents()) == CreateSpec(old(Contents()), p)
    {
      r := GetOrCreateIncident(p);
      if r.Err? {
        return;
      }
      var id := r.value;
      var vehicle := GetOrCreateVehicle(p.vehicle);
      var activity := GetOrCreateActivity(p.activity);
      GetOrCreateVehicleIncident(Link(vehicle, id));
      GetOrCreateActivityIncident(Link(activity, id));
    }

    /**
     * One request to the abandoned-vehicle incident endpoint, with the
     * corrected nested activity serializer: validation against the current
     * tables, then `create` if it passed. The tables' invariants hold
     * afterwards, and a failed request writes nothing.
     */
    method Submit(input: PayloadInput, parse: string -> Option<Instant>) returns (r: Result<nat, SubmitError>)
      requires Valid()
      modifies this
      ensures (r, Contents()) == SubmitSpec(old(Contents()), input, parse)
      ensures Valid()
      ensures r.Err? ==> Contents() == old(Contents())
    {
      SubmitPreservesValid(Contents(), input, parse);
      RejectedSubmitWritesNothing(Contents(), input, parse);
      var validated := ValidatePayload(input, parse, incidents, vehicles, activities);
      if validated.Err? {
        return Err(Invalid(validated.error));
      }
      var created := Create(validated.value);
      if created.Err? {
        return Err(ServerError(created.error));
      }
      return Ok(created.value);
    }
  }
}
