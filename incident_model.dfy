/**
 * The `Incident` record of the `incidents` table: its status and service-type
 * choice lists, which of its fields are required or nullable, and the length
 * bounds of its text columns.
 */
module IncidentModel {
  import opened Common

  /** The `STATUS_TYPE_CHOICES` codes. */
  datatype Status = Open | OpenDup | Closed | ClosedDup

  /** The `SERVICE_TYPE_CHOICES` codes. */
  datatype ServiceType =
    | AbandonedVehicle | AlleyLightOut | GarbageCart | Graffiti | PotHole | RodentBaiting
    | SanitationCode | StreetLightsAllOut | StreetLightOneOut | TreeDebris | TreeTrim

  const StatusMaxLength: nat := 15
  const ServiceTypeMaxLength: nat := 30
  const ServiceRequestNumberMaxLength: nat := 20
  const StreetAddressMaxLength: nat := 50
  const ActivityTextMaxLength: nat := 30

  /** The status choice list as declared: (stored code, human-readable label). */
  const StatusChoices: seq<(string, string)> :=
    [("OPEN", "Open"), ("OPEN_DUP", "Open - Dup"), ("CLOSED", "Closed"), ("CLOSED_DUP", "Closed - Dup")]

  /** The service-type choice list as declared: (stored code, human-readable label). */
  const ServiceTypeChoices: seq<(string, string)> := [
    ("ABANDONED_VEHICLE", "Abandoned Vehicle Complaint"),
    ("ALLEY_LIGHT_OUT", "Alley Light Out"),
    ("GARBAGE_CART", "Garbage Cart Black Maintenance/Replacement"),
    ("GRAFFITI", "Graffiti Removal"),
    ("POT_HOLE", "Pothole in Street"),
    ("RODENT_BAITING", "Rodent Baiting/Rat Complaint"),
    ("SANITATION_CODE", "Sanitation Code Violation"),
    ("STREET_LIGHTS_ALL_OUT", "Street Lights - All/Out"),
    ("STREET_LIGHT_ONE_OUT", "Street Light Out"),
    ("TREE_DEBRIS", "Tree Debris"),
    ("TREE_TRIM", "Tree Trim")
  ]

  /** The code stored in the `status` column; it always fits the column. */
  function StatusCode(s: Status): (c: string)
    ensures 0 < |c| <= StatusMaxLength
  {
    match s
    case Open => "OPEN"
    case OpenDup => "OPEN_DUP"
    case Closed => "CLOSED"
    case ClosedDup => "CLOSED_DUP"
  }

  /** The code stored in the `type_of_service_request` column; it always fits the column. */
  function ServiceTypeCode(t: ServiceType): (c: string)
    ensures 0 < |c| <= ServiceTypeMaxLength
  {
    match t
    case AbandonedVehicle => "ABANDONED_VEHICLE"
    case AlleyLightOut => "ALLEY_LIGHT_OUT"
    case GarbageCart => "GARBAGE_CART"
    case Graffiti => "GRAFFITI"
    case PotHole => "POT_HOLE"
    case RodentBaiting => "RODENT_BAITING"
    case SanitationCode => "SANITATION_CODE"
    case StreetLightsAllOut => "STREET_LIGHTS_ALL_OUT"
    case StreetLightOneOut => "STREET_LIGHT_ONE_OUT"
    case TreeDebris => "TREE_DEBRIS"
    case TreeTrim => "TREE_TRIM"
  }

  /** The codes of a choice list, in declaration order. */
  function Codes(choices: seq<(string, string)>): (r: seq<string>)
    ensures |r| == |choices|
    ensures forall i :: 0 <= i < |r| ==> r[i] == choices[i].0
  {
    if |choices| == 0 then [] else [choices[0].0] + Codes(choices[1..])
  }

  /**
   * The value a choice field accepts for `code`: the code must be one of the
   * listed codes exactly (no case folding, no trimming).
   */
  function ParseStatus(code: string): (r: Option<Status>)
    ensures r.Some? ==> StatusCode(r.value) == code
    ensures r.None? ==> forall s: Status :: StatusCode(s) != code
  {
    if code == "OPEN" then Some(Open)
    else if code == "OPEN_DUP" then Some(OpenDup)
    else if code == "CLOSED" then Some(Closed)
    else if code == "CLOSED_DUP" then Some(ClosedDup)
    else None
  }

  function ParseServiceType(code: string): (r: Option<ServiceType>)
    ensures r.Some? ==> ServiceTypeCode(r.value) == code
    ensures r.None? ==> forall t: ServiceType :: ServiceTypeCode(t) != code
  {
    if code == "ABANDONED_VEHICLE" then Some(AbandonedVehicle)
    else if code == "ALLEY_LIGHT_OUT" then Some(AlleyLightOut)
    else if code == "GARBAGE_CART" then Some(GarbageCart)
    else if code == "GRAFFITI" then Some(Graffiti)
    else if code == "POT_HOLE" then Some(PotHole)
    else if code == "RODENT_BAITING" then Some(RodentBaiting)
    else if code == "SANITATION_CODE" then Some(SanitationCode)
    else if code == "STREET_LIGHTS_ALL_OUT" then Some(StreetLightsAllOut)
    else if code == "STREET_LIGHT_ONE_OUT" then Some(StreetLightOneOut)
    else if code == "TREE_DEBRIS" then Some(TreeDebris)
    else if code == "TREE_TRIM" then Some(TreeTrim)
    else None
  }

  const AllStatuses: seq<Status> := [Open, OpenDup, Closed, ClosedDup]

  const AllServiceTypes: seq<ServiceType> := [
    AbandonedVehicle, AlleyLightOut, GarbageCart, Graffiti, PotHole, RodentBaiting,
    SanitationCode, StreetLightsAllOut, StreetLightOneOut, TreeDebris, TreeTrim]

  /** Position of a status in the choice list. */
  function StatusIndex(s: Status): (i: nat)
    ensures i < |AllStatuses| && AllStatuses[i] == s
  {
    match s
    case Open => 0
    case OpenDup => 1
    case Closed => 2
    case ClosedDup => 3
  }

  /** Position of a service type in the choice list. */
  function ServiceTypeIndex(t: ServiceType): (i: nat)
    ensures i < |AllServiceTypes| && AllServiceTypes[i] == t
  {
    match t
    case AbandonedVehicle => 0
    case AlleyLightOut => 1
    case GarbageCart => 2
    case Graffiti => 3
    case PotHole => 4
    case RodentBaiting => 5
    case SanitationCode => 6
    case StreetLightsAllOut => 7
    case StreetLightOneOut => 8
    case TreeDebris => 9
    case TreeTrim => 10
  }

  /** The status choice list pairs each `Status`, in declaration order, with its code. */
  lemma StatusChoicesEnumerate()
    ensures |StatusChoices| == |AllStatuses|
    ensures forall i :: 0 <= i < |StatusChoices| ==> StatusChoices[i].0 == StatusCode(AllStatuses[i])
  {
  }

  /** The service-type choice list pairs each `ServiceType`, in declaration order, with its code. */
  lemma ServiceTypeChoicesEnumerate()
    ensures |ServiceTypeChoices| == |AllServiceTypes| == 11
    ensures forall i :: 0 <= i < |ServiceTypeChoices| ==> ServiceTypeChoices[i].0 == ServiceTypeCode(AllServiceTypes[i])
  {
  }

  /** Codes are distinct: parsing a status code gives back that status. */
  lemma StatusCodeRoundTrip(s: Status)
    ensures ParseStatus(StatusCode(s)) == Some(s)
  {
  }

  lemma ServiceTypeCodeRoundTrip(t: ServiceType)
    ensures ParseServiceType(ServiceTypeCode(t)) == Some(t)
  {
  }

  /** Every status is listed in the status choice list. */
  lemma StatusCodeListed(s: Status)
    ensures StatusCode(s) in Codes(StatusChoices)
  {
    StatusChoicesEnumerate();
    assert Codes(StatusChoices)[StatusIndex(s)] == StatusCode(s);
  }

  /** The status choice field accepts exactly the listed codes. */
  lemma StatusChoiceFieldAcceptsListed(c: string)
    ensures c in Codes(StatusChoices) <==> ParseStatus(c).Some?
  {
    StatusChoicesEnumerate();
    var codes := Codes(StatusChoices);
    if c in codes {
      var i :| 0 <= i < |codes| && codes[i] == c;
      StatusCodeRoundTrip(AllStatuses[i]);
    }
    if ParseStatus(c).Some? {
      StatusCodeListed(ParseStatus(c).value);
    }
  }

  /** The four listed status codes are pairwise distinct. */
  lemma StatusCodesDistinct()
    ensures |StatusChoices| == 4
    ensures forall i, j :: 0 <= i < j < |StatusChoices| ==> StatusChoices[i].0 != StatusChoices[j].0
  {
    StatusChoicesEnumerate();
    forall i, j | 0 <= i < j < |StatusChoices| ensures StatusChoices[i].0 != StatusChoices[j].0 {
      StatusCodeRoundTrip(AllStatuses[i]);
      StatusCodeRoundTrip(AllStatuses[j]);
    }
  }

  /** Every service type is listed in the service-type choice list. */
  lemma ServiceTypeCodeListed(t: ServiceType)
    ensures ServiceTypeCode(t) in Codes(ServiceTypeChoices)
  {
    ServiceTypeChoicesEnumerate();
    var i := ServiceTypeIndex(t);
    var codes := Codes(ServiceTypeChoices);
    assert codes[i] == ServiceTypeChoices[i].0 == ServiceTypeCode(AllServiceTypes[i]);
  }

  /** The service-type choice field accepts exactly the listed codes. */
  lemma ServiceTypeChoiceFieldAcceptsListed(c: string)
    ensures c in Codes(ServiceTypeChoices) <==> ParseServiceType(c).Some?
  {
    if c in Codes(ServiceTypeChoices) {
      var t := ListedServiceType(c);
    }
    if ParseServiceType(c).Some? {
      ServiceTypeCodeListed(ParseServiceType(c).value);
    }
  }

  /** A listed code is the code of some service type. */
  lemma ListedServiceType(c: string) returns (t: ServiceType)
    requires c in Codes(ServiceTypeChoices)
    ensures ServiceTypeCode(t) == c
  {
    ServiceTypeChoicesEnumerate();
    var codes := Codes(ServiceTypeChoices);
    var i :| 0 <= i < |codes| && codes[i] == c;
    t := AllServiceTypes[i];
  }

  /** The 11 listed service-type codes are pairwise distinct. */
  lemma ServiceTypeCodesDistinct()
    ensures |ServiceTypeChoices| == 11
    ensures forall i, j :: 0 <= i < j < |ServiceTypeChoices| ==> ServiceTypeChoices[i].0 != ServiceTypeChoices[j].0
  {
    ServiceTypeChoicesEnumerate();
    forall i, j | 0 <= i < j < |ServiceTypeChoices| ensures ServiceTypeChoices[i].0 != ServiceTypeChoices[j].0 {
      ServiceTypeCodeRoundTrip(AllServiceTypes[i]);
      ServiceTypeCodeRoundTrip(AllServiceTypes[j]);
    }
  }

  /** Each code has exactly one label: equal codes in a choice list carry equal labels. */
  lemma ChoiceLabelsUnique()
    ensures forall i, j :: 0 <= i < |StatusChoices| && 0 <= j < |StatusChoices| && StatusChoices[i].0 == StatusChoices[j].0
              ==> StatusChoices[i].1 == StatusChoices[j].1
    ensures forall i, j :: 0 <= i < |ServiceTypeChoices| && 0 <= j < |ServiceTypeChoices| && ServiceTypeChoices[i].0 == ServiceTypeChoices[j].0
              ==> ServiceTypeChoices[i].1 == ServiceTypeChoices[j].1
  {
    StatusCodesDistinct();
    ServiceTypeCodesDistinct();
  }

  /** A point in time of a `DateTimeField` (UTC); its encoding is not modelled. */
  datatype Instant = Instant(ticks: int)

  /**
   * The geographic columns. All are nullable; the coordinates are decimal
   * columns, modelled as reals.
   */
  datatype Geo = Geo(
    zipCodes: Option<int>, xCoordinate: Option<real>, yCoordinate: Option<real>,
    latitude: Option<real>, longitude: Option<real>, ward: Option<int>, wards: Option<int>,
    historicalWards0315: Option<int>, policeDistrict: Option<int>, communityArea: Option<int>,
    communityAreas: Option<int>, ssa: Option<int>, censusTracts: Option<int>)

  /** One row of the `incidents` table (the JSON `location` column is not modelled). */
  datatype Incident = Incident(
    creationDate: Instant,
    status: Status,
    completionDate: Option<Instant>,
    serviceRequestNumber: string,
    serviceType: ServiceType,
    currentActivity: Option<string>,
    mostRecentAction: Option<string>,
    streetAddress: Option<string>,
    zipCode: Option<int>,
    geo: Geo)

  /**
   * The column constraints of `Incident` that the types above do not already
   * carry: `creation_date`, `status`, `service_request_number` and
   * `type_of_service_request` are non-null by type; the service request
   * number may not be blank; text columns respect their `max_length`.
   */
  predicate IncidentValid(i: Incident) {
    && 0 < |i.serviceRequestNumber| <= ServiceRequestNumberMaxLength
    && (i.streetAddress.Some? ==> |i.streetAddress.value| <= StreetAddressMaxLength)
    && (i.currentActivity.Some? ==> |i.currentActivity.value| <= ActivityTextMaxLength)
    && (i.mostRecentAction.Some? ==> |i.mostRecentAction.value| <= ActivityTextMaxLength)
  }

  /** The natural key of an incident; two incidents sharing it are indistinguishable. */
  datatype NaturalKey = NaturalKey(
    creationDate: Instant, status: Status, completionDate: Option<Instant>,
    serviceRequestNumber: string, serviceType: ServiceType, streetAddress: Option<string>)

  function KeyOf(i: Incident): NaturalKey {
    NaturalKey(i.creationDate, i.status, i.completionDate, i.serviceRequestNumber, i.serviceType, i.streetAddress)
  }

  /** The uniqueness check compares keys only when no key component is null. */
  predicate KeyComplete(i: Incident) {
    i.completionDate.Some? && i.streetAddress.Some?
  }

  /** `__str__`: the service request number, which for a valid incident is never blank and fits its column. */
  function IncidentToString(i: Incident): (s: string)
    ensures IncidentValid(i) ==> 0 < |s| <= ServiceRequestNumberMaxLength
  {
    i.serviceRequestNumber
  }
}
