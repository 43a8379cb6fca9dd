/**
 * The frontend's analytics query service: each method turns its form
 * inputs into the query string of one GET request, appending parameters
 * one by one. Dates go through `_prepareDate`, which keeps the calendar
 * part of the ISO text; coordinates and counts go through `parseFloat` /
 * `parseInt` and back to text.
 *
 * The request is returned instead of being sent. `new Date(v)` of an
 * unreadable value is an Invalid Date, whose `toISOString()` throws a
 * RangeError; that is the `Err` of the result.
 */
module QueriesService {
  import opened Common
  import opened JsValues
  import QP = QueryParams
  import IncidentModel

  /** The analytics endpoints the service calls. */
  datatype Endpoint =
    | TotalRequestsPerTypeEndpoint | TotalRequestsPerDayEndpoint | MostCommonServicePerZipcodeEndpoint
    | AverageCompletionTimeEndpoint | BoundingBoxEndpoint | Top5SSAEndpoint | LicensePlatesEndpoint
    | SecondMostCommonColorEndpoint | RodentBaitingEndpoint

  /** Each endpoint's path below the API root. */
  function Path(e: Endpoint): string {
    match e
    case TotalRequestsPerTypeEndpoint => "queries/totalRequestsPerType/"
    case TotalRequestsPerDayEndpoint => "queries/totalRequestsPerDay/"
    case MostCommonServicePerZipcodeEndpoint => "queries/mostCommonServicePerZipcode/"
    case AverageCompletionTimeEndpoint => "queries/averageCompletionTimePerRequest/"
    case BoundingBoxEndpoint => "queries/mostCommonServiceInBoundingBox/"
    case Top5SSAEndpoint => "queries/top5SSA/"
    case LicensePlatesEndpoint => "queries/licensePlates/"
    case SecondMostCommonColorEndpoint => "queries/secondMostCommonColor/"
    case RodentBaitingEndpoint => "queries/rodentBaiting/"
  }

  /** A GET request: the endpoint and its query string, in append order. */
  datatype Request = Request(endpoint: Endpoint, params: QP.QueryString)

  /** `s.split('T')[0]`: the text before the first `T`, or all of `s` when it has none. */
  function BeforeT(s: string): (r: string)
    ensures 'T' !in r
    ensures r <= s
    ensures |r| < |s| ==> s[|r|] == 'T'
  {
    if |s| == 0 || s[0] == 'T' then "" else [s[0]] + BeforeT(s[1..])
  }

  /** `_prepareDate`: `null` for a falsy input, otherwise the date part of `new Date(v).toISOString()`. */
  function PrepareDate(v: JsValue, host: Builtins): (r: Result<JsValue, JsError>)
    ensures r.Err? <==> Truthy(v) && host.toIsoString(v).None?
    ensures r.Err? ==> r.error == RangeError
    ensures r.Ok? ==> (r.value == Null <==> !Truthy(v))
    ensures r.Ok? && Truthy(v) ==> r.value.Str? && r.value.s <= host.toIsoString(v).value && 'T' !in r.value.s
  {
    if !Truthy(v) then Ok(Null)
    else match host.toIsoString(v)
      case None => Err(RangeError)
      case Some(iso) => Ok(Str(BeforeT(iso)))
  }

  /** A date input that `new Date(v)` cannot turn into a date. */
  predicate DateThrows(v: JsValue, host: Builtins) {
    Truthy(v) && host.toIsoString(v).None?
  }

  /** `if (value) params.append(key, value)`: the entry a prepared optional value contributes. */
  function Optional(key: string, value: JsValue, host: Builtins): QP.QueryString {
    if Truthy(value) then [(key, ToJsString(value, host))] else []
  }

  /** The query string of the date-range endpoints: `start_date`, then `end_date`, each only when set. */
  function DateRangeQuery(startData: JsValue, endData: JsValue, host: Builtins): QP.QueryString {
    Optional(QP.StartDateKey, startData, host) + Optional(QP.EndDateKey, endData, host)
  }

  /** The body shared by the four date-range methods; they differ only in the endpoint. */
  method DateRangeRequest(endpoint: Endpoint, startDate: JsValue, endDate: JsValue, host: Builtins)
    returns (r: Result<Request, JsError>)
    ensures r.Err? <==> DateThrows(startDate, host) || DateThrows(endDate, host)
    ensures r.Err? ==> r.error == RangeError
    ensures r.Ok? ==> r.value == Request(endpoint, DateRangeQuery(PrepareDate(startDate, host).value,
                                                             PrepareDate(endDate, host).value, host))
  {
    var startDateData :- PrepareDate(startDate, host);
    var endDateData :- PrepareDate(endDate, host);
    var params: QP.QueryString := [];
    if Truthy(startDateData) {
      params := params + [(QP.StartDateKey, ToJsString(startDateData, host))];
    }
    if Truthy(endDateData) {
      params := params + [(QP.EndDateKey, ToJsString(endDateData, host))];
    }
    return Ok(Request(endpoint, params));
  }

  method TotalRequestsPerType(startDate: JsValue, endDate: JsValue, host: Builtins) returns (r: Result<Request, JsError>)
    ensures r.Err? <==> DateThrows(startDate, host) || DateThrows(endDate, host)
    ensures r.Ok? ==> r.value == Request(TotalRequestsPerTypeEndpoint,
                                         DateRangeQuery(PrepareDate(startDate, host).value, PrepareDate(endDate, host).value, host))
  {
    r := DateRangeRequest(TotalRequestsPerTypeEndpoint, startDate, endDate, host);
  }

  method AverageCompletionTimePerRequest(startDate: JsValue, endDate: JsValue, host: Builtins) returns (r: Result<Request, JsError>)
    ensures r.Err? <==> DateThrows(startDate, host) || DateThrows(endDate, host)
    ensures r.Ok? ==> r.value == Request(AverageCompletionTimeEndpoint,
                                         DateRangeQuery(PrepareDate(startDate, host).value, PrepareDate(endDate, host).value, host))
  {
    r := DateRangeRequest(AverageCompletionTimeEndpoint, startDate, endDate, host);
  }

  method Top5SSA(startDate: JsValue, endDate: JsValue, host: Builtins) returns (r: Result<Request, JsError>)
    ensures r.Err? <==> DateThrows(startDate, host) || DateThrows(endDate, host)
    ensures r.Ok? ==> r.value == Request(Top5SSAEndpoint,
                                         DateRangeQuery(PrepareDate(startDate, host).value, PrepareDate(endDate, host).value, host))
  {
    r := DateRangeRequest(Top5SSAEndpoint, startDate, endDate, host);
  }

  /** `totalRequestsPerDay`: the date range, then `type_of_service_request`, appended even when it is not set. */
  method TotalRequestsPerDay(startDate: JsValue, endDate: JsValue, typeOfServiceRequest: JsValue, host: Builtins)
    returns (r: Result<Request, JsError>)
    ensures r.Err? <==> DateThrows(startDate, host) || DateThrows(endDate, host)
    ensures r.Ok? ==> r.value == Request(TotalRequestsPerDayEndpoint,
                                         DateRangeQuery(PrepareDate(startDate, host).value, PrepareDate(endDate, host).value, host)
                                         + [(QP.ServiceTypeKey, ToJsString(typeOfServiceRequest, host))])
  {
    var range :- DateRangeRequest(TotalRequestsPerDayEndpoint, startDate, endDate, host);
    var params := range.params + [(QP.ServiceTypeKey, ToJsString(typeOfServiceRequest, host))];
    return Ok(Request(range.endpoint, params));
  }

  /** `mostCommonServicePerZipcode`: at most one parameter, `date`. */
  method MostCommonServicePerZipcode(date: JsValue, host: Builtins) returns (r: Result<Request, JsError>)
    ensures r.Err? <==> DateThrows(date, host)
    ensures r.Ok? ==> r.value == Request(MostCommonServicePerZipcodeEndpoint,
                                         Optional(QP.DateKey, PrepareDate(date, host).value, host))
  {
    var dateData :- PrepareDate(date, host);
    var params: QP.QueryString := [];
    if Truthy(dateData) {
      params := params + [(QP.DateKey, ToJsString(dateData, host))];
    }
    return Ok(Request(MostCommonServicePerZipcodeEndpoint, params));
  }

  /** The corner names of the bounding box, in the order they are appended. */
  const CornerKeys: seq<string> := ["a_latitude", "a_longitude", "b_latitude", "b_longitude"]

  /** `parseFloat(v).toString()`. */
  function FloatText(v: JsValue, host: Builtins): string {
    ToJsString(ParseFloat(v, host), host)
  }

  /**
   * `mostCommonServiceInBoundingBox`: the optional `date`, then the four
   * corner coordinates, always, each re-printed through `parseFloat`.
   */
  method MostCommonServiceInBoundingBox(date: JsValue, aLatitude: JsValue, aLongitude: JsValue,
                                        bLatitude: JsValue, bLongitude: JsValue, host: Builtins)
    returns (r: Result<Request, JsError>)
    ensures r.Err? <==> DateThrows(date, host)
    ensures r.Ok? ==> r.value == Request(BoundingBoxEndpoint,
                                         Optional(QP.DateKey, PrepareDate(date, host).value, host)
                                         + [(CornerKeys[0], FloatText(aLatitude, host)), (CornerKeys[1], FloatText(aLongitude, host)),
                                            (CornerKeys[2], FloatText(bLatitude, host)), (CornerKeys[3], FloatText(bLongitude, host))])
  {
    var dateData :- PrepareDate(date, host);
    var params: QP.QueryString := [];
    if Truthy(dateData) {
      params := params + [(QP.DateKey, ToJsString(dateData, host))];
    }
    assert params == Optional(QP.DateKey, dateData, host);
    params := AppendCorners(params, FloatText(aLatitude, host), FloatText(aLongitude, host),
                            FloatText(bLatitude, host), FloatText(bLongitude, host));
    return Ok(Request(BoundingBoxEndpoint, params));
  }

  /** The four `params.append` calls of the corners, in order. */
  method AppendCorners(params: QP.QueryString, aLat: string, aLng: string, bLat: string, bLng: string)
    returns (r: QP.QueryString)
    ensures r == params + [(CornerKeys[0], aLat), (CornerKeys[1], aLng), (CornerKeys[2], bLat), (CornerKeys[3], bLng)]
  {
    r := params + [("a_latitude", aLat)];
    r := r + [("a_longitude", aLng)];
    r := r + [("b_latitude", bLat)];
    r := r + [("b_longitude", bLng)];
  }

  /** `licensePlates`: no parameters. */
  method LicensePlates() returns (r: Request)
    ensures r.params == [] && r.endpoint == LicensePlatesEndpoint
  {
    r := Request(LicensePlatesEndpoint, []);
  }

  /** `secondMostCommonColor`: no parameters. */
  method SecondMostCommonColor() returns (r: Request)
    ensures r.params == [] && r.endpoint == SecondMostCommonColorEndpoint
  {
    r := Request(SecondMostCommonColorEndpoint, []);
  }

  /** `parseInt(v).toString()`. */
  function IntegerText(v: JsValue, host: Builtins): string {
    ToJsString(ParseInt(v, host), host)
  }

  /** `rodentBaiting`: `page`, `threshold` and `type_of_premises`, always, in that order. */
  method RodentBaiting(page: JsValue, threshold: JsValue, typeOfPremises: JsValue, host: Builtins) returns (r: Request)
    ensures r.endpoint == RodentBaitingEndpoint
    ensures r.params == [("page", IntegerText(page, host)), ("threshold", IntegerText(threshold, host)),
                         ("type_of_premises", ToJsString(typeOfPremises, host))]
  {
    var pageParam := ("page", IntegerText(page, host));
    var thresholdParam := ("threshold", IntegerText(threshold, host));
    var premisesParam := ("type_of_premises", ToJsString(typeOfPremises, host));
    var params: QP.QueryString := [];
    params := params + [pageParam];
    params := params + [thresholdParam];
    params := params + [premisesParam];
    AppendedInOrder(pageParam, thresholdParam, premisesParam);
    r := Request(RodentBaitingEndpoint, params);
  }

  /** Three appends to an empty list leave the three entries in the order appended. */
  lemma AppendedInOrder<T>(x: T, y: T, z: T)
    ensures [] + [x] + [y] + [z] == [x, y, z]
  {
  }

  /** The text before the first `T` of a date, a `T` and a time is the date. */
  lemma {:induction false} BeforeTOfIso(date: string, time: string)
    requires 'T' !in date
    ensures BeforeT(date + "T" + time) == date
  {
    if |date| > 0 {
      assert (date + "T" + time)[1..] == date[1..] + "T" + time;
      BeforeTOfIso(date[1..], time);
    }
  }

  /** A date the host prints in ISO form as `YYYY-MM-DDThh:mm…`. */
  predicate IsoOf(v: JsValue, host: Builtins, d: QP.Date) {
    && QP.ValidDate(d)
    && Truthy(v)
    && host.toIsoString(v).Some?
    && QP.FormatYmd(d) + "T" <= host.toIsoString(v).value
  }

  /** `_prepareDate` of such a date is its `YYYY-MM-DD` text, which the backend's date field parses back. */
  lemma PreparedDateParses(v: JsValue, host: Builtins, d: QP.Date)
    requires IsoOf(v, host, d)
    ensures PrepareDate(v, host) == Ok(Str(QP.FormatYmd(d)))
    ensures QP.ParseYmd(QP.FormatYmd(d)) == Some(d)
  {
    var text := QP.FormatYmd(d);
    var iso := host.toIsoString(v).value;
    var time := iso[|text| + 1..];
    assert iso == text + "T" + time;
    assert 'T' !in text by {
      assert text == QP.YearText(d.year) + "-" + QP.TwoDigits(d.month) + "-" + QP.TwoDigits(d.day);
      forall i | 0 <= i < |text| ensures text[i] != 'T' {
        assert QP.IsDigit(text[i]) || text[i] == '-';
      }
    }
    BeforeTOfIso(text, time);
    QP.ParseFormatRoundTrip(d);
  }

  /**
   * Two dates the user picked reach `DateRangeParams` as themselves: the
   * range is accepted exactly when the start is not after the end.
   */
  lemma DateRangeQueryValidated(startDate: JsValue, endDate: JsValue, host: Builtins, d1: QP.Date, d2: QP.Date)
    requires IsoOf(startDate, host, d1) && IsoOf(endDate, host, d2)
    ensures var q := DateRangeQuery(PrepareDate(startDate, host).value, PrepareDate(endDate, host).value, host);
            && (QP.ValidateDateRange(q).Ok? <==> !QP.After(d1, d2))
            && (QP.ValidateDateRange(q).Ok? ==> QP.ValidateDateRange(q).value == QP.DateRange(d1, d2))
  {
    PreparedRangeQuery(startDate, endDate, host, d1, d2);
    QP.ParseFormatRoundTrip(d1);
    QP.ParseFormatRoundTrip(d2);
    var q := [(QP.StartDateKey, QP.FormatYmd(d1)), (QP.EndDateKey, QP.FormatYmd(d2))];
    assert QP.LastValue(q, QP.EndDateKey) == Some(QP.FormatYmd(d2));
    assert QP.StartDateKey != QP.EndDateKey;
    assert q[..1] == [(QP.StartDateKey, QP.FormatYmd(d1))];
    assert QP.LastValue(q, QP.StartDateKey) == QP.LastValue(q[..1], QP.StartDateKey);
  }

  /** Two picked dates are sent as `start_date` and `end_date`, in that order, as their `YYYY-MM-DD` text. */
  lemma PreparedRangeQuery(startDate: JsValue, endDate: JsValue, host: Builtins, d1: QP.Date, d2: QP.Date)
    requires IsoOf(startDate, host, d1) && IsoOf(endDate, host, d2)
    ensures DateRangeQuery(PrepareDate(startDate, host).value, PrepareDate(endDate, host).value, host)
            == [(QP.StartDateKey, QP.FormatYmd(d1)), (QP.EndDateKey, QP.FormatYmd(d2))]
  {
    PreparedDateParses(startDate, host, d1);
    PreparedDateParses(endDate, host, d2);
  }

  /** A start date left empty is not sent, and the backend reports it as required. */
  lemma MissingStartDateRequired(startDate: JsValue, endDate: JsValue, host: Builtins)
    requires !Truthy(startDate) && !DateThrows(endDate, host)
    ensures var q := DateRangeQuery(PrepareDate(startDate, host).value, PrepareDate(endDate, host).value, host);
            && QP.ValidateDateRange(q).Err?
            && QP.ValidateDateRange(q).error[QP.StartDateKey] == Required
  {
    var q := DateRangeQuery(PrepareDate(startDate, host).value, PrepareDate(endDate, host).value, host);
    assert forall i :: 0 <= i < |q| ==> q[i].0 == QP.EndDateKey;
    assert QP.LastValue(q, QP.StartDateKey).None?;
  }

  /**
   * `totalRequestsPerDay` with two picked dates and a listed service-type
   * code passes `DateAndRequestTypeParams` exactly when the range is in order.
   */
  lemma RequestsPerDayValidated(startDate: JsValue, endDate: JsValue, code: string, host: Builtins, d1: QP.Date, d2: QP.Date)
    requires IsoOf(startDate, host, d1) && IsoOf(endDate, host, d2)
    requires code in IncidentModel.Codes(IncidentModel.ServiceTypeChoices)
    ensures var q := DateRangeQuery(PrepareDate(startDate, host).value, PrepareDate(endDate, host).value, host)
                     + [(QP.ServiceTypeKey, ToJsString(Str(code), host))];
            && (QP.ValidateDateAndRequestType(q).Ok? <==> !QP.After(d1, d2))
            && (QP.ValidateDateAndRequestType(q).Ok? ==>
                  IncidentModel.ServiceTypeCode(QP.ValidateDateAndRequestType(q).value.serviceType) == code)
  {
    var range := DateRangeQuery(PrepareDate(startDate, host).value, PrepareDate(endDate, host).value, host);
    PreparedRangeQuery(startDate, endDate, host, d1, d2);
    assert range == [(QP.StartDateKey, QP.FormatYmd(d1)), (QP.EndDateKey, QP.FormatYmd(d2))];
    StringSentAsIs(code, host);
    RangeAndTypeValidated(d1, d2, code);
  }

  /** A string is sent as itself. */
  lemma StringSentAsIs(s: string, host: Builtins)
    ensures ToJsString(Str(s), host) == s
  {
  }

  /** The backend's view of a `start_date`, `end_date`, `type_of_service_request` query. */
  lemma RangeAndTypeValidated(d1: QP.Date, d2: QP.Date, code: string)
    requires QP.ValidDate(d1) && QP.ValidDate(d2)
    requires code in IncidentModel.Codes(IncidentModel.ServiceTypeChoices)
    ensures var q := [(QP.StartDateKey, QP.FormatYmd(d1)), (QP.EndDateKey, QP.FormatYmd(d2))] + [(QP.ServiceTypeKey, code)];
            && (QP.ValidateDateAndRequestType(q).Ok? <==> !QP.After(d1, d2))
            && (QP.ValidateDateAndRequestType(q).Ok? ==>
                  IncidentModel.ServiceTypeCode(QP.ValidateDateAndRequestType(q).value.serviceType) == code)
  {
    QP.ParseFormatRoundTrip(d1);
    QP.ParseFormatRoundTrip(d2);
    TextRangeAndTypeValidated(QP.FormatYmd(d1), QP.FormatYmd(d2), code, d1, d2);
  }

  lemma TextRangeAndTypeValidated(a: string, b: string, code: string, d1: QP.Date, d2: QP.Date)
    requires QP.ParseYmd(a) == Some(d1) && QP.ParseYmd(b) == Some(d2)
    requires code in IncidentModel.Codes(IncidentModel.ServiceTypeChoices)
    ensures var q := [(QP.StartDateKey, a), (QP.EndDateKey, b)] + [(QP.ServiceTypeKey, code)];
            && (QP.ValidateDateAndRequestType(q).Ok? <==> !QP.After(d1, d2))
            && (QP.ValidateDateAndRequestType(q).Ok? ==>
                  IncidentModel.ServiceTypeCode(QP.ValidateDateAndRequestType(q).value.serviceType) == code)
  {
    var q := [(QP.StartDateKey, a), (QP.EndDateKey, b)] + [(QP.ServiceTypeKey, code)];
    ThreeParams(a, b, code);
    assert QP.DateField(q, QP.StartDateKey) == Ok(d1);
    assert QP.DateField(q, QP.EndDateKey) == Ok(d2);
    assert QP.ServiceTypeField(q, QP.ServiceTypeKey).Ok?;
  }

  /** The last value of each name in a `start_date`, `end_date`, `type_of_service_request` query. */
  lemma ThreeParams(a: string, b: string, c: string)
    ensures var q := [(QP.StartDateKey, a), (QP.EndDateKey, b)] + [(QP.ServiceTypeKey, c)];
            && QP.LastValue(q, QP.StartDateKey) == Some(a)
            && QP.LastValue(q, QP.EndDateKey) == Some(b)
            && QP.LastValue(q, QP.ServiceTypeKey) == Some(c)
  {
    var q := [(QP.StartDateKey, a), (QP.EndDateKey, b)] + [(QP.ServiceTypeKey, c)];
    assert QP.StartDateKey != QP.ServiceTypeKey && QP.EndDateKey != QP.ServiceTypeKey && QP.StartDateKey != QP.EndDateKey;
    assert q[..2] == [(QP.StartDateKey, a), (QP.EndDateKey, b)];
    assert q[..2][..1] == [(QP.StartDateKey, a)];
    assert QP.LastValue(q, QP.StartDateKey) == QP.LastValue(q[..2], QP.StartDateKey);
    assert QP.LastValue(q[..2], QP.StartDateKey) == QP.LastValue(q[..2][..1], QP.StartDateKey);
    assert QP.LastValue(q, QP.EndDateKey) == QP.LastValue(q[..2], QP.EndDateKey);
  }

  /** A picked date reaches `DateParam` as itself. */
  lemma ZipcodeQueryValidated(date: JsValue, host: Builtins, d: QP.Date)
    requires IsoOf(date, host, d)
    ensures QP.ValidateDate(Optional(QP.DateKey, PrepareDate(date, host).value, host)) == Ok(d)
  {
    PreparedDateParses(date, host, d);
  }

  /** An empty date sends no parameter, and `DateParam` reports it as required. */
  lemma ZipcodeQueryWithoutDateRejected(date: JsValue, host: Builtins)
    requires !Truthy(date)
    ensures QP.ValidateDate(Optional(QP.DateKey, PrepareDate(date, host).value, host)) == Err(map[QP.DateKey := Required])
  {
  }

  /** A whole number typed as text reads back as that number through `parseInt` and `parseFloat`. */
  lemma ParseIntegerText(n: int, host: Builtins)
    ensures ParseInt(Str(IntText(n)), host) == Num(n as real)
    ensures ParseFloat(Str(IntText(n)), host) == Num(n as real)
  {
    ParseIntOfStr(IntText(n), host);
    ParseFloatOfStr(IntText(n), host);
    ParseIntOfIntText(n);
    ParseFloatOfIntText(n);
  }

  /** `parseInt` of a string reads the string itself. */
  lemma ParseIntOfStr(s: string, host: Builtins)
    ensures ParseInt(Str(s), host) == ParseIntText(s)
  {
    StringSentAsIs(s, host);
  }

  /** `parseFloat` of a string reads the string itself. */
  lemma ParseFloatOfStr(s: string, host: Builtins)
    ensures ParseFloat(Str(s), host) == ParseFloatText(s)
  {
    StringSentAsIs(s, host);
  }

  /**
   * A whole-number page or threshold, or a whole-number coordinate, typed
   * as text is sent as that same text.
   */
  lemma IntegerTextSentUnchanged(n: int, host: Builtins)
    requires FormatsIntegers(host) && -(Pow10(21) as int) < n < Pow10(21)
    ensures IntegerText(Str(IntText(n)), host) == IntText(n)
    ensures FloatText(Str(IntText(n)), host) == IntText(n)
  {
    ParseIntegerText(n, host);
    assert IntegerText(Str(IntText(n)), host) == host.numberToString(n as real);
    assert FloatText(Str(IntText(n)), host) == host.numberToString(n as real);
  }

  /** A page that is not a number is sent as `NaN`. */
  lemma NonNumericPageSentAsNaN(host: Builtins)
    ensures IntegerText(Str("abc"), host) == "NaN"
    ensures IntegerText(Undefined, host) == "NaN"
  {
    ParseIntOfStr("abc", host);
    ParseIntOfUndefined(host);
    ParseIntNoDigits();
    var nan := ToJsString(NaN, host);
    assert nan == "NaN";
    assert IntegerText(Str("abc"), host) == nan;
    assert IntegerText(Undefined, host) == nan;
  }

  /** `parseInt(undefined)` reads the text `undefined`. */
  lemma ParseIntOfUndefined(host: Builtins)
    ensures ParseInt(Undefined, host) == ParseIntText("undefined")
  {
  }
}
