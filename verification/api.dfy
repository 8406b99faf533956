/** The HTTP client of services/api.ts: a held bearer token, one request per
    call with JSON content type and bearer authorization added to the caller's
    headers, error selection for non-OK responses, and the endpoint builders.
    The network is an oracle: each call receives the outcome of its one fetch. */
module Api {
  import opened Wrappers
  import opened Text
  import opened ApiTypes

  const DefaultBaseUrl := "https://nutriscanpro-api.onrender.com/api"

  /** `process.env.EXPO_PUBLIC_API_URL || default` */
  function BaseUrl(env: Option<string>): (url: string)
    ensures env.Some? && env.value != "" ==> url == env.value
    ensures env.None? || env.value == "" ==> url == DefaultBaseUrl
  {
    if env.Some? && env.value != "" then env.value else DefaultBaseUrl
  }

  const ContentType := "Content-Type"
  const Authorization := "Authorization"
  const JsonMediaType := "application/json"

  /** A JSON value as `JSON.stringify` receives it or `response.json()` returns it. */
  datatype Json =
    | JNull
    | JBool(b: bool)
    | JNum(n: real)
    | JStr(s: string)
    | JArr(elems: seq<Json>)
    | JObj(fields: seq<(string, Json)>)

  /** One part of a multipart form body (RFC 7578). */
  datatype FormPart = FilePart(name: string, uri: string, fileName: string, mediaType: string)

  /** A request body: none, a JSON document, or multipart form data. */
  datatype Body = NoBody | JsonText(value: Json) | Form(parts: seq<FormPart>)

  datatype Method = GET | POST | PUT | PATCH | DELETE

  /** The `options` a caller passes; an absent `verb` is `fetch`'s default GET. */
  datatype RequestInit = RequestInit(verb: Option<Method>, body: Body, headers: map<string, string>)

  /** What one `fetch` call is given. */
  datatype Request = Request(url: string, verb: Option<Method>, body: Body, headers: map<string, string>)

  /** `if (this.token)`: a token is held and is not empty. */
  predicate TokenHeld(token: Option<string>) {
    token.Some? && token.value != ""
  }

  /** The headers built before the caller's: JSON content type unless the body is
      form data, whose boundary the platform supplies, and the bearer credential
      of section 2.1 of RFC 6750 when a token is held. */
  function DefaultHeaders(token: Option<string>, body: Body): map<string, string> {
    var typed := if body.Form? then map[] else map[ContentType := JsonMediaType];
    if TokenHeld(token) then typed[Authorization := "Bearer " + token.value] else typed
  }

  /** `{ ...headers, ...options.headers }`: the caller's headers win key by key. */
  function RequestHeaders(token: Option<string>, init: RequestInit): (h: map<string, string>)
    ensures forall k :: k in init.headers ==> k in h && h[k] == init.headers[k]
    ensures ContentType !in init.headers ==>
      (ContentType in h <==> !init.body.Form?) && (ContentType in h ==> h[ContentType] == JsonMediaType)
    ensures Authorization !in init.headers ==>
      (Authorization in h <==> TokenHeld(token)) && (Authorization in h ==> h[Authorization] == "Bearer " + token.value)
    ensures forall k :: k in h ==> k in init.headers || k == ContentType || k == Authorization
  {
    DefaultHeaders(token, init.body) + init.headers
  }

  // ---------------------------------------------------------------------------
  // Responses

  /** The body of a response, as `response.json()` sees it. */
  datatype ResponseBody = Parsed(value: Json) | NotJson

  /** An exception a request can end with. `MessageValue` is `new Error(v)` for a
      non-string `message` value `v`, whose text is `String(v)`. */
  datatype ApiError =
    | ErrorMessage(message: string)
    | MessageValue(value: Json)
    | InvalidJsonBody
    | NullBodyAccess
    | NetworkError(reason: string)

  /** The outcome of the one `fetch`: a response, or a rejection. */
  datatype FetchOutcome = Responded(ok: bool, status: int, body: ResponseBody) | Failed(error: ApiError)

  /** JavaScript truthiness of a JSON value. */
  predicate JsTruthy(j: Json) {
    match j
    case JNull => false
    case JBool(b) => b
    case JNum(n) => n != 0.0
    case JStr(s) => s != ""
    case _ => true
  }

  /** A member of a parsed object; `JSON.parse` keeps the last of repeated names. */
  function Field(fields: seq<(string, Json)>, name: string): (v: Option<Json>)
    ensures v.Some? ==> exists i :: 0 <= i < |fields| && fields[i] == (name, v.value) &&
                                    forall j :: i < j < |fields| ==> fields[j].0 != name
    ensures v.None? ==> forall i :: 0 <= i < |fields| ==> fields[i].0 != name
  {
    if fields == [] then None
    else if fields[|fields| - 1].0 == name then Some(fields[|fields| - 1].1)
    else Field(fields[..|fields| - 1], name)
  }

  /** `errorData.message` where it is truthy. */
  function MessageOf(body: ResponseBody): Option<Json> {
    match body
    case Parsed(JObj(fields)) =>
      var m := Field(fields, "message");
      if m.Some? && JsTruthy(m.value) then m else None
    case _ => None
  }

  /** The text `HTTP <status>`. */
  function StatusText(status: int): string {
    "HTTP " + IntToString(status)
  }

  /** The exception a non-OK response raises. A body that is not JSON reads as
      `{}`; a JSON `null` body makes `errorData.message` itself throw. */
  function ErrorFor(status: int, body: ResponseBody): (e: ApiError)
    ensures body == Parsed(JNull) <==> e == NullBodyAccess
    ensures MessageOf(body).Some? && MessageOf(body).value.JStr? ==> e == ErrorMessage(MessageOf(body).value.s)
    ensures MessageOf(body).Some? && !MessageOf(body).value.JStr? ==> e == MessageValue(MessageOf(body).value)
    ensures body != Parsed(JNull) && MessageOf(body).None? ==> e == ErrorMessage(StatusText(status))
    ensures e.ErrorMessage? ==> e.message != ""
  {
    if body == Parsed(JNull) then NullBodyAccess
    else
      match MessageOf(body)
      case Some(JStr(s)) => ErrorMessage(s)
      case Some(v) => MessageValue(v)
      case None => ErrorMessage(StatusText(status))
  }

  /** The status can be read back from the fallback message. */
  lemma StatusTextCarriesStatus(status: int)
    ensures |StatusText(status)| > 5 && StatusText(status)[..5] == "HTTP "
    ensures ParseInt(StatusText(status)[5..]) == Some(status)
  {
    assert StatusText(status)[5..] == IntToString(status);
    IntToStringRoundTrip(status);
  }

  /** What a call resolves or rejects with: the rejection of `fetch` unchanged,
      the error of a non-OK response, or the parsed body. */
  function Settle(outcome: FetchOutcome): (r: Result<Json, ApiError>)
    ensures outcome.Failed? ==> r == Err(outcome.error)
    ensures outcome.Responded? && !outcome.ok ==> r == Err(ErrorFor(outcome.status, outcome.body))
    ensures outcome.Responded? && outcome.ok ==>
      r == (if outcome.body.Parsed? then Ok(outcome.body.value) else Err(InvalidJsonBody))
  {
    match outcome
    case Failed(e) => Err(e)
    case Responded(ok, status, body) =>
      if !ok then Err(ErrorFor(status, body))
      else if body.Parsed? then Ok(body.value)
      else Err(InvalidJsonBody)
  }

  // ---------------------------------------------------------------------------
  // Endpoints

  /** The calls of `ApiService` above `makeRequest`. */
  datatype Call =
    | Login(email: string, password: string)
    | Register(email: string, password: string, name: string)
    | Profile
    | TodayMeals(nowIso: string)
    | MealsByDate(dateIso: string)
    | MealHistory(page: Option<int>, limit: Option<int>)
    | CreateMeal(mealType: MealType, date: string)
    | FoodByBarcode(barcode: string)
    | AddItemByBarcode(mealId: string, barcode: string, quantity: Option<real>)
    | AnalyseImage(imageUri: string, context: Option<string>)
    | AddItemByDescription(mealId: string, description: string)
    | AnalyseDescription(description: string)
    | AddFoods(mealId: string, foods: seq<Json>)
    | UpdateProfile(updates: seq<(string, Json)>)

  function MealTypeName(t: MealType): string {
    match t
    case BREAKFAST => "BREAKFAST"
    case LUNCH => "LUNCH"
    case DINNER => "DINNER"
    case SNACK => "SNACK"
  }

  function Endpoint(c: Call): string {
    match c
    case Login(_, _) => "/auth/login"
    case Register(_, _, _) => "/auth/register"
    case Profile => "/auth/profile"
    case TodayMeals(now) => "/meals/date?date=" + DateKey(now)
    case MealsByDate(iso) => "/meals/date?date=" + DateKey(iso)
    case MealHistory(page, limit) =>
      "/meals?page=" + IntToString(page.GetOr(1)) + "&limit=" + IntToString(limit.GetOr(20))
    case CreateMeal(_, _) => "/meals"
    case FoodByBarcode(code) => "/foods/barcode/" + code
    case AddItemByBarcode(mealId, _, _) => "/meals/" + mealId + "/add-item-by-barcode"
    case AnalyseImage(_, _) => "/ai-analysis/image"
    case AddItemByDescription(mealId, _) => "/meals/" + mealId + "/analyze-text"
    case AnalyseDescription(_) => "/ai-analysis/text"
    case AddFoods(mealId, _) => "/meals/" + mealId + "/add-new-foods"
    case UpdateProfile(_) => "/user/profile"
  }

  /** The `options` each call passes. The image call sends the native form part;
      its `context` argument is not sent. */
  function Init(c: Call): RequestInit {
    match c
    case Login(email, password) =>
      RequestInit(Some(POST), JsonText(JObj([("email", JStr(email)), ("password", JStr(password))])), map[])
    case Register(email, password, name) =>
      RequestInit(Some(POST), JsonText(JObj([("email", JStr(email)), ("password", JStr(password)), ("name", JStr(name))])), map[])
    case CreateMeal(t, date) =>
      RequestInit(Some(POST), JsonText(JObj([("type", JStr(MealTypeName(t))), ("date", JStr(date))])), map[])
    case AddItemByBarcode(_, barcode, quantity) =>
      RequestInit(Some(POST), JsonText(JObj([("barcode", JStr(barcode)), ("quantity", JNum(quantity.GetOr(1.0)))])), map[])
    case AnalyseImage(uri, _) =>
      RequestInit(Some(POST), Form([FilePart("file", uri, "meal-image.jpg", "image/jpeg")]), map[])
    case AddItemByDescription(_, description) =>
      RequestInit(Some(POST), JsonText(JObj([("description", JStr(description))])), map[])
    case AnalyseDescription(description) =>
      RequestInit(Some(POST), JsonText(JObj([("description", JStr(description))])), map[])
    case AddFoods(_, foods) =>
      RequestInit(Some(POST), JsonText(JObj([("foods", JArr(foods))])), map[])
    case UpdateProfile(updates) =>
      RequestInit(Some(PUT), JsonText(JObj(updates)), map[])
    case _ =>
      RequestInit(None, NoBody, map[])
  }

  /** Reads the page and limit back from a history endpoint. */
  function ParseHistoryEndpoint(e: string): Option<(int, int)> {
    var prefix := "/meals?page=";
    if |e| < |prefix| || e[..|prefix|] != prefix then None
    else
      var rest := e[|prefix|..];
      var pageText := PrefixBefore(rest, '&');
      var tail := rest[|pageText|..];
      if |tail| < 7 || tail[..7] != "&limit=" then None
      else
        match (ParseInt(pageText), ParseInt(tail[7..]))
        case (Some(p), Some(l)) => Some((p, l))
        case _ => None
  }

  lemma NoAmpersandInNumber(i: int)
    ensures '&' !in IntToString(i)
  {
    var s := IntToString(i);
    forall k | 0 <= k < |s| ensures s[k] != '&' {
      if k > 0 && i < 0 {
        assert s[k] == s[1..][k - 1];
      }
    }
  }

  /** The history endpoint carries the page and the limit it was built from. */
  lemma HistoryEndpointRoundTrip(page: int, limit: int)
    ensures ParseHistoryEndpoint(Endpoint(MealHistory(Some(page), Some(limit)))) == Some((page, limit))
  {
    var p, l := IntToString(page), IntToString(limit);
    var e := "/meals?page=" + (p + ("&limit=" + l));
    HistoryEndpointText(page, limit);
    NoAmpersandInNumber(page);
    HistoryParts("/meals?page=", p, l, e);
    IntToStringRoundTrip(page);
    IntToStringRoundTrip(limit);
    ParsedHistory(e, p, l, page, limit);
  }

  lemma HistoryEndpointText(page: int, limit: int)
    ensures Endpoint(MealHistory(Some(page), Some(limit))) ==
      "/meals?page=" + (IntToString(page) + ("&limit=" + IntToString(limit)))
  {
    var p, l := IntToString(page), IntToString(limit);
    assert Endpoint(MealHistory(Some(page), Some(limit))) == "/meals?page=" + p + "&limit=" + l;
    Regroup("/meals?page=", p, "&limit=", l);
  }

  lemma Regroup(a: string, b: string, c: string, d: string)
    ensures a + b + c + d == a + (b + (c + d))
  {
  }

  lemma ParsedHistory(e: string, p: string, l: string, page: int, limit: int)
    requires |e| >= 12 && e[..12] == "/meals?page="
    requires PrefixBefore(e[12..], '&') == p && e[12..][|p|..] == "&limit=" + l
    requires ParseInt(p) == Some(page) && ParseInt(l) == Some(limit)
    ensures ParseHistoryEndpoint(e) == Some((page, limit))
  {
    var tail := "&limit=" + l;
    assert tail[..7] == "&limit=" && tail[7..] == l;
  }

  lemma HistoryParts(prefix: string, p: string, l: string, e: string)
    requires '&' !in p && e == prefix + (p + ("&limit=" + l))
    ensures |e| >= |prefix| && e[..|prefix|] == prefix
    ensures PrefixBefore(e[|prefix|..], '&') == p
    ensures e[|prefix|..][|p|..] == "&limit=" + l
  {
    var tail := "&limit=" + l;
    var rest := e[|prefix|..];
    assert rest == p + tail;
    assert rest == p + ['&'] + ("limit=" + l);
    PrefixBeforeRoundTrip(p, '&', "limit=" + l);
    assert rest[|p|..] == tail;
  }

  /** Without arguments the history asks for page 1 of 20. */
  lemma HistoryDefaults()
    ensures Endpoint(MealHistory(None, None)) == "/meals?page=1&limit=20"
  {
    assert NatToString(1) == "1";
    assert NatToString(20) == NatToString(2) + [DigitChar(0)] == "20";
  }

  /** A day's meals are asked for by the date part of the timestamp only. */
  lemma MealsByDateUsesDatePart(day: string, time: string)
    requires 'T' !in day
    ensures Endpoint(MealsByDate(day + "T" + time)) == "/meals/date?date=" + day
  {
    DateKeyOfTimestamp(day, time);
  }

  /** `createMeal` posts `{type, date}` to `/meals`. */
  lemma CreateMealRequest(t: MealType, date: string)
    ensures Endpoint(CreateMeal(t, date)) == "/meals"
    ensures Init(CreateMeal(t, date)).verb == Some(POST)
    ensures Init(CreateMeal(t, date)).body.JsonText? && Init(CreateMeal(t, date)).body.value.JObj?
    ensures var fields := Init(CreateMeal(t, date)).body.value.fields;
      Field(fields, "type") == Some(JStr(MealTypeName(t))) && Field(fields, "date") == Some(JStr(date)) && |fields| == 2
  {
  }

  /** `addItemByBarcode` sends a quantity of 1 when none is given. */
  lemma AddItemByBarcodeDefaultQuantity(mealId: string, barcode: string)
    ensures var body := Init(AddItemByBarcode(mealId, barcode, None)).body;
      body.JsonText? && body.value.JObj? && Field(body.value.fields, "quantity") == Some(JNum(1.0))
  {
  }

  /** Only the image analysis sends form data, so only it goes without the JSON
      content type. */
  lemma OnlyImageAnalysisIsForm(c: Call, token: Option<string>)
    ensures (ContentType in RequestHeaders(token, Init(c))) <==> !c.AnalyseImage?
  {
  }

  // ---------------------------------------------------------------------------
  // The service object

  class ApiService {
    const baseUrl: string
    var token: Option<string>
    /** Every request handed to `fetch`, in order. */
    var sent: seq<Request>

    constructor (env: Option<string>)
      ensures baseUrl == BaseUrl(env) && token == None && sent == []
    {
      baseUrl := BaseUrl(env);
      token := None;
      sent := [];
    }

    method SetToken(t: string)
      modifies this`token
      ensures token == Some(t)
    {
      token := Some(t);
    }

    method ClearToken()
      modifies this`token
      ensures token == None
    {
      token := None;
    }

    /** `makeRequest`: builds the header map step by step, makes exactly one
        fetch, and settles with its outcome; failures are passed on unchanged and
        nothing is retried or cached. */
    method MakeRequest(endpoint: string, init: RequestInit, outcome: FetchOutcome)
      returns (result: Result<Json, ApiError>)
      modifies this`sent
      ensures sent == old(sent) + [Request(baseUrl + endpoint, init.verb, init.body, RequestHeaders(token, init))]
      ensures result == Settle(outcome)
    {
      var headers: map<string, string> := map[];
      if !init.body.Form? {
        headers := headers[ContentType := JsonMediaType];
      }
      if token.Some? && token.value != "" {
        headers := headers[Authorization := "Bearer " + token.value];
      }
      var merged := headers + init.headers;
      sent := sent + [Request(baseUrl + endpoint, init.verb, init.body, merged)];
      result := Settle(outcome);
    }

    /** One of the service's calls. */
    method Send(c: Call, outcome: FetchOutcome) returns (result: Result<Json, ApiError>)
      modifies this`sent
      ensures sent == old(sent) + [Request(baseUrl + Endpoint(c), Init(c).verb, Init(c).body, RequestHeaders(token, Init(c)))]
      ensures result == Settle(outcome)
    {
      result := MakeRequest(Endpoint(c), Init(c), outcome);
    }
  }

  /** With a non-empty token every call carries `Bearer <token>`; without one, or
      with an empty one, none does (no call passes its own headers). */
  lemma BearerOnEveryCall(c: Call, token: Option<string>)
    ensures TokenHeld(token) ==> RequestHeaders(token, Init(c))[Authorization] == "Bearer " + token.value
    ensures !TokenHeld(token) ==> Authorization !in RequestHeaders(token, Init(c))
  {
  }
}
