/**
 * The ClickPay portal (portals/click_pay.py): a two-step login that enriches a
 * header dictionary (session cookie, then anti-forgery token), followed by two
 * data calls whose results are merged into one four-field record.
 *
 * Each step is specified by a pure function over the headers and the server's
 * responses (`CookieStep`, `TokenStep`, `SessionStart`, `ReadUserContext`,
 * `ReadProperty`, `Updated`); the methods of class `ClickPay` are proved to
 * behave as those functions say, and the lemmas state what the source promises
 * about them.
 */
module ClickPay {
  import opened Wrappers
  import opened Http

  // ---------------------------------------------------------------------------
  // Constants of the portal

  const BaseUrl := "https://clickpay.com/MobileService/Service.asmx"
  const PrepareLoginUrl := BaseUrl + "/prepare_login"
  const LoginUrl := BaseUrl + "/login"
  const RedirectUrl := "https://clickpay.com/app#PayNow"
  const UserContextUrl := BaseUrl + "/getUserContextJSON"
  const ImpersonationUrl := BaseUrl + "/get_data_allow_impersonation_json"

  const SessionCookieName := "__Secure-SessionId"
  const TokenInputName := "ctl00$antiForgeryToken"
  const CookieHeader := "Cookie"
  const TokenHeader := "antiforgerytoken"

  /** The browser-like headers every portal object starts with. */
  const DefaultHeaders: Headers := map[
    "accept" := "*/*",
    "content-type" := "text/plain; charset=UTF-8",
    "origin" := "https://clickpay.com",
    "referer" := "https://clickpay.com/",
    "sec-ch-ua" := "\"Chromium\";v=\"128\", \"Not;A=Brand\";v=\"24\", \"Google Chrome\";v=\"128\"",
    "sec-ch-ua-mobile" := "?0",
    "sec-fetch-mode" := "cors",
    "sec-fetch-site" := "same-origin"
  ]

  const EmailKey := "email"
  const PhoneKey := "phone"
  const CompanyKey := "management_company"
  const AddressKey := "address"

  /** What each step can raise. */
  datatype Error =
    | HttpStatus(url: string)  // `raise_for_status` on the response from `url`
    | NoSessionCookie          // ValueError "No Secure-SessionId found in cookies."
    | TokenInputMissing        // no `<input>` with the token's name, or it has no `value`
    | TokenEmpty               // ValueError "antiforgerytoken not found"
    | NotJson(url: string)     // `response.json()` refused the body from `url`
    | NoResult                 // ValueError "Cannot get the data. Validate login details"
    | Malformed                // KeyError or TypeError while reading the data's fields
    | Unrendered               // an object or array where the address wants a scalar

  type Partial = map<string, Json>

  // ---------------------------------------------------------------------------
  // Requests

  function CookieRequest(h: Headers): Request
  {
    Request(Post, PrepareLoginUrl, h, JsonBody(Obj(map["prepare" := Str("login")])))
  }

  function LoginRequest(h: Headers, userName: string, userPassword: string): Request
  {
    Request(Post, LoginUrl, h, JsonBody(Obj(map[
      "username" := Str(userName),
      "password" := Str(userPassword),
      "validateUsername" := Bool(true)])))
  }

  function RedirectRequest(h: Headers): Request
  {
    Request(Get, RedirectUrl, h, NoBody)
  }

  function UserContextRequest(h: Headers): Request
  {
    Request(Post, UserContextUrl, h, Text("NovelPayApp"))
  }

  function ImpersonationRequest(h: Headers): Request
  {
    Request(Post, ImpersonationUrl, h, JsonBody(Obj(map[
      "RequestType" := Str("get_user_paynow_desktop"),
      "FilterByGroupLabel" := Str("1"),
      "GroupLabel" := Str("")])))
  }

  /** Both data requests; `asyncio.gather` issues them whatever either returns. */
  function DataRequests(h: Headers): seq<Request>
  {
    [UserContextRequest(h), ImpersonationRequest(h)]
  }

  // ---------------------------------------------------------------------------
  // Authentication, as functions of the headers and the server

  /** The effect of an authentication step: how it ended, the headers after it, what it sent. */
  datatype Step = Step(outcome: Outcome<Error>, headers: Headers, sent: seq<Request>)

  /** `_get_cookie`: `jar` is the session's cookie jar before the request. */
  function CookieStep(h: Headers, jar: Cookies, server: Server): Step
  {
    var resp := Reply(server, PrepareLoginUrl);
    var cookies := jar + resp.setCookies;
    var sent := [CookieRequest(h)];
    if !resp.ok then Step(Fail(HttpStatus(PrepareLoginUrl)), h, sent)
    else if SessionCookieName !in cookies then Step(Fail(NoSessionCookie), h, sent)
    else Step(Pass, h[CookieHeader := SessionCookieName + "=" + cookies[SessionCookieName]], sent)
  }

  /** The token `soup.find("input", {"name": ...})["value"]` yields, if any. */
  function TokenInput(page: Response): Option<string>
  {
    if TokenInputName in page.inputs then page.inputs[TokenInputName] else None
  }

  /** `_get_anti_forgery_token`: log in, fetch the page behind the redirect, read its token. */
  function TokenStep(h: Headers, userName: string, userPassword: string, server: Server): Step
  {
    var login := Reply(server, LoginUrl);
    if !login.ok then Step(Fail(HttpStatus(LoginUrl)), h, [LoginRequest(h, userName, userPassword)])
    else
      var page := Reply(server, RedirectUrl);
      var sent := [LoginRequest(h, userName, userPassword), RedirectRequest(h)];
      if !page.ok then Step(Fail(HttpStatus(RedirectUrl)), h, sent)
      else match TokenInput(page)
        case None => Step(Fail(TokenInputMissing), h, sent)
        case Some(token) =>
          if token == "" then Step(Fail(TokenEmpty), h, sent)
          else Step(Pass, h[TokenHeader := token], sent)
  }

  /** `start_session`: the cookie step, then, only if it passed, the token step. */
  function SessionStart(h: Headers, jar: Cookies, userName: string, userPassword: string, server: Server): Step
  {
    var cookie := CookieStep(h, jar, server);
    if cookie.outcome.Fail? then cookie
    else
      var token := TokenStep(cookie.headers, userName, userPassword, server);
      Step(token.outcome, token.headers, cookie.sent + token.sent)
  }

  // ---------------------------------------------------------------------------
  // Data extraction

  /** `j[key]` on decoded JSON: only an object with that key can be indexed by a string. */
  function Field(j: Json, key: string): Result<Json, Error>
  {
    match j
    case Obj(fields) => if key in fields then Ok(fields[key]) else Err(Malformed)
    case _ => Err(Malformed)
  }

  predicate IsPrefix(p: string, s: string)
  {
    |p| <= |s| && s[..|p|] == p
  }

  predicate IsSubstring(p: string, s: string)
  {
    IsPrefix(p, s) || (s != [] && IsSubstring(p, s[1..]))
  }

  /** `"Result" in data`: a key test on an object, a substring test on a string, a member test on a list. */
  function HasResult(data: Json): Result<bool, Error>
  {
    match data
    case Obj(fields) => Ok("Result" in fields)
    case Str(s) => Ok(IsSubstring("Result", s))
    case Arr(items) => Ok(Str("Result") in items)
    case _ => Err(Malformed)
  }

  /** The decoded body of a data response, once its status and its "Result" marker are checked. */
  function CheckedBody(resp: Response, url: string): Result<Json, Error>
  {
    if !resp.ok then Err(HttpStatus(url))
    else match resp.json
      case None => Err(NotJson(url))
      case Some(data) =>
        match HasResult(data)
        case Err(e) => Err(e)
        case Ok(found) => if found then Ok(data) else Err(NoResult)
  }

  /** `_get_user_context` on the response it receives. */
  function ReadUserContext(resp: Response): Result<Partial, Error>
  {
    var data :- CheckedBody(resp, UserContextUrl);
    var result :- Field(data, "Result");
    var user :- Field(result, "user");
    var email :- Field(user, "Email");
    var phone :- Field(user, "Cellphone");
    Ok(map[EmailKey := email, PhoneKey := phone])
  }

  /** The text an f-string gives a JSON scalar. */
  function Render(j: Json): Result<string, Error>
  {
    match j
    case Null => Ok("None")
    case Bool(b) => Ok(if b then "True" else "False")
    case Num(text) => Ok(text)
    case Str(s) => Ok(s)
    case _ => Err(Unrendered)
  }

  /** "{StreetNumber} {StreetName} {StreetTypeName}, {City} - {State} ({Zip})" */
  function AddressLine(number: string, street: string, streetType: string, city: string, state: string, zip: string): string
  {
    number + " " + street + " " + streetType + ", " + city + " - " + state + " (" + zip + ")"
  }

  function RenderedField(unit: Json, key: string): Result<string, Error>
  {
    var value :- Field(unit, key);
    Render(value)
  }

  /** `_get_data_allow_impersonation` on the response it receives. */
  function ReadProperty(resp: Response): Result<Partial, Error>
  {
    var data :- CheckedBody(resp, ImpersonationUrl);
    var result :- Field(data, "Result");
    var outer :- Field(result, "Unit");
    var unit :- Field(outer, "Unit");
    var company :- Field(unit, "SiteName");
    var number :- RenderedField(unit, "StreetNumber");
    var street :- RenderedField(unit, "StreetName");
    var streetType :- RenderedField(unit, "StreetTypeName");
    var city :- RenderedField(unit, "City");
    var state :- RenderedField(unit, "State");
    var zip :- RenderedField(unit, "Zip");
    Ok(map[CompanyKey := company, AddressKey := Str(AddressLine(number, street, streetType, city, state, zip))])
  }

  // ---------------------------------------------------------------------------
  // Merge

  /** `reduce(lambda acc, d: acc.update(d) or acc, ds, {})`: later maps win on shared keys. */
  function Updated(ds: seq<Partial>): Partial
  {
    if ds == [] then map[] else Updated(ds[..|ds| - 1]) + ds[|ds| - 1]
  }

  /** What `get_data` returns, given what its two sub-fetches returned. */
  ghost predicate Gathered(r: Result<Partial, Error>, userContext: Result<Partial, Error>, property: Result<Partial, Error>)
  {
    if userContext.Ok? && property.Ok? then r == Ok(Updated([userContext.value, property.value]))
    else
      // gather surfaces whichever failure it sees first
      r.Err? && ((userContext.Err? && r.error == userContext.error) || (property.Err? && r.error == property.error))
  }

  method Reduce(ds: seq<Partial>) returns (acc: Partial)
    ensures acc == Updated(ds)
    ensures acc.Keys == set i, k | 0 <= i < |ds| && k in ds[i] :: k
  {
    acc := map[];
    for i := 0 to |ds|
      invariant acc == Updated(ds[..i])
      invariant acc.Keys == set j, k | 0 <= j < i && k in ds[j] :: k
    {
      assert ds[..i + 1][..i] == ds[..i];
      acc := acc + ds[i];
    }
    assert ds[..|ds|] == ds;
  }

  // ---------------------------------------------------------------------------
  // Properties of the authentication steps

  /** Only the named header changes; every other key keeps its value. */
  ghost predicate OthersUnchanged(before: Headers, after: Headers, name: string)
  {
    && after.Keys - {name} == before.Keys - {name}
    && forall k :: k in before && k != name ==> k in after && after[k] == before[k]
  }

  /**
   * The cookie step issues exactly the prepare-login request; it passes exactly
   * when the response is a success and the jar then holds `__Secure-SessionId`,
   * and then sets `Cookie` to `__Secure-SessionId=<value>`. Otherwise the headers
   * are untouched.
   */
  lemma CookieStepSpec(h: Headers, jar: Cookies, server: Server)
    ensures var st := CookieStep(h, jar, server);
      var resp := Reply(server, PrepareLoginUrl);
      var cookies := jar + resp.setCookies;
      && st.sent == [CookieRequest(h)]
      && (st.outcome.Pass? <==> resp.ok && SessionCookieName in cookies)
      && (!resp.ok ==> st.outcome == Fail(HttpStatus(PrepareLoginUrl)))
      && (resp.ok && SessionCookieName !in cookies ==> st.outcome == Fail(NoSessionCookie))
      && (st.outcome.Pass? ==>
            && CookieHeader in st.headers
            && st.headers[CookieHeader] == "__Secure-SessionId=" + cookies[SessionCookieName]
            && OthersUnchanged(h, st.headers, CookieHeader))
      && (st.outcome.Fail? ==> st.headers == h)
  {
  }

  /**
   * The token step logs in and, only if the login succeeded, fetches the redirect
   * page. It passes exactly when both succeed and the page carries a non-empty
   * token, and then sets `antiforgerytoken` to it and changes nothing else.
   */
  lemma TokenStepSpec(h: Headers, userName: string, userPassword: string, server: Server)
    ensures var st := TokenStep(h, userName, userPassword, server);
      var login := Reply(server, LoginUrl);
      var page := Reply(server, RedirectUrl);
      && st.sent[0] == LoginRequest(h, userName, userPassword)
      && st.sent == (if login.ok then [LoginRequest(h, userName, userPassword), RedirectRequest(h)]
                     else [LoginRequest(h, userName, userPassword)])
      && (st.outcome.Pass? <==> login.ok && page.ok && TokenInput(page).Some? && TokenInput(page).value != "")
      && (login.ok && page.ok && TokenInput(page).None? ==> st.outcome == Fail(TokenInputMissing))
      && (login.ok && page.ok && TokenInput(page) == Some("") ==> st.outcome == Fail(TokenEmpty))
      && (st.outcome.Pass? ==>
            && TokenHeader in st.headers
            && st.headers[TokenHeader] == TokenInput(page).value
            && OthersUnchanged(h, st.headers, TokenHeader))
      && (st.outcome.Fail? ==> st.headers == h)
  {
  }

  lemma UrlsDiffer()
    ensures PrepareLoginUrl != LoginUrl && PrepareLoginUrl != RedirectUrl
  {
    assert |PrepareLoginUrl| != |LoginUrl|;
    assert |PrepareLoginUrl| != |RedirectUrl|;
  }

  /**
   * The cookie step runs first, and when it fails nothing else is sent: the login
   * is never attempted. When it passes, every later request carries the cookie
   * header it set.
   */
  lemma CookieBeforeLogin(h: Headers, jar: Cookies, userName: string, userPassword: string, server: Server)
    ensures var cookie := CookieStep(h, jar, server);
      var st := SessionStart(h, jar, userName, userPassword, server);
      && |st.sent| >= 1 && st.sent[0] == CookieRequest(h)
      && (cookie.outcome.Fail? ==>
            && st == cookie
            && forall i :: 0 <= i < |st.sent| ==> st.sent[i].url != LoginUrl)
      && (cookie.outcome.Pass? ==>
            && st.sent[1] == LoginRequest(cookie.headers, userName, userPassword)
            && forall i :: 1 <= i < |st.sent| ==>
                 CookieHeader in st.sent[i].headers && st.sent[i].headers[CookieHeader] == cookie.headers[CookieHeader])
  {
    var cookie := CookieStep(h, jar, server);
    CookieStepSpec(h, jar, server);
    UrlsDiffer();
    if cookie.outcome.Pass? {
      TokenStepSpec(cookie.headers, userName, userPassword, server);
    }
  }

  /**
   * Starting from the portal's default headers: on success exactly `Cookie` and
   * `antiforgerytoken` have been added, with the cookie and token values; on
   * failure `antiforgerytoken` is absent.
   */
  lemma SessionStartFromDefaults(userName: string, userPassword: string, server: Server)
    ensures var st := SessionStart(DefaultHeaders, map[], userName, userPassword, server);
      var cookie := CookieStep(DefaultHeaders, map[], server);
      && (st.outcome.Pass? <==>
            cookie.outcome.Pass? && TokenStep(cookie.headers, userName, userPassword, server).outcome.Pass?)
      && (st.outcome.Pass? ==>
            && st.headers.Keys == DefaultHeaders.Keys + {CookieHeader, TokenHeader}
            && st.headers[CookieHeader] == cookie.headers[CookieHeader]
            && st.headers[TokenHeader] == TokenInput(Reply(server, RedirectUrl)).value
            && forall k :: k in DefaultHeaders ==> st.headers[k] == DefaultHeaders[k])
      && (st.outcome.Fail? ==> TokenHeader !in st.headers)
  {
    var cookie := CookieStep(DefaultHeaders, map[], server);
    CookieStepSpec(DefaultHeaders, map[], server);
    assert CookieHeader !in DefaultHeaders && TokenHeader !in DefaultHeaders;
    if cookie.outcome.Pass? {
      TokenStepSpec(cookie.headers, userName, userPassword, server);
    }
  }

  /**
   * The successful run of `start_session`: three requests, in order, the login and
   * the redirect carrying the cookie header, and both secrets in the final headers.
   */
  lemma SessionStartSucceeds(h: Headers, jar: Cookies, userName: string, userPassword: string, server: Server,
                             cookie: string, token: string)
    requires Reply(server, PrepareLoginUrl).ok
    requires var cookies := jar + Reply(server, PrepareLoginUrl).setCookies;
      SessionCookieName in cookies && cookies[SessionCookieName] == cookie
    requires Reply(server, LoginUrl).ok && Reply(server, RedirectUrl).ok
    requires TokenInput(Reply(server, RedirectUrl)) == Some(token) && token != ""
    ensures var withCookie := h[CookieHeader := "__Secure-SessionId=" + cookie];
      SessionStart(h, jar, userName, userPassword, server)
        == Step(Pass, withCookie[TokenHeader := token],
                [CookieRequest(h), LoginRequest(withCookie, userName, userPassword), RedirectRequest(withCookie)])
  {
    var withCookie := h[CookieHeader := "__Secure-SessionId=" + cookie];
    assert SessionCookieName + "=" == "__Secure-SessionId=";
    assert CookieStep(h, jar, server) == Step(Pass, withCookie, [CookieRequest(h)]);
    assert TokenStep(withCookie, userName, userPassword, server)
        == Step(Pass, withCookie[TokenHeader := token],
                [LoginRequest(withCookie, userName, userPassword), RedirectRequest(withCookie)]);
  }

  // ---------------------------------------------------------------------------
  // Properties of the data extraction

  /** The body has the "Result" marker and `Result.user.Email` and `Result.user.Cellphone` can be read. */
  ghost predicate HasUser(data: Json)
  {
    && data.Obj? && "Result" in data.fields
    && var result := data.fields["Result"];
    && result.Obj? && "user" in result.fields
    && var user := result.fields["user"];
    && user.Obj? && "Email" in user.fields && "Cellphone" in user.fields
  }

  /**
   * The user-context fetch succeeds exactly when the response is a success with a
   * JSON object body that has the "Result" marker and the user's fields, and
   * then yields exactly the keys `email` and `phone`, taken from `Email` and
   * `Cellphone`. An object body without "Result" fails with `NoResult`.
   */
  lemma ReadUserContextSpec(resp: Response)
    ensures var r := ReadUserContext(resp);
      && (!resp.ok ==> r == Err(HttpStatus(UserContextUrl)))
      && (resp.ok && resp.json.Some? && resp.json.value.Obj? && "Result" !in resp.json.value.fields ==>
            r == Err(NoResult))
      && (r.Ok? <==> resp.ok && resp.json.Some? && HasUser(resp.json.value))
      && (r.Ok? ==>
            var user := resp.json.value.fields["Result"].fields["user"];
            && r.value.Keys == {EmailKey, PhoneKey}
            && r.value[EmailKey] == user.fields["Email"]
            && r.value[PhoneKey] == user.fields["Cellphone"])
  {
  }

  /** The property fields that `_get_data_allow_impersonation` reads from `Result.Unit.Unit`. */
  const AddressFields := ["StreetNumber", "StreetName", "StreetTypeName", "City", "State", "Zip"]

  ghost predicate HasUnit(data: Json)
  {
    && data.Obj? && "Result" in data.fields
    && var result := data.fields["Result"];
    && result.Obj? && "Unit" in result.fields
    && var outer := result.fields["Unit"];
    && outer.Obj? && "Unit" in outer.fields
    && var unit := outer.fields["Unit"];
    && unit.Obj? && "SiteName" in unit.fields
    && forall key | key in AddressFields :: key in unit.fields && Render(unit.fields[key]).Ok?
  }

  function UnitText(unit: Json, key: string): string
    requires unit.Obj? && key in unit.fields && Render(unit.fields[key]).Ok?
  {
    Render(unit.fields[key]).value
  }

  /**
   * The property fetch succeeds exactly when the response is a success with a
   * JSON object body that has the "Result" marker and the unit's fields, and then
   * yields exactly `management_company` (the unit's `SiteName`) and `address`,
   * formatted as "{StreetNumber} {StreetName} {StreetTypeName}, {City} - {State} ({Zip})".
   */
  lemma ReadPropertySpec(resp: Response)
    ensures var r := ReadProperty(resp);
      && (!resp.ok ==> r == Err(HttpStatus(ImpersonationUrl)))
      && (resp.ok && resp.json.Some? && resp.json.value.Obj? && "Result" !in resp.json.value.fields ==>
            r == Err(NoResult))
      && (r.Ok? <==> resp.ok && resp.json.Some? && HasUnit(resp.json.value))
      && (r.Ok? ==>
            var unit := resp.json.value.fields["Result"].fields["Unit"].fields["Unit"];
            && r.value.Keys == {CompanyKey, AddressKey}
            && r.value[CompanyKey] == unit.fields["SiteName"]
            && r.value[AddressKey] == Str(
                 UnitText(unit, "StreetNumber") + " " + UnitText(unit, "StreetName") + " "
                 + UnitText(unit, "StreetTypeName") + ", " + UnitText(unit, "City") + " - "
                 + UnitText(unit, "State") + " (" + UnitText(unit, "Zip") + ")"))
  {
    ReadPropertyNeedsUnit(resp);
    if resp.ok && resp.json.Some? && HasUnit(resp.json.value) {
      ReadPropertyOfUnit(resp);
    }
  }

  /** A successful property fetch had a success status and a body with the unit's fields. */
  lemma ReadPropertyNeedsUnit(resp: Response)
    ensures ReadProperty(resp).Ok? ==> resp.ok && resp.json.Some? && HasUnit(resp.json.value)
  {
    if ReadProperty(resp).Ok? {
      var data := resp.json.value;
      var unit := data.fields["Result"].fields["Unit"].fields["Unit"];
      forall key | key in AddressFields
        ensures key in unit.fields && Render(unit.fields[key]).Ok?
      {
        assert RenderedField(unit, key).Ok?;
      }
    }
  }

  /** The property fetch on a body with the unit's fields. */
  lemma ReadPropertyOfUnit(resp: Response)
    requires resp.ok && resp.json.Some? && HasUnit(resp.json.value)
    ensures var unit := resp.json.value.fields["Result"].fields["Unit"].fields["Unit"];
      ReadProperty(resp) == Ok(map[
        CompanyKey := unit.fields["SiteName"],
        AddressKey := Str(AddressLine(
          UnitText(unit, "StreetNumber"), UnitText(unit, "StreetName"), UnitText(unit, "StreetTypeName"),
          UnitText(unit, "City"), UnitText(unit, "State"), UnitText(unit, "Zip")))])
  {
    var unit := resp.json.value.fields["Result"].fields["Unit"].fields["Unit"];
    assert forall i | 0 <= i < |AddressFields| :: AddressFields[i] in AddressFields;
    assert RenderedField(unit, "StreetNumber") == Ok(UnitText(unit, "StreetNumber"));
    assert RenderedField(unit, "StreetName") == Ok(UnitText(unit, "StreetName"));
    assert RenderedField(unit, "StreetTypeName") == Ok(UnitText(unit, "StreetTypeName"));
    assert RenderedField(unit, "City") == Ok(UnitText(unit, "City"));
    assert RenderedField(unit, "State") == Ok(UnitText(unit, "State"));
    assert RenderedField(unit, "Zip") == Ok(UnitText(unit, "Zip"));
  }

  // ---------------------------------------------------------------------------
  // Properties of the merge

  ghost predicate PairwiseDisjoint(ds: seq<Partial>)
  {
    forall i, j :: 0 <= i < j < |ds| ==> ds[i].Keys !! ds[j].Keys
  }

  /** The fold's keys are the union of the inputs' keys. */
  lemma {:induction false} UpdatedKeys(ds: seq<Partial>, k: string)
    ensures k in Updated(ds) <==> exists i :: 0 <= i < |ds| && k in ds[i]
  {
    if ds != [] {
      var init := ds[..|ds| - 1];
      UpdatedKeys(init, k);
      if k in Updated(init) {
        var i :| 0 <= i < |init| && k in init[i];
        assert k in ds[i];
      }
      if exists i :: 0 <= i < |ds| && k in ds[i] {
        var i :| 0 <= i < |ds| && k in ds[i];
        if i < |init| {
          assert k in init[i];
        }
      }
    }
  }

  /** When no two inputs share a key, every key has the value of the one input that holds it. */
  lemma {:induction false} UpdatedAt(ds: seq<Partial>, i: nat, k: string)
    requires PairwiseDisjoint(ds)
    requires i < |ds| && k in ds[i]
    ensures k in Updated(ds) && Updated(ds)[k] == ds[i][k]
  {
    var init := ds[..|ds| - 1];
    if i < |ds| - 1 {
      assert init[i] == ds[i];
      UpdatedAt(init, i, k);
      assert k !in ds[|ds| - 1];
    }
  }

  lemma UpdatedPair(a: Partial, b: Partial)
    ensures Updated([a, b]) == a + b
  {
    assert [a, b][..1] == [a];
    assert [a][..0] == [];
    assert Updated([a]) == map[] + a;
    assert map[] + a == a;
  }

  /**
   * Merging two results with disjoint keys gives their union, whichever comes
   * first.
   */
  lemma MergeOrderFree(a: Partial, b: Partial)
    requires a.Keys !! b.Keys
    ensures Updated([a, b]) == Updated([b, a])
    ensures Updated([a, b]).Keys == a.Keys + b.Keys
    ensures |Updated([a, b])| == |a| + |b|
  {
    UpdatedPair(a, b);
    UpdatedPair(b, a);
    DisjointUnionCommutes(a, b);
    DisjointUnionSize(a, b);
  }

  lemma DisjointUnionCommutes(a: Partial, b: Partial)
    requires a.Keys !! b.Keys
    ensures a + b == b + a
  {
    assert (a + b).Keys == (b + a).Keys;
    forall k | k in a + b
      ensures (a + b)[k] == (b + a)[k]
    {
      if k in a {
        assert k !in b;
      }
    }
  }

  lemma DisjointUnionSize(a: Partial, b: Partial)
    requires a.Keys !! b.Keys
    ensures (a + b).Keys == a.Keys + b.Keys
    ensures |a + b| == |a| + |b|
  {
    assert (a + b).Keys == a.Keys + b.Keys;
    assert |a.Keys + b.Keys| == |a.Keys| + |b.Keys|;
  }

  /**
   * `get_data` yields a record only when both sub-fetches did, and that record
   * has exactly the four keys `email`, `phone`, `management_company`, `address`,
   * each from the sub-fetch that produced it; otherwise it fails with one of
   * the sub-fetches' errors.
   */
  lemma GatheredRecord(r: Result<Partial, Error>, userContext: Result<Partial, Error>, property: Result<Partial, Error>)
    requires Gathered(r, userContext, property)
    requires userContext.Ok? ==> userContext.value.Keys == {EmailKey, PhoneKey}
    requires property.Ok? ==> property.value.Keys == {CompanyKey, AddressKey}
    ensures r.Ok? <==> userContext.Ok? && property.Ok?
    ensures r.Err? ==> (userContext.Err? && r.error == userContext.error) || (property.Err? && r.error == property.error)
    ensures r.Ok? ==>
      && r.value.Keys == {EmailKey, PhoneKey, CompanyKey, AddressKey}
      && |r.value| == 4
      && r.value[EmailKey] == userContext.value[EmailKey]
      && r.value[PhoneKey] == userContext.value[PhoneKey]
      && r.value[CompanyKey] == property.value[CompanyKey]
      && r.value[AddressKey] == property.value[AddressKey]
      && r.value == Updated([property.value, userContext.value])
  {
    if r.Ok? {
      var a, b := userContext.value, property.value;
      MergeOrderFree(a, b);
      assert {EmailKey, PhoneKey} !! {CompanyKey, AddressKey};
      assert |{EmailKey, PhoneKey, CompanyKey, AddressKey}| == 4;
    }
  }

  /**
   * What `get_data` returns against a server: a record exactly when both
   * replies can be read, and it then has exactly the four keys, with the
   * user's `Email` and `Cellphone` and the unit's `SiteName`.
   */
  lemma GetDataRecord(r: Result<Partial, Error>, server: Server)
    requires Gathered(r, ReadUserContext(Reply(server, UserContextUrl)), ReadProperty(Reply(server, ImpersonationUrl)))
    ensures var userContext := ReadUserContext(Reply(server, UserContextUrl));
      var property := ReadProperty(Reply(server, ImpersonationUrl));
      && (r.Ok? <==> userContext.Ok? && property.Ok?)
      && (r.Ok? ==>
            && r.value.Keys == {EmailKey, PhoneKey, CompanyKey, AddressKey}
            && r.value[EmailKey] == userContext.value[EmailKey]
            && r.value[PhoneKey] == userContext.value[PhoneKey]
            && r.value[CompanyKey] == property.value[CompanyKey]
            && r.value[AddressKey] == property.value[AddressKey])
  {
    var userContext := ReadUserContext(Reply(server, UserContextUrl));
    var property := ReadProperty(Reply(server, ImpersonationUrl));
    ReadUserContextSpec(Reply(server, UserContextUrl));
    ReadPropertySpec(Reply(server, ImpersonationUrl));
    GatheredRecord(r, userContext, property);
  }

  // ---------------------------------------------------------------------------
  // The portal object

  class ClickPay {
    const userName: string
    const userPassword: string
    var headers: Headers
    var session: ClientSession?

    constructor (userName: string, userPassword: string)
      ensures this.userName == userName && this.userPassword == userPassword
      ensures headers == DefaultHeaders && session == null
    {
      this.userName := userName;
      this.userPassword := userPassword;
      headers := DefaultHeaders;
      session := null;
    }

    method GetCookie() returns (o: Outcome<Error>)
      requires session != null && session.IsOpen()
      modifies this`headers, session
      ensures session.IsOpen()
      ensures var st := CookieStep(old(headers), old(session.jar), session.server);
        && o == st.outcome && headers == st.headers && session.sent == old(session.sent) + st.sent
        && session.jar == JarAfter(old(session.jar), session.server, st.sent)
    {
      JarAfterOne(session.jar, session.server, CookieRequest(headers));
      var resp := session.Send(CookieRequest(headers));
      if !resp.ok {
        return Fail(HttpStatus(PrepareLoginUrl));
      }
      var cookies := session.jar;
      if SessionCookieName !in cookies {
        return Fail(NoSessionCookie);
      }
      headers := headers[CookieHeader := SessionCookieName + "=" + cookies[SessionCookieName]];
      return Pass;
    }

    method GetAntiForgeryToken() returns (o: Outcome<Error>)
      requires session != null && session.IsOpen()
      modifies this`headers, session
      ensures session.IsOpen()
      ensures var st := TokenStep(old(headers), userName, userPassword, session.server);
        && o == st.outcome && headers == st.headers && session.sent == old(session.sent) + st.sent
        && session.jar == JarAfter(old(session.jar), session.server, st.sent)
    {
      var jar0 := session.jar;
      JarAfterOne(jar0, session.server, LoginRequest(headers, userName, userPassword));
      var login := session.Send(LoginRequest(headers, userName, userPassword));
      if !login.ok {
        return Fail(HttpStatus(LoginUrl));
      }
      JarAfterOne(session.jar, session.server, RedirectRequest(headers));
      JarAfterAppend(jar0, session.server, [LoginRequest(headers, userName, userPassword)], [RedirectRequest(headers)]);
      var page := session.Send(RedirectRequest(headers));
      if !page.ok {
        return Fail(HttpStatus(RedirectUrl));
      }
      var token := TokenInput(page);
      if token.None? {
        return Fail(TokenInputMissing);
      }
      if token.value == "" {
        return Fail(TokenEmpty);
      }
      headers := headers[TokenHeader := token.value];
      return Pass;
    }

    method StartSession() returns (o: Outcome<Error>)
      requires session != null && session.IsOpen()
      modifies this`headers, session
      ensures session.IsOpen()
      ensures var st := SessionStart(old(headers), old(session.jar), userName, userPassword, session.server);
        && o == st.outcome && headers == st.headers && session.sent == old(session.sent) + st.sent
        && session.jar == JarAfter(old(session.jar), session.server, st.sent)
    {
      var jar0, h0 := session.jar, headers;
      o := GetCookie();
      if o.Fail? {
        return;
      }
      o := GetAntiForgeryToken();
      JarAfterAppend(jar0, session.server, CookieStep(h0, jar0, session.server).sent,
                     TokenStep(CookieStep(h0, jar0, session.server).headers, userName, userPassword, session.server).sent);
    }

    method GetUserContext() returns (r: Result<Partial, Error>)
      requires session != null && session.IsOpen()
      modifies session
      ensures session.IsOpen()
      ensures session.sent == old(session.sent) + [UserContextRequest(headers)]
      ensures session.jar == JarAfter(old(session.jar), session.server, [UserContextRequest(headers)])
      ensures r == ReadUserContext(Reply(session.server, UserContextUrl))
    {
      JarAfterOne(session.jar, session.server, UserContextRequest(headers));
      var resp := session.Send(UserContextRequest(headers));
      r := ReadUserContext(resp);
    }

    method GetDataAllowImpersonation() returns (r: Result<Partial, Error>)
      requires session != null && session.IsOpen()
      modifies session
      ensures session.IsOpen()
      ensures session.sent == old(session.sent) + [ImpersonationRequest(headers)]
      ensures session.jar == JarAfter(old(session.jar), session.server, [ImpersonationRequest(headers)])
      ensures r == ReadProperty(Reply(session.server, ImpersonationUrl))
    {
      JarAfterOne(session.jar, session.server, ImpersonationRequest(headers));
      var resp := session.Send(ImpersonationRequest(headers));
      r := ReadProperty(resp);
    }

    method GetData() returns (r: Result<Partial, Error>)
      requires session != null && session.IsOpen()
      modifies session
      ensures session.IsOpen()
      ensures session.sent == old(session.sent) + DataRequests(headers)
      ensures session.jar == JarAfter(old(session.jar), session.server, DataRequests(headers))
      ensures Gathered(r, ReadUserContext(Reply(session.server, UserContextUrl)),
                          ReadProperty(Reply(session.server, ImpersonationUrl)))
    {
      JarAfterAppend(session.jar, session.server, [UserContextRequest(headers)], [ImpersonationRequest(headers)]);
      var userContext := GetUserContext();
      var property := GetDataAllowImpersonation();
      if userContext.Err? {
        return Err(userContext.error);
      }
      if property.Err? {
        return Err(property.error);
      }
      var merged := Reduce([userContext.value, property.value]);
      return Ok(merged);
    }

    /** `RentPortal.__aenter__`: open a new session on `server`, authenticate, hand back the portal. */
    method AEnter(server: Server) returns (o: Outcome<Error>)
      modifies this
      ensures session != null && fresh(session) && session.server == server && session.IsOpen()
      ensures var st := SessionStart(old(headers), map[], userName, userPassword, server);
        && o == st.outcome && headers == st.headers && session.sent == st.sent
        && session.jar == JarAfter(map[], server, st.sent)
    {
      session := new ClientSession(server);
      o := StartSession();
    }

    /** `RentPortal.__aexit__`: close the session if there is one. */
    method AExit()
      modifies session
      ensures session != null ==> session.closeCalls == old(session.closeCalls) + 1
      ensures session != null ==> session.sent == old(session.sent) && session.jar == old(session.jar)
    {
      if session != null {
        session.Close();
      }
    }
  }
}
