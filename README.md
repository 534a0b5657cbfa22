# Lvble portal core in Dafny

Lvble collects a tenant's contact record from a rent-payment portal. A caller
names a portal by a snake_case identifier. The portal factory resolves it to a
portal class, and the portal then logs in and fetches two partial records. The
caller merges them into `{email, phone, management_company, address}`. This
project models three parts of that pipeline and proves properties about them.

- **`snake_to_camel`** (`utils.dfy`, module `Utils`). It splits on `_` (empty
  components kept), applies Python `str.title` to each component, and
  concatenates the results. The model's `Title` is one left-to-right pass that
  remembers whether the previous character was cased. It is proved equal, at
  every position, to an independent per-character rule (`TitleCharAt`).
- **The ClickPay portal** (`click_pay.dfy`, module `ClickPay`).
  - Class `ClickPay` holds the header dictionary and the session, and its
    methods change them as the source does.
  - Each method is proved against a pure function of the old headers and of the
    server's responses: `CookieStep`, `TokenStep`, `SessionStart`,
    `ReadUserContext`, `ReadProperty`, and the fold `Updated`.
  - Lemmas state what the portal promises about those functions.
- **The factory and the lifecycle** (`shared_logic.dfy`, module `SharedLogic`).
  - `CreatePortal` models `RentPortalFactory.create_portal` over an explicit
    registry, with the source's exception handlers in order.
  - `__aenter__` and `__aexit__` are the `AEnter` and `AExit` methods of the
    `ClickPay` class. `WithPortal` models the `async with portal:` block that
    calls `get_data`.
- **Supporting modules.** `http.dfy` (module `Http`) models the network.
  - A `Server` gives one fixed response per URL, plus a 404 for any other URL.
  - A `ClientSession` class records every request sent, its cookie jar, and how
    often it was closed.
  - `wrappers.dfy` holds `Option`, `Result` and `Outcome`.

Behaviours of the code that the model keeps as they are:

- After a failed login the session is never closed. `start_session` runs
  inside `__aenter__`, and `__aexit__` does not run when `__aenter__` raises.
  `WithPortal` states `closeCalls == 0` on that path.
- When both data fetches fail, `asyncio.gather` raises one of the two errors.
  `Gathered` therefore allows the error of either failing fetch.
- A missing module or class is a `ValueError`. A class that is not a
  `RentPortal` subclass gives a `RuntimeError` from the generic handler.
  - A constructor that raises `AttributeError` is reported as "class not found".
    One that raises `ModuleNotFoundError` is reported as "module not found".
- No record field is checked for being non-empty.
- `if not secure_session_id` gets a cookie `Morsel`, which is always truthy. So
  only a missing cookie fails, and an empty cookie value is accepted.
- A missing token `<input>` fails with a `TypeError`, and one without a `value`
  with a `KeyError`. The model keeps both apart from the `ValueError` for an
  empty token (`TokenInputMissing` versus `TokenEmpty`).

## Model

| member | source | states |
|---|---|---|
| Utils.Split | utils.py:9 | `str.split("_")` gives one more component than there are underscores; no component holds `_`; joining them with `_` gives the input back |
| Utils.SplitUnique | utils.py:9 | splitting the `_`-join of underscore-free components gives exactly those components |
| Utils.SplitOfSeparatorFree | utils.py:9 | an identifier without `_` splits into itself alone |
| Utils.TitleAt | utils.py:10 | `str.title` keeps the length; each character is kept if uncased, lowercased after a cased character, and uppercased otherwise |
| Utils.TitleKeepsUncased | utils.py:10 | title-casing never changes whether a character is cased, and leaves uncased characters as they are |
| Utils.TitleAcrossUncased | utils.py:10 | an uncased character splits a word: the title of `a + [c] + b` is `Title(a) + [c] + Title(b)` |
| Utils.TitleLowerWord | utils.py:10 | a lower-case word is title-cased by capitalising its first letter only |
| Utils.SnakeToCamelOfWords | utils.py:8-10 | for underscore-free words, `snake_to_camel` of their `_`-join is the concatenation of their titles |
| Utils.SnakeToCamelHasNoUnderscore | utils.py:9-10 | the result never contains `_` |
| Utils.SnakeToCamelLength | utils.py:9-10 | the result's length is the input's length minus its number of underscores |
| Utils.SnakeToCamelSingle | utils.py:9-10 | an identifier without `_` maps to its title |
| Utils.SnakeToCamelPair | utils.py:9-10 | `a_b`, with `a` and `b` underscore-free, maps to `Title(a) + Title(b)` |
| Utils.SnakeToCamelClickPay | tests/test_modules.py:36 | `snake_to_camel("click_pay") == "ClickPay"` |
| Utils.SnakeToCamelSharedLogic | utils.py:8-10 | `snake_to_camel("shared_logic") == "SharedLogic"` |
| Utils.SnakeToCamelDigit | utils.py:10 | a digit starts a new word: `"click2pay"` maps to `"Click2Pay"` |
| Utils.SnakeToCamelEmptyComponents | utils.py:9-10 | empty components add nothing: `""` maps to `""` and `"a__b"` to `"AB"` |
| Http.ClientSession.Send | portals/click_pay.py:43-47 | a request is appended to the log, the answer is the server's reply to its URL, and the reply's cookies are added to the jar |
| Http.ClientSession.Close | portals/shared_logic.py:20 | closing increments the close counter and changes neither the log nor the jar |
| ClickPay.CookieStepSpec | portals/click_pay.py:39-51 | sends only the prepare-login request; passes exactly when it succeeds and the jar holds `__Secure-SessionId`; then `Cookie` is `__Secure-SessionId=<value>` and all other headers are unchanged; on failure the headers are untouched, with the status error or `NoSessionCookie` |
| ClickPay.TokenStepSpec | portals/click_pay.py:53-75 | sends the login and, only if it succeeded, the redirect GET; passes exactly when both succeed and the page's token is present and non-empty; then `antiforgerytoken` is the token and all other headers are unchanged; a missing token and an empty token are distinct failures; failure leaves the headers untouched |
| ClickPay.CookieBeforeLogin | portals/click_pay.py:29-31 | the first request is the cookie request; if the cookie step fails, the run is that step alone and no login is sent; otherwise the second request is the login, and every later request carries the cookie header |
| ClickPay.SessionStartFromDefaults | portals/click_pay.py:15-31 | from the default headers, success adds exactly `Cookie` and `antiforgerytoken` and keeps every default; a failed start never has `antiforgerytoken` |
| ClickPay.SessionStartSucceeds | portals/click_pay.py:29-75 | when all three responses succeed with a cookie and a non-empty token, the headers gain both and exactly prepare-login, login and redirect are sent, in that order, the last two with the cookie header |
| ClickPay.ReadUserContextSpec | portals/click_pay.py:77-88 | a failed status is that status error; an object body without `"Result"` is `NoResult`; success holds exactly when the body yields `Result.user.Email` and `Result.user.Cellphone`, and the record then has exactly the keys `email` and `phone`, holding those values |
| ClickPay.ReadPropertySpec | portals/click_pay.py:90-108 | as above for the property fetch; the record has exactly `management_company` (the unit's `SiteName`) and `address`, formatted as "{StreetNumber} {StreetName} {StreetTypeName}, {City} - {State} ({Zip})" |
| ClickPay.ReadPropertyNeedsUnit | portals/click_pay.py:101-107 | a property fetch succeeds only on a success status with a body holding `Result.Unit.Unit`, its `SiteName` and six renderable address fields |
| ClickPay.ReadPropertyOfUnit | portals/click_pay.py:105-108 | on such a body the fetch returns exactly the company and the formatted address |
| ClickPay.Reduce | portals/click_pay.py:37 | the `reduce`/`update` loop yields the left fold of `+` over the partial maps, and its keys are the union of theirs |
| ClickPay.UpdatedKeys | portals/click_pay.py:37 | a key is in the fold exactly when some input holds it |
| ClickPay.UpdatedAt | portals/click_pay.py:37 | when no two inputs share a key, each key keeps the value of the one input holding it |
| ClickPay.UpdatedPair | portals/click_pay.py:37 | folding two maps from `{}` gives their override-union |
| ClickPay.MergeOrderFree | portals/click_pay.py:33-37 | for disjoint partial maps, the merge does not depend on order and has the union of the keys and the sum of the sizes |
| ClickPay.GatheredRecord | portals/click_pay.py:33-37 | `get_data` gives a record exactly when both fetches succeed; it then has exactly the four keys, each from its fetch, in either merge order; otherwise it is one of the fetches' errors |
| ClickPay.GetDataRecord | portals/click_pay.py:33-37 | against any server, `get_data` gives a record exactly when both replies can be read; it then has exactly `email`, `phone`, `management_company` and `address`, each taken from its fetch |
| ClickPay.ClickPay.constructor | portals/click_pay.py:12-26 | a new portal holds the credentials, the eight default headers and no session |
| ClickPay.ClickPay.GetCookie | portals/click_pay.py:39-51 | the outcome, the new headers and the requests sent are those of `CookieStep` on the old headers and jar; the jar gains the cookies of the reply |
| ClickPay.ClickPay.GetAntiForgeryToken | portals/click_pay.py:53-75 | the outcome, the new headers and the requests sent are those of `TokenStep` on the old headers; the jar gains the cookies of each reply |
| ClickPay.ClickPay.StartSession | portals/click_pay.py:29-31 | the outcome, the new headers and the requests sent are those of `SessionStart`; the jar gains the cookies of each reply |
| ClickPay.ClickPay.GetUserContext | portals/click_pay.py:77-88 | sends the user-context request, adds its reply's cookies to the jar, and returns `ReadUserContext` of that reply |
| ClickPay.ClickPay.GetDataAllowImpersonation | portals/click_pay.py:90-108 | sends the impersonation request, adds its reply's cookies to the jar, and returns `ReadProperty` of that reply |
| ClickPay.ClickPay.GetData | portals/click_pay.py:33-37 | sends both data requests whatever either returns, adding their replies' cookies to the jar; the result is the merge of both records, or one fetch's error |
| ClickPay.ClickPay.AEnter | portals/shared_logic.py:13-16 | installs a fresh open session on the server, then runs `start_session` from the current headers and an empty jar |
| ClickPay.ClickPay.AExit | portals/shared_logic.py:18-20 | closes the session exactly once when there is one, and changes nothing else |
| SharedLogic.CreatePortalSucceeds | portals/shared_logic.py:31-42 | the factory succeeds exactly when `portals.<id>` imports and holds a class `snake_to_camel(<id>)` that is a `RentPortal` subclass and constructs; the portal is that class built with the credentials |
| SharedLogic.UnknownModule | portals/shared_logic.py:44-45 | a missing module is `ValueError("Module 'portals.<id>' not found.")` |
| SharedLogic.MissingClass | portals/shared_logic.py:46-49 | a module without the class is `ValueError("Class '<Class>' not found in the module 'portals.<id>'.")` |
| SharedLogic.NotASubclass | portals/shared_logic.py:39-40 | a class that is not a `RentPortal` subclass surfaces as a `RuntimeError` carrying the generic prefix and the `TypeError`'s message |
| SharedLogic.ConstructorFailure | portals/shared_logic.py:42-51 | a raising constructor goes through the same handlers: `AttributeError` becomes "class not found", `ModuleNotFoundError` becomes "module not found", anything else a prefixed `RuntimeError` |
| SharedLogic.RegisterIsolated | portals/shared_logic.py:33-34 | registering another module does not change how any identifier resolves |
| SharedLogic.ClickPayResolves | portals/shared_logic.py:33-42 | `click_pay` resolves to class `ClickPay` built with the credentials |
| SharedLogic.SharedLogicIsNotAPortal | portals/shared_logic.py:46-49 | `shared_logic` imports, but it has no class `SharedLogic`, so the result is the "class not found" error |
| SharedLogic.WithPortal | rest_server.py:29-30 | `async with portal: get_data()`: a failed login returns its error and leaves the session open; otherwise both data requests follow the login requests, the session is closed exactly once, and the result is the gathered record, which when present has exactly the four keys |

## Left out

- The aiohttp transport, TLS and timeouts. The server is a fixed response per URL.
- The cookie jar's domain and path filtering (`filter_cookies`). Every cookie a response sets is visible to the next read.
- HTML parsing with BeautifulSoup. The redirect page is given as its `<input>` elements by name.
- Concurrency in `asyncio.gather`. The two data requests are sent one after the other. Both are always sent, and the order cannot matter because their key sets are disjoint.
- The reflection done by `importlib.import_module` and `getattr`. The registry map stands in for it, and Python's module-name validation is not modelled.
- `RentPortal` as an abstract base class. Its lifecycle methods sit on the `ClickPay` class, the only concrete portal.
- ClickPay.ClickPay.GetCookie: requires an open session, because the source raises `AttributeError` on `None` before `__aenter__`, and that misuse is not modelled. The same holds for the other step methods.
- `Http.ClientSession.Send` on a closed session is excluded by its precondition. aiohttp raises `RuntimeError` there.
- ClickPay.Render: a list or an object in an address field is an `Unrendered` failure, whereas an f-string would insert its Python `repr`.
- Utils.TitleAt: only ASCII letters count as cased. Python's Unicode case tables are not modelled.
- The pydantic validation of the record (`DataSchema`, schemas.py), the FastAPI handler and its logging, and the SQLite functions in utils.py. These are outside the core.
