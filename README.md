# someApi authentication glue, modelled in Dafny

This project models the `someApi` AngularJS module (`auth/someApiModule.js`).
The module is the client-side authentication layer of a single-page application.
It does five things:

- It keeps the API key in one cookie, `some_api`. A present, non-empty cookie is the only sign of being logged in (the `User` service).
- It adds `Authorization: Bearer <key>` to outgoing requests when a key is present (`authTokenHttpInterceptor`).
- It reacts to a 401 response. It clears the key, redirects to the login page and still passes the rejection on (`responseError`).
- It redirects to the login page when a route needs a login and nobody is logged in (the `$routeChangeStart` guard).
- It builds the login URL (`ServerUrls.login`). When the current location is worth returning to, the URL carries it as `next=<pathname>%23<hash text>`.

It also contains two helpers of the `utils` service: the request-URL builder and the form-error assignment.

Modules, one per component:

- `Wrappers`: `Option`, which stands for a JavaScript value that may be `undefined`.
- `JsStrings`: the `split` and `join` built-ins the source relies on, with their round-trip lemmas.
- `ServerUrls`: the login-URL builder. It is a pure function of the location's `pathname` and `hash` and of the `addRedirect` argument.
- `RequestUrls`: `getUriBase`, `fixTrailingSlash` and `getRequestUrl`. The base literal is a parameter.
- `User`: the cookie jar as a class holding a `map<string, string>`, and the key queries as functions of that map.
- `Interceptors`: the request interceptor, the 401 handler and the route guard. Each is a method over the objects it changes (request headers, the cookie jar, the window's `href`).
- `FormErrors`: `assignError` and `assignErrors`. They are methods over a form (its controls and the set of invalid ones) and the scope's error map. The loop is proved against the function `AssignAll`.
- `LoginUrlExamples` and `RequestExamples`: the expectations of the source's test suite, restated over the model.

Source behaviour that the model keeps on purpose:

- `getCurrentPathname` returns `undefined` for a pathname that is absent, empty or `/`. The login URL concatenates that value anyway. So a useful hash with no useful pathname gives `/login/?next=undefined%23...` (`ServerUrls.NextWithoutPathname`).
- The hash is cut with `hash.split('#')[1]`. Only the text between the first and the second `#` is kept. A hash with no `#` at all gives `%23undefined`.
- `addRedirect` disables the redirect only when it is exactly `false`. An absent argument behaves like `true`.
- The route guard compares `access` with `undefined` twice: once with `===` and once with `!=`. A route whose `access` is `null` therefore never redirects.
- `reset` removes the cookie only when it holds a non-empty value. An empty cookie stays in the jar.
- `assignErrors` throws a TypeError in two cases: the value is neither an array nor an object whose first key holds an array, or the form has no control with the field's name. Fields handled before the failing one keep their updates.

## Model

| member | source | states |
|---|---|---|
| `JsStrings.Split` | auth/someApiModule.js:178 | `split` gives at least one piece, and no piece contains the separator |
| `JsStrings.SplitFirstPiece` | auth/someApiModule.js:178 | there is one piece exactly when the separator does not occur; otherwise the first piece is the text before the first separator |
| `JsStrings.Join` | auth/someApiModule.js:149-152 | `join` of no pieces is empty, of one piece is that piece, and otherwise starts with the first piece (`JoinAppend` pins down the rest for any separator, `". "` included) |
| `JsStrings.JoinAppend` | auth/someApiModule.js:149-152 | for every separator, joining the pieces followed by one more piece is the join of the pieces, then the separator, then that piece |
| `JsStrings.JoinSplit` | auth/someApiModule.js:178 | joining the pieces of `s.split(c)` with `c` gives back `s` |
| `JsStrings.SplitJoin` | auth/someApiModule.js:178 | splitting a join of separator-free pieces gives back the pieces |
| `JsStrings.SplitSecondPiece` | auth/someApiModule.js:178 | `s.split('#')[1]` is the text between the first and the second `#`, or up to the end when there is no second one |
| `ServerUrls.CurrentPathname` | auth/someApiModule.js:165-171 | the pathname is returned exactly when it is present, non-empty and not `/`; otherwise the result is `undefined` |
| `ServerUrls.HashSegment` | auth/someApiModule.js:178 | `split('#')[1]` is `undefined` when the hash has no `#`, and otherwise contains no `#` |
| `ServerUrls.HashSegmentAfterFirstMark` | auth/someApiModule.js:178 | with a `#` in the hash, the segment is the text after the first `#`, up to the next `#` or the end |
| `ServerUrls.CurrentHashFragment` | auth/someApiModule.js:173-181 | the result is empty exactly when the hash is absent, empty or `#/`; otherwise it starts with `%23` |
| `ServerUrls.LoginUrl` | auth/someApiModule.js:183-192 | the URL always starts with `/login/`; it is exactly `/login/` iff `addRedirect` is `false` or neither pathname nor hash is useful; otherwise it starts with `/login/?next=` |
| `ServerUrls.NextParam` | auth/someApiModule.js:190 | a URL has a `next` value exactly when it starts with `/login/?next=`, and the value is the text after that prefix |
| `ServerUrls.AbsentMeansTrue` | auth/someApiModule.js:184-186 | `login()` and `login(true)` give the same URL for every location |
| `ServerUrls.NextOfRedirect` | auth/someApiModule.js:188-191 | whenever a redirect is added, `next` is the rendered pathname (or the word `undefined`) followed by the encoded hash fragment |
| `ServerUrls.HashFragmentOfSimpleHash` | auth/someApiModule.js:173-181 | a useful hash `#t` with no further `#` is sent as `%23t` |
| `ServerUrls.HashCutAtSecondMark` | auth/someApiModule.js:178 | a hash `#t#rest` contributes only `%23t` |
| `ServerUrls.HashWithoutMark` | auth/someApiModule.js:178 | a useful hash with no `#` contributes `%23undefined` |
| `ServerUrls.NextIsPathname` | auth/someApiModule.js:188-190 | a useful pathname with no useful hash makes `next` the pathname itself |
| `ServerUrls.NextIsPathnameAndHash` | auth/someApiModule.js:188-190 | a useful pathname `p` with a useful hash `#t` makes `next` equal to `p%23t` |
| `ServerUrls.NextWithoutPathname` | auth/someApiModule.js:165-190 | a useful hash `#t` without a useful pathname makes `next` equal to `undefined%23t` |
| `ServerUrls.NextDecodesToLocation` | auth/someApiModule.js:177-190 | for a useful pathname, a useful hash `#t` with no further `#`, and `login()` called with no argument, decoding `%23` in `next` gives back the pathname followed by the hash, provided neither already contains the text `%23` (a hash with a second `#` loses its tail, see `HashCutAtSecondMark`) |
| `RequestUrls.UriBase` | auth/someApiModule.js:119-126 | a literal starting with the `@@` placeholder gives `/api/1.0/`; any other literal is used as it is |
| `RequestUrls.SourceLiteralIsBase` | auth/someApiModule.js:121-122 | the shipped literal `http://localhost:8000/api/1.0/` is used as it is |
| `RequestUrls.TrimTrailingSlashes` | auth/someApiModule.js:128 | the trimmed text is a prefix that does not end with `/`, and everything removed is `/` |
| `RequestUrls.FixTrailingSlash` | auth/someApiModule.js:127-129 | a path without a trailing `/` is unchanged; otherwise the result ends with `/?`, and what comes before is a prefix of the path that does not end with `/`, with only slashes removed after it |
| `RequestUrls.FixLeavesPlainPath` | auth/someApiModule.js:127-129 | a path that does not end with `/` is left unchanged |
| `RequestUrls.TrimSlashRun` | auth/someApiModule.js:128 | trimming `p` followed by any number of slashes gives `p` |
| `RequestUrls.FixSlashRun` | auth/someApiModule.js:127-129 | a run of one or more trailing slashes becomes a single `/?` |
| `RequestUrls.StemAndRun` | auth/someApiModule.js:128 | every path is its trimmed stem followed by a run of slashes |
| `RequestUrls.FixIdempotent` | auth/someApiModule.js:127-129 | applying the rewrite twice is the same as applying it once |
| `RequestUrls.RequestUrl` | auth/someApiModule.js:131-133 | the request URL starts with the base; it is base plus path when the path has no trailing slash, and base plus the path without its trailing slashes plus `/?` when it has one |
| `User.GetApiKey` | auth/someApiModule.js:38-40 | the key is the `some_api` cookie's value, and absent exactly when there is no such cookie |
| `User.HasApiKey` | auth/someApiModule.js:42-44 | true iff the `some_api` cookie is present and non-empty |
| `User.IsLoggedIn` | auth/someApiModule.js:34-36 | equals `hasApiKey` |
| `User.LoggedInIgnoresOtherCookies` | auth/someApiModule.js:32-44 | writing any other cookie does not change whether the user is logged in |
| `User.CookieJar.Reset` | auth/someApiModule.js:46-57 | afterwards no key is present; a present key is removed with nothing else changed; without a key the jar is unchanged |
| `Interceptors.Window.RedirectToLogin` | auth/someApiModule.js:89 | `href` becomes the login URL for the current location, and the location fields do not change |
| `Interceptors.AuthTokenRequest` | auth/someApiModule.js:98-103 | with a key, `Authorization` is set to `Bearer <key>` and no other header changes; without one, the headers are unchanged; the same config object is returned |
| `Interceptors.ResponseError` | auth/someApiModule.js:15-26 | the result is always the same rejection; on status exactly 401 the key is gone and `href` is the login URL; on any other status the jar and `href` are unchanged |
| `Interceptors.GuardRedirects` | auth/someApiModule.js:87 | redirect iff (`access` is undefined, or declared without `allowAnonymous: true`) and the `some_api` cookie is absent or empty |
| `Interceptors.RouteChangeStart` | auth/someApiModule.js:84-93 | `href` becomes the login URL exactly when the guard decides to redirect; otherwise it is unchanged |
| `FormErrors.DisplayMessage` | auth/someApiModule.js:147-153 | an array of messages is shown joined with `". "`; a nested object has a message exactly when its first key holds an array, and that message is the array joined with `". "`; a scalar value has no message (the source throws) |
| `FormErrors.AssignError` | auth/someApiModule.js:157-160 | succeeds iff the form has a control of that name; then the field is marked invalid and its message recorded; otherwise nothing changes |
| `FormErrors.Step` | auth/someApiModule.js:146-159 | one iteration completes iff the entry has a message and a form control; then the field is added to the invalid set and to the messages, holding its display message, and every other field keeps its message; otherwise the state is unchanged and the TypeError names the field |
| `FormErrors.AssignAll` | auth/someApiModule.js:145-155 | the loop only adds to the invalid set, only fields that are form controls, and never removes a message |
| `FormErrors.AssignErrors` | auth/someApiModule.js:144-156 | the new invalid set, error map and outcome are those of `AssignAll` applied to the old ones |
| `FormErrors.ThrowPersists` | auth/someApiModule.js:145-155 | once an entry has thrown, later entries change nothing |
| `FormErrors.CompletesIffAllAssignable` | auth/someApiModule.js:145-158 | the run completes iff every entry has a message and a form control |
| `FormErrors.AssignAllMarksInvalid` | auth/someApiModule.js:158 | after a complete run, the invalid set is the old one plus every field named in the errors |
| `FormErrors.AssignAllNamesPresent` | auth/someApiModule.js:159 | after a complete run, every field named in the errors has a message |
| `FormErrors.AssignAllWritesMessages` | auth/someApiModule.js:149-159 | after a complete run, every field named in the errors holds the joined messages of its last entry |
| `FormErrors.AssignAllKeepsOthers` | auth/someApiModule.js:144-160 | after a complete run, a field not named in the errors keeps its message, or its lack of one |
| `FormErrors.StopsAtFirstFailure` | auth/someApiModule.js:145-158 | a failing entry ends the run with a TypeError naming its field; only the entries before it have been applied |
| `LoginUrlExamples.LoginUrlWithoutLocation` | auth/someApiModuleSpec.js:107-111 | no pathname and no hash give `/login/` |
| `LoginUrlExamples.LoginUrlWithPathname` | auth/someApiModuleSpec.js:113-119 | pathname `/some-path/index.html` gives `/login/?next=/some-path/index.html` |
| `LoginUrlExamples.LoginUrlWithRedirectTrue` | auth/someApiModuleSpec.js:121-127 | `login(true)` gives the same URL with `next` |
| `LoginUrlExamples.LoginUrlWithRedirectFalse` | auth/someApiModuleSpec.js:129-135 | `login(false)` gives `/login/` |
| `LoginUrlExamples.LoginUrlWithPathnameAndHash` | auth/someApiModuleSpec.js:137-144 | pathname and hash `#/some-route` give `/login/?next=/some-path/index.html%23/some-route` |
| `LoginUrlExamples.LoginUrlAtRoots` | auth/someApiModuleSpec.js:146-153 | pathname `/` with hash `#/` gives `/login/` |
| `RequestExamples.RequestUrlExamples` | auth/someApiModuleSpec.js:40-50 | `/something/` ends as `/something/?`, and `/something` is kept as it is |
| `RequestExamples.InterceptorClient` | auth/someApiModuleSpec.js:68-82 | with the key `any-key` the headers become exactly `Authorization: Bearer any-key`; without a key no `Authorization` header appears |

## Left out

- `blobToDataURL` (auth/someApiModule.js:134-143): it reads a blob with `FileReader` and resolves a promise, which is browser I/O.
- Module creation and interceptor registration, including the PATCH `Content-Type` default (auth/someApiModule.js:1-4, 107-116): framework wiring with no logic.
- The pass-through `request` hook of the first interceptor and its commented-out login check (auth/someApiModule.js:6-14), and the empty `$locationChangeStart` handler (auth/someApiModule.js:74-76): they do nothing.
- Cookie serialisation: `reset` writes `document.cookie` with an expired date and `path=/`. The model keeps only the effect: the `some_api` entry leaves the jar.
- Navigation: assigning `location.href` is modelled as recording the URL in `Window.href`. The page load that follows is not modelled.
- `$log` calls, and the `$q` promise machinery. `responseError` returns `Rejected(rejection)`, which is the value `$q.reject(rejection)` settles with. The `$q.when(config)` alternative of the request interceptor is never reached, because `config` is an object and so truthy.
- `addRedirect` is an `Option<bool>`. The source turns every value other than a strict `false` into `true` (auth/someApiModule.js:184-186), so any other value behaves as `Some(true)` or `None` does here.
- `allowAnonymous` is an `Option<bool>`. The source tests it by truthiness (`!next.access.allowAnonymous`, auth/someApiModule.js:87); truthy or falsy values other than booleans are not covered.
- The errors object of `assignErrors` is a sequence of name/value pairs in enumeration order. JavaScript enumerates integer-like keys first; the caller's sequence is taken as that order. Message arrays hold strings only; `join` would render `null` and `undefined` elements as empty text.
- The `User` service and the interceptors read the cookie jar each time they run, as the source does. Other tabs, and cookie expiry decided by the server, are outside the model.
