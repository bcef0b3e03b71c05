# assemble routing core in Dafny

This project models the request-routing core of the `assemble` HTTP
micro-framework, and proves properties of the model. The core has two
generations, and the model covers both, plus the diagnostic route export of
the older one.

- **Current router** (`src/route.ts`, `src/router.ts`,
  `src/helpers/request/route.ts`).
  - A `Route` is a method, a path, a handler and a middleware list.
  - Construction normalises the path: a leading `/` is added and one
    trailing `/` is removed.
  - `Router.export` flattens a tree of routes into a table of (method,
    absolute path, handler) entries. It keeps a nested entry only when the
    two methods are compatible, and it folds the parent's middlewares
    around the child's handler.
  - `findHandler` returns the first exact match and binds `:name`
    parameters; a decimal segment binds a number.
  - Otherwise it chooses a `NOT_FOUND` entry by the longest agreeing prefix
    of its pattern; on a tie, the shorter pattern wins.
  - Modules: `Routes` (routes.dfy), `Flatten` (flatten.dfy), `Dispatch`
    (dispatch.dfy), `Paths` (paths.dfy).
- **Legacy trie router** (`src/index.ts`).
  - Each method gets a trie of literal keys plus one `global` parameter
    child; the table is called `routesSwitch`.
  - A request walks the `ANY` trie first and then the trie of its own
    method.
  - It falls back to the single `NOT_FOUND` handler.
  - `compose` answers with the first truthy result of a handler list.
  - Modules: `Legacy` (legacy.dfy), `LegacyDispatch` (legacy_dispatch.dfy).
- **Legacy route export** (`src/jsonify.ts`, `src/export-routes.ts`).
  - The table is jsonified and round-tripped through JSON text.
  - It is then listed path by path, grouped by verb and merged by
    parameter-insensitive normal form, then sorted.
  - Modules: `JsonExport` (jsonify.dfy), `ExportJson` (export_json.dfy),
    `ExportPaths` (export_paths.dfy), `RouteExport` (route_export.dfy).

Shared support lives in `Wrappers` (`Option`, and `Outcome` for a result or
a thrown error), `Strings`, `Sorting` and `Objects`. `Objects` models a
JavaScript object as an ordered list of key/value properties.

Handlers and middlewares are symbolic terms. A current-router handler is an
application function `Base(id)`, a middleware applied to a handler
`Wrap(m, h)`, or a router `Router(routes)`. A legacy handler is a function
`Fn(id)`, or the function that `routes(...)` returns, which carries its
table. Whatever a handler does with a request is a parameter, `run`, of the
legacy dispatch functions. For the current router, dispatch returns the
handler to invoke together with the request it receives.

Some behaviours of the code are easy to misread, and the model keeps them:
- Middleware order. `Router.export` folds a route's middlewares left to
  right, so the last-declared middleware is the outermost wrapper
  (`src/router.ts:104`).
- A wrapped router is a leaf. A middleware applied to a `Router` gives a
  plain function, which `export` does not flatten (`src/router.ts:94`).
- The not-found fallback always applies. Once any `NOT_FOUND` entry
  exists, one is chosen, even when no segment of it agrees with the request
  (`src/router.ts:54-61`).
- `any` is bound to `'GET'` in the current router (`src/route.ts:55`), not
  to `'ANY'`.
- A numeral segment binds a number, and not only a run of digits: `1.5`,
  `-3`, `0x1F` and ` 7` pass `Number` too (`src/router.ts:33-34`).
- A legacy route declared without its leading `/` loses its first segment,
  so `get('users', h)` files `h` where `get('/', h)` would
  (`src/index.ts:12`).

The method constants of `src/request` are not part of this model. They are
taken to be the strings they are named after (`'GET'`, …, `'ANY'`,
`'NOT_FOUND'`).

## Model

Helpers without a row of their own get their meaning from the end-to-end
rows. The steps of `routeRequest` (`LegacyDispatch.RouteRequest`,
`LegacyDispatch.ResponseOrNotFound`, `LegacyDispatch.RemoveSegments`,
`LegacyDispatch.ComputeRouteRequest`) are stated by the
`LegacyDispatch.RouteRequestWalks`, `LegacyDispatch.RouteRequestReaches`,
`LegacyDispatch.RouteRequestBuilt`, `LegacyDispatch.RouteRequestFallback` and
`LegacyDispatch.RouteRequestFixed` rows. `Legacy.SelectHandler`, the
per-method step of the table reduction, is stated by the `Legacy.CreateRouterHash`,
`Legacy.BuildFromNotFound` and `Legacy.BuildTableShape` rows, and
`Legacy.RoutesOf`, the function `routes` returns, by the `Legacy.Context` row.

| member | source | states |
|---|---|---|
| Paths.RemoveTrailingSlash | src/helpers/request/route.ts:1-5 | the result is a prefix of the input, at most one character shorter; it is shorter exactly when the input ends in `/` and is not `/`; unless the input ends in `//`, the result is `/` or does not end in `/` |
| Paths.ParamName | src/router.ts:30-31 | a `:name` segment is `:` followed by the name it binds |
| Routes.NormalizePath | src/route.ts:19-20 | the result is the input with a `/` put in front when missing, minus one trailing `/` exactly when that slash-prefixed input ends in `/` and is not `/`; it keeps the input's segments, is canonical unless the input ends in `//`, and leaves a canonical path unchanged |
| Routes.NormalizePathExamples | src/route.ts:19-22 | `user`, `/user` and `/user/` all become `/user` |
| Routes.NormalizeRootExamples | src/route.ts:19-22 | `""`, `/` and `//` all become `/` |
| Routes.MakeRoute | src/route.ts:13-25 | the constructor stores the method, handler and middlewares unchanged, and the normalised path, which starts with `/` and has the same segments as the one given |
| Routes.RouteFor | src/route.ts:27-31 | `Route.route(method)` builds a route of that method with the handler unchanged, no middleware, and the path normalised as the constructor does |
| Routes.Get | src/route.ts:49 | `get` builds a `GET` route with the handler unchanged, no middleware, and the normalised path, which keeps the given path's segments |
| Routes.Post | src/route.ts:50 | `post` builds a `POST` route, as for `get` |
| Routes.Patch | src/route.ts:51 | `patch` builds a `PATCH` route, as for `get` |
| Routes.Put | src/route.ts:52 | `put` builds a `PUT` route, as for `get` |
| Routes.Del | src/route.ts:53 | `del` builds a `DELETE` route, as for `get` |
| Routes.Options | src/route.ts:54 | `options` builds an `OPTIONS` route, as for `get` |
| Routes.Any | src/route.ts:55 | `any` is `get`: its route has method `GET`, not `ANY` |
| Routes.Context | src/route.ts:33-42 | a context is an `ANY` route whose handler is the router of the nested routes, with the middlewares in declaration order and the path normalised as the constructor does (`user` is stored as `/user`) |
| Routes.NotFound | src/route.ts:44-46 | `notFound(h)` is a `NOT_FOUND` route at `/` with handler `h` and no middleware |
| Flatten.Fold | src/router.ts:104 | folding middlewares wraps the handler in them with the last-declared outermost, and the wrapped core is unchanged |
| Flatten.FoldSnoc | src/router.ts:104 | appending a middleware to the list wraps the folded handler once more, on the outside |
| Flatten.Nest | src/router.ts:97-106 | a nested entry is kept exactly when the parent is `ANY`, the child is `ANY`, or their methods are equal; a kept entry has the child's method, the joined path and the folded handler |
| Flatten.ExportRoute | src/router.ts:92-106 | every entry a route yields has a method compatible with the route's, and a route whose handler is not a router yields itself |
| Flatten.Export | src/router.ts:91-107 | every declared route whose handler is not a router is an entry of the table |
| Flatten.ExportAppend | src/router.ts:91-92 | the export of a list of routes is the concatenation of the exports of its parts, in declaration order |
| Flatten.ExportRouteShape | src/router.ts:92-106 | a route whose handler is not a router, or whose router exports nothing, yields exactly itself as one entry; otherwise it yields the nested entries it is compatible with |
| Flatten.ExportMember | src/router.ts:91-107 | an entry is in the export exactly when some declared route yields it |
| Flatten.LiftSegments | src/router.ts:102-103 | a nested entry's path has the parent's segments followed by the child's |
| Flatten.LiftStartsWithSlash | src/router.ts:102-103 | a nested entry's path starts with `/` when the parent's does |
| Flatten.ExportPathsRooted | src/router.ts:91-108 | every exported path of well-formed routes starts with `/` |
| Flatten.ExportRoutePathsRooted | src/router.ts:92-106 | every entry that one well-formed route yields has a path that starts with `/` |
| Dispatch.Coerce | src/router.ts:33-34 | a run of decimal digits binds the number it denotes; another string that `Number` accepts binds a numeral; a string that gives `NaN` binds its raw text |
| Dispatch.CoerceNonDecimal | src/router.ts:33-34 | `2a` binds the string `2a`, and `1.5` binds a numeral |
| Numerals.Trim | src/router.ts:33 | trimming removes only surrounding white space: the result starts and ends with other characters, and text without white space is unchanged |
| Numerals.TrimStrips | src/router.ts:33 | the trimmed text is the input cut at two places with only white space before the first and after the second; with `Numerals.Trim`'s end characters this is exactly the input minus its leading and trailing white space |
| Numerals.BlankTrimsEmpty | src/router.ts:33 | text of white space alone, the empty text included, trims to the empty text, which `Number` reads as 0 |
| Numerals.DecimalIsNumeral | src/router.ts:33-34 | a run of decimal digits is always accepted by `Number` |
| Numerals.FractionNumerals | src/router.ts:33-34 | `1.5` and `-3` are numerals |
| Numerals.ExponentNumerals | src/router.ts:33-34 | `1e3` and `.5` are numerals |
| Numerals.OtherNumerals | src/router.ts:33-34 | `0x1F`, `Infinity` and ` 7` are numerals |
| Numerals.NotNumerals | src/router.ts:33-34 | `2a` and `1.2.3` give `NaN` |
| Numerals.MoreNotNumerals | src/router.ts:33-34 | `e5` and `-0x1` give `NaN` |
| Dispatch.CoerceExamples | tests/server.test.ts:68-78 | `2` binds the number 2 and `2a` the string `2a` |
| Dispatch.Bind | src/router.ts:27-37 | a pattern matches exactly when every segment is literally equal or a parameter; the context gains exactly the names bound, each mapped to the value of the last segment that binds it, and keeps other keys |
| Dispatch.BindOwnSegments | src/router.ts:27-37 | a pattern matches its own segments and binds nothing |
| Dispatch.FirstMatch | src/router.ts:23-40 | the result is the first entry in table order with the same lower-cased method, the same segment count and a matching pattern; there is none exactly when no entry matches |
| Dispatch.FindExact | src/router.ts:23-39 | an exact match exists exactly when some entry matches; it is the first such entry's handler with the parameters it binds |
| Dispatch.Score | src/router.ts:42-53 | the not-found score counts the leading pattern segments that equal the request segment or are parameters, up to the first that does not |
| Dispatch.BetterStep | src/router.ts:54-58 | replacing the kept candidate by a better one keeps it better than everything the kept one beat |
| Dispatch.SelectFrom | src/router.ts:41-60 | the not-found loop ends on a candidate no other candidate beats, and which beats every earlier one |
| Dispatch.SelectNotFound | src/router.ts:41-61 | a candidate is selected exactly when one exists; none beats it, and it is the first of the best |
| Dispatch.NotFoundFallbacks | tests/server.test.ts:80-92 | with fallbacks at `/post` and at `/`, `/post/anything` selects the first and `/users/anyting` the second |
| Dispatch.FindHandler | src/router.ts:15-62 | an exact match wins; without one, the first `NOT_FOUND` handler in table order that no candidate beats is chosen, with an empty context; nothing is found exactly when neither exists |
| Dispatch.FoundsAppend | src/router.ts:78 | the non-`NOT_FOUND` filter keeps table order: filtering a concatenation concatenates the filtered parts |
| Dispatch.NotFoundsAppend | src/router.ts:79 | the `NOT_FOUND` filter keeps table order in the same way |
| Dispatch.FoundsSingle | src/router.ts:78-79 | a single entry is kept by exactly one of the two filters, by its method |
| Dispatch.Dispatch | src/router.ts:80-88 | a request is an internal error exactly when nothing is found; with any `NOT_FOUND` entry a handler is always invoked; an exact match is invoked with the request's context replaced by the bound parameters; otherwise the first best `NOT_FOUND` handler is invoked with an empty context |
| Dispatch.OwnPathResolves | src/router.ts:23-39 | a request with an entry's own method, in any case, and its own path resolves to that entry or an earlier matching one |
| Legacy.AddTrailingSlash | src/index.ts:158-168 | strings of length at most one are unchanged; a longer string ends in `/` afterwards, and `/` is appended exactly when it was missing |
| Legacy.AddTrailingSlashIdempotent | src/index.ts:158-168 | adding a trailing slash twice is adding it once |
| Legacy.MatcherFor | src/index.ts:176-185 | a matcher stores the method and handler unchanged and the route with its trailing slash |
| Legacy.Get | src/index.ts:187 | `get` stores `GET` and the route with its trailing slash |
| Legacy.Post | src/index.ts:188 | `post` stores `POST`, as for `get` |
| Legacy.Patch | src/index.ts:189 | `patch` stores `PATCH`, as for `get` |
| Legacy.Put | src/index.ts:190 | `put` stores `PUT`, as for `get` |
| Legacy.Del | src/index.ts:191 | `del` stores `DELETE`, as for `get` |
| Legacy.Options | src/index.ts:192 | `options` stores `OPTIONS`, as for `get` |
| Legacy.Any | src/index.ts:193 | `any` stores `ANY`, as for `get` |
| Legacy.NotFound | src/index.ts:195-201 | `notFound(h)` stores `NOT_FOUND`, the route `''` and `h` |
| Legacy.DropLastChar | src/index.ts:203-212 | the matcher keeps its method and handler; its route loses its last character unless it is `/` |
| Legacy.Context | src/index.ts:214-226 | a function or a matcher list gives an `ANY` matcher over it whose route is the endpoint with its trailing slash dropped; anything else throws `'Context Error'` |
| Legacy.RouteSegments | src/index.ts:12 | the segments join back into the text after the route's first `/`, whether or not the route starts with one; a route without `/` has none; no segment holds a `/` |
| Legacy.RelativeRouteAtRoot | src/index.ts:12 | `users`, with its trailing slash added, has the same segments as the root route `/` |
| Legacy.SetChild | src/index.ts:31-32 | writing a literal key sets that key, leaves every other key and the `global` entry unchanged |
| Legacy.SetGlobal | src/index.ts:24-29 | writing `global` sets it and leaves every literal key unchanged |
| Legacy.AddHandler | src/index.ts:14-36 | no segments gives the handler itself; a literal segment descends under its key, a parameter under `global` with its name; a function node is left as it is |
| Legacy.CreateRouterHash | src/index.ts:52-57 | the method's entry becomes its trie with the matcher inserted; a new method is added at the end, other keys keep their order, and every other method keeps its trie |
| Legacy.BuildFromMethod | src/index.ts:52-57 | a method's trie is the insertion of exactly its own matchers, in order |
| Legacy.BuildFromNotFound | src/index.ts:44-57 | the `NOT_FOUND` entry holds the handler of the last `notFound` declared |
| Legacy.BuildFromKeys | src/index.ts:52-57 | a method is a key of the table exactly when it was one before or a matcher declares it |
| Legacy.BuildTable | src/index.ts:148 | the table has a key exactly for each method some matcher declares, and each method once |
| Legacy.BuildFromUnique | src/index.ts:148 | the reduction keeps each method a single property |
| Legacy.BuildTableShape | src/index.ts:147-148 | the built table has a key exactly for each declared method, with that method's trie, and `NOT_FOUND` holds the last not-found handler |
| LegacyDispatch.Walk | src/index.ts:59-77 | the walk stops, with the node, segments and context it was given, at a function or when no segments remain; it throws exactly when a missing node is walked with segments left; a node with neither a `global` entry nor a key for the next segment ends the walk with nothing found and that segment consumed; it never gives back more segments than it got, ending on an object node means every segment was consumed, and it only adds context keys |
| LegacyDispatch.WalkGlobalFirst | src/index.ts:66-69 | a node with a `global` entry takes the next segment through it whatever literal keys the node holds, binding the entry's name to that segment and going on in its `parts` |
| LegacyDispatch.WalkLiteral | src/index.ts:70-72 | without a `global` entry, the literal key equal to the next segment is followed and the context is left as it is |
| LegacyDispatch.UserTestTakesParameter | src/index.ts:59-75 | with `/user/test` and `/user/:id` declared in that order, the request `/user/test/` reaches the handler of `/user/:id` with `id` bound to `test` |
| LegacyDispatch.WalkInserted | src/index.ts:14-77 | walking an inserted route with an instance of its segments reaches its handler, consumes every segment and binds each parameter |
| LegacyDispatch.PathSegments | src/index.ts:108-110 | for any path starting with `/`, the root included, the computed segments end with the empty segment of the trailing slash, and their non-empty ones are the path's |
| LegacyDispatch.MethodNode | src/index.ts:93 | the method's trie is missing exactly when a non-empty method has no key in the table; an absent or empty method walks `{}` |
| LegacyDispatch.GetHandler | src/index.ts:79-97 | the lookup throws exactly when the `ANY` walk finds nothing, the method has no trie, and segments remain |
| LegacyDispatch.GetHandlerFixed | src/index.ts:92-95 | with an undeclared method walking `{}`, the lookup never throws and agrees with the original whenever that does not throw |
| LegacyDispatch.RouteRequestReaches | src/index.ts:79-145 | on a table without `ANY` routes, a request whose segments fit a route inserted into its method's trie calls that route's handler with every parameter bound and the segments dropped, and a falsy answer falls back to `NOT_FOUND` |
| LegacyDispatch.RouteRequestWalks | src/index.ts:79-145 | for any table, when the `ANY` walk finds nothing and the walk of the request's method trie reaches a function with every segment consumed, that function is called with the context the walks bound and the segments dropped, its truthy answer is the result, and a falsy one falls back to `NOT_FOUND` |
| LegacyDispatch.RouteRequestBuilt | src/index.ts:79-148 | for a table built from any matchers, the `i`-th matcher of the request's method is called, with its parameters bound on top of what the `ANY` walk bound, when the `ANY` routes reach nothing, the earlier routes of the method leave its route clear, and every later one leaves the request's path at a literal segment |
| LegacyDispatch.WalkPastFork | src/index.ts:14-36 | inserting a route that leaves the request's path at a literal segment before any parameter of its own keeps the function the request reached, and the context it bound |
| LegacyDispatch.WalkPastForks | src/index.ts:52-57 | the same for a run of later matchers inserted one after the other |
| LegacyDispatch.InsertAllAppend | src/index.ts:52-57 | inserting two runs of matchers is inserting the first, then the second |
| LegacyDispatch.InsertAllAt | src/index.ts:52-57 | inserting a method's matchers passes through the trie of its first `i` matchers with the `i`-th one added |
| LegacyDispatch.InsertedReached | src/index.ts:14-77 | in the trie a method's matchers build, segments that fit the `i`-th route reach its handler with its parameters bound, when the earlier routes leave it clear and every later one forks away |
| LegacyDispatch.RouteRequestFallback | src/index.ts:79-145 | a request whose first segment matches neither a literal key nor a `global` of its method's trie reaches the `NOT_FOUND` handler, with that segment consumed and the context unchanged |
| LegacyDispatch.RouteRequestFixed | src/index.ts:134-145 | with the corrected lookup, a request with nothing found always reaches the not-found fallback, and the result agrees with the original whenever that does not throw |
| LegacyDispatch.UndeclaredThrows | src/index.ts:92-95 | as written, on a table without `ANY` routes, any request with segments whose method has no trie throws |
| LegacyDispatch.UndeclaredMethodThrows | src/index.ts:92-95 | with only `GET /a` and a not-found handler declared, `POST /a` throws, while the corrected router answers with the not-found handler |
| LegacyDispatch.Compose | src/index.ts:228-244 | the first handler with a truthy answer gives the result; when none has one, the result is the `compose` internal error |
| LegacyDispatch.ComposeAppend | src/index.ts:228-244 | composing a concatenation answers as the first part when it answers, and as the second part otherwise |
| JsonExport.JsonifyEntry | src/jsonify.ts:4-11 | the value under `''` becomes `'end'`; a value with `export` is replaced by its `toJSON()` result, and throws without one; every other value is jsonified |
| JsonExport.JsonifyProps | src/jsonify.ts:3-12 | the keys are kept in order, each value is its entry's result, and the reduction throws exactly when some entry throws |
| JsonExport.Jsonify | src/jsonify.ts:1-16 | a non-object is returned unchanged; an object keeps exactly its keys and succeeds exactly when all its properties do |
| JsonExport.ToJson | src/jsonify.ts:18-20 | `toJSON(s)` is a thunk that returns `jsonify(s)` on every call |
| JsonExport.JsonifyTotal | src/jsonify.ts:1-16 | a value with no `export` method anywhere is jsonified without throwing |
| JsonExport.RoundTrip | src/export-routes.ts:94 | after the JSON round trip, strings and objects remain, and a function without a usable `toJSON` result is dropped |
| JsonExport.RoundTripProps | src/export-routes.ts:94 | the round trip keeps only properties that were present, never more of them |
| ExportJson.HandlerValue | src/index.ts:147-156 | a handler is a function without `export`, and a plain function has no `toJSON` |
| ExportJson.TableValue | src/index.ts:147-148 | `routesSwitch` as a value is an object with one property per method |
| ExportJson.TrieJson | src/jsonify.ts:1-16 | the JSON of a trie: a plain function vanishes, and an object stays an object |
| ExportJson.TableRoundTrip | src/export-routes.ts:94 | jsonifying a table never throws, and its round trip is the table's JSON view |
| ExportJson.TrieRoundTrip | src/jsonify.ts:1-16 | jsonifying a trie never throws, and its round trip is the trie's JSON view |
| ExportJson.SlotsRoundTrip | src/jsonify.ts:3-12 | the properties of a trie node round-trip to the node's JSON properties |
| ExportJson.GlobRoundTrip | src/jsonify.ts:3-12 | a `global` entry round-trips to `{ name, parts }`, with `parts` dropped when it is a plain function |
| ExportPaths.Field | src/export-routes.ts:7-8 | a property of a string is `undefined`, and a property of an object is its value |
| ExportPaths.Prefixed | src/export-routes.ts:21 | each listed sub-path is joined to the prefix by a `/` |
| ExportPaths.AllPaths | src/export-routes.ts:18-22 | `undefined` throws; `''` lists nothing and any other string never returns; every path listed starts with the prefix and `/` |
| ExportPaths.SubPaths | src/export-routes.ts:19-20 | an object without entries lists nothing, and an `'end'` entry contributes the empty sub-path |
| ExportPaths.EntryPaths | src/export-routes.ts:4-16 | `'end'` lists the empty sub-path; a value without a truthy `global` is listed under its key |
| ExportPaths.GlobalHidesSiblings | src/export-routes.ts:7-11 | under a truthy `global`, the literal keys beside it do not change what is listed |
| ExportPaths.GlobalListing | src/export-routes.ts:7-11 | under a truthy `global` whose `parts` is an object, the listing is `key/:name` joined to each path of the parts, or the parts' failure |
| ExportPaths.FixedPaths | src/export-routes.ts:18-22 | the corrected listing always returns, and each path starts with the prefix and `/` |
| ExportPaths.PlainAgrees | src/export-routes.ts:4-22 | on JSON without `global` entries, the listing as written returns, and returns the corrected listing |
| ExportPaths.PlainSubAgrees | src/export-routes.ts:4-16 | on properties without `global` entries, both listings give the same sub-paths |
| ExportPaths.FixedListsInserted | src/export-routes.ts:4-22 | after inserting a route's segments into a trie, the corrected listing of the trie contains the route |
| ExportPaths.RouteListed | src/export-routes.ts:4-22 | a route inserted into a method's trie is listed by the corrected listing under its own path |
| ExportPaths.IdGlobalListed | src/export-routes.ts:7-11 | a node-level `global` entry never returns as written, and the corrected listing gives `:id/` |
| ExportPaths.RootParamDiverges | src/export-routes.ts:4-22 | for a root-level parameter route `/:id`, the listing as written never returns, while the corrected one gives `/:id/` |
| ExportPaths.UserListed | src/export-routes.ts:7-11 | under `user`, a truthy `global` hides the literal `test` sibling as written, and the corrected listing gives both |
| ExportPaths.SiblingTrieJson | src/jsonify.ts:1-16 | the trie of `/user/test` and `/user/:id` serialises to an object whose `user` node holds `test` beside `global` |
| ExportPaths.SiblingDropped | src/export-routes.ts:7-11 | with `/user/test` and `/user/:id` declared, only `/user/:id/` is listed as written, while the corrected listing gives both |
| RouteExport.ListOf | src/export-routes.ts:77-78 | `acc[verb] \|\| []` is the list under the key, or empty when there is none |
| RouteExport.NameRunSpec | src/export-routes.ts:73 | the name run is the longest prefix of characters in `A`..`z` |
| RouteExport.NormalizeNoParam | src/export-routes.ts:73 | a path without `:` is its own normal form |
| RouteExport.NormalizeSplit | src/export-routes.ts:73 | normalisation works piecewise around each `:` |
| RouteExport.NormalizeParam | src/export-routes.ts:73 | a `:` and its whole name run become `:match` |
| RouteExport.NormalizeRename | src/export-routes.ts:73 | renaming a parameter does not change the normal form |
| RouteExport.NormalizeIdempotent | src/export-routes.ts:73 | normalising twice is normalising once |
| RouteExport.VerbIndexSpec | src/export-routes.ts:32-44 | the verb search skips exactly the verbs that do not occur and stops on one that does |
| RouteExport.FindVerb | src/export-routes.ts:30-44 | the verb found is one of `GET`, `POST`, `PATCH`, `PUT`, `DELETE`, `OPTIONS`, `ANY` |
| RouteExport.FindVerbFirst | src/export-routes.ts:32-44 | the verb found is the first in that list to occur in the route, and `ANY` exactly when none of the others does |
| RouteExport.StripVerb | src/export-routes.ts:49 | the path never grows; it loses at least the `VERB/` text when it holds it; a path with neither `VERB/` nor `ANY/` is unchanged |
| RouteExport.GroupFromList | src/export-routes.ts:46-52 | the reduction appends to each verb's list exactly the stripped paths filed under it, in order |
| RouteExport.GroupFromKeys | src/export-routes.ts:46-52 | the reduction only adds verb keys |
| RouteExport.GroupFromLists | src/export-routes.ts:46-52 | the grouping of every verb, together with the keys it adds |
| RouteExport.GroupByVerb | src/export-routes.ts:46-52 | each verb lists exactly the `ANY` paths whose found verb it is, stripped of `VERB/` and every `ANY/`, in order; its keys are verbs |
| RouteExport.Finals | src/export-routes.ts:79-85 | the merge starts from the context routes and appends only direct routes |
| RouteExport.FinalsSpec | src/export-routes.ts:79-85 | every direct route is covered afterwards by its normal form, coverage is never lost, and each appended route is new by its normal form |
| RouteExport.FinalsSkipsCovered | src/export-routes.ts:79-85 | a direct route already covered contributes nothing |
| RouteExport.MergeFromValue | src/export-routes.ts:75-91 | after the reduction, each verb holds its merged list and every other key is unchanged |
| RouteExport.MergeFromUnique | src/export-routes.ts:75-91 | the reduction keeps keys unique |
| RouteExport.MergeFromSpec | src/export-routes.ts:75-91 | each merged verb holds its merged list, other keys are unchanged, and keys stay unique |
| RouteExport.MergeRoutes | src/export-routes.ts:75-91 | every verb holds the sorted merge of its context and direct routes, and other keys are unchanged |
| RouteExport.MergedList | src/export-routes.ts:79-88 | a merged list is sorted, keeps every context route, holds only context or direct routes, and covers every direct route |
| RouteExport.WarnedFor | src/export-routes.ts:59-68 | a direct route is warned about exactly when a context route has its normal form |
| RouteExport.WarnFrom | src/export-routes.ts:55-70 | the warnings of a list of verbs are those of each verb |
| RouteExport.Warnings | src/export-routes.ts:54-71 | a route is warned about exactly when, for some verb, it is direct and a context route of that verb has its normal form |
| RouteExport.WarnedUnreachable | src/export-routes.ts:54-91 | a warned route leaves the merge as if it had never been declared |
| RouteExport.ComputeFrom | src/export-routes.ts:24-28 | the reduction returns exactly when every method's listing does, and its keys are those seen so far and those of the rest |
| RouteExport.ComputePaths | src/export-routes.ts:24-28 | the result returns exactly when every method's listing does, and then each method of a table with distinct keys holds its own listing; the corrected listing always returns; the keys are the methods' keys, and they are unique |
| RouteExport.ComputeFromValue | src/export-routes.ts:24-28 | after the reduction over distinct keys, each method holds its own listing |
| RouteExport.ComputeFromOther | src/export-routes.ts:24-28 | a key the remaining methods do not mention keeps its accumulated value |
| RouteExport.KeepNonEmpty | src/export-routes.ts:101-111 | exactly the properties with non-empty lists are kept |
| RouteExport.KeepNonEmptyValue | src/export-routes.ts:101-111 | a key keeps its list when that list is non-empty and vanishes otherwise |
| RouteExport.AnyHandler | src/export-routes.ts:96 | `ANY \|\| {}` is the `ANY` value when it is truthy, and the empty object otherwise |
| RouteExport.Transform | src/export-routes.ts:93-112 | with the corrected listing the transform always returns; no verb lists nothing, and the keys are verbs or other non-`ANY` keys |
| RouteExport.TransformVerb | src/export-routes.ts:93-112 | a verb lists the sorted merge of the `ANY` paths filed under it with its own paths, or is absent when that merge is empty |
| RouteExport.ExportRoutes | src/export-routes.ts:114-117 | the export jsonifies the table, round-trips it without throwing, and transforms the result with the listing as written |
| RouteExport.ExportRoutesFixed | src/export-routes.ts:114-117 | the export with the corrected listing always returns |
| Strings.ReplaceFirst | src/export-routes.ts:49 | only the first occurrence of the pattern is replaced, and a string without it is unchanged |
| Strings.RemoveAll | src/export-routes.ts:49 | a string without the pattern is unchanged; one with it loses at least one occurrence; no character is introduced |
| Strings.RemoveAllKeep | src/export-routes.ts:49 | a prefix in which no occurrence starts is kept as it is |
| Strings.RemoveAllFirst | src/export-routes.ts:49 | the text before the first occurrence is kept, the occurrence is dropped, and removal goes on after it |
| Strings.Split | src/router.ts:22 | the pieces hold no separator and join back into the string |
| Paths.Segments | src/router.ts:22 | the segments of a path are non-empty and hold no `/` |
| Strings.ToLower | src/router.ts:21-25 | lower-casing maps each ASCII capital to its small letter and keeps every other character |
| Sorting.Sort | src/export-routes.ts:88 | `sort()` gives a sorted permutation of the list |
| Sorting.SortedPermutationUnique | src/export-routes.ts:88 | two sorted permutations of the same list are equal, so the merged list does not depend on insertion order |
| Objects.ValueOf | src/export-routes.ts:77-78 | reading a key gives nothing exactly when it is absent, and otherwise a value stored under it |
| Objects.WithProp | src/export-routes.ts:50 | `{ ...acc, [k]: v }` sets `k` to `v`, keeps the key order and appends a new key at the end |
| Objects.WithPropOthers | src/export-routes.ts:86-89 | setting a key leaves every other key's value unchanged |
| Objects.Without | src/export-routes.ts:94 | `{ ANY, ...rest }` leaves `rest` without `ANY` and with every other key |
| Objects.WithoutOthers | src/export-routes.ts:94 | removing `ANY` leaves every other key's value unchanged |

## Left out

- JavaScript objects are modelled as ordered property lists. Integer-like
  keys, which JavaScript orders first, are not modelled.
- A literal path segment named `global`, or named like an `Object`
  prototype property, collides with the trie's own keys. This collision is
  not modelled.
- Mutation is not modelled: `shift()` on the request segments, the in-place
  updates of `addHandler` and `createRouterHash`, and the aliasing of a
  segment array between requests. The model consumes segments and updates
  tables functionally.
- Dispatch.Coerce: the number a numeral other than a run of decimal digits
  denotes (`1.5`, `-3`, `1e3`, `0x1F`, ` 7`, `Infinity`, or white space
  alone, which is 0) is not computed; the numeral is kept as its text,
  because its value is an IEEE double. A run of digits beyond 2^53 is kept
  exact, where JavaScript rounds it.
- Lower-casing is modelled on ASCII letters only.
- `sort()` compares UTF-16 code units. The model compares characters, which
  is the same order for the ASCII paths routes use.
- `context` in the legacy router branches on `typeof`. `null` and non-array
  objects count as matcher lists there, and the model does not cover them.
- Plain objects that carry a truthy `export` property are not modelled; the
  export's values are strings, plain objects and functions.
- Handlers are opaque. Running one, awaiting it, and building millefeuille
  responses are a parameter (`run`) or a distinguished result
  (`InternalError`).
- A nested legacy router that a request reaches is invoked through `run`.
  The model does not unfold it into its own dispatch.
- The `Proxy`/`extends Function` construction of the current `Router` is
  not modelled. Dispatch is a function over the exported table.
- Logging is not modelled: `chalk`, `console.warn` and `helpers.debug`.
  Warnings are modelled as the list of warned routes, without their text.
- `src/helpers.ts`, `src/helpers/debug.ts` and `src/types.ts` are not part
  of this model. They hold logging and type aliases only.
- The JavaScript snapshots `src/index.js`, `src/export-routes.js` and
  `src/jsonify.js` are not part of this model. They are superseded by the
  TypeScript files.
- `Diverges` stands for a listing that recurses without end. In JavaScript
  the stack overflows and `exportRoutes()` throws a `RangeError`; the model
  does not bound the stack.
- `ComputePaths` and `Transform` assume the JSON keys they read are unique,
  as a parsed object's are. Duplicate keys are not modelled.
- RouteExport.FindVerb: its contract only says the result is one of the
  verbs; that it is the first verb occurring in the route is stated by
  `RouteExport.FindVerbFirst`.
- RouteExport.NormalizeMatcher has no contract of its own, because any
  contract on it makes the proofs about it too costly. Its meaning is stated
  by the `Normalize…` lemmas: `NormalizeSplit`, `NormalizeParam` and
  `NormalizeNoParam` together fix its result on every input.

## Findings

| source | as written | input that shows it | evidently intended | confidence | as-written member | corrected member |
|---|---|---|---|---|---|---|
| src/index.ts:92-95 | a method with no trie walks `undefined`; the optional read `node?.global` gives `undefined` rather than throwing, and the next read, `allHandlers[value]` with `allHandlers` undefined, throws a `TypeError` (src/index.ts:66-71) | `GET /a` and a not-found handler declared; request `POST /a` | an undeclared method finds nothing and falls back to `NOT_FOUND`, as an absent `ANY` trie does (`\|\| {}`, src/index.ts:84) | high, not executed | LegacyDispatch.UndeclaredMethodThrows | LegacyDispatch.RouteRequestFixed |
| src/export-routes.ts:4-22 | a `global` entry directly under a node is listed as a key, and its `name` string is walked with `Object.entries`, which recurses without end until the stack overflows, so `exportRoutes()` throws a `RangeError` | route `/:id` in any method (a root-level or second consecutive parameter) | a node-level `global` lists `:name` followed by its `parts` | high, not executed | ExportPaths.RootParamDiverges | ExportPaths.FixedListsInserted |
| src/export-routes.ts:7-11 | a value with a truthy `global` lists only the parameter branch, and its literal siblings are lost | `/user/test` and `/user/:id` declared | both declared routes `/user/test/` and `/user/:id/` are listed; that the lookup itself never reaches `/user/test/`, because `global` is taken first (src/index.ts:66-69), is a separate matter, shown by `LegacyDispatch.UserTestTakesParameter` | medium, not executed | ExportPaths.SiblingDropped | ExportPaths.RouteListed |
