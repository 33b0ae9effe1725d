# router — a Dafny model of a small Go HTTP multiplexer

The package keeps a tree of routers. Each router has:

- a base path;
- a route table keyed by (pattern, method);
- child routers, in the order they were created;
- an optional not-found handler;
- a list of middleware functions.

A request is served in five steps:

1. The effective method is computed. A `_method` form value can override it.
2. The router that owns the URL path is found. The search is depth first, children first, and uses a plain prefix test on the base path.
3. The owner's table is scanned for a route that matches the path once the owner's base path is removed.
4. The owner's middleware runs, then the step that stores the URL parameters in the request context, then the route's handler. A middleware function that cancels the request's context (`HaltRequest`) stops the chain.
5. When no route matches, the answer is 404 and the root's not-found handler runs.

Patterns come in three modes:

- literal: the trimmed pattern is compared with the trimmed path;
- wildcard: the pattern contains `*`, and the rest of the path is bound to `*`;
- named: `:name` segments capture the path segment at their position.

The model is split into five modules.

- `paths.dfy`, modules `Options` and `Paths`: the string functions the router relies on, `strings.Trim/Split/Join` with the separator `/`, `strings.Index`, `strings.Replace` with one replacement, ASCII `strings.ToUpper`, and `slicePath`.
- `matcher.dfy`, module `Matcher`: `matches` as the method `Matches`, with its two loops kept in `MatchSegments`, proved against the specification function `MatchSpec`, plus the laws of the three modes. Module `MatcherExamples` holds the unit-test cases of `TestRouteMatching`.
- `context.dfy`, module `Contexts`: the request context (values and the cancelled flag), `Params`/`Param`, the `Request` object with `BindContext` and `HaltRequest`, and `getMethod`.
- `chain.dfy`, module `Chain`: `run`. The specification function `RunChain` gives the context after the chain. The method `Run` executes the chain on a `Request` and is proved against it.
- `router.dfy`, module `Routers`, holds the router tree.
  - The tree is an arena class `RouterTree` holding a sequence of `RouterNode` values. A child is named by its index, which is always larger than its parent's.
  - It covers `New`, `SubRouter`, `bindRoute`, `HandleFunc`, `Get`/`Post`/`Put`/`Delete`/`Patch`, `Handle`, `NotFound`, `Before`, `findMatchingRouter` (specified by `Owner`) and `ServeHTTP`.
  - `ServeHTTP` returns an `Outcome`: the route dispatched, 404, or no owning router.

Behaviour of the code worth noting:

- The parameter-binding step is appended at the END of the owner's middleware, so every middleware function runs before the parameters are stored (`router.go:105`). It runs after every middleware function.
- `ServeHTTP` adds that step to a copy of the owner: `findMatchingRouter` has a value receiver and returns `&r`. The router stored in the tree never accumulates binding steps.
- The `_method` override applies only when the Content-Type header is exactly `multipart/form-data` or `text/html` and the form value is non-empty. The request's own method is not checked, so a GET can be overridden too (`router.go:189-202`).
- Sub-routers do not inherit their parent's middleware: the chain uses the owner's list only.
- The owner test is a character prefix test, not a segment test: `/administrator` belongs to a router based at `/admin` (`AdminTreeOwners`).

## Model

| member | source | states |
|---|---|---|
| `Paths.TrimLeft` | router.go:257 | The left half of `strings.Trim(s, "/")`: the result is no longer than the input, everything removed is `/`, and the result does not start with `/` |
| `Paths.TrimRight` | router.go:257 | The right half: everything removed is `/`, and the result does not end with `/` |
| `Paths.TrimLeftSuffix` | router.go:257 | What the left trim keeps is a suffix of the input |
| `Paths.TrimRightPrefix` | router.go:257 | What the right trim keeps is a prefix of the input |
| `Paths.Trim` | router.go:257 | `strings.Trim(s, "/")`: no longer than `s`, and a non-empty result neither starts nor ends with `/` |
| `Paths.Join` | router.go:225 | `strings.Join(parts, "/")`: the first piece starts the result, and the result is longer than it exactly when more pieces follow; `SplitJoin` shows Split inverts it |
| `Paths.Split` | router.go:257 | `strings.Split(s, "/")`: at least one piece, no piece contains `/`, and joining the pieces with `/` gives back `s` |
| `Paths.SlicePath` | router.go:256-258 | slicePath: at least one segment, no segment contains `/`, and the segments joined with `/` are the trimmed path |
| `Paths.IndexOf` | router.go:182 | `strings.Index`: the first position where `sub` occurs, or -1 when it occurs nowhere; 0 exactly when `sub` is a prefix |
| `Paths.IndexFrom` | router.go:206 | The search loop behind IndexOf, from position k on, given no occurrence before k |
| `Paths.RemoveFirst` | router.go:96 | `strings.Replace(s, sub, "", 1)`: `s` unchanged when `sub` does not occur; otherwise `s` is the result with `sub` re-inserted at its first occurrence |
| `Paths.ToUpper` | router.go:199 | `strings.ToUpper`: same length, each character upper-cased (ASCII) |
| `Paths.JoinAppend` | router.go:225 | Joining two non-empty piece lists puts exactly one separator between them |
| `Paths.JoinAt` | router.go:225 | A list cut at any inner position joins as its two halves with one separator |
| `Paths.SplitJoin` | router.go:257 | Splitting the join of slash-free pieces gives back exactly those pieces (Split is the inverse of Join) |
| `Paths.TrimAppendSlash` | router.go:257 | A trailing slash never changes the trimmed path |
| `Paths.TrimPrependSlash` | router.go:257 | A leading slash never changes the trimmed path |
| `Paths.TrimLeftAllSlashes` | router.go:257 | A string made only of slashes trims to the empty string |
| `Paths.TrimLeftAppend` | router.go:257 | Left trimming commutes with appending text when something is left |
| `Paths.SlicePathIgnoresOuterSlashes` | router.go:256-258 | `/p` and `p/` slice exactly like `p` |
| `Paths.SlicePathOuterSegments` | router.go:256-258 | The path slices to `[""]` exactly when it is all slashes; otherwise its first and last segments are non-empty |
| `Paths.TrimPlain` | router.go:257 | Text with no slash at either end trims to itself, also behind one leading slash |
| `Paths.SlicePathExamples` | router_test.go:623-651 | The slicePath unit tests: `foo/bar`, `/foo/bar` and `/foo/bar/` give `[foo, bar]`, and `/` gives `[""]` |
| `Paths.RemoveFirstPrefix` | router.go:96 | When `sub` is a prefix, Replace removes exactly that prefix |
| `Paths.ToUpperIdempotent` | router.go:199 | Upper-casing twice is upper-casing once |
| `Matcher.EffectivePattern` | router.go:205-208 | The pattern matched: it always starts with `/`, and it trims like the route path with the first occurrence of the base path removed |
| `Matcher.Matches` | router.go:204-254 | matches: ok exactly when `MatchSpec` gives a match, the parameters are the ones `MatchSpec` binds, and they are empty on failure |
| `Matcher.IsLiteral` | router.go:213-214 | Literal mode: no `*` and no `:` in the pattern; then none of its segments is a `:name` segment |
| `Matcher.IsWildcard` | router.go:213 | Wildcard mode: a `*` anywhere in the pattern; such a pattern is never literal |
| `Matcher.IsNamed` | router.go:213-214 | Named mode: a `:` and no `*`; a pattern is named exactly when it is neither literal nor wildcard, so the three modes partition all patterns |
| `Matcher.Capture` | router.go:246-251 | The parameter loop over the first n segments: the last `:name` segment read binds its name to the path segment at its index, and with no `:name` segment the map is empty |
| `Matcher.MatchSpec` | router.go:204-254 | The decision of `matches`: a match needs the methods to agree unless ignored; a literal match binds nothing and the trims agree; a wildcard match binds only `*`; a named match needs equal segment counts |
| `Matcher.MatchOn` | router.go:210-254 | The same decision on the effective pattern, the trimmed path and its segments; a named match also needs every literal segment to agree |
| `Matcher.MatchPattern` | router.go:210-227 | The method gate, literal mode and wildcard mode, with named mode delegated; the same answer as `MatchOn` |
| `Matcher.MatchSegments` | router.go:229-253 | Named mode: ok exactly when the counts are equal and every literal segment agrees; the parameters are then the `:name` captures |
| `Matcher.MethodGate` | router.go:210-212 | A method-sensitive route never matches another method; a route that ignores the method answers the same for every method |
| `Matcher.LiteralMatch` | router.go:213-216 | Literal mode matches exactly when the trimmed pattern equals the trimmed path, and binds nothing |
| `Matcher.MatchDependsOnSegments` | router.go:213-218 | The outcome depends on the path only through its segments (and its trimmed form in literal mode) |
| `Matcher.MatchDependsOnTrim` | router.go:215 | Paths that trim alike get the same outcome |
| `Matcher.OuterSlashIrrelevant` | router.go:215 | A leading or trailing slash on the request path never changes the outcome |
| `Matcher.WildcardMatch` | router.go:220-227 | Wildcard mode fails exactly when the path has fewer segments than the pattern; on success the only key is `*`, bound to the path segments from the wildcard's position on, joined by `/` |
| `Matcher.JoinTail` | router.go:225 | Nothing of the path is lost: the segments before the wildcard position, joined with the captured rest, are the whole trimmed path |
| `Matcher.WildcardIgnoresLeadingSegments` | router.go:220-227 | Wildcard mode never compares the segments before the wildcard |
| `Matcher.CaptureBindings` | router.go:245-251 | Every `:name` segment's name is a key, every key comes from a `:name` segment, and its value is the path segment at the last index with that name |
| `Matcher.NamedMatch` | router.go:229-253 | Named mode matches exactly when the counts agree and every literal segment equals its path segment; the keys are the `:name` names, each bound to a path segment at a position with that name |
| `Matcher.CaptureDistinct` | router.go:247-251 | With distinct names, each name is bound to the segment at its own index |
| `Matcher.CaptureKeep` | router.go:247-251 | A later segment with a different name does not disturb an earlier capture |
| `MatcherExamples.WildcardExamples` | router_test.go:55-62 | `/users/*` rejects `/users` and binds `*` to `a/b` for `/users/a/b` |
| `MatcherExamples.NamedMiddleMatch` | router_test.go:44-54 | A route of the form `/projects/:id/approve` accepts the path with and without a trailing slash, and under any method when the method is ignored; it rejects another method, too few segments and a differing literal segment |
| `MatcherExamples.SubRouterExample` | router_test.go:63-65 | A router based at `/foo` matches its route `/foo/users` against the stripped path `/users` |
| `MatcherExamples.Slice3` | router.go:256-258 | Three plain segments slice back into exactly those segments |
| `Contexts.Lookup` | router.go:51 | `ctx.Value`: present exactly when bound, with the bound value |
| `Contexts.WithValue` | router.go:262 | `context.WithValue`: the new key reads back its value, every other key reads as before, and cancellation is unchanged |
| `Contexts.Cancel` | router.go:44-46 | A cancelled child: halted, with every value still visible |
| `Contexts.Params` | router.go:50-57 | The stored parameter map, or the empty map when nothing (or something else) is stored under the key |
| `Contexts.Param` | router.go:60-62 | The named parameter, or `""` when it is missing |
| `Contexts.ParamsRoundTrip` | router.go:260-265 | Parameters stored by the binding step are read back exactly by Params and Param |
| `Contexts.OtherKeysKeepParams` | router.go:9-11 | A value stored under any other key leaves the parameters alone |
| `Contexts.HaltIsPermanent` | router.go:43-47 | Halting keeps the parameters, and a context derived from a halted one is halted |
| `Contexts.ParamExamples` | router_test.go:592-621 | Param is `""` with nothing bound and reads back a bound value |
| `Contexts.Request.constructor` | router.go:92-93 | An incoming request with the given method, path, content type and `_method` value, carrying the background context |
| `Contexts.Halted` | router.go:84 | `ctx.Err() != nil`: the context is cancelled; `HaltIsPermanent` shows derived contexts stay halted |
| `Contexts.Request.BindContext` | router.go:37-39 | The request now carries the given context |
| `Contexts.Request.HaltRequest` | router.go:43-47 | The request's context becomes a cancelled child of the old one: halted, with the same parameters |
| `Contexts.ParsesForm` | router.go:190-194 | The switch on Content-Type: only `multipart/form-data` and `text/html` parse the form |
| `Contexts.GetMethod` | router.go:189-202 | The upper-cased `_method` value when the content type parses the form and the value is non-empty; otherwise the request's method |
| `Contexts.OverrideIsUpperCase` | router.go:198-200 | An overriding method is always upper case |
| `Contexts.GetMethodExamples` | router_test.go:714-765 | POST with `_method` PATCH (in either case) under `text/html` or `multipart/form-data` is PATCH; an empty value keeps POST; another content type ignores the form |
| `Chain.RunChain` | router.go:80-90 | run: the steps that ran are a prefix of the chain; the final handler is reached only after the whole chain; a run that stops early stops on a halted request |
| `Chain.RunStopsAtFirstHalt` | router.go:82-87 | The run ends with the context its steps produce, no earlier step halted, and the final handler is reached exactly when no step of the chain halts |
| `Chain.HaltingStepStops` | router.go:84-86 | A first step that halts is the only one to run, and the final handler is not reached |
| `Chain.HandlerSeesParams` | router.go:105-106 | With the binding step last, a final handler that is reached sees exactly the matched parameters |
| `Chain.MiddlewareExamples` | router_test.go:262-338 | A value bound by middleware reaches the handler; a middleware function that halts stops every later one |
| `Chain.Apply` | router.go:260-265 | One step on the request's context; the binding step (setURLParams) makes exactly its parameters visible, keeps every other value and does not halt |
| `Chain.Calls` | router.go:82 | One call step per middleware function, in order |
| `Chain.RunFrom` | router.go:82-87 | One iteration of the loop on the rest of the chain |
| `Chain.RunStep` | router.go:82-87 | After step i, the whole run either ends there (the step halted) or continues from step i + 1 |
| `Chain.Run` | router.go:80-90 | The loop on the request: the result and the request's final context are those of `RunChain` from the old context |
| `Routers.NewRouter` | router.go:25-33 | New: the given base path, or `/` when it is empty; an empty table, no children, no not-found handler, no middleware |
| `Routers.ChildBase` | router.go:124-129 | A child's base path is the parent's followed by the path, except that a root `/` contributes nothing |
| `Routers.Bind` | router.go:136-138 | bindRoute: the entry for (path, method) holds the new ops; every other entry and field is unchanged |
| `Routers.BindOverwrites` | router.go:137 | A later registration under the same key replaces the earlier one |
| `Routers.BindCommutes` | router.go:137 | Registrations under different keys can be made in either order |
| `Routers.Owner` | router.go:176-186 | findMatchingRouter: whatever is found has an index no smaller than the start router's and its base path is a prefix of the URL path (that it lies in the start router's subtree is `OwnerInSubtree`) |
| `Routers.FirstChildOwner` | router.go:177-181 | The search over the children from the i-th on; what it finds has an index larger than the parent's and claims the path (that it lies in the subtree is `FirstChildInSubtree`) |
| `Routers.OwnerInSubtree` | router.go:176-186 | The search is sound and complete: it finds something in the subtree, and finds nothing exactly when no router of the subtree claims the path |
| `Routers.FirstChildInSubtree` | router.go:177-181 | Soundness and completeness of the search over the children |
| `Routers.OwnerPrefersFirstChild` | router.go:177-181 | The first child in creation order whose search succeeds decides the result |
| `Routers.FirstChildReaches` | router.go:177-181 | The child loop reaches the first successful child |
| `Routers.OwnerFallsBack` | router.go:182-185 | With no child succeeding, the router is the owner exactly when its base path is a prefix |
| `Routers.OwnerIsStable` | router.go:176-186 | Searching again from the owner finds the owner |
| `Routers.FirstChildIsStable` | router.go:177-181 | The same stability for the child loop |
| `Routers.OwnerStripsPrefix` | router.go:96 | Removing the owner's base path from the URL path strips exactly its prefix |
| `Routers.AdminTree` | router_test.go:653-656 | The tree `/` → `/admin` → `/admin/payroll` is a valid arena of three routers |
| `Routers.AdminTreeOwners` | router_test.go:653-712 | The sub-router tests for every path: the deepest router whose base path is a character prefix of the path owns it, and no router owns a path not starting with `/` |
| `Routers.IgnoresMethod` | router.go:97 | `ops.handler != nil`: such a route is matched under any method and always has a handler to run |
| `Routers.HandlerOf` | router.go:98-103 | The handler run is the route's function when set, else its handler |
| `Routers.DispatchChain` | router.go:105-106 | The chain of a dispatch is the owner's middleware, in order, followed by the parameter-binding step |
| `Routers.DispatchSeesParams` | router.go:105-106 | When a dispatch reaches its handler, the whole chain ran and the context holds exactly the matched parameters |
| `Routers.HandleIgnoresMethod` | router.go:97 | A route registered with Handle and a non-nil handler gives the same result under every method |
| `Routers.MethodMustAgree` | router.go:97 | A route registered under a method never matches a request under another method |
| `Routers.RouterTree.constructor` | router.go:25-33 | An empty arena |
| `Routers.RouterTree.New` | router.go:25-33 | New appends a fresh router built by NewRouter; the arena stays valid |
| `Routers.RouterTree.SubRouter` | router.go:123-134 | A fresh child with base ChildBase is added at the end of the parent's children; no other router changes |
| `Routers.RouterTree.BindRoute` | router.go:136-138 | The router's table is rebound by Bind; nothing else changes |
| `Routers.RouterTree.HandleFunc` | router.go:118-120 | Registers the function under (path, method) |
| `Routers.RouterTree.Get` | router.go:141-143 | Registers the function under (path, GET) |
| `Routers.RouterTree.Post` | router.go:146-148 | Registers the function under (path, POST) |
| `Routers.RouterTree.Put` | router.go:151-153 | Registers the function under (path, PUT) |
| `Routers.RouterTree.Delete` | router.go:156-158 | Registers the function under (path, DELETE) |
| `Routers.RouterTree.Patch` | router.go:161-163 | Registers the function under (path, PATCH) |
| `Routers.RouterTree.Handle` | router.go:166-168 | Registers the handler under (path, empty method) |
| `Routers.RouterTree.NotFound` | router.go:171-173 | Sets the router's not-found handler; nothing else changes |
| `Routers.RouterTree.Before` | router.go:75-77 | Appends the functions to the router's middleware; nothing else changes |
| `Routers.RouterTree.BuildAdminTree` | router_test.go:654-656 | New("/"), then SubRouter("/admin"), then SubRouter("/payroll") build AdminTree |
| `Routers.RouterTree.FindMatchingRouter` | router.go:176-186 | The recursive search with its child loop finds exactly `Owner` |
| `Routers.RouterTree.ServeHTTP` | router.go:92-115 | No owning router exactly when Owner finds none. A dispatch is to the owner, through a route of its table that matches the stripped path under the effective method, running the owner's middleware then the binding step, with the route's handler last. 404 happens only when no route of the owner matches, and it names the root's not-found handler |
| `Routers.RouterTree.Dispatch` | router.go:98-108 | A matched route runs the owner's dispatch chain on the request and names the route's handler |
| `Routers.RouterTree.TryRoute` | router.go:96-97 | One route tried against the stripped path: ok exactly when it matches, with its parameters |
| `Routers.RouterTree.FirstMatch` | router.go:95-110 | The table loop: a route found matches with the parameters returned; when none is found, no route of the table matches |
| `Routers.RouterTree.ScanRoutes` | router.go:95-114 | Dispatches a matching route of the owner, or answers 404 with the given not-found handler when none matches, leaving the context untouched |

## Left out

- The ResponseWriter is not modelled. Neither are the bodies of the final handler and of the not-found handler: they are identities (`HandlerId`). The only effect of a middleware function on the request is given by the parameter `effect` (a new context, possibly cancelled).
- A handler that is nil in Go is `None`. Calling it panics in Go; the model names it and stops there.
- The middleware under `middleware/` (basic auth, headers) is not part of this model.
- Panics are not modelled as runs:
  - A nil owning router is the outcome `NoRouter`.
  - An empty segment in a named-mode pattern would index an empty string. This is excluded by the precondition `PatternDefined` (`RoutesDefined` on `ServeHTTP`).
- Go's map iteration order is unspecified. `FirstMatch` picks the next route with a non-deterministic choice, so the model promises only what holds for every order.
- Form parsing (`ParseMultipartForm`, `ParseForm`) reads the request body. The `_method` value is a field of `Request`, `""` when absent. The 10 MB memory limit is not modelled.
- `Paths.ToUpper` maps ASCII letters only. Go's `strings.ToUpper` also maps other Unicode letters.
- `context.Context` is reduced to a value map plus a cancelled flag. Parent chains, deadlines and the cancel function are not modelled. `HaltRequest` cancels at once, as the Go code does.
- Go passes routers by value and returns pointers to copies. The arena of values captures the observable effect: the copies share the route map, and `ServeHTTP` never changes the tree. Aliasing of `mw` slice storage between copies is not modelled.
- `Matcher.JoinTail` states that wildcard mode loses nothing in terms of path segments. The same fact is not stated on `MatchSpec` directly.
