# galaxy.js router, modelled in Dafny

galaxy.js is a small client-side router for single-page applications. A `Starship`
keeps a registry of routes (`pattern`, view model id, optional callback) and a
"smuggled" payload that is carried from one navigation to the next. `$galaxy` sits on
top of it. It turns the current location into render calls. It keeps a *federation*
of joined view models, and it renders a view model in five stages: look it up or load
it, hide the other views, load its template into its DOM elements, render its
children, then show it and publish `<id>.docked`.

The model is split into these modules:

- `Segments`: `split('/')` and `join('/')`, as functions. Two round-trip lemmas relate them.
- `Routes`: the pure route logic.
  - first-match lookup by literal pattern;
  - the module / segment-count filter of `scan`;
  - positional parameter binding from the first match, characterised by `BindingsSpec`
    and computed by the loop method `ExtractParams`;
  - the key-by-key payload merge, `MergePayload`.
- `Navigation`: `class Starship` with its `routes`, `payload` and pushed `history`.
  Its methods are `addRoute`, `updateRoute`, `warp`, `scan` and `getPayload`.
- `Dom`: the document as an id map and a class map, with the selector decoding of
  `getDOMElements`. A missing id is an error result. An empty class match gives `[]`.
- `Federation`: `class ViewModel` and the first-record-with-id lookup. It also holds
  the walk of `hideInactiveViews` as a function, `HideScan`, and its characterisation.
- `Dispatch`: the ordered calls that `$galaxy.scan` issues, both as a function
  (`Dispatched`) and as the loop method `Plan`. Order lemmas go with them.
- `Pipeline`: what a render produces (events, console notices, requests) and how each
  of its stages ends, as functions of the stage's inputs: `Resolve`, `Joined` and
  `ResolveTrace` for the lookup or load, `StageOutcome` and `StagesTrace` for the
  stages after it. The render methods of `Router` are proved against them, and
  `StagesShowOnly` proves the visibility a docked render leaves.
- `Router`: `class Galaxy`, with the options, `static`, the route builder, `scan`,
  `warp`, `create`, `join`, `loadViewModel`, `loadTemplate`, `hideInactiveViews`,
  `renderChildren`, `showRoutedView` and `render`.

How the outside world is represented:

- Time and the environment become parameters or logs:
  - the pathname the browser shows is an argument;
  - `history.pushState` appends to `history`;
  - the postal channel is the log `events`;
  - the console output of `$galaxy` is the log `console` of notices (a `Starship` keeps none);
  - XHR and module requests are the log `fetches`.
- The module the loader returns is an argument of `Render`. So are the per-element
  HTTP statuses of the template requests.
- Visibility is the set `hidden`: the elements whose `style.display` is `'none'`.
- A render call issued by `scan` or `renderChildren` is appended to `dispatched`
  rather than run recursively. A callback is invoked when it is dispatched.
- `Render` runs one call's stages to their end, atomically.

The model follows the code, which does the following:

- The module id is compared with the first pattern segment, and the segment count is
  compared. The remaining segments are not compared (src/galaxy.js:392-394).
- The first `.` or `#` is removed wherever it occurs in a selector, not only at the
  start (src/galaxy.js:125).
- Parameter binding stops at the first empty pattern segment
  (src/galaxy.js:401).
- Black holes are rendered only when some route matched (src/galaxy.js:91).

## Model

| member | source | states |
|---|---|---|
| Segments.Split | src/galaxy.js:363 | `split('/')` always yields at least one part. No part contains a slash. Joining the parts with '/' gives back the input. |
| Segments.SplitJoin | src/galaxy.js:363 | Splitting a '/'-join of slash-free parts gives back exactly those parts. This is the other half of the round trip. |
| Segments.SplitFirstPart | src/galaxy.js:363 | A slash-free part followed by '/' splits off as exactly one leading part. |
| Routes.FirstWithPattern | src/galaxy.js:307-309 | Returns the first route whose pattern equals the argument. No earlier route has that pattern. Returns nothing exactly when no route has it. |
| Routes.RouteAt | src/galaxy.js:339-341 | The route a warp finds is a registered route whose pattern is the location, and no earlier route has that pattern. There is none iff the location is missing or no route has it. |
| Routes.Keep | src/galaxy.js:380-390 | A route is kept iff it is registered, its first pattern segment is the module id, and its segment count is the path's. Never more routes than registered. |
| Routes.MatchRoutes | src/galaxy.js:363-390 | A route matches the pathname iff it is registered, the path has a segment after the leading empty one, the first pattern segment equals path segment 0, and the pattern has as many segments as the path. |
| Routes.KeepAppend | src/galaxy.js:380-390 | The filter keeps registration order. Filtering `a + b` is filtering `a` followed by filtering `b`. |
| Routes.MatchRoutesAppend | src/galaxy.js:314-322 | Registering one more route adds it at the end of the matches when it matches. Otherwise the matches are unchanged. |
| Routes.Live | src/galaxy.js:401 | The binding loop visits the pattern segments up to the first empty one. All segments before it are non-empty. |
| Routes.BindPrefixDomain | src/galaxy.js:401-405 | The first `n` segments bind a key exactly when one of them is `:key`. |
| Routes.BindPrefixLast | src/galaxy.js:401-405 | A key takes the path segment at the position of its last `:key` segment. |
| Routes.BindingsSpec | src/galaxy.js:397-405 | Parameter extraction: a key is bound iff some `:key` segment occurs before the first empty pattern segment. Its value is the path segment at the position of the last such occurrence. |
| Routes.ExtractParams | src/galaxy.js:401-405 | The binding loop computes exactly `Bindings`, whose meaning `BindingsSpec` states. |
| Routes.MergePayload | src/galaxy.js:408-413 | After the merge loop, the keys are the union of both maps. Extracted values overwrite. Every other key keeps its payload value. |
| Routes.ParamsOf | src/galaxy.js:370-405 | The pattern's segments after the module id are matched position by position against the path's segments after it. A key is bound iff a `:key` segment occurs before the first empty one. It takes the path segment at its last such occurrence. |
| Routes.ScanParamsFirstMatch | src/galaxy.js:397-405 | A scan takes its parameters from `matches[0]` only. A route registered later changes them only when it is the first route to match, and then they are its `ParamsOf`. |
| Routes.UserIdBinding | src/galaxy.js:397-405 | The pattern `user/:id` against `/user/<v>` binds `id` to `v`. |
| Routes.UserIdExample | src/galaxy.js:358-416 | `user/:id` is the match for `/user/42` and binds `{id: "42"}`. |
| Navigation.Starship.GetPayload | src/galaxy.js:302-304 | Returns the current smuggled payload. |
| Navigation.Starship.constructor | src/galaxy.js:296-300 | Starts with no routes, an empty smuggled payload and no pushed locations. |
| Navigation.Starship.AddRoute | src/galaxy.js:314-322 | Appends exactly one route at the end, returns the registry as it now is, and changes nothing else. |
| Navigation.Starship.UpdateRoute | src/galaxy.js:306-312 | Reports a route with the pattern iff one exists. Only the callback of the first such route changes. The count and all other routes stay the same. Without a match nothing changes. |
| Navigation.Starship.Warp | src/galaxy.js:324-356 | Returns the first route whose pattern is literally the target location. Pushes the location. Replaces the payload wholesale only for a request with a location and a payload. If the request has no location, it throws; the error is caught and nothing changes. |
| Navigation.TargetLocation | src/galaxy.js:329-339 | A warp looks up a location iff it is given a non-empty string, or an object with a `location` property. |
| Navigation.PushedLocation | src/galaxy.js:329-350 | Nothing is pushed for `null`/`undefined`, or for an object without a `location`: both throw first. A location looked up is the one pushed. The empty string is pushed without being looked up. |
| Navigation.Starship.Scan | src/galaxy.js:358-416 | Returns `MatchRoutes`. With a match, the payload becomes the old payload overwritten key by key with the extracted parameters. Without one it is unchanged. Old keys are never lost. |
| Navigation.UserScenarioMatches | src/galaxy.js:380-390 | Of `home` and `user/:id`, a scan of `/user/7` keeps only `user/:id`. |
| Navigation.UserScenarioScan | src/galaxy.js:358-416 | The same scan extracts `{id: "7"}`. |
| Dom.FirstMarker | src/galaxy.js:125 | The position of the first `.` or `#` in a selector. No marker occurs before it. |
| Dom.Undecorated | src/galaxy.js:125 | Removes one character when the selector has a `.` or `#`, and none otherwise. `UndecoratedSpec` says which one. |
| Dom.UndecoratedSpec | src/galaxy.js:125 | `replace(/[.#]/, '')` removes the first marker wherever it is. A selector without a marker is unchanged. |
| Dom.UnmarkedPrefix | src/galaxy.js:125 | A marker-free prefix is kept as it is. |
| Dom.StripAnywhereExamples | src/galaxy.js:124-125 | `main#view` names `mainview`. `.a#b` is a class lookup of `a#b`. `#app` is an id lookup of `app`. |
| Dom.GetDOMElements | src/galaxy.js:123-146 | The lookup fails iff it is an id lookup and the id names no element; the error names the selector. An id hit gives that one element. A class lookup never fails and gives the class's elements, or `[]`. |
| Federation.FirstWithId | src/galaxy.js:149-153 | Returns the first federation record with the id. No earlier record has it. Returns nothing exactly when no record has it. |
| Federation.HideScanSpec | src/galaxy.js:239-250 | With no failed lookup, every element of every non-`autoRender` record other than the target is hidden. In every case, only elements of such records are hidden. A failure comes from such a record whose lookup threw. |
| Federation.HideScanStops | src/galaxy.js:241-247 | Once a lookup has thrown, the rest of the walk changes nothing. |
| Federation.HideThenShow | src/galaxy.js:239-272 | Hiding without failure and then showing the target leaves the target's elements visible. Every inactive record's elements are hidden unless the target shares them. Only inactive records' elements are newly hidden. |
| Dispatch.Plan | src/galaxy.js:91-106 | The two loops of `$galaxy.scan` issue exactly `Dispatched`. With no match they issue nothing, not even the static views. |
| Dispatch.RenderedStatic | src/galaxy.js:93-95 | The static loop renders the black holes in insertion order. |
| Dispatch.RenderedMatches | src/galaxy.js:98-105 | The match loop renders the matches' view models in match order. |
| Dispatch.RenderOrder | src/galaxy.js:91-106 | With a match, the render order is every static view in insertion order, then every match's view model in match order. |
| Dispatch.MatchActionsAppend | src/galaxy.js:98-105 | The match loop's calls for `a + b` are its calls for `a` followed by those for `b`. |
| Dispatch.CallbackFollowsRender | src/galaxy.js:98-105 | Match `i`'s render is issued after the static renders and the blocks of earlier matches. Its non-null callback is invoked immediately after that render. |
| Router.ApplySettings | src/galaxy.js:109-121 | The channel changes only for a non-empty value. Each directory changes whenever its option is present. Otherwise the current values stay. |
| Router.Galaxy.constructor | src/galaxy.js:6-14 | Starts on channel `galaxy` with `/app/viewmodel` and `/app/view`, an empty federation and no black holes. |
| Router.Galaxy.SetOptions | src/galaxy.js:109-121 | The new configuration is `ApplySettings` of the old one. |
| Router.Galaxy.Static | src/galaxy.js:65-67 | Appends the id to the black holes. |
| Router.Galaxy.RouteTo | src/galaxy.js:16-26 | `route(p).to(vm)` registers `(p, vm, null)` at the end. |
| Router.Galaxy.RouteThen | src/galaxy.js:28-31 | `.then(cb)` patches the callback of the first route with the pattern, which may be an earlier duplicate. |
| Router.Galaxy.Scan | src/galaxy.js:87-107 | Scans the pathname, then issues `Dispatched` of the matches with the payload as it is after the scan. |
| Router.Galaxy.Warp | src/galaxy.js:37-59 | Pushes the location. Carries the given payload, or else keeps the old one. Then scans and dispatches. |
| Router.Galaxy.Create | src/galaxy.js:69-85 | Applies the options when they are given, then scans the current location. Routes and history stay. The payload takes the first match's parameters only when something matched. The calls issued are `Dispatched` of the matches with that payload. |
| Router.Galaxy.Join | src/galaxy.js:171-203 | A first join back-links each child, defaults an absent loaded flag to false, appends the record once and publishes `<id>.joined`. A re-join changes neither the federation nor the events, and warns only if the record has no parent. The federation stays duplicate-free. |
| Router.Galaxy.LoadViewModel | src/galaxy.js:149-203 | Settles with `Resolve`: the first record with the id, else the loaded module. The federation becomes `Joined`: the module is appended only if it had not joined. The logs become `ResolveTrace`. A known id logs nothing. Otherwise there is one warning and one request for `<viewmodelDirectory>/<id>.js`, then one of: the module's `.joined` event, the already-joined warning for a parentless re-joined module, or the loader failure. A known id leaves the module argument and its children untouched, since the loader is not called. A newly joined module's children are back-linked to it, and only that module's missing loaded flag is set to false. No other `__parent` mark or loaded flag changes. |
| Router.Galaxy.HideInactiveViews | src/galaxy.js:239-250 | The hidden set grows by exactly what `HideScan` hides, and the walk's failure is reported. |
| Router.Galaxy.LoadTemplate | src/galaxy.js:205-237 | Unknown ids do nothing. A loaded record re-publishes `<id>.bound` without a request. Otherwise it requests the template once per element, and each 200/302 response publishes `<id>.bound`. The loaded flag becomes true iff one succeeded, and it never goes from true to false. No `__parent` mark changes. |
| Router.Galaxy.RenderChildren | src/galaxy.js:252-262 | Issues a render of every declared child, by id, in order. |
| Router.Galaxy.ShowRoutedView | src/galaxy.js:264-272 | Un-hides exactly the record's elements and publishes `<id>.docked` with the payload. A failed lookup changes nothing. |
| Router.Galaxy.Reveal | src/galaxy.js:282-285 | The bound-template stage: children's renders, then the show and `<id>.docked`. |
| Router.Galaxy.LoadAndReveal | src/galaxy.js:281-285 | The outcome is `RevealOutcome` and the logs and hidden set become `RevealTrace`. Both are taken over the first record with the id and whether it was loaded before. The logs get that record's `.bound` events and template requests, then the children's renders once it is bound, then `.docked` last when it docks; a lookup failure while loading is logged. Only that record's loaded flag can change, and it is true when the call bound it. |
| Router.Galaxy.RenderResolved | src/galaxy.js:278-292 | The outcome is `StageOutcome` and the logs and hidden set become `StagesTrace`. A hide whose lookup throws ends the call `Failed` with the error logged. Such a call makes no template request, publishes no event and issues no child render. Otherwise the stages after hiding decide. |
| Router.Galaxy.Render | src/galaxy.js:149-293 | A whole render call keeps the federation valid and duplicate-free. It is unresolved iff no record has the id and the loader failed. The federation becomes `Joined`, and the loaded module ends joined. A known id leaves the module argument and its children untouched. The children of a newly joined module are back-linked to it; no other `__parent` mark changes. The logs become `ResolveTrace`, then `StagesTrace` for the resolved record's id, and the outcome is `StageOutcome` for that id. A docked or unrevealed record ends loaded. Every other record keeps its loaded flag, except that a newly joined module's missing one is set to false. So a docked render publishes `.docked` last. By `StagesShowOnly`, among the views that are not `autoRender` it leaves only the resolved record shown. A later render of a record that ends loaded sends no template request. |
| Router.Galaxy.RequireModule | src/galaxy.js:155-163 | The branch for an unknown id: a warning and one module request, then the join of the loaded module, or the loader failure logged. A first join appends the module and publishes `.joined`. A re-join warns only for a module without a parent. |
| Router.Galaxy.RevealBound | src/galaxy.js:282-285 | Issues the children's renders. The record docks iff its elements can be found: they are un-hidden and `.docked` is published with the payload. Otherwise the hidden set and the events stay. |
| Pipeline.Successes | src/galaxy.js:218-225 | Counts the 200/302 responses: never more than there are responses, and zero iff none succeeded. |
| Pipeline.BoundCount | src/galaxy.js:211-233 | A loaded record publishes one `.bound`. A record whose lookup throws publishes none. Otherwise there is at most one per element and at most one per response. |
| Pipeline.TemplateFetches | src/galaxy.js:211-229 | A record not yet loaded sends one GET of its template per bound element. A loaded record, or one whose lookup throws, sends none. |
| Pipeline.ChildRenders | src/galaxy.js:252-262 | One render call per declared child. |
| Pipeline.ChildRendersOrder | src/galaxy.js:252-262 | Those calls render each declared child by id, in declaration order, without a payload and with no callback among them. |
| Pipeline.LoadRevealOutcome | src/galaxy.js:205-293 | `Docked` iff the lookup succeeds and some `.bound` is published. `NotRevealed` iff the record was loaded and the lookup throws. `Failed` iff it was not loaded and the lookup throws. Otherwise it is `NotBound`. A docked or unrevealed outcome carries the record; an error outcome carries the lookup's error. |
| Pipeline.Resolve | src/galaxy.js:149-169 | A known id resolves to a federation record with that id. An unknown id resolves to what the loader returned. |
| Pipeline.LoaderModule | src/galaxy.js:151-166 | The loader's module is in play only when no record has the id: a known id resolves without calling the loader. `LoadViewModel` and `Render` may change only this module's marks and its children's `__parent`. |
| Pipeline.StagesShowOnly | src/galaxy.js:239-285 | When the stages dock, the docked record has the rendered id and its elements are shown. Every other non-`autoRender` record's elements are hidden unless the docked record shares them. Only such records' elements are newly hidden. |
| Router.LoadedViewStages | src/galaxy.js:205-285 | For an already loaded view bound to `#a`, the stages dock it: `.bound` is published without a request, then `.docked`, and its element is shown. |

## Left out

- Q promises and the asynchronous interleaving of stages are not modelled. `Render`
  runs one call to its end: every `.bound` event of its element responses comes before
  its `.docked` event. Deferreds that are never resolved (an unknown id in
  `loadTemplate`, a template with no successful response) end the call (`NotBound`).
  The deferred of `renderChildren` is never resolved either, but nothing waits on it:
  the show follows right after it (src/galaxy.js:283-284).
- Rendering the queued children is left to the caller: `dispatched` records the calls
  but does not run them.
- XHR, `requirejs` and `requirejs.onError`, and `ko.applyBindings` are foreign calls.
  - Their results are parameters: the module record, and one status per element.
  - `applyBindings` is taken not to throw.
  - Injecting `innerHTML` may add elements to the document; that is not modelled.
- `history.pushState` URL resolution and the `popstate` listener are browser I/O. The
  pathname to scan is an argument, and `history` records the pushed strings.
- The console messages of `$galaxy` are modelled as notices without their text. The bodies
  mention `currentLocation`, which is always null.
- The postal transport is modelled only as an append-only log of (channel, topic, data).
- `$galaxy.prototype.addRoute` (src/galaxy.js:61-63) is not a working registration. It
  passes three arguments to the one-object `Starship.addRoute`, so the route's fields
  are all undefined.
- The `show` closure added by `join` (src/galaxy.js:186-190) refers to an undefined
  variable. It is not modelled.
- `MissingOptionException` (src/galaxy.js:334) is never defined. Only its effect is
  modelled: the error is caught, and the payload and history are unchanged.
- The implicit global `arg` of the binding loop (src/galaxy.js:401) is modelled as a
  local variable.
- The payload is passed by value. In the source, later merges into `smuggledPayload`
  are visible through the object passed to earlier renders; the model does not capture
  that aliasing.
- Values are strings and maps of strings. JavaScript values of other types and
  undefined array slots are not modelled. `getElementsByClassName`'s collection is
  taken to hold only elements.
- Navigation.Starship.UpdateRoute: when no route has the pattern the source throws a
  `TypeError`. The model reports `found == false` and changes nothing.
  `Router.Galaxy.RouteThen` requires such a route, which the builder always has just
  added.
- Navigation.Starship.Warp: the caught error is also written with `console.error`
  (src/galaxy.js:351-352). A `Starship` has no console log, so that message is not
  modelled; only its effect is: the payload and history are unchanged.
- Navigation.Starship.AddRoute: the source returns its live `routes` array. The model
  returns the registry's value, so changes made later through that reference are not
  captured.
- Dispatch.Plan: a match's callback (src/galaxy.js:102-104) is taken to return
  normally and not to use the router. In the source, a callback that throws ends the
  match loop early, and one that warps starts another scan inside the loop. Neither
  is modelled; `Invoke` only records the call. `Router.Galaxy.Scan` inherits this.
- Router.Galaxy.RouteTo: the source's builder shares one `routeParameters` object
  between `.to` and `.then` (src/galaxy.js:17-31). Calling `.to` again on a builder
  after `.then(cb)` registers `cb` rather than null. The model gives every `.to` a
  fresh builder, so that aliasing is not captured.
- Router.Galaxy.Render: it does not restate the visibility a docked render leaves.
  `Pipeline.StagesShowOnly` proves that about the trace its contract gives, and
  `Router.RenderLoadedScenario` derives it for a concrete call.
- Router.Galaxy.RenderResolved: it does not restate the visibility either, for the
  same reason.
- Router.Galaxy.LoadAndReveal: the same.
- The two filter passes of `scan` (src/galaxy.js:380-390) are one filter here, with
  both conditions. When the first pass keeps nothing, the second is skipped, and the
  result is the same.
