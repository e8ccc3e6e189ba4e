/**
 * The values a render works with and produces: events, notices, requests, how each
 * stage settles, and what the stages after resolution do, as functions of their inputs.
 */
module Pipeline {
  import opened Wrappers
  import opened Routes
  import opened Dom
  import opened Federation
  import opened Dispatch

  /** A message published on the event channel: `<id>.joined`, `<id>.bound` or `<id>.docked`. */
  datatype Event = Event(channel: string, topic: string, data: Option<Payload>)

  /** What the router writes to the console. */
  datatype Notice =
    | UnregisteredView(id: string)
    | AlreadyJoined(id: string)
    | MissingViewModel
    | RenderError(error: DomError)

  /** A request the router sends out: a module to the module loader, or a template GET. */
  datatype Fetch = ModuleFetch(path: string) | TemplateFetch(url: string)

  /** Template responses that count as loaded. */
  predicate IsSuccess(status: int)
  {
    status == 200 || status == 302
  }

  /** How many of the responses succeeded. */
  function Successes(statuses: seq<int>): (n: nat)
    ensures n <= |statuses|
    ensures n == 0 <==> forall k :: 0 <= k < |statuses| ==> !IsSuccess(statuses[k])
    decreases |statuses|
  {
    if |statuses| == 0 then 0
    else Successes(statuses[..|statuses| - 1]) + (if IsSuccess(statuses[|statuses| - 1]) then 1 else 0)
  }

  function Repeat<T>(x: T, n: nat): seq<T>
  {
    seq(n, _ => x)
  }

  function Min(a: nat, b: nat): nat
  {
    if a < b then a else b
  }

  /** How `loadTemplate` settles: bound to the record, never resolved, no such record, or a lookup threw. */
  datatype LoadOutcome = Bound(record: ViewModel) | Unbound | NoRecord | LoadFailed(error: DomError)

  /**
   * How one render call ends: docked; children queued but the reveal's lookup threw;
   * the template never bound; a caught lookup failure; or the module could not be loaded.
   */
  datatype RenderOutcome =
    | Docked(record: ViewModel)
    | NotRevealed(record: ViewModel, error: DomError)
    | NotBound
    | Failed(error: DomError)
    | Unresolved

  /**
   * How many `<id>.bound` events loading a record's template publishes: one when the
   * record was already loaded, none when its lookup throws, otherwise one per
   * successful response to the requests sent for its elements.
   */
  function BoundCount(wasLoaded: bool, found: Result<seq<Element>, DomError>, statuses: seq<int>): (n: nat)
    ensures wasLoaded ==> n == 1
    ensures !wasLoaded && found.Failure? ==> n == 0
    ensures !wasLoaded && found.Success? ==> n <= |found.value| && n <= |statuses|
  {
    if wasLoaded then 1
    else if found.Failure? then 0
    else Successes(statuses[..Min(|found.value|, |statuses|)])
  }

  /** The template requests loading a record sends: one per bound element, none when it was already loaded. */
  function TemplateFetches(wasLoaded: bool, found: Result<seq<Element>, DomError>, url: string): (r: seq<Fetch>)
    ensures |r| == (if wasLoaded || found.Failure? then 0 else |found.value|)
    ensures forall k :: 0 <= k < |r| ==> r[k] == TemplateFetch(url)
  {
    if wasLoaded || found.Failure? then [] else Repeat(TemplateFetch(url), |found.value|)
  }

  /**
   * How the stages after hiding end for `r`, the first record with the rendered id: a
   * template that binds is docked when the record's elements can be found, and otherwise
   * the reveal's lookup throws; a lookup that throws while loading fails the call; a
   * template that never binds leaves the call pending.
   */
  function LoadRevealOutcome(r: ViewModel, wasLoaded: bool, statuses: seq<int>, doc: Document): (o: RenderOutcome)
    ensures o.Docked? <==> ElementsOf(doc, r).Success? && BoundCount(wasLoaded, ElementsOf(doc, r), statuses) > 0
    ensures o.NotRevealed? <==> wasLoaded && ElementsOf(doc, r).Failure?
    ensures o.Failed? <==> !wasLoaded && ElementsOf(doc, r).Failure?
    ensures o.NotBound? <==> ElementsOf(doc, r).Success? && BoundCount(wasLoaded, ElementsOf(doc, r), statuses) == 0
    ensures o.Docked? || o.NotRevealed? ==> o.record == r
    ensures o.NotRevealed? || o.Failed? ==> o.error == ElementsOf(doc, r).error
  {
    var found := ElementsOf(doc, r);
    if BoundCount(wasLoaded, found, statuses) == 0 then (if found.Failure? then Failed(found.error) else NotBound)
    else if found.Success? then Docked(r) else NotRevealed(r, found.error)
  }

  /**
   * How the stages after hiding end for the id `id`, over the federation `records`, when
   * the first record with the id was loaded before iff `wasLoaded`: without such a
   * record the template never binds; otherwise that record's template stage decides.
   */
  function RevealOutcome(records: seq<ViewModel>, id: string, wasLoaded: bool, statuses: seq<int>, doc: Document): RenderOutcome
  {
    if FirstWithId(records, id).None? then NotBound
    else LoadRevealOutcome(records[FirstWithId(records, id).value], wasLoaded, statuses, doc)
  }

  /** What a render changes outside the federation: the logs, and the hidden elements. */
  datatype Trace = Trace(events: seq<Event>, fetches: seq<Fetch>, console: seq<Notice>, dispatched: seq<Action>, hidden: set<Element>)

  /**
   * What the stages after hiding leave, starting from `before`: the record's `<id>.bound`
   * events and template requests, `<id>.docked` when docked, a lookup failure while
   * loading logged, the children's renders once the template is bound, and the record's
   * elements shown when docked. Without a record with the id nothing happens.
   */
  function RevealTrace(records: seq<ViewModel>, id: string, wasLoaded: bool, statuses: seq<int>, doc: Document,
                       payload: Option<Payload>, channel: string, viewDirectory: string, before: Trace): Trace
  {
    if FirstWithId(records, id).None? then before
    else
      var r := records[FirstWithId(records, id).value];
      var found := ElementsOf(doc, r);
      var outcome := LoadRevealOutcome(r, wasLoaded, statuses, doc);
      Trace(
        before.events + Repeat(Event(channel, id + ".bound", None), BoundCount(wasLoaded, found, statuses))
          + (if outcome.Docked? then [Event(channel, id + ".docked", payload)] else []),
        before.fetches + TemplateFetches(wasLoaded, found, viewDirectory + "/" + r.templatePath),
        before.console + (if outcome.Failed? then [RenderError(outcome.error)] else []),
        before.dispatched + (if outcome.Docked? || outcome.NotRevealed? then ChildRenders(r.children) else []),
        before.hidden - (if outcome.Docked? then (set e | e in found.value) else {}))
  }

  /**
   * How the stages after resolving a view model with id `id` end: a hide whose lookup
   * throws fails the call; otherwise the stages after hiding decide.
   */
  function StageOutcome(records: seq<ViewModel>, id: string, wasLoaded: bool, statuses: seq<int>, doc: Document): RenderOutcome
  {
    if HideScan(records, id, doc).failure.Some? then Failed(HideScan(records, id, doc).failure.value)
    else RevealOutcome(records, id, wasLoaded, statuses, doc)
  }

  /**
   * What the stages after resolving a view model with id `id` leave, starting from
   * `before`: the inactive views hidden, then either the hide's lookup failure logged,
   * or the stages after hiding.
   */
  function StagesTrace(records: seq<ViewModel>, id: string, wasLoaded: bool, statuses: seq<int>, doc: Document,
                       payload: Option<Payload>, channel: string, viewDirectory: string, before: Trace): Trace
  {
    var h := HideScan(records, id, doc);
    if h.failure.Some? then before.(console := before.console + [RenderError(h.failure.value)], hidden := before.hidden + h.hidden)
    else RevealTrace(records, id, wasLoaded, statuses, doc, payload, channel, viewDirectory, before.(hidden := before.hidden + h.hidden))
  }

  /**
   * A docked render leaves its record's elements shown and every other non-`autoRender`
   * record's elements hidden, and the only elements it hid belong to such records.
   */
  lemma {:induction false} StagesShowOnly(records: seq<ViewModel>, id: string, wasLoaded: bool, statuses: seq<int>, doc: Document,
                                          payload: Option<Payload>, channel: string, viewDirectory: string, before: Trace)
    requires StageOutcome(records, id, wasLoaded, statuses, doc).Docked?
    ensures var outcome := StageOutcome(records, id, wasLoaded, statuses, doc);
      var after := StagesTrace(records, id, wasLoaded, statuses, doc, payload, channel, viewDirectory, before);
      && outcome.record.id == id
      && ShowsOnly(records, after.hidden, outcome.record, doc)
      && forall e :: e in after.hidden && e !in before.hidden ==> BelongsToInactive(records, id, doc, e)
  {
    var outcome := StageOutcome(records, id, wasLoaded, statuses, doc);
    HideThenShow(records, before.hidden, outcome.record, doc);
  }

  /**
   * The view model `loadViewModel(id)` settles with: the first federation record with
   * the id, otherwise the module the loader returns (`None` when it fails).
   */
  function Resolve(records: seq<ViewModel>, id: string, required: Option<ViewModel>): (r: Option<ViewModel>)
    ensures FirstWithId(records, id).Some? ==> r.Some? && r.value in records && r.value.id == id
    ensures FirstWithId(records, id).None? ==> r == required
  {
    if FirstWithId(records, id).Some? then Some(records[FirstWithId(records, id).value]) else required
  }

  /**
   * The federation after `loadViewModel(id)`: the loader's module `required` is appended
   * when no record has the id and the module had not joined before (`wasJoined`).
   */
  function Joined(records: seq<ViewModel>, id: string, required: Option<ViewModel>, wasJoined: bool): seq<ViewModel>
  {
    records + (if FirstWithId(records, id).None? && required.Some? && !wasJoined then [required.value] else [])
  }

  /**
   * What `loadViewModel(id)` leaves, starting from `before`: nothing for a known id;
   * otherwise the unregistered-view warning and the module request, then the loader's
   * failure logged, the module's `.joined` event, or, for a module that had joined
   * before without a parent (`hadParent`), the already-joined warning.
   */
  function ResolveTrace(records: seq<ViewModel>, id: string, required: Option<ViewModel>, wasJoined: bool, hadParent: bool,
                        channel: string, viewmodelDirectory: string, before: Trace): Trace
  {
    if FirstWithId(records, id).Some? then before
    else
      var fetches := before.fetches + [ModuleFetch(viewmodelDirectory + "/" + id + ".js")];
      var console := before.console + [UnregisteredView(id)];
      if required.None? then before.(fetches := fetches, console := console + [MissingViewModel])
      else if !wasJoined then
        before.(events := before.events + [Event(channel, required.value.id + ".joined", None)], fetches := fetches, console := console)
      else before.(fetches := fetches, console := console + (if hadParent then [] else [AlreadyJoined(required.value.id)]))
  }

  /**
   * What the module loader can hand `loadViewModel(id)`: nothing when a record already has
   * the id, since the loader is then not called; otherwise its result `required`.
   */
  function LoaderModule(records: seq<ViewModel>, id: string, required: Option<ViewModel>): (r: Option<ViewModel>)
    ensures FirstWithId(records, id).Some? ==> r.None?
  {
    if FirstWithId(records, id).Some? then None else required
  }

  /** The loaded module, whose `__joined` and `__loaded` marks joining it may set. */
  function Module(required: Option<ViewModel>): set<ViewModel>
  {
    if required.None? then {} else {required.value}
  }

  /** The loaded module's declared children, whose `__parent` marks joining it may set. */
  function ModuleChildren(required: Option<ViewModel>): set<ViewModel>
  {
    if required.None? then {} else set c | c in required.value.children
  }

  /** The render calls `renderChildren` issues, one per declared child, without payload. */
  function ChildRenders(children: seq<ViewModel>): (r: seq<Action>)
    ensures |r| == |children|
  {
    seq(|children|, i requires 0 <= i < |children| => RenderCall(children[i].id, None))
  }

  /**
   * The children's renders render each declared child, by id, in declaration order,
   * without a payload and with no callback among them.
   */
  lemma {:induction false} ChildRendersOrder(children: seq<ViewModel>)
    ensures forall a :: a in ChildRenders(children) ==> a.RenderCall? && a.payload.None?
    ensures |Rendered(ChildRenders(children))| == |children|
    ensures forall i :: 0 <= i < |children| ==> Rendered(ChildRenders(children))[i] == children[i].id
    decreases |children|
  {
    if |children| > 0 {
      var n := |children| - 1;
      assert ChildRenders(children)[..n] == ChildRenders(children[..n]);
      ChildRendersOrder(children[..n]);
    }
  }
}
