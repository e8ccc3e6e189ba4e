/**
 * The `$galaxy` router object: configuration, route builder, static views, scan
 * dispatch, the view federation and the render pipeline, as sequential state changes.
 */
module Router {
  import opened Wrappers
  import opened Routes
  import opened Dom
  import opened Federation
  import opened Dispatch
  import opened Pipeline
  import Navigation

  /** The channel events are published on and the directories modules and templates come from. */
  datatype Config = Config(channel: string, viewmodelDirectory: string, viewDirectory: string)

  /** The values the constructor starts with. */
  const Defaults: Config := Config("galaxy", "/app/viewmodel", "/app/view")

  /** The options object; `None` is a property that is not present. */
  datatype Settings = Settings(channel: Option<string>, viewmodelDirectory: Option<string>, viewDirectory: Option<string>)

  /**
   * `setOptions`: the channel changes only for a present, non-empty value; each
   * directory changes whenever its key is present.
   */
  function ApplySettings(c: Config, s: Settings): (r: Config)
    ensures s.channel.Some? && s.channel.value != "" ==> r.channel == s.channel.value
    ensures s.channel.None? || s.channel.value == "" ==> r.channel == c.channel
    ensures s.viewmodelDirectory.Some? ==> r.viewmodelDirectory == s.viewmodelDirectory.value
    ensures s.viewmodelDirectory.None? ==> r.viewmodelDirectory == c.viewmodelDirectory
    ensures s.viewDirectory.Some? ==> r.viewDirectory == s.viewDirectory.value
    ensures s.viewDirectory.None? ==> r.viewDirectory == c.viewDirectory
  {
    Config(
      if s.channel.Some? && s.channel.value != "" then s.channel.value else c.channel,
      if s.viewmodelDirectory.Some? then s.viewmodelDirectory.value else c.viewmodelDirectory,
      if s.viewDirectory.Some? then s.viewDirectory.value else c.viewDirectory)
  }

  class Galaxy {
    var config: Config
    var federation: seq<ViewModel>
    var blackHoles: seq<string>
    const starship: Navigation.Starship
    /** The event channel, as the log of everything published. */
    var events: seq<Event>
    /** Render calls and callback invocations in the order they were issued. */
    var dispatched: seq<Action>
    /** The elements whose `style.display` is 'none'. */
    var hidden: set<Element>
    var fetches: seq<Fetch>
    var console: seq<Notice>

    /** The logs and the hidden elements. */
    function Observed(): Trace
      reads this
    {
      Trace(events, fetches, console, dispatched, hidden)
    }

    /** Every record in the federation has joined, and none is there twice. */
    ghost predicate Valid()
      reads this`federation, federation`joined
    {
      && (forall i :: 0 <= i < |federation| ==> federation[i].joined)
      && (forall i, j :: 0 <= i < j < |federation| ==> Differ(federation, i, j))
    }

    constructor ()
      ensures Valid()
      ensures config == Defaults && federation == [] && blackHoles == []
      ensures events == [] && dispatched == [] && hidden == {} && fetches == [] && console == []
      ensures fresh(starship) && starship.routes == [] && starship.payload == map[] && starship.history == []
    {
      config := Defaults;
      federation := [];
      blackHoles := [];
      starship := new Navigation.Starship();
      events := [];
      dispatched := [];
      hidden := {};
      fetches := [];
      console := [];
    }

    /** `setOptions`. */
    method SetOptions(s: Settings)
      modifies this`config
      ensures config == ApplySettings(old(config), s)
    {
      config := ApplySettings(config, s);
    }

    /** `static`: registers a view rendered on every scan that matches something. */
    method Static(vmId: string)
      modifies this`blackHoles
      ensures blackHoles == old(blackHoles) + [vmId]
    {
      blackHoles := blackHoles + [vmId];
    }

    /** `route(pattern).to(vmId)`: registers the route with a null callback. */
    method RouteTo(pattern: string, vmId: string)
      modifies starship
      ensures starship.routes == old(starship.routes) + [Route(pattern, vmId, None)]
      ensures starship.payload == old(starship.payload) && starship.history == old(starship.history)
    {
      var _ := starship.AddRoute(pattern, vmId, None);
    }

    /**
     * `.then(callback)` on the builder: patches the callback of the FIRST route with the
     * pattern, which is an earlier duplicate when the pattern was registered before.
     */
    method RouteThen(pattern: string, callback: Option<Callback>)
      requires exists j :: 0 <= j < |starship.routes| && starship.routes[j].pattern == pattern
      modifies starship
      ensures var i := FirstWithPattern(old(starship.routes), pattern).value;
        starship.routes == old(starship.routes)[i := old(starship.routes)[i].(callback := callback)]
      ensures starship.payload == old(starship.payload) && starship.history == old(starship.history)
    {
      var found := starship.UpdateRoute(pattern, callback);
      assert found;
    }

    /**
     * `$galaxy.scan`: scans `pathname` and issues, when something matched, the static
     * renders and then each match's render followed by its callback.
     */
    method Scan(pathname: string)
      modifies starship, this`dispatched
      ensures starship.routes == old(starship.routes) && starship.history == old(starship.history)
      ensures var matches := MatchRoutes(starship.routes, pathname);
        starship.payload == if |matches| > 0 then old(starship.payload) + ScanParams(starship.routes, pathname) else old(starship.payload)
      ensures dispatched == old(dispatched) + Dispatched(MatchRoutes(starship.routes, pathname), blackHoles, starship.payload)
    {
      var matches := starship.Scan(pathname);
      var payload := starship.GetPayload();
      var actions := Plan(matches, blackHoles, payload);
      dispatched := dispatched + actions;
    }

    /**
     * `warp().to(location)[.with(payload)].engage()`: warps to the location (replacing the
     * payload when one is given) and scans `pathname`, the location the browser shows
     * after the push.
     */
    method Warp(location: string, payload: Option<Payload>, pathname: string)
      modifies starship, this`dispatched
      ensures starship.routes == old(starship.routes)
      ensures starship.history == old(starship.history) + [location]
      ensures var carried := if payload.Some? then payload.value else old(starship.payload);
        var matches := MatchRoutes(starship.routes, pathname);
        starship.payload == if |matches| > 0 then carried + ScanParams(starship.routes, pathname) else carried
      ensures dispatched == old(dispatched) + Dispatched(MatchRoutes(starship.routes, pathname), blackHoles, starship.payload)
    {
      var _ := starship.Warp(Navigation.Request(Some(location), payload));
      Scan(pathname);
    }

    /** `create`: applies the options when given and scans the current location. */
    method Create(settings: Option<Settings>, pathname: string)
      modifies this`config, starship, this`dispatched
      ensures config == if settings.Some? then ApplySettings(old(config), settings.value) else old(config)
      ensures starship.routes == old(starship.routes) && starship.history == old(starship.history)
      ensures var matches := MatchRoutes(starship.routes, pathname);
        starship.payload == if |matches| > 0 then old(starship.payload) + ScanParams(starship.routes, pathname) else old(starship.payload)
      ensures dispatched == old(dispatched) + Dispatched(MatchRoutes(starship.routes, pathname), blackHoles, starship.payload)
    {
      if settings.Some? {
        SetOptions(settings.value);
      }
      Scan(pathname);
    }

    /**
     * `join`: the first time, marks each direct child with this record's id as parent,
     * defaults an absent loaded flag to false, marks the record joined, appends it to the
     * federation and publishes `<id>.joined`. Joining again changes nothing but may warn.
     */
    method Join(vm: ViewModel)
      requires Valid()
      modifies this`federation, this`events, this`console, vm`joined, vm`loaded, vm.children`parent
      ensures Valid() && vm.joined
      ensures old(vm.joined) ==> federation == old(federation) && events == old(events)
      ensures old(vm.joined) ==> console == old(console) + (if old(vm.parent).None? then [AlreadyJoined(vm.id)] else [])
      ensures old(vm.joined) ==> vm.loaded == old(vm.loaded) && vm.parent == old(vm.parent)
      ensures old(vm.joined) ==> forall c :: c in vm.children ==> c.parent == old(c.parent)
      ensures !old(vm.joined) ==> federation == old(federation) + [vm] && console == old(console)
      ensures !old(vm.joined) ==> events == old(events) + [Event(config.channel, vm.id + ".joined", None)]
      ensures !old(vm.joined) ==> forall c :: c in vm.children ==> c.parent == Some(vm.id)
      ensures !old(vm.joined) ==> vm.loaded == if old(vm.loaded).None? then Some(false) else old(vm.loaded)
      ensures vm !in vm.children ==> vm.parent == old(vm.parent)
      ensures forall c :: c in vm.children && c != vm ==> c.joined == old(c.joined) && c.loaded == old(c.loaded)
      ensures forall r :: r in old(federation) ==> r.loaded == old(r.loaded)
    {
      if !vm.joined {
        assert forall i :: 0 <= i < |federation| ==> federation[i] != vm;
        var i := 0;
        while i < |vm.children|
          modifies vm.children`parent
          invariant 0 <= i <= |vm.children|
          invariant forall j :: 0 <= j < i ==> vm.children[j].parent == Some(vm.id)
          invariant forall c :: c in vm.children ==> c.joined == old(c.joined) && c.loaded == old(c.loaded)
        {
          vm.children[i].parent := Some(vm.id);
          i := i + 1;
        }
        if vm.loaded.None? {
          vm.loaded := Some(false);
        }
        vm.joined := true;
        federation := federation + [vm];
        forall i, j | 0 <= i < j < |federation|
          ensures Differ(federation, i, j)
        {
          if j < |old(federation)| {
            assert Differ(old(federation), i, j);
          }
        }
        events := events + [Event(config.channel, vm.id + ".joined", None)];
      } else if vm.parent.None? {
        console := console + [AlreadyJoined(vm.id)];
      }
    }

    /**
     * `loadViewModel`: the first federation record with the id; otherwise a warning, a
     * request for `<viewmodelDirectory>/<id>.js`, and the join of the module the loader
     * returns (`required`; `None` when the loader fails, which is logged).
     */
    method LoadViewModel(id: string, required: Option<ViewModel>) returns (vm: Option<ViewModel>)
      requires Valid()
      modifies this`federation, this`events, this`console, this`fetches, Module(LoaderModule(federation, id, required))`joined, Module(LoaderModule(federation, id, required))`loaded,
        ModuleChildren(LoaderModule(federation, id, required))`parent
      ensures Valid()
      ensures vm == Resolve(old(federation), id, required)
      ensures var wasJoined := required.Some? && old(required.value.joined);
        var hadParent := required.Some? && old(required.value.parent).Some?;
        && federation == Joined(old(federation), id, required, wasJoined)
        && Observed() == ResolveTrace(old(federation), id, required, wasJoined, hadParent, config.channel, config.viewmodelDirectory, old(Observed()))
      ensures FirstWithId(old(federation), id).None? && required.Some? ==>
        var m := required.value;
        && m.joined
        && (old(m.joined) ==> m.loaded == old(m.loaded) && m.parent == old(m.parent) && forall c :: c in m.children ==> c.parent == old(c.parent))
        && (!old(m.joined) ==>
             && (forall c :: c in m.children ==> c.parent == Some(m.id))
             && m.loaded == if old(m.loaded).None? then Some(false) else old(m.loaded))
        && (m !in m.children ==> m.parent == old(m.parent))
        && forall c :: c in m.children && c != m ==> c.joined == old(c.joined) && c.loaded == old(c.loaded)
      ensures forall r :: r in old(federation) ==> r.loaded == old(r.loaded)
      ensures forall r :: r in federation ==> (r.loaded == Some(true) <==> old(r.loaded) == Some(true))
      ensures var joins := FirstWithId(old(federation), id).None? && required.Some? && !old(required.value.joined);
        forall q :: q in federation && !(joins && q in required.value.children) ==> q.parent == old(q.parent)
    {
      var index := FirstWithId(federation, id);
      if index.Some? {
        vm := Some(federation[index.value]);
      } else {
        RequireModule(id, required);
        vm := required;
      }
    }

    /**
     * The branch of `loadViewModel` for an id no record has: warn, request the module,
     * then join what the loader returns, or log the loader's failure.
     */
    method RequireModule(id: string, required: Option<ViewModel>)
      requires Valid()
      modifies this`federation, this`events, this`console, this`fetches, Module(required)`joined, Module(required)`loaded, ModuleChildren(required)`parent
      ensures Valid()
      ensures var joins := required.Some? && !old(required.value.joined);
        var rejoins := required.Some? && old(required.value.joined);
        && federation == old(federation) + (if joins then [required.value] else [])
        && events == old(events) + (if joins then [Event(config.channel, required.value.id + ".joined", None)] else [])
        && fetches == old(fetches) + [ModuleFetch(config.viewmodelDirectory + "/" + id + ".js")]
        && console == old(console) + [UnregisteredView(id)]
             + (if required.None? then [MissingViewModel] else [])
             + (if rejoins && old(required.value.parent).None? then [AlreadyJoined(required.value.id)] else [])
      ensures required.Some? ==>
        var m := required.value;
        && m.joined
        && (old(m.joined) ==> m.loaded == old(m.loaded) && m.parent == old(m.parent) && forall c :: c in m.children ==> c.parent == old(c.parent))
        && (!old(m.joined) ==>
             && (forall c :: c in m.children ==> c.parent == Some(m.id))
             && m.loaded == if old(m.loaded).None? then Some(false) else old(m.loaded))
        && (m !in m.children ==> m.parent == old(m.parent))
        && forall c :: c in m.children && c != m ==> c.joined == old(c.joined) && c.loaded == old(c.loaded)
      ensures forall r :: r in old(federation) ==> r.loaded == old(r.loaded)
      ensures forall r :: r in federation ==> (r.loaded == Some(true) <==> old(r.loaded) == Some(true))
      ensures var joins := required.Some? && !old(required.value.joined);
        forall q :: q in federation && !(joins && q in required.value.children) ==> q.parent == old(q.parent)
    {
      console := console + [UnregisteredView(id)];
      fetches := fetches + [ModuleFetch(config.viewmodelDirectory + "/" + id + ".js")];
      if required.Some? {
        Join(required.value);
      } else {
        console := console + [MissingViewModel];
      }
    }

    /**
     * `hideInactiveViews`: hides the elements of every record, in federation order, that
     * is not `autoRender` and has another id than `vm`; a lookup that throws stops it.
     */
    method HideInactiveViews(vm: ViewModel, doc: Document) returns (failure: Option<DomError>)
      modifies this`hidden
      ensures hidden == old(hidden) + HideScan(federation, vm.id, doc).hidden
      ensures failure == HideScan(federation, vm.id, doc).failure
    {
      var h := hidden;
      failure := None;
      var i := 0;
      while i < |federation|
        invariant 0 <= i <= |federation|
        invariant HideScan(federation[..i], vm.id, doc).failure.None?
        invariant h == old(hidden) + HideScan(federation[..i], vm.id, doc).hidden
      {
        var view := federation[i];
        assert federation[..i + 1][..i] == federation[..i];
        if !view.autoRender && view.id != vm.id {
          var found := GetDOMElements(doc, view.domBindingId);
          if found.Failure? {
            failure := Some(found.error);
            hidden := h;
            HideScanStops(federation, i + 1, vm.id, doc);
            return;
          }
          var els := found.value;
          ghost var before := h;
          for k := 0 to |els|
            invariant h == before + (set e | e in els[..k])
          {
            assert els[..k + 1] == els[..k] + [els[k]];
            h := h + {els[k]};
          }
          assert els[..|els|] == els;
        }
        i := i + 1;
      }
      assert federation[..|federation|] == federation;
      hidden := h;
    }

    /**
     * `loadTemplate`: for the first record with the id, when not yet loaded, requests the
     * template once per bound element; each response with status 200 or 302 sets the
     * loaded flag and publishes `<id>.bound`, any other status changes nothing. A record
     * already loaded only re-publishes `<id>.bound`, without a request.
     */
    method LoadTemplate(id: string, statuses: seq<int>, doc: Document) returns (outcome: LoadOutcome)
      requires Valid()
      modifies this`events, this`fetches, federation`loaded
      ensures Valid()
      ensures FirstWithId(federation, id).None? ==> outcome == NoRecord && events == old(events) && fetches == old(fetches)
      ensures FirstWithId(federation, id).Some? ==>
        var r := federation[FirstWithId(federation, id).value];
        var wasLoaded := old(r.loaded) == Some(true);
        var n := BoundCount(wasLoaded, ElementsOf(doc, r), statuses);
        && fetches == old(fetches) + TemplateFetches(wasLoaded, ElementsOf(doc, r), config.viewDirectory + "/" + r.templatePath)
        && events == old(events) + Repeat(Event(config.channel, id + ".bound", None), n)
        && r.loaded == (if n > 0 then Some(true) else old(r.loaded))
        && outcome == (if n > 0 then Bound(r) else if ElementsOf(doc, r).Failure? then LoadFailed(ElementsOf(doc, r).error) else Unbound)
      ensures outcome.Bound? ==> FirstWithId(federation, id).Some? && outcome.record == federation[FirstWithId(federation, id).value]
      ensures forall q :: q in federation && !(outcome.Bound? && q == outcome.record) ==> q.loaded == old(q.loaded)
      ensures forall q :: q in federation ==> (old(q.loaded) == Some(true) ==> q.loaded == Some(true))
      ensures forall q :: q in federation ==> q.parent == old(q.parent)
    {
      var index := FirstWithId(federation, id);
      if index.None? {
        outcome := NoRecord;
        return;
      }
      var r := federation[index.value];
      var bound := Event(config.channel, r.id + ".bound", None);
      if r.loaded != Some(true) {
        var url := config.viewDirectory + "/" + r.templatePath;
        var found := GetDOMElements(doc, r.domBindingId);
        if found.Failure? {
          outcome := LoadFailed(found.error);
          return;
        }
        var els := found.value;
        var sent := fetches;
        for k := 0 to |els|
          invariant sent == fetches + Repeat(TemplateFetch(url), k)
        {
          sent := sent + [TemplateFetch(url)];
        }
        fetches := sent;
        // the responses, one per element, in the order they arrive
        var n := Min(|els|, |statuses|);
        var published := events;
        var count := 0;
        for k := 0 to n
          invariant count == Successes(statuses[..k])
          invariant published == events + Repeat(bound, count)
        {
          assert statuses[..k + 1][..k] == statuses[..k];
          if statuses[k] == 200 || statuses[k] == 302 {
            published := published + [bound];
            count := count + 1;
          }
        }
        events := published;
        if count > 0 {
          r.loaded := Some(true);
          outcome := Bound(r);
        } else {
          outcome := Unbound;
        }
      } else {
        events := events + [bound];
        outcome := Bound(r);
      }
    }

    /** `renderChildren`: issues a render of every declared child, by id, in order. */
    method RenderChildren(vm: ViewModel)
      modifies this`dispatched
      ensures dispatched == old(dispatched) + ChildRenders(vm.children)
    {
      var issued := dispatched;
      for i := 0 to |vm.children|
        invariant issued == old(dispatched) + ChildRenders(vm.children[..i])
      {
        issued := issued + [RenderCall(vm.children[i].id, None)];
      }
      assert vm.children[..|vm.children|] == vm.children;
      dispatched := issued;
    }

    /** `showRoutedView`: shows the record's elements and publishes `<id>.docked` with the payload. */
    method ShowRoutedView(vm: ViewModel, payload: Option<Payload>, doc: Document) returns (failure: Option<DomError>)
      modifies this`hidden, this`events
      ensures ElementsOf(doc, vm).Failure? ==>
        failure == Some(ElementsOf(doc, vm).error) && hidden == old(hidden) && events == old(events)
      ensures ElementsOf(doc, vm).Success? ==>
        && failure == None
        && hidden == old(hidden) - (set e | e in ElementsOf(doc, vm).value)
        && events == old(events) + [Event(config.channel, vm.id + ".docked", payload)]
    {
      var found := GetDOMElements(doc, vm.domBindingId);
      if found.Failure? {
        failure := Some(found.error);
        return;
      }
      failure := None;
      var els := found.value;
      var h := hidden;
      for k := 0 to |els|
        invariant h == old(hidden) - (set e | e in els[..k])
      {
        assert els[..k + 1] == els[..k] + [els[k]];
        h := h - {els[k]};
      }
      assert els[..|els|] == els;
      hidden := h;
      events := events + [Event(config.channel, vm.id + ".docked", payload)];
    }

    /**
     * The last stage of a render, once the template is bound: issue the children's
     * renders, then show the record and publish `<id>.docked`.
     */
    method Reveal(vm: ViewModel, payload: Option<Payload>, doc: Document) returns (failure: Option<DomError>)
      modifies this`dispatched, this`hidden, this`events
      ensures dispatched == old(dispatched) + ChildRenders(vm.children)
      ensures failure.None? <==> ElementsOf(doc, vm).Success?
      ensures ElementsOf(doc, vm).Failure? ==>
        failure == Some(ElementsOf(doc, vm).error) && hidden == old(hidden) && events == old(events)
      ensures ElementsOf(doc, vm).Success? ==>
        && hidden == old(hidden) - (set e | e in ElementsOf(doc, vm).value)
        && events == old(events) + [Event(config.channel, vm.id + ".docked", payload)]
    {
      RenderChildren(vm);
      failure := ShowRoutedView(vm, payload, doc);
    }

    /**
     * One `render(vmId, payload)` call run to its end: resolve or load the view model
     * (`required` is what the module loader returns), then the remaining stages.
     */
    method Render(vmId: string, payload: Option<Payload>, required: Option<ViewModel>, statuses: seq<int>, doc: Document)
      returns (outcome: RenderOutcome)
      requires Valid()
      modifies this`federation, this`events, this`console, this`fetches, this`hidden, this`dispatched
      modifies federation`loaded, Module(LoaderModule(federation, vmId, required))`joined, Module(LoaderModule(federation, vmId, required))`loaded,
        ModuleChildren(LoaderModule(federation, vmId, required))`parent
      ensures Valid()
      ensures outcome.Unresolved? <==> Resolve(old(federation), vmId, required).None?
      ensures var wasJoined := required.Some? && old(required.value.joined);
        federation == Joined(old(federation), vmId, required, wasJoined)
      ensures var joins := FirstWithId(old(federation), vmId).None? && required.Some? && !old(required.value.joined);
        forall q :: q in federation && !(joins && q in required.value.children) ==> q.parent == old(q.parent)
      ensures var wasJoined := required.Some? && old(required.value.joined);
        var hadParent := required.Some? && old(required.value.parent).Some?;
        var resolved := ResolveTrace(old(federation), vmId, required, wasJoined, hadParent, config.channel, config.viewmodelDirectory, old(Observed()));
        var res := Resolve(old(federation), vmId, required);
        && (res.None? ==> Observed() == resolved)
        && (res.Some? ==>
             var i := FirstWithId(federation, res.value.id);
             var wasLoaded := i.Some? && (var r := federation[i.value]; old(r.loaded) == Some(true));
             && outcome == StageOutcome(federation, res.value.id, wasLoaded, statuses, doc)
             && Observed() == StagesTrace(federation, res.value.id, wasLoaded, statuses, doc, payload, config.channel, config.viewDirectory, resolved))
      ensures FirstWithId(old(federation), vmId).None? && required.Some? ==>
        var m := required.value;
        && m.joined
        && (old(m.joined) ==> m.parent == old(m.parent) && forall c :: c in m.children ==> c.parent == old(c.parent))
        && (!old(m.joined) ==> forall c :: c in m.children ==> c.parent == Some(m.id))
        && (m !in m.children ==> m.parent == old(m.parent))
      ensures outcome.Docked? || outcome.NotRevealed? ==> outcome.record.loaded == Some(true)
      ensures forall q :: q in old(federation) && !((outcome.Docked? || outcome.NotRevealed?) && q == outcome.record) ==> q.loaded == old(q.loaded)
      ensures FirstWithId(old(federation), vmId).None? && required.Some? ==>
        var m := required.value;
        !((outcome.Docked? || outcome.NotRevealed?) && m == outcome.record) ==>
          m.loaded == if !old(m.joined) && old(m.loaded).None? then Some(false) else old(m.loaded)
    {
      var resolved := LoadViewModel(vmId, required);
      if resolved.None? {
        outcome := Unresolved;
        return;
      }
      var vm := resolved.value;
      ghost var i := FirstWithId(federation, vm.id);
      ghost var wasLoaded := i.Some? && federation[i.value].loaded == Some(true);
      assert wasLoaded == (i.Some? && (var r := federation[i.value]; old(r.loaded) == Some(true)));
      outcome := RenderResolved(vm, payload, statuses, doc);
    }

    /**
     * The stages of a render after resolution: hide the inactive views, then load and
     * reveal. A lookup failure while hiding is caught and logged.
     */
    method RenderResolved(vm: ViewModel, payload: Option<Payload>, statuses: seq<int>, doc: Document)
      returns (outcome: RenderOutcome)
      requires Valid()
      modifies this`events, this`console, this`fetches, this`hidden, this`dispatched, federation`loaded
      ensures Valid()
      ensures var i := FirstWithId(federation, vm.id);
        var wasLoaded := i.Some? && old(federation[i.value].loaded) == Some(true);
        && outcome == StageOutcome(federation, vm.id, wasLoaded, statuses, doc)
        && Observed() == StagesTrace(federation, vm.id, wasLoaded, statuses, doc, payload, config.channel, config.viewDirectory, old(Observed()))
      ensures outcome.Docked? || outcome.NotRevealed? ==> outcome.record.loaded == Some(true)
      ensures forall q :: q in federation && !((outcome.Docked? || outcome.NotRevealed?) && q == outcome.record) ==> q.loaded == old(q.loaded)
    {
      var hideFailure := HideInactiveViews(vm, doc);
      if hideFailure.Some? {
        console := console + [RenderError(hideFailure.value)];
        outcome := Failed(hideFailure.value);
        return;
      }
      ghost var mid := Observed();
      assert mid == old(Observed()).(hidden := old(hidden) + HideScan(federation, vm.id, doc).hidden);
      outcome := LoadAndReveal(vm, payload, statuses, doc);
    }

    /**
     * The stages after hiding: load the template of the first record with the id, with
     * the given response statuses, and, once bound, reveal it. A lookup failure while
     * loading is caught and logged; one while revealing is not.
     */
    method LoadAndReveal(vm: ViewModel, payload: Option<Payload>, statuses: seq<int>, doc: Document)
      returns (outcome: RenderOutcome)
      requires Valid()
      modifies this`events, this`console, this`fetches, this`hidden, this`dispatched, federation`loaded
      ensures Valid()
      ensures var i := FirstWithId(federation, vm.id);
        var wasLoaded := i.Some? && old(federation[i.value].loaded) == Some(true);
        && outcome == RevealOutcome(federation, vm.id, wasLoaded, statuses, doc)
        && Observed() == RevealTrace(federation, vm.id, wasLoaded, statuses, doc, payload, config.channel, config.viewDirectory, old(Observed()))
      ensures outcome.Docked? || outcome.NotRevealed? ==> outcome.record.loaded == Some(true)
      ensures forall q :: q in federation && !((outcome.Docked? || outcome.NotRevealed?) && q == outcome.record) ==> q.loaded == old(q.loaded)
    {
      var loading := LoadTemplate(vm.id, statuses, doc);
      match loading {
        case NoRecord =>
          outcome := NotBound;
        case Unbound =>
          outcome := NotBound;
        case LoadFailed(e) =>
          console := console + [RenderError(e)];
          outcome := Failed(e);
        case Bound(record) =>
          assert record.id == vm.id;
          outcome := RevealBound(record, payload, doc);
      }
    }

    /**
     * The reveal of a record whose template is bound: docked when its elements can be
     * found, otherwise not revealed, with the children's renders issued either way.
     */
    method RevealBound(record: ViewModel, payload: Option<Payload>, doc: Document)
      returns (outcome: RenderOutcome)
      modifies this`dispatched, this`hidden, this`events
      ensures outcome == if ElementsOf(doc, record).Success? then Docked(record) else NotRevealed(record, ElementsOf(doc, record).error)
      ensures dispatched == old(dispatched) + ChildRenders(record.children)
      ensures outcome.Docked? ==>
        && hidden == old(hidden) - (set e | e in ElementsOf(doc, record).value)
        && events == old(events) + [Event(config.channel, record.id + ".docked", payload)]
      ensures !outcome.Docked? ==> hidden == old(hidden) && events == old(events)
    {
      var showFailure := Reveal(record, payload, doc);
      if showFailure.Some? {
        outcome := NotRevealed(record, showFailure.value);
      } else {
        outcome := Docked(record);
      }
    }
  }

  /**
   * `route("a").to("x").then(first)` and then `route("a").to("y").then(second)`: the second
   * callback lands on the earlier "a" route and the later one keeps a null callback.
   */
  method DuplicateRouteScenario()
  {
    var g := new Galaxy();
    g.RouteTo("a", "x");
    assert g.starship.routes[0].pattern == "a";
    g.RouteThen("a", Some("first"));
    g.RouteTo("a", "y");
    assert g.starship.routes[0].pattern == "a";
    g.RouteThen("a", Some("second"));
    assert g.starship.routes == [Route("a", "x", Some("second")), Route("a", "y", None)];
  }

  /**
   * Joining a parent record twice: it is appended and announced once, its child is
   * back-linked but not joined, and the second join warns because the parent itself
   * has no parent.
   */
  method JoinTwiceScenario()
  {
    var g := new Galaxy();
    var child := new ViewModel("c", "#c", "c.html", false, [], None);
    var vm := new ViewModel("p", "#p", "p.html", false, [child], None);
    g.Join(vm);
    assert "p" + ".joined" == "p.joined";
    g.Join(vm);
    assert g.federation == [vm];
    assert g.events == [Event("galaxy", "p.joined", None)];
    assert g.console == [AlreadyJoined("p")];
    assert child.parent == Some("p") && !child.joined;
    assert vm.loaded == Some(false);
  }

  /**
   * The stages after resolution for a loaded view "a" bound to `#a`: it docks, and only
   * `.bound` and `.docked` are published.
   */
  lemma LoadedViewStages(a: ViewModel, doc: Document, before: Trace)
    requires a.id == "a" && a.domBindingId == "#a" && a.children == []
    requires doc == Document(map["a" := 1], map[])
    ensures FirstWithId([a], "a") == Some(0)
    ensures StageOutcome([a], "a", true, [], doc) == Docked(a)
    ensures StagesTrace([a], "a", true, [], doc, None, "galaxy", "/app/view", before)
      == before.(events := before.events + [Event("galaxy", "a.bound", None), Event("galaxy", "a.docked", None)],
                 hidden := before.hidden - {1})
  {
    assert Undecorated("#a") == "a";
    assert [a][..0] == [];
    assert HideScan([a], "a", doc) == HideResult({}, None);
    assert "a" + ".bound" == "a.bound" && "a" + ".docked" == "a.docked";
    var bound := Event("galaxy", "a.bound", None);
    assert Repeat(bound, 1)[0] == bound;
    assert Repeat(bound, 1) == [bound];
  }

  /**
   * Rendering again a joined view whose template is already loaded: the call docks that
   * view and leaves its element shown.
   */
  method RenderLoadedScenario()
  {
    var g := new Galaxy();
    var a := new ViewModel("a", "#a", "a.html", false, [], Some(true));
    g.Join(a);
    var doc := Document(map["a" := 1], map[]);
    assert g.federation == [a] && a.loaded == Some(true) && g.config == Defaults;
    ghost var before := g.Observed();
    LoadedViewStages(a, doc, before);
    var outcome := g.Render("a", None, None, [], doc);
    assert g.federation == [a];
    assert outcome == Docked(a);
    StagesShowOnly(g.federation, "a", true, [], doc, None, "galaxy", "/app/view", before);
    assert 1 !in g.hidden;
  }
}
