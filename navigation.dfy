/** The Starship: the mutable route registry, smuggled payload and history of one router. */
module Navigation {
  import opened Wrappers
  import opened Segments
  import opened Routes

  /**
   * The argument of `Starship.warp`: `null`/`undefined`, a location string, or an
   * object whose `location` and `payload` properties may be absent (a falsy payload
   * counts as absent).
   */
  datatype WarpTarget =
    | Absent
    | Text(location: string)
    | Request(place: Option<string>, payload: Option<Payload>)

  /** The location a warp looks up among the patterns; the empty string and `undefined` match nothing. */
  function TargetLocation(target: WarpTarget): (r: Option<string>)
    ensures r.Some? <==> (target.Text? && target.location != "") || (target.Request? && target.place.Some?)
  {
    match target
    case Absent => None
    case Text(s) => if s == "" then None else Some(s)
    case Request(place, _) => place
  }

  /**
   * What a warp pushes onto the history: a request without a location throws before the
   * push, `null` throws at the payload test, and the empty string pushes "".
   */
  function PushedLocation(target: WarpTarget): (r: Option<string>)
    ensures r.None? <==> target.Absent? || (target.Request? && target.place.None?)
    ensures TargetLocation(target).Some? ==> r == TargetLocation(target)
    ensures r.Some? && TargetLocation(target).None? ==> r == Some("")
  {
    match target
    case Absent => None
    case Text(s) => Some(s)
    case Request(place, _) => place
  }

  class Starship {
    var routes: seq<Route>
    var payload: Payload
    /** The locations pushed with `history.pushState`, oldest first. */
    var history: seq<string>

    constructor ()
      ensures routes == [] && payload == map[] && history == []
    {
      routes := [];
      payload := map[];
      history := [];
    }

    /** `getPayload`: the payload carried across navigations. */
    method GetPayload() returns (p: Payload)
      ensures p == payload
    {
      p := payload;
    }

    /** `addRoute`: appends one route at the end and returns the whole registry. */
    method AddRoute(pattern: string, viewModel: string, callback: Option<Callback>) returns (all: seq<Route>)
      modifies this
      ensures routes == old(routes) + [Route(pattern, viewModel, callback)]
      ensures all == routes
      ensures payload == old(payload) && history == old(history)
    {
      routes := routes + [Route(pattern, viewModel, callback)];
      all := routes;
    }

    /**
     * `updateRoute`: replaces the callback of the first route whose pattern equals
     * `pattern`; when there is none the source throws, and nothing changes.
     */
    method UpdateRoute(pattern: string, callback: Option<Callback>) returns (found: bool)
      modifies this
      ensures found <==> exists j :: 0 <= j < |old(routes)| && old(routes)[j].pattern == pattern
      ensures |routes| == |old(routes)|
      ensures found ==>
        var i := FirstWithPattern(old(routes), pattern).value;
        && routes[i] == old(routes)[i].(callback := callback)
        && forall j :: 0 <= j < |routes| && j != i ==> routes[j] == old(routes)[j]
      ensures !found ==> routes == old(routes)
      ensures payload == old(payload) && history == old(history)
    {
      var index := FirstWithPattern(routes, pattern);
      found := index.Some?;
      if found {
        var i := index.value;
        routes := routes[i := routes[i].(callback := callback)];
      }
    }

    /**
     * `warp`: looks up the first route whose pattern is the target location, replaces
     * the payload wholesale when the request carries one, and pushes the location.
     * A request without a location throws (caught): nothing changes.
     */
    method Warp(target: WarpTarget) returns (route: Option<Route>)
      modifies this
      ensures route == RouteAt(old(routes), TargetLocation(target))
      ensures routes == old(routes)
      ensures history == old(history) + (if PushedLocation(target).Some? then [PushedLocation(target).value] else [])
      ensures payload == (if target.Request? && target.place.Some? && target.payload.Some? then target.payload.value else old(payload))
    {
      route := None;
      match target {
        case Absent =>
          // `options.hasOwnProperty` on null throws after the lookup; the error is caught
          route := RouteAt(routes, None);
        case Text(s) =>
          var location := if s == "" then None else Some(s);
          route := RouteAt(routes, location);
          history := history + [s];
        case Request(place, p) =>
          if place.Some? {
            route := RouteAt(routes, place);
            if p.Some? {
              payload := p.value;
            }
            history := history + [place.value];
          }
      }
    }

    /**
     * `scan`: the routes matching `pathname`, with the first match's parameters merged
     * key by key into the payload when anything matched.
     */
    method Scan(pathname: string) returns (matches: seq<Route>)
      modifies this
      ensures matches == MatchRoutes(routes, pathname)
      ensures routes == old(routes) && history == old(history)
      ensures payload == if |matches| > 0 then old(payload) + ScanParams(routes, pathname) else old(payload)
      ensures old(payload).Keys <= payload.Keys
    {
      var original := Split(pathname)[1..];
      var moduleId := ModuleId(original);
      var urlParams := if |original| > 1 then original[1..] else original;
      matches := Keep(routes, moduleId, |original|);
      var total: Payload := map[];
      if |matches| > 0 && |urlParams| > 0 {
        assert matches[0] in matches;
        var args := Split(matches[0].pattern)[1..];
        total := ExtractParams(args, urlParams);
      }
      assert total == ScanParams(routes, pathname);
      if |matches| > 0 {
        var merged := MergePayload(payload, total);
        assert merged == payload + total;
        payload := merged;
      }
    }
  }

  /** Registering "home" and "user/:id", then scanning "/user/7", matches only the user route and binds id to "7". */
  method UserScenario()
  {
    var ship := new Starship();
    var _ := ship.AddRoute("home", "homeVM", None);
    var _ := ship.AddRoute("user/:id", "userVM", None);
    UserScenarioScan();
    var matches := ship.Scan("/user/7");
    assert matches == [Route("user/:id", "userVM", None)];
    assert ship.payload == map["id" := "7"];
  }

  /** Warping with a payload to a registered pattern returns its route, pushes it and replaces the payload. */
  method WarpScenario()
  {
    var ship := new Starship();
    var route := Route("user/:id", "userVM", None);
    var _ := ship.AddRoute(route.pattern, route.viewModel, route.callback);
    var found := ship.Warp(Request(Some("user/:id"), Some(map["from" := "home"])));
    assert found == Some(route);
    assert ship.history == ["user/:id"];
    assert ship.payload == map["from" := "home"];
    found := ship.Warp(Text("about"));
    assert found == None;
    assert ship.history == ["user/:id", "about"];
    assert ship.payload == map["from" := "home"];
  }

  /** Which routes of the user scenario a scan of "/user/7" keeps. */
  lemma UserScenarioMatches()
    ensures MatchRoutes([Route("home", "homeVM", None), Route("user/:id", "userVM", None)], "/user/7") == [Route("user/:id", "userVM", None)]
  {
    UserPatternSplits();
    SplitNoSlash("home");
    UserPathSplits("7");
    assert "/user/" + "7" == "/user/7";
    var home, user := Route("home", "homeVM", None), Route("user/:id", "userVM", None);
    var segments := PathSegments("/user/7");
    assert segments == ["user", "7"];
    assert !Admits(home, ModuleId(segments), 2);
    assert Admits(user, ModuleId(segments), 2);
    assert Keep([user], ModuleId(segments), 2) == [user];
    assert [home, user][1..] == [user];
  }

  /** The scan of the user scenario, on values. */
  lemma UserScenarioScan()
    ensures MatchRoutes([Route("home", "homeVM", None), Route("user/:id", "userVM", None)], "/user/7") == [Route("user/:id", "userVM", None)]
    ensures ScanParams([Route("home", "homeVM", None), Route("user/:id", "userVM", None)], "/user/7") == map["id" := "7"]
  {
    UserScenarioMatches();
    assert "/user/" + "7" == "/user/7";
    UserIdBinding(Route("user/:id", "userVM", None), "7");
  }
}
