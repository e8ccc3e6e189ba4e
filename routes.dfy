/**
 * The pure part of the Starship route registry and location scanner: route records,
 * first-match lookup by literal pattern, the module/arity filter, positional
 * parameter binding and the payload merge.
 */
module Routes {
  import opened Wrappers
  import opened Segments

  /** A callback registered with `.then(...)`, named by the application. */
  type Callback = string

  /** The smuggled payload: parameter name to value. */
  type Payload = map<string, string>

  /** A registered route `{pattern, viewModel, callback}`; `None` is JavaScript's `null` callback. */
  datatype Route = Route(pattern: string, viewModel: string, callback: Option<Callback>)

  /** Index of the first route whose pattern equals `pattern` (`routes.filter(...)[0]`), if any. */
  function FirstWithPattern(routes: seq<Route>, pattern: string): (r: Option<nat>)
    ensures r.Some? ==> r.value < |routes| && routes[r.value].pattern == pattern
    ensures r.Some? ==> forall j :: 0 <= j < r.value ==> routes[j].pattern != pattern
    ensures r.None? <==> forall j :: 0 <= j < |routes| ==> routes[j].pattern != pattern
  {
    if |routes| == 0 then None
    else if routes[0].pattern == pattern then Some(0)
    else match FirstWithPattern(routes[1..], pattern)
      case None => None
      case Some(i) => Some(i + 1)
  }

  /** The first route whose pattern is literally `location`, or nothing. */
  function RouteAt(routes: seq<Route>, location: Option<string>): (r: Option<Route>)
    ensures r.Some? ==> location.Some? && r.value in routes && r.value.pattern == location.value
    ensures r.None? <==> location.None? || forall k :: 0 <= k < |routes| ==> routes[k].pattern != location.value
    ensures r.Some? ==> exists i :: (0 <= i < |routes| && routes[i] == r.value &&
      forall j :: 0 <= j < i ==> routes[j].pattern != location.value)
  {
    if location.None? then None
    else match FirstWithPattern(routes, location.value)
      case None => None
      case Some(i) => Some(routes[i])
  }

  /** The location's segments once the leading empty one is dropped (`split('/')`, `splice(0, 1)`). */
  function PathSegments(pathname: string): seq<string>
  {
    Split(pathname)[1..]
  }

  /** The module id is the first segment; a pathname with no segment has none (`undefined`). */
  function ModuleId(segments: seq<string>): Option<string>
  {
    if |segments| == 0 then None else Some(segments[0])
  }

  /** A route survives the scan when its first pattern segment is the module id and its segment count is `arity`. */
  predicate Admits(route: Route, moduleId: Option<string>, arity: nat)
  {
    var p := Split(route.pattern);
    moduleId == Some(p[0]) && |p| == arity
  }

  /** The routes that `Admits` keeps, in registration order. */
  function Keep(routes: seq<Route>, moduleId: Option<string>, arity: nat): (kept: seq<Route>)
    ensures |kept| <= |routes|
    ensures forall x :: x in kept <==> x in routes && Admits(x, moduleId, arity)
  {
    if |routes| == 0 then []
    else (if Admits(routes[0], moduleId, arity) then [routes[0]] else []) + Keep(routes[1..], moduleId, arity)
  }

  /**
   * The matches of a scan of `pathname`: exactly the registered routes whose first
   * pattern segment is the path's first segment and whose segment count is the path's
   * (later segments are not compared).
   */
  function MatchRoutes(routes: seq<Route>, pathname: string): (matches: seq<Route>)
    ensures forall x :: x in matches <==>
      && x in routes
      && |PathSegments(pathname)| > 0
      && Split(x.pattern)[0] == PathSegments(pathname)[0]
      && |Split(x.pattern)| == |PathSegments(pathname)|
  {
    var segments := PathSegments(pathname);
    Keep(routes, ModuleId(segments), |segments|)
  }

  /** Filtering distributes over concatenation, so matches come out in registration order. */
  lemma {:induction false} KeepAppend(a: seq<Route>, b: seq<Route>, moduleId: Option<string>, arity: nat)
    ensures Keep(a + b, moduleId, arity) == Keep(a, moduleId, arity) + Keep(b, moduleId, arity)
    decreases |a|
  {
    if |a| > 0 {
      assert (a + b)[1..] == a[1..] + b;
      KeepAppend(a[1..], b, moduleId, arity);
    } else {
      assert a + b == b;
    }
  }

  /** Registering a route adds it at the end of a later scan's matches exactly when it is admitted. */
  lemma MatchRoutesAppend(routes: seq<Route>, route: Route, pathname: string)
    ensures MatchRoutes(routes + [route], pathname) ==
      MatchRoutes(routes, pathname) + MatchRoutes([route], pathname)
  {
    var segments := PathSegments(pathname);
    KeepAppend(routes, [route], ModuleId(segments), |segments|);
  }

  /** A pattern segment of the form `:name` binds `name`. */
  predicate IsParam(segment: string)
  {
    |segment| > 0 && segment[0] == ':'
  }

  /** How many pattern segments the binding loop visits: it stops at the first empty one. */
  function Live(args: seq<string>): (n: nat)
    ensures n <= |args|
    ensures forall k :: 0 <= k < n ==> args[k] != ""
    ensures n < |args| ==> args[n] == ""
  {
    if |args| == 0 || args[0] == "" then 0 else 1 + Live(args[1..])
  }

  /** The bindings produced by the first `n` pattern segments, later segments overwriting earlier ones. */
  function BindPrefix(args: seq<string>, values: seq<string>, n: nat): Payload
    requires n <= |args| <= |values|
  {
    if n == 0 then map[]
    else
      var m := BindPrefix(args, values, n - 1);
      if IsParam(args[n - 1]) then m[args[n - 1][1..] := values[n - 1]] else m
  }

  /** The parameters bound by positional matching of `args` (pattern segments) against `values`. */
  function Bindings(args: seq<string>, values: seq<string>): Payload
    requires |args| <= |values|
  {
    BindPrefix(args, values, Live(args))
  }

  /** Segment `k` binds `key`. */
  predicate BindsAt(args: seq<string>, k: nat, key: string)
    requires k < |args|
  {
    IsParam(args[k]) && args[k][1..] == key
  }

  /** The keys the first `n` segments bind are the names of their `:name` segments. */
  lemma {:induction false} BindPrefixDomain(args: seq<string>, values: seq<string>, n: nat, key: string)
    requires n <= |args| <= |values|
    ensures key in BindPrefix(args, values, n) <==> exists k :: 0 <= k < n && BindsAt(args, k, key)
  {
    if n > 0 {
      BindPrefixDomain(args, values, n - 1, key);
      if !BindsAt(args, n - 1, key) {
        assert key in BindPrefix(args, values, n) <==> key in BindPrefix(args, values, n - 1);
        assert (exists k :: 0 <= k < n && BindsAt(args, k, key)) ==> exists k :: 0 <= k < n - 1 && BindsAt(args, k, key);
      }
    }
  }

  /** A key takes the value at the position of its last `:key` segment among the first `n`. */
  lemma {:induction false} BindPrefixLast(args: seq<string>, values: seq<string>, n: nat, key: string, k: nat)
    requires n <= |args| <= |values|
    requires k < n && BindsAt(args, k, key)
    requires forall j :: k < j < n ==> !BindsAt(args, j, key)
    ensures key in BindPrefix(args, values, n) && BindPrefix(args, values, n)[key] == values[k]
  {
    if k < n - 1 {
      assert !BindsAt(args, n - 1, key);
      BindPrefixLast(args, values, n - 1, key, k);
    }
  }

  /**
   * Parameter extraction as specified: a key is bound exactly when some `:key` segment
   * occurs before the first empty segment, and its value is the path segment at the
   * position of its last such occurrence there.
   */
  lemma BindingsSpec(args: seq<string>, values: seq<string>, key: string)
    requires |args| <= |values|
    ensures key in Bindings(args, values) <==> exists k :: 0 <= k < Live(args) && BindsAt(args, k, key)
    ensures forall k :: 0 <= k < Live(args) && BindsAt(args, k, key) && (forall j :: k < j < Live(args) ==> !BindsAt(args, j, key)) ==>
      key in Bindings(args, values) && Bindings(args, values)[key] == values[k]
  {
    BindPrefixDomain(args, values, Live(args), key);
    forall k | 0 <= k < Live(args) && BindsAt(args, k, key) && (forall j :: k < j < Live(args) ==> !BindsAt(args, j, key))
      ensures key in Bindings(args, values) && Bindings(args, values)[key] == values[k]
    {
      BindPrefixLast(args, values, Live(args), key, k);
    }
  }

  /** The binding loop of the scan: walks the pattern segments until an empty one, binding each `:name`. */
  method ExtractParams(args: seq<string>, values: seq<string>) returns (total: Payload)
    requires |args| <= |values|
    ensures total == Bindings(args, values)
  {
    total := map[];
    var i := 0;
    while i < |args| && args[i] != ""
      invariant 0 <= i <= Live(args)
      invariant total == BindPrefix(args, values, i)
    {
      var arg := args[i];
      if |arg| > 0 && arg[0] == ':' {
        total := total[arg[1..] := values[i]];
      }
      i := i + 1;
    }
  }

  /** The merge loop of the scan: copies every extracted key into the payload, keeping all other keys. */
  method MergePayload(payload: Payload, total: Payload) returns (merged: Payload)
    ensures merged.Keys == payload.Keys + total.Keys
    ensures forall k :: k in total ==> merged[k] == total[k]
    ensures forall k :: k in payload && k !in total ==> merged[k] == payload[k]
  {
    merged := payload;
    var pending := total.Keys;
    while pending != {}
      invariant pending <= total.Keys
      invariant merged.Keys == payload.Keys + (total.Keys - pending)
      invariant forall k :: k in total && k !in pending ==> merged[k] == total[k]
      invariant forall k :: k in payload && (k !in total || k in pending) ==> merged[k] == payload[k]
      decreases pending
    {
      var k :| k in pending;
      merged := merged[k := total[k]];
      pending := pending - {k};
    }
  }

  /** `BindingsSpec` for every key at once. */
  lemma BindingsSpecAll(args: seq<string>, values: seq<string>)
    requires |args| <= |values|
    ensures forall key :: key in Bindings(args, values) <==> exists k :: 0 <= k < Live(args) && BindsAt(args, k, key)
    ensures forall key, k :: 0 <= k < Live(args) && BindsAt(args, k, key) && (forall j :: k < j < Live(args) ==> !BindsAt(args, j, key)) ==>
      key in Bindings(args, values) && Bindings(args, values)[key] == values[k]
  {
    forall key
      ensures key in Bindings(args, values) <==> exists k :: 0 <= k < Live(args) && BindsAt(args, k, key)
      ensures forall k :: 0 <= k < Live(args) && BindsAt(args, k, key) && (forall j :: k < j < Live(args) ==> !BindsAt(args, j, key)) ==>
        key in Bindings(args, values) && Bindings(args, values)[key] == values[k]
    {
      BindingsSpec(args, values, key);
    }
  }

  /**
   * The parameters `first`'s pattern binds against the segments of `pathname` after the
   * module id: the pattern's segments after its first are matched position by position
   * against the path's segments after its first.
   */
  function ParamsOf(first: Route, pathname: string): (r: Payload)
    requires |Split(first.pattern)| == |PathSegments(pathname)|
    ensures var args := Split(first.pattern)[1..];
      forall key :: key in r <==> exists k :: 0 <= k < Live(args) && BindsAt(args, k, key)
    ensures var args, values := Split(first.pattern)[1..], PathSegments(pathname)[1..];
      forall key, k :: 0 <= k < Live(args) && BindsAt(args, k, key) && (forall j :: k < j < Live(args) ==> !BindsAt(args, j, key)) ==>
        key in r && r[key] == values[k]
  {
    var original := PathSegments(pathname);
    var urlParams := if |original| > 1 then original[1..] else original;
    if |urlParams| > 0 then
      BindingsSpecAll(Split(first.pattern)[1..], urlParams);
      Bindings(Split(first.pattern)[1..], urlParams)
    else map[]
  }

  /** The parameters a scan of `pathname` extracts: from its first match only, none when nothing matches. */
  function ScanParams(routes: seq<Route>, pathname: string): Payload
  {
    var matches := MatchRoutes(routes, pathname);
    if |matches| > 0 then
      assert matches[0] in matches;
      ParamsOf(matches[0], pathname)
    else map[]
  }

  /**
   * Only the first match binds parameters: a route registered later changes what a scan
   * extracts only when it is the first route to match.
   */
  lemma ScanParamsFirstMatch(routes: seq<Route>, route: Route, pathname: string)
    ensures |MatchRoutes(routes, pathname)| > 0 || route !in MatchRoutes([route], pathname) ==>
      ScanParams(routes + [route], pathname) == ScanParams(routes, pathname)
    ensures |MatchRoutes(routes, pathname)| == 0 && route in MatchRoutes([route], pathname) ==>
      ScanParams(routes + [route], pathname) == ParamsOf(route, pathname)
  {
    MatchRoutesAppend(routes, route, pathname);
    var single := MatchRoutes([route], pathname);
    if route !in single {
      assert single == [];
    } else if |MatchRoutes(routes, pathname)| == 0 {
      assert single[0] in single;
    } else {
      var matches := MatchRoutes(routes, pathname);
      assert (matches + single)[0] == matches[0];
    }
  }

  /** How "user/:id" splits. */
  lemma UserPatternSplits()
    ensures Split("user/:id") == ["user", ":id"]
  {
    var parts := ["user", ":id"];
    assert parts[1..] == [":id"];
    assert Join(parts) == "user" + "/" + ":id" == "user/:id";
    SplitJoin(parts);
  }

  /** How "/user/<v>" splits, for a segment `v` without a slash. */
  lemma UserPathSplits(v: string)
    requires '/' !in v
    ensures Split("/user/" + v) == ["", "user", v]
  {
    var parts := ["", "user", v];
    assert parts[1..] == ["user", v] && parts[1..][1..] == [v];
    assert Join(parts[1..][1..]) == v;
    assert Join(parts[1..]) == "user" + "/" + v;
    assert Join(parts) == "" + "/" + ("user" + "/" + v);
    assert "" + "/" + ("user" + "/" + v) == "/user/" + v;
    SplitJoin(parts);
  }

  /** The pattern "user/:id" binds id to `v` against "/user/<v>". */
  lemma UserIdBinding(route: Route, v: string)
    requires '/' !in v && route.pattern == "user/:id"
    ensures |Split(route.pattern)| == |PathSegments("/user/" + v)|
    ensures ParamsOf(route, "/user/" + v) == map["id" := v]
  {
    UserPatternSplits();
    UserPathSplits(v);
    assert PathSegments("/user/" + v)[1..] == [v];
    IdSegmentBinds(v);
  }

  /** The single segment ":id" binds id to the single value. */
  lemma IdSegmentBinds(v: string)
    ensures Bindings([":id"], [v]) == map["id" := v]
  {
    var args, values := [":id"], [v];
    assert Live(args) == 1;
    assert IsParam(args[0]) && args[0][1..] == "id";
    assert BindPrefix(args, values, 1) == BindPrefix(args, values, 0)["id" := v];
  }

  /** The pattern "user/:id" scanned against "/user/42" binds id to "42". */
  lemma UserIdExample()
    ensures MatchRoutes([Route("user/:id", "userVM", None)], "/user/42") == [Route("user/:id", "userVM", None)]
    ensures ScanParams([Route("user/:id", "userVM", None)], "/user/42") == map["id" := "42"]
  {
    UserPatternSplits();
    UserPathSplits("42");
    assert "/user/" + "42" == "/user/42";
    var route := Route("user/:id", "userVM", None);
    var segments := PathSegments("/user/42");
    assert segments == ["user", "42"];
    assert Admits(route, ModuleId(segments), 2);
    assert Keep([route], ModuleId(segments), 2) == [route];
    UserIdBinding(route, "42");
  }
}
