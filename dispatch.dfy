/** What `$galaxy.scan` issues for a scan's matches: render calls and callback invocations, in order. */
module Dispatch {
  import opened Wrappers
  import opened Routes

  /**
   * An issued call: `render(viewModel, payload)` (`None` when no payload is passed) or
   * the invocation of a match's callback.
   */
  datatype Action = RenderCall(viewModel: string, payload: Option<Payload>) | Invoke(callback: Callback)

  /** Render calls for the static views, without payload, in insertion order. */
  function StaticRenders(holes: seq<string>): seq<Action>
  {
    seq(|holes|, i requires 0 <= i < |holes| => RenderCall(holes[i], None))
  }

  /** The calls issued for one match: its render, then its callback when that is not null. */
  function MatchBlock(m: Route, payload: Payload): seq<Action>
  {
    [RenderCall(m.viewModel, Some(payload))] + (if m.callback.Some? then [Invoke(m.callback.value)] else [])
  }

  /** The calls issued for the matches, one block per match, in order. */
  function MatchActions(matches: seq<Route>, payload: Payload): seq<Action>
    decreases |matches|
  {
    if |matches| == 0 then []
    else MatchActions(matches[..|matches| - 1], payload) + MatchBlock(matches[|matches| - 1], payload)
  }

  /** Everything a scan issues: with a match, the static views and then the matches; without one, nothing. */
  function Dispatched(matches: seq<Route>, holes: seq<string>, payload: Payload): seq<Action>
  {
    if |matches| == 0 then [] else StaticRenders(holes) + MatchActions(matches, payload)
  }

  /** The two `for` loops of `$galaxy.scan`, guarded by `matches.length`. */
  method Plan(matches: seq<Route>, holes: seq<string>, payload: Payload) returns (actions: seq<Action>)
    ensures actions == Dispatched(matches, holes, payload)
    ensures |matches| == 0 ==> actions == []
  {
    actions := [];
    if |matches| > 0 {
      for i := 0 to |holes|
        invariant actions == StaticRenders(holes[..i])
      {
        actions := actions + [RenderCall(holes[i], None)];
      }
      assert holes[..|holes|] == holes;
      for i := 0 to |matches|
        invariant actions == StaticRenders(holes) + MatchActions(matches[..i], payload)
      {
        assert matches[..i + 1][..i] == matches[..i];
        actions := actions + [RenderCall(matches[i].viewModel, Some(payload))];
        if matches[i].callback.Some? {
          actions := actions + [Invoke(matches[i].callback.value)];
        }
      }
      assert matches[..|matches|] == matches;
    }
  }

  /** The view models of the matches, in order. */
  function ViewModels(matches: seq<Route>): seq<string>
  {
    seq(|matches|, i requires 0 <= i < |matches| => matches[i].viewModel)
  }

  /** The view models rendered by a sequence of calls, in order. */
  function Rendered(actions: seq<Action>): seq<string>
    decreases |actions|
  {
    if |actions| == 0 then []
    else
      var last := actions[|actions| - 1];
      Rendered(actions[..|actions| - 1]) + (if last.RenderCall? then [last.viewModel] else [])
  }

  lemma {:induction false} RenderedAppend(a: seq<Action>, b: seq<Action>)
    ensures Rendered(a + b) == Rendered(a) + Rendered(b)
    decreases |b|
  {
    if |b| == 0 {
      assert a + b == a;
    } else {
      var n := |b| - 1;
      assert (a + b)[..|a + b| - 1] == a + b[..n];
      RenderedAppend(a, b[..n]);
    }
  }

  lemma {:induction false} RenderedStatic(holes: seq<string>)
    ensures Rendered(StaticRenders(holes)) == holes
    decreases |holes|
  {
    if |holes| > 0 {
      var n := |holes| - 1;
      assert StaticRenders(holes)[..n] == StaticRenders(holes[..n]);
      RenderedStatic(holes[..n]);
      assert holes[..n] + [holes[n]] == holes;
    }
  }

  /** One match's calls render exactly its view model. */
  lemma RenderedBlock(m: Route, payload: Payload)
    ensures Rendered(MatchBlock(m, payload)) == [m.viewModel]
  {
    var render := [RenderCall(m.viewModel, Some(payload))];
    RenderedAppend(render, if m.callback.Some? then [Invoke(m.callback.value)] else []);
    assert render[..0] == [];
  }

  lemma {:induction false} RenderedMatches(matches: seq<Route>, payload: Payload)
    ensures Rendered(MatchActions(matches, payload)) == ViewModels(matches)
    decreases |matches|
  {
    if |matches| > 0 {
      var n := |matches| - 1;
      var prefix, block := MatchActions(matches[..n], payload), MatchBlock(matches[n], payload);
      assert MatchActions(matches, payload) == prefix + block;
      RenderedMatches(matches[..n], payload);
      RenderedAppend(prefix, block);
      RenderedBlock(matches[n], payload);
      assert ViewModels(matches[..n]) + [matches[n].viewModel] == ViewModels(matches);
    }
  }

  /**
   * The render order of a scan with at least one match: every static view in insertion
   * order, then every match's view model in match order.
   */
  lemma RenderOrder(matches: seq<Route>, holes: seq<string>, payload: Payload)
    requires |matches| > 0
    ensures Rendered(Dispatched(matches, holes, payload)) == holes + ViewModels(matches)
  {
    RenderedAppend(StaticRenders(holes), MatchActions(matches, payload));
    RenderedStatic(holes);
    RenderedMatches(matches, payload);
  }

  lemma {:induction false} MatchActionsAppend(a: seq<Route>, b: seq<Route>, payload: Payload)
    ensures MatchActions(a + b, payload) == MatchActions(a, payload) + MatchActions(b, payload)
    decreases |b|
  {
    if |b| == 0 {
      assert a + b == a;
    } else {
      var n := |b| - 1;
      assert (a + b)[..|a + b| - 1] == a + b[..n];
      MatchActionsAppend(a, b[..n], payload);
    }
  }

  /**
   * Where each match's calls sit: the render of match `i` comes right after the static
   * renders and the blocks of the matches before it, and its callback, when not null,
   * is invoked immediately after that render is issued.
   */
  lemma CallbackFollowsRender(matches: seq<Route>, holes: seq<string>, payload: Payload, i: nat)
    requires i < |matches|
    ensures var at := |holes| + |MatchActions(matches[..i], payload)|;
      var d := Dispatched(matches, holes, payload);
      && at < |d| && d[at] == RenderCall(matches[i].viewModel, Some(payload))
      && (matches[i].callback.Some? ==> at + 1 < |d| && d[at + 1] == Invoke(matches[i].callback.value))
  {
    assert matches == matches[..i] + [matches[i]] + matches[i + 1..];
    MatchActionsAppend(matches[..i] + [matches[i]], matches[i + 1..], payload);
    MatchActionsAppend(matches[..i], [matches[i]], payload);
    assert MatchActions([matches[i]], payload) == MatchBlock(matches[i], payload);
  }
}
