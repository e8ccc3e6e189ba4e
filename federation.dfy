/** View-model records, the federation lookup, and which elements `hideInactiveViews` hides. */
module Federation {
  import opened Wrappers
  import opened Dom

  /**
   * A view-model module object. The router reads its declared properties and writes its
   * `__joined`, `__loaded` and `__parent` markers in place.
   */
  class ViewModel {
    const id: string
    const domBindingId: string
    const templatePath: string
    const autoRender: bool
    /** The `children` property (an absent one behaves as []). */
    const children: seq<ViewModel>
    /** `__joined` is present. */
    var joined: bool
    /** `__loaded`: absent (None), or its value. */
    var loaded: Option<bool>
    /** `__parent`: absent (None), or the id of the record that declared this one a child. */
    var parent: Option<string>

    constructor (id: string, domBindingId: string, templatePath: string, autoRender: bool,
                 children: seq<ViewModel>, loaded: Option<bool>)
      ensures this.id == id && this.domBindingId == domBindingId && this.templatePath == templatePath
      ensures this.autoRender == autoRender && this.children == children
      ensures !joined && this.loaded == loaded && parent == None
    {
      this.id := id;
      this.domBindingId := domBindingId;
      this.templatePath := templatePath;
      this.autoRender := autoRender;
      this.children := children;
      this.joined := false;
      this.loaded := loaded;
      this.parent := None;
    }
  }

  /** Index of the first record with the given id (`federation.filter(...)[0]`), if any. */
  function FirstWithId(records: seq<ViewModel>, id: string): (r: Option<nat>)
    ensures r.Some? ==> r.value < |records| && records[r.value].id == id
    ensures r.Some? ==> forall j {:trigger records[j].id} :: 0 <= j < r.value ==> records[j].id != id
    ensures r.None? <==> forall j {:trigger records[j].id} :: 0 <= j < |records| ==> records[j].id != id
  {
    if |records| == 0 then None
    else if records[0].id == id then Some(0)
    else match FirstWithId(records[1..], id)
      case None => None
      case Some(i) => Some(i + 1)
  }

  /** Records `i` and `j` are different objects. */
  predicate Differ(records: seq<ViewModel>, i: nat, j: nat)
    requires i < |records| && j < |records|
  {
    records[i] != records[j]
  }

  /** The elements a record is bound to. */
  function ElementsOf(doc: Document, v: ViewModel): Result<seq<Element>, DomError>
  {
    GetDOMElements(doc, v.domBindingId)
  }

  /** A record `hideInactiveViews` hides when rendering `targetId`: not `autoRender`, and another id. */
  predicate Inactive(v: ViewModel, targetId: string)
  {
    !v.autoRender && v.id != targetId
  }

  /** Element `e` is bound to some inactive record. */
  predicate BelongsToInactive(records: seq<ViewModel>, targetId: string, doc: Document, e: Element)
  {
    exists i :: 0 <= i < |records| && Inactive(records[i], targetId) &&
      ElementsOf(doc, records[i]).Success? && e in ElementsOf(doc, records[i]).value
  }

  /** Record `i` is inactive and its lookup throws `err`. */
  predicate FailsAt(records: seq<ViewModel>, i: nat, targetId: string, doc: Document, err: DomError)
    requires i < |records|
  {
    Inactive(records[i], targetId) && ElementsOf(doc, records[i]) == Failure(err)
  }

  /** The elements hidden so far, and the lookup failure that stopped the walk, if any. */
  datatype HideResult = HideResult(hidden: set<Element>, failure: Option<DomError>)

  /**
   * The walk of `hideInactiveViews` over `records` in order: every inactive record's
   * elements are hidden, and the first lookup that throws stops the walk.
   */
  function HideScan(records: seq<ViewModel>, targetId: string, doc: Document): HideResult
    decreases |records|
  {
    if |records| == 0 then HideResult({}, None)
    else
      var prev := HideScan(records[..|records| - 1], targetId, doc);
      var v := records[|records| - 1];
      if prev.failure.Some? || !Inactive(v, targetId) then prev
      else match ElementsOf(doc, v)
        case Failure(e) => HideResult(prev.hidden, Some(e))
        case Success(els) => HideResult(prev.hidden + (set e | e in els), None)
  }

  /**
   * What the walk hides: when no lookup failed, every element of every inactive record;
   * in any case, only elements of inactive records; a failure comes from an inactive
   * record whose lookup threw.
   */
  lemma {:induction false} HideScanSpec(records: seq<ViewModel>, targetId: string, doc: Document)
    ensures var h := HideScan(records, targetId, doc);
      h.failure.None? ==> forall i :: 0 <= i < |records| && Inactive(records[i], targetId) ==>
        ElementsOf(doc, records[i]).Success? && forall e :: e in ElementsOf(doc, records[i]).value ==> e in h.hidden
    ensures var h := HideScan(records, targetId, doc);
      forall e :: e in h.hidden ==> BelongsToInactive(records, targetId, doc, e)
    ensures var h := HideScan(records, targetId, doc);
      h.failure.Some? ==> exists i :: 0 <= i < |records| && FailsAt(records, i, targetId, doc, h.failure.value)
    decreases |records|
  {
    if |records| > 0 {
      var n := |records| - 1;
      var front := records[..n];
      HideScanSpec(front, targetId, doc);
      assert forall i :: 0 <= i < n ==> front[i] == records[i];
      var prev := HideScan(front, targetId, doc);
      var h := HideScan(records, targetId, doc);
      if prev.failure.Some? {
        var i :| 0 <= i < n && FailsAt(front, i, targetId, doc, prev.failure.value);
        assert FailsAt(records, i, targetId, doc, h.failure.value);
      } else if h.failure.Some? {
        assert FailsAt(records, n, targetId, doc, h.failure.value);
      }
    }
  }

  /** Once a lookup has failed, the rest of the walk changes nothing. */
  lemma {:induction false} HideScanStops(records: seq<ViewModel>, n: nat, targetId: string, doc: Document)
    requires n <= |records|
    requires HideScan(records[..n], targetId, doc).failure.Some?
    ensures HideScan(records, targetId, doc) == HideScan(records[..n], targetId, doc)
    decreases |records| - n
  {
    if n < |records| {
      assert records[..n + 1][..n] == records[..n];
      HideScanStops(records, n + 1, targetId, doc);
    } else {
      assert records[..n] == records;
    }
  }

  /**
   * The visibility a completed render of `target` leaves: the target's elements are
   * shown, and every element of every other non-`autoRender` record is hidden unless
   * the target shares it.
   */
  predicate ShowsOnly(records: seq<ViewModel>, hidden: set<Element>, target: ViewModel, doc: Document)
  {
    && ElementsOf(doc, target).Success?
    && (forall e :: e in ElementsOf(doc, target).value ==> e !in hidden)
    && forall i :: 0 <= i < |records| && Inactive(records[i], target.id) ==>
      && ElementsOf(doc, records[i]).Success?
      && forall e :: e in ElementsOf(doc, records[i]).value && e !in ElementsOf(doc, target).value ==> e in hidden
  }

  /**
   * Hiding the inactive views without a failure and then showing the target yields
   * `ShowsOnly`, and the only elements newly hidden belong to inactive records.
   */
  lemma {:induction false} HideThenShow(records: seq<ViewModel>, before: set<Element>, target: ViewModel, doc: Document)
    requires HideScan(records, target.id, doc).failure.None?
    requires ElementsOf(doc, target).Success?
    ensures var after := (before + HideScan(records, target.id, doc).hidden) - (set e | e in ElementsOf(doc, target).value);
      && ShowsOnly(records, after, target, doc)
      && forall e :: e in after && e !in before ==> BelongsToInactive(records, target.id, doc, e)
  {
    HideScanSpec(records, target.id, doc);
  }
}
