/** The document as the router sees it, and `getDOMElements`' selector decoding. */
module Dom {
  import opened Wrappers

  /** A DOM element, by identity. */
  type Element = nat

  /**
   * The parts of the document the router reads: the element `getElementById` returns
   * for an id, and the elements `getElementsByClassName` returns for a class, in
   * document order.
   */
  datatype Document = Document(ids: map<string, Element>, classes: map<string, seq<Element>>)

  datatype BindingType = ById | ByClass

  /** `MissingDOMElementException`, naming the selector that found nothing. */
  datatype DomError = MissingDOMElement(selector: string)

  /** A leading '.' selects by class; anything else (a leading '#', or no marker) by id. */
  function BindingTypeOf(selector: string): BindingType
  {
    if |selector| > 0 && selector[0] == '.' then ByClass else ById
  }

  predicate IsMarker(c: char)
  {
    c == '.' || c == '#'
  }

  /** Position of the first '.' or '#' in `s`, or |s| when there is none. */
  function FirstMarker(s: string): (i: nat)
    ensures i <= |s|
    ensures forall k :: 0 <= k < i ==> !IsMarker(s[k])
    ensures i < |s| ==> IsMarker(s[i])
  {
    if |s| == 0 || IsMarker(s[0]) then 0 else 1 + FirstMarker(s[1..])
  }

  /** `id.replace(/[\.#]/, '')`: the selector with its first '.' or '#', wherever it is, removed. */
  function Undecorated(s: string): (r: string)
    ensures |r| == if FirstMarker(s) < |s| then |s| - 1 else |s|
  {
    if |s| == 0 then s
    else if IsMarker(s[0]) then s[1..]
    else [s[0]] + Undecorated(s[1..])
  }

  /**
   * `getDOMElements`: the elements a binding selector names. An id selector naming no
   * element throws; a class selector never throws, and yields [] when nothing matches.
   */
  function GetDOMElements(doc: Document, selector: string): (r: Result<seq<Element>, DomError>)
    ensures r.Failure? <==> BindingTypeOf(selector) == ById && Undecorated(selector) !in doc.ids
    ensures r.Failure? ==> r.error == MissingDOMElement(selector)
    ensures r.Success? && BindingTypeOf(selector) == ById ==> r.value == [doc.ids[Undecorated(selector)]]
    ensures r.Success? && BindingTypeOf(selector) == ByClass ==>
      r.value == (if Undecorated(selector) in doc.classes then doc.classes[Undecorated(selector)] else [])
  {
    var name := Undecorated(selector);
    match BindingTypeOf(selector)
    case ByClass => Success(if name in doc.classes then doc.classes[name] else [])
    case ById => if name in doc.ids then Success([doc.ids[name]]) else Failure(MissingDOMElement(selector))
  }

  /** Removing the first marker: the part before it and the part after it, or all of `s` when there is none. */
  lemma {:induction false} UndecoratedSpec(s: string)
    ensures FirstMarker(s) == |s| ==> Undecorated(s) == s
    ensures FirstMarker(s) < |s| ==> Undecorated(s) == s[..FirstMarker(s)] + s[FirstMarker(s) + 1..]
  {
    if |s| > 0 && !IsMarker(s[0]) {
      UndecoratedSpec(s[1..]);
      var j := FirstMarker(s[1..]);
      if j < |s| - 1 {
        assert s[..j + 1] == [s[0]] + s[1..][..j];
        assert s[j + 2..] == s[1..][j + 1..];
      } else {
        assert s == [s[0]] + s[1..];
      }
    }
  }

  /** A prefix without markers is kept as it is. */
  lemma {:induction false} UnmarkedPrefix(p: string, rest: string)
    requires forall k :: 0 <= k < |p| ==> !IsMarker(p[k])
    ensures Undecorated(p + rest) == p + Undecorated(rest)
  {
    if |p| > 0 {
      assert (p + rest)[1..] == p[1..] + rest;
      UnmarkedPrefix(p[1..], rest);
      assert p == [p[0]] + p[1..];
    } else {
      assert p + rest == rest;
    }
  }

  /** A class selector's name is everything after its leading '.'; likewise for a leading '#'. */
  lemma LeadingMarker(s: string)
    requires |s| > 0 && IsMarker(s[0])
    ensures Undecorated(s) == s[1..]
  {
  }

  /** The marker is stripped wherever it is: "main#view" names the id "mainview", ".a#b" the class "a#b". */
  lemma StripAnywhereExamples()
    ensures Undecorated("main#view") == "mainview"
    ensures BindingTypeOf(".a#b") == ByClass && Undecorated(".a#b") == "a#b"
    ensures BindingTypeOf("#app") == ById && Undecorated("#app") == "app"
  {
    assert "main#view" == "main" + "#view";
    UnmarkedPrefix("main", "#view");
    LeadingMarker("#view");
    assert "main" + "view" == "mainview";
    LeadingMarker(".a#b");
    LeadingMarker("#app");
  }
}
