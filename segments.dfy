/** Path and pattern segments: JavaScript's `s.split('/')` and its inverse `parts.join('/')`. */
module Segments {

  /** Joins the parts with '/' between consecutive parts, like `parts.join('/')`. */
  function Join(parts: seq<string>): string
    requires |parts| >= 1
    decreases |parts|
  {
    if |parts| == 1 then parts[0] else parts[0] + "/" + Join(parts[1..])
  }

  /**
   * Splits `s` at every '/', like `s.split('/')`: the result is never empty, no part
   * contains a slash, and joining the parts gives back `s`.
   */
  function Split(s: string): (parts: seq<string>)
    ensures |parts| >= 1
    ensures forall k :: 0 <= k < |parts| ==> '/' !in parts[k]
    ensures Join(parts) == s
    decreases |s|
  {
    if |s| == 0 then [""]
    else if s[0] == '/' then [""] + Split(s[1..])
    else
      var rest := Split(s[1..]);
      JoinExtendsFirst(s[0], rest);
      [[s[0]] + rest[0]] + rest[1..]
  }

  /** Prepending a character to the first part prepends it to the joined string. */
  lemma {:induction false} JoinExtendsFirst(c: char, parts: seq<string>)
    requires |parts| >= 1
    ensures Join([[c] + parts[0]] + parts[1..]) == [c] + Join(parts)
  {
    var q := [[c] + parts[0]] + parts[1..];
    assert q[1..] == parts[1..];
  }

  /** A part without a slash, followed by '/', splits off as exactly one part. */
  lemma {:induction false} SplitFirstPart(p: string, rest: string)
    requires '/' !in p
    ensures Split(p + "/" + rest) == [p] + Split(rest)
    decreases |p|
  {
    if |p| == 0 {
      assert p + "/" + rest == "/" + rest;
      assert ("/" + rest)[1..] == rest;
    } else {
      var s := p + "/" + rest;
      assert s[0] == p[0] && s[0] != '/';
      assert s[1..] == p[1..] + "/" + rest;
      SplitFirstPart(p[1..], rest);
      assert [p[0]] + p[1..] == p;
    }
  }

  /** A string without a slash is its own single part. */
  lemma {:induction false} SplitNoSlash(p: string)
    requires '/' !in p
    ensures Split(p) == [p]
    decreases |p|
  {
    if |p| > 0 {
      assert '/' !in p[1..];
      SplitNoSlash(p[1..]);
      assert [p[0]] + p[1..] == p;
    }
  }

  /** The other half of the round trip: splitting a join of slash-free parts gives the parts back. */
  lemma {:induction false} SplitJoin(parts: seq<string>)
    requires |parts| >= 1
    requires forall k :: 0 <= k < |parts| ==> '/' !in parts[k]
    ensures Split(Join(parts)) == parts
    decreases |parts|
  {
    if |parts| == 1 {
      SplitNoSlash(parts[0]);
    } else {
      assert '/' !in parts[0];
      SplitJoin(parts[1..]);
      SplitFirstPart(parts[0], Join(parts[1..]));
      assert [parts[0]] + parts[1..] == parts;
    }
  }
}
