/**
 * Relative paths under the content root. Node's `path.join` is modelled as the
 * concatenation of its segments with the separator, without normalisation of
 * `.`, `..`, empty or absolute segments.
 */
module Paths {

  const Separator: char := '/'

  /** A segment that is a single path component: it holds no separator. */
  predicate IsComponent(s: string) {
    Separator !in s
  }

  /**
   * A segment that `path.join` leaves unchanged: one component that is neither
   * empty nor `.` nor `..`, so normalisation cannot drop or merge it.
   */
  predicate PlainSegment(s: string) {
    IsComponent(s) && s != "" && s != "." && s != ".."
  }

  /** Every segment is a single path component. */
  predicate AllComponents(segments: seq<string>) {
    |segments| == 0 || (IsComponent(segments[0]) && AllComponents(segments[1..]))
  }

  /** A sequence all of whose elements are components satisfies AllComponents. */
  lemma {:induction false} AllComponentsAt(segments: seq<string>)
    requires forall i :: 0 <= i < |segments| ==> IsComponent(segments[i])
    ensures AllComponents(segments)
  {
    if |segments| > 0 {
      var rest := segments[1..];
      assert forall i :: 0 <= i < |rest| ==> rest[i] == segments[i + 1];
      AllComponentsAt(rest);
    }
  }

  /** `path.join(s0, s1, ...)`: the segments in order, separated by `/`. */
  function Join(segments: seq<string>): (p: string)
    requires |segments| > 0
    ensures |segments[0]| <= |p| && p[..|segments[0]|] == segments[0]
    ensures |segments[|segments| - 1]| <= |p|
    ensures p[|p| - |segments[|segments| - 1]|..] == segments[|segments| - 1]
  {
    if |segments| == 1 then segments[0]
    else segments[0] + [Separator] + Join(segments[1..])
  }

  /** Position of the first occurrence of `c` in `s`. */
  function IndexOf(s: string, c: char): (i: nat)
    requires c in s
    ensures i < |s| && s[i] == c && c !in s[..i]
  {
    if s[0] == c then 0
    else
      var j := IndexOf(s[1..], c);
      assert s[..j + 1] == [s[0]] + s[1..][..j];
      j + 1
  }

  /** The components of a path: the inverse of Join on separator-free segments. */
  function Split(p: string): (segments: seq<string>)
    ensures |segments| > 0
    ensures forall i :: 0 <= i < |segments| ==> IsComponent(segments[i])
    decreases |p|
  {
    if Separator !in p then [p]
    else
      var i := IndexOf(p, Separator);
      [p[..i]] + Split(p[i + 1..])
  }

  /** Joining a joined prefix with a joined suffix is joining everything at once. */
  lemma {:induction false} JoinAppend(front: seq<string>, back: seq<string>)
    requires |front| > 0 && |back| > 0
    ensures Join(front + back) == Join(front) + [Separator] + Join(back)
  {
    if |front| == 1 {
      assert (front + back)[1..] == back;
    } else {
      assert (front + back)[1..] == front[1..] + back;
      JoinAppend(front[1..], back);
    }
  }

  /** Joining a joined path with one more segment extends the join by that segment. */
  lemma JoinThen(front: seq<string>, last: string)
    requires |front| > 0
    ensures Join([Join(front), last]) == Join(front + [last])
    ensures Join([Join(front), last]) == Join(front) + [Separator] + last
  {
    JoinAppend(front, [last]);
    assert Join([Join(front), last]) == Join(front) + [Separator] + Join([last]);
  }

  /** Splitting after a leading component peels off exactly that component. */
  lemma SplitAfterComponent(head: string, tail: string)
    requires IsComponent(head)
    ensures Split(head + [Separator] + tail) == [head] + Split(tail)
  {
    var p := head + [Separator] + tail;
    assert p[|head|] == Separator;
    var i := IndexOf(p, Separator);
    assert i == |head|;
    assert p[..i] == head;
    assert p[i + 1..] == tail;
  }

  /** Round trip: splitting a join of components gives back the components. */
  lemma {:induction false} SplitJoin(segments: seq<string>)
    requires |segments| > 0
    requires AllComponents(segments)
    ensures Split(Join(segments)) == segments
  {
    if |segments| > 1 {
      var rest := segments[1..];
      SplitJoin(rest);
      SplitAfterComponent(segments[0], Join(rest));
      assert [segments[0]] + rest == segments;
    }
  }

  /** Distinct lists of components never join to the same path. */
  lemma JoinInjective(a: seq<string>, b: seq<string>)
    requires |a| > 0 && |b| > 0
    requires forall i :: 0 <= i < |a| ==> IsComponent(a[i])
    requires forall i :: 0 <= i < |b| ==> IsComponent(b[i])
    ensures Join(a) == Join(b) <==> a == b
  {
    AllComponentsAt(a);
    AllComponentsAt(b);
    SplitJoin(a);
    SplitJoin(b);
  }
}
