/**
 * The strict-greater maximum scan used by the bar chart: a running maximum that
 * starts at 0 and an index that stays undefined until some element beats it.
 */
module Argmax {
  import opened Optional

  /** The scan's outcome: the chosen index (`None` while undefined) and the running maximum. */
  datatype Pick = Pick(index: Option<int>, max: int)

  /**
   * Scans `xs` left to right, taking an element only when it is strictly greater
   * than the running maximum (initially 0). The result is the lowest index holding
   * the largest positive value, or no index at all when nothing exceeds 0.
   */
  function FirstStrictMax(xs: seq<int>): (p: Pick)
    ensures IsFirstStrictMax(xs, p)
  {
    if |xs| == 0 then Pick(None, 0)
    else
      var p := FirstStrictMax(xs[..|xs| - 1]);
      if xs[|xs| - 1] > p.max then Pick(Some(|xs| - 1), xs[|xs| - 1]) else p
  }

  /**
   * What it means for `p` to be the first strict maximum of `xs`, stated without the
   * scan: the lowest index holding the largest positive element, with that element
   * as the maximum; no index and a maximum of 0 when no element is positive.
   */
  ghost predicate IsFirstStrictMax(xs: seq<int>, p: Pick)
  {
    && p.max >= 0
    && (forall i :: 0 <= i < |xs| ==> xs[i] <= p.max)
    && (p.index.None? ==> p.max == 0)
    && (p.index.Some? ==>
          && 0 <= p.index.value < |xs|
          && xs[p.index.value] == p.max
          && p.max > 0
          && forall i :: 0 <= i < p.index.value ==> xs[i] < p.max)
  }

  /** The scan's result is the one and only pick meeting the declarative description. */
  lemma {:induction false} FirstStrictMaxUnique(xs: seq<int>, p: Pick)
    ensures IsFirstStrictMax(xs, p) <==> p == FirstStrictMax(xs)
  {
    var q := FirstStrictMax(xs);
    if IsFirstStrictMax(xs, p) {
      if p.index.Some? && q.index.Some? {
        var a, b := p.index.value, q.index.value;
        assert xs[a] <= q.max && xs[b] <= p.max;
        assert !(a < b) && !(b < a);
      }
    }
  }

  /** No pick but the scan's meets the declarative description. */
  lemma {:induction false} FirstStrictMaxOnly(xs: seq<int>)
    ensures forall p :: IsFirstStrictMax(xs, p) ==> p == FirstStrictMax(xs)
  {
    forall p | IsFirstStrictMax(xs, p)
      ensures p == FirstStrictMax(xs)
    {
      FirstStrictMaxUnique(xs, p);
    }
  }

  /**
   * The scan's result handed on as a count and the tag of the chosen position:
   * the count bounds every element; there is no tag exactly when no element is
   * positive, and then the count is 0; otherwise the tag is that of the first
   * position whose element equals the count.
   */
  lemma {:induction false} ReadFirstStrictMax<T>(xs: seq<int>, tags: seq<T>, count: int, tag: Option<T>)
    requires |tags| == |xs|
    requires var p := FirstStrictMax(xs);
             && count == p.max
             && tag == (if p.index.Some? then Some(tags[p.index.value]) else None)
    ensures forall j :: 0 <= j < |xs| ==> xs[j] <= count
    ensures tag.None? <==> forall j :: 0 <= j < |xs| ==> xs[j] <= 0
    ensures tag.None? ==> count == 0
    ensures tag.Some? ==>
              exists j :: 0 <= j < |xs|
                && xs[j] == count
                && tags[j] == tag.value
                && forall i :: 0 <= i < j ==> xs[i] < count
  {
    var p := FirstStrictMax(xs);
    if p.index.Some? {
      var j := p.index.value;
      assert xs[j] == count && tags[j] == tag.value;
    }
  }
}
