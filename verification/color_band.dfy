/** The CSS colour class of one bar: the value's position among thirds of the chart's maximum. */
module ColorBand {

  /** The three CSS classes `low`, `medium` and `high`. */
  datatype Band = Low | Medium | High

  /** The CSS class name the chart attaches to a bar of this band. */
  function ClassName(b: Band): (name: string)
    ensures |name| > 0 && forall i :: 0 <= i < |name| ==> 'a' <= name[i] <= 'z'
  {
    match b
    case Low => "low"
    case Medium => "medium"
    case High => "high"
  }

  /** Different bands get different classes, so a bar's class names its band. */
  lemma {:induction false} ClassNamesDistinct(a: Band, b: Band)
    requires ClassName(a) == ClassName(b)
    ensures a == b
  {
  }

  /**
   * Classifies `value` against `domainMax`. The chart divides the maximum by three
   * and compares with one and two thirds; on integers that is the exact comparison
   * of `3 * value` with `domainMax` and `2 * domainMax`.
   */
  function GetColorBand(value: int, domainMax: int): (b: Band)
    ensures b == Low <==> value as real <= domainMax as real / 3.0
    ensures b == Medium <==>
              domainMax as real / 3.0 < value as real <= (domainMax as real / 3.0) * 2.0
    ensures b == High <==>
              value as real > domainMax as real / 3.0
              && value as real > (domainMax as real / 3.0) * 2.0
  {
    if 3 * value <= domainMax then Low
    else if 3 * value <= 2 * domainMax then Medium
    else High
  }

  /**
   * The class string the chart attaches to a bar: "low" exactly when the value is
   * at most a third of the maximum, "medium" exactly when it lies above one third
   * and at most two thirds, "high" exactly when it lies above both.
   */
  lemma {:induction false} ClassOfBar(value: int, domainMax: int)
    ensures ClassName(GetColorBand(value, domainMax)) == "low" <==>
              value as real <= domainMax as real / 3.0
    ensures ClassName(GetColorBand(value, domainMax)) == "medium" <==>
              domainMax as real / 3.0 < value as real <= (domainMax as real / 3.0) * 2.0
    ensures ClassName(GetColorBand(value, domainMax)) == "high" <==>
              value as real > domainMax as real / 3.0
              && value as real > (domainMax as real / 3.0) * 2.0
  {
    var b := GetColorBand(value, domainMax);
    assert ClassName(b) == "low" <==> b == Low;
    assert ClassName(b) == "medium" <==> b == Medium;
    assert ClassName(b) == "high" <==> b == High;
  }

  /** Bands ordered from low to high. */
  function Rank(b: Band): int
  {
    match b
    case Low => 0
    case Medium => 1
    case High => 2
  }

  /** A larger value never lands in a lower band. */
  lemma {:induction false} BandMonotone(v1: int, v2: int, domainMax: int)
    requires v1 <= v2
    ensures Rank(GetColorBand(v1, domainMax)) <= Rank(GetColorBand(v2, domainMax))
  {
  }

  /** With a positive maximum, the tallest bar is high and an empty bar is low. */
  lemma {:induction false} ExtremesOfPositiveMax(domainMax: int)
    requires domainMax > 0
    ensures GetColorBand(domainMax, domainMax) == High
    ensures GetColorBand(0, domainMax) == Low
  {
  }
}
