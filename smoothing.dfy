/**
 * smoothAxis: a bounded, ordered search over division counts near a base
 * count for one whose range / count has a "nice" fractional part.
 *
 * Pass i (i = 0, 1, ..., distance) tests two candidates, d1 then d2: for a
 * distance >= 0, d1 = base - i and d2 = base + i; otherwise the other way
 * round. Only positive candidates are tested. The first candidate whose
 * quotient decimal (four places) is among the allowed decimals is returned;
 * if there is none, the base count is. A distance of 0 returns the base at
 * once, and so does a negative distance, because the loop guard
 * `i <= distance` already fails at i = 0.
 *
 * The search is the method SmoothAxis; the pure specification it is proved
 * against is Smoothed: the first nice element of ScanOrder, or the base.
 */
module Smoothing {
  import opened JsMath
  import opened Quotient

  /** The allowed decimals the player passes: [0, .5, .25]. */
  const NiceDecimals: seq<real> := [0.0, 0.5, 0.25]

  /**
   * A candidate count is nice when it is positive and its quotient decimal at
   * four places is one of the allowed decimals (`indexOf(decimal) > -1`).
   */
  predicate Nice(range: real, d: int, allowedDecimals: seq<real>) {
    d > 0 && QuotientDecimal(range, d as real, Places(4)) in allowedDecimals
  }

  /** How many passes `for (i = 0; i <= distance; i++)` makes. */
  function Steps(distance: int): nat {
    if distance < 0 then 0 else distance + 1
  }

  /** d1, the candidate tested first in pass i. */
  function FirstOfPass(base: int, subtractFirst: bool, i: int): int {
    if subtractFirst then base - i else base + i
  }

  /** d2, the candidate tested second in pass i. */
  function SecondOfPass(base: int, subtractFirst: bool, i: int): int {
    if subtractFirst then base + i else base - i
  }

  /** The candidates of the first n passes in test order: d1(0), d2(0), d1(1), d2(1), ... */
  function Candidates(base: int, subtractFirst: bool, n: nat): (s: seq<int>)
    ensures |s| == 2 * n
  {
    if n == 0 then []
    else Candidates(base, subtractFirst, n - 1)
         + [FirstOfPass(base, subtractFirst, n - 1), SecondOfPass(base, subtractFirst, n - 1)]
  }

  /** Everything smoothAxis may test, in order; subtractFirst is `distance >= 0`. */
  function ScanOrder(base: int, distance: int): seq<int> {
    Candidates(base, distance >= 0, Steps(distance))
  }

  /** Pass i contributes the elements at 2i and 2i + 1. */
  lemma {:induction false} CandidatesAt(base: int, subtractFirst: bool, n: nat, i: nat)
    requires i < n
    ensures |Candidates(base, subtractFirst, n)| == 2 * n
    ensures Candidates(base, subtractFirst, n)[2 * i] == FirstOfPass(base, subtractFirst, i)
    ensures Candidates(base, subtractFirst, n)[2 * i + 1] == SecondOfPass(base, subtractFirst, i)
  {
    if i < n - 1 {
      CandidatesAt(base, subtractFirst, n - 1, i);
    }
  }

  /**
   * For a non-negative distance the element at index j is j / 2 away from
   * the base: below it at even indices, above it at odd ones.
   */
  lemma ScanOrderAt(base: int, distance: int, j: int)
    requires distance >= 0
    requires 0 <= j < |ScanOrder(base, distance)|
    ensures j / 2 <= distance
    ensures ScanOrder(base, distance)[j] == if j % 2 == 0 then base - j / 2 else base + j / 2
  {
    CandidatesAt(base, true, distance + 1, j / 2);
  }

  /** The index of the first nice candidate, or |candidates| when none is nice. */
  function FirstNiceIndex(range: real, candidates: seq<int>, allowedDecimals: seq<real>): (k: nat)
    ensures k <= |candidates|
    ensures k < |candidates| ==> Nice(range, candidates[k], allowedDecimals)
    ensures forall j :: 0 <= j < k ==> !Nice(range, candidates[j], allowedDecimals)
  {
    if |candidates| == 0 then 0
    else if Nice(range, candidates[0], allowedDecimals) then 0
    else 1 + FirstNiceIndex(range, candidates[1..], allowedDecimals)
  }

  /** What smoothAxis returns: the first nice candidate in scan order, else the base. */
  function Smoothed(range: real, baseDivision: int, allowedDecimals: seq<real>, distance: int): int {
    if distance == 0 then baseDivision
    else
      var scan := ScanOrder(baseDivision, distance);
      var k := FirstNiceIndex(range, scan, allowedDecimals);
      if k < |scan| then scan[k] else baseDivision
  }

  /**
   * smoothAxis: the counting loop with its two early returns. A candidate's
   * quotient is only computed once it is known to be positive.
   */
  method SmoothAxis(range: real, baseDivision: int, allowedDecimals: seq<real>, distance: int)
    returns (divisions: int)
    ensures divisions == Smoothed(range, baseDivision, allowedDecimals, distance)
    ensures divisions == baseDivision || Nice(range, divisions, allowedDecimals)
  {
    if distance == 0 {
      return baseDivision;
    }
    var subtractFirst := distance >= 0;
    ghost var scan := ScanOrder(baseDivision, distance);
    var i := 0;
    while i <= distance
      invariant 0 <= i <= Steps(distance)
      invariant forall j :: 0 <= j < 2 * i ==> !Nice(range, scan[j], allowedDecimals)
      decreases distance - i
    {
      var d1 := if subtractFirst then baseDivision - i else baseDivision + i;
      var d2 := if subtractFirst then baseDivision + i else baseDivision - i;
      CandidatesAt(baseDivision, subtractFirst, Steps(distance), i);
      if d1 > 0 {
        var decimal := QuotientDecimal(range, d1 as real, Places(4));
        if decimal in allowedDecimals {
          return d1;
        }
      }
      if d2 > 0 {
        var decimal := QuotientDecimal(range, d2 as real, Places(4));
        if decimal in allowedDecimals {
          return d2;
        }
      }
      i := i + 1;
    }
    return baseDivision;
  }

  /** A negative distance never enters the loop, so the base is returned unchanged. */
  lemma NegativeDistanceKeepsBase(range: real, baseDivision: int, allowedDecimals: seq<real>, distance: int)
    requires distance <= 0
    ensures Smoothed(range, baseDivision, allowedDecimals, distance) == baseDivision
  {
  }

  /**
   * Any result other than the base is a nice (so positive) count within the
   * distance of the base, and only a positive distance can produce one.
   */
  lemma SmoothedBounds(range: real, baseDivision: int, allowedDecimals: seq<real>, distance: int)
    ensures var r := Smoothed(range, baseDivision, allowedDecimals, distance);
      r == baseDivision ||
      (0 < distance && Nice(range, r, allowedDecimals) && baseDivision - distance <= r <= baseDivision + distance)
  {
    if distance > 0 {
      var scan := ScanOrder(baseDivision, distance);
      var k := FirstNiceIndex(range, scan, allowedDecimals);
      if k < |scan| {
        ScanOrderAt(baseDivision, distance, k);
      }
    }
  }

  /**
   * First found: a nice candidate whose predecessors in scan order are all
   * not nice is the result.
   */
  lemma FirstFound(range: real, baseDivision: int, allowedDecimals: seq<real>, distance: int, k: nat)
    requires distance != 0
    requires k < |ScanOrder(baseDivision, distance)|
    requires Nice(range, ScanOrder(baseDivision, distance)[k], allowedDecimals)
    requires forall j :: 0 <= j < k ==> !Nice(range, ScanOrder(baseDivision, distance)[j], allowedDecimals)
    ensures Smoothed(range, baseDivision, allowedDecimals, distance) == ScanOrder(baseDivision, distance)[k]
  {
  }

  /**
   * The search picks a nice count closest to the base: when some count c
   * within a positive distance is nice, the result is nice, no farther from
   * the base than c, and on a tie in distance it is the smaller count
   * (base - i is tested before base + i).
   */
  lemma SmoothedIsClosestNice(range: real, baseDivision: int, allowedDecimals: seq<real>, distance: int, c: int)
    requires distance > 0
    requires baseDivision - distance <= c <= baseDivision + distance
    requires Nice(range, c, allowedDecimals)
    ensures var r := Smoothed(range, baseDivision, allowedDecimals, distance);
      && Nice(range, r, allowedDecimals)
      && (Abs(r - baseDivision) < Abs(c - baseDivision) || (Abs(r - baseDivision) == Abs(c - baseDivision) && r <= c))
  {
    var scan := ScanOrder(baseDivision, distance);
    var jc := PositionInScan(baseDivision, distance, c);
    var k := FirstNiceIndex(range, scan, allowedDecimals);
    assert k <= jc;
    EarlierIsCloser(baseDivision, distance, k, jc);
  }

  /** Every count within a non-negative distance of the base is in the scan order. */
  lemma PositionInScan(base: int, distance: int, c: int) returns (j: nat)
    requires distance >= 0
    requires base - distance <= c <= base + distance
    ensures j < |ScanOrder(base, distance)| && ScanOrder(base, distance)[j] == c
  {
    var i := Abs(c - base);
    j := if c == base - i then 2 * i else 2 * i + 1;
    CandidatesAt(base, true, distance + 1, i);
  }

  /**
   * Scan order never moves closer to the base: an earlier candidate is
   * strictly closer than a later one, or as close and not larger.
   */
  lemma EarlierIsCloser(base: int, distance: int, k: int, j: int)
    requires distance >= 0
    requires 0 <= k <= j < |ScanOrder(base, distance)|
    ensures var s := ScanOrder(base, distance);
      Abs(s[k] - base) < Abs(s[j] - base) || (Abs(s[k] - base) == Abs(s[j] - base) && s[k] <= s[j])
  {
    ScanOrderAt(base, distance, k);
    ScanOrderAt(base, distance, j);
  }

  /** With no nice count within the distance, the base is returned. */
  lemma NoNiceKeepsBase(range: real, baseDivision: int, allowedDecimals: seq<real>, distance: int)
    requires forall c :: baseDivision - distance <= c <= baseDivision + distance ==> !Nice(range, c, allowedDecimals)
    ensures Smoothed(range, baseDivision, allowedDecimals, distance) == baseDivision
  {
    SmoothedBounds(range, baseDivision, allowedDecimals, distance);
  }

  /** Tie-break: when base - i is nice (i > 0), base + i is never the result. */
  lemma SubtractFirstOnTie(range: real, baseDivision: int, allowedDecimals: seq<real>, distance: int, i: int)
    requires 0 < i <= distance
    requires Nice(range, baseDivision - i, allowedDecimals)
    ensures Smoothed(range, baseDivision, allowedDecimals, distance) != baseDivision + i
  {
    SmoothedIsClosestNice(range, baseDivision, allowedDecimals, distance, baseDivision - i);
  }

  /** An already nice, positive base is kept by any non-negative distance. */
  lemma NiceBaseKept(range: real, baseDivision: int, allowedDecimals: seq<real>, distance: int)
    requires distance >= 0
    requires Nice(range, baseDivision, allowedDecimals)
    ensures Smoothed(range, baseDivision, allowedDecimals, distance) == baseDivision
  {
    if distance > 0 {
      SmoothedIsClosestNice(range, baseDivision, allowedDecimals, distance, baseDivision);
    }
  }

  function Abs(x: int): nat {
    if x < 0 then -x else x
  }
}
