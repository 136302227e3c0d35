/** The waypoint-list utilities of the walking enemy (Assets/Scripts/Enemies/WalkingEnemyAI.cs):
    comparing a freshly planned path with the current one, and splicing two paths around their
    longest common run. The state that uses them lives in the Enemies module. */
module WalkingEnemyAI {
  import opened Geometry

  /** The default tolerance of AreListsAlmostEqual and MergeListsWithOverlap. */
  const DefaultTolerance: real := 0.01

  /** Both coordinate differences are within the tolerance. */
  function AreApproximatelySame(a: Vector2, b: Vector2, tolerance: real): (same: bool)
    ensures tolerance < 0.0 ==> !same
    ensures a == b ==> (same <==> 0.0 <= tolerance)
    ensures same ==> a.x - tolerance <= b.x <= a.x + tolerance && a.y - tolerance <= b.y <= a.y + tolerance
  {
    Abs(a.x - b.x) <= tolerance && Abs(a.y - b.y) <= tolerance
  }

  lemma ApproximatelySameIsSymmetric(a: Vector2, b: Vector2, tolerance: real)
    ensures AreApproximatelySame(a, b, tolerance) <==> AreApproximatelySame(b, a, tolerance)
  {
    assert Abs(a.x - b.x) == Abs(b.x - a.x) && Abs(a.y - b.y) == Abs(b.y - a.y);
  }

  /** Two points within Euclidean distance d are within d in each coordinate: the test
      AreListsAlmostEqual applies is at least as strict as AreApproximatelySame. */
  lemma WithinDistanceIsApproximatelySame(a: Vector2, b: Vector2, d: real)
    requires DistanceAtMost(a, b, d)
    ensures AreApproximatelySame(a, b, d)
  {
    var dx, dy := a.x - b.x, a.y - b.y;
    assert dx * dx <= d * d && dy * dy <= d * d;
    SquareBound(dx, d);
    SquareBound(dy, d);
  }

  /** |v| <= d follows from v * v <= d * d when d is not negative. */
  lemma SquareBound(v: real, d: real)
    requires 0.0 <= d && v * v <= d * d
    ensures Abs(v) <= d
  {
    var a := Abs(v);
    assert a * a == v * v;
    SquareGrows(a, d);
  }

  /** Squaring is strictly increasing on the non-negative reals. */
  lemma SquareGrows(a: real, d: real)
    requires 0.0 <= a && 0.0 <= d
    ensures a > d ==> a * a > d * d
  {
    if a > d {
      var e := a - d;
      assert a * a == (d + e) * (d + e);
      assert (d + e) * (d + e) == d * d + 2.0 * d * e + e * e;
      assert e > 0.0 && e * e > 0.0;
      assert d * e >= 0.0;
      assert d * d + 2.0 * d * e + e * e > d * d;
    }
  }

  /** The lists have the same length and are pairwise within Euclidean distance tolerance. */
  predicate ListsWithin(list1: seq<Vector2>, list2: seq<Vector2>, tolerance: real)
  {
    |list1| == |list2| && forall i :: 0 <= i < |list1| ==> DistanceAtMost(list1[i], list2[i], tolerance)
  }

  /** Compares two paths index by index; lists of different lengths are never almost equal. */
  method AreListsAlmostEqual(list1: seq<Vector2>, list2: seq<Vector2>, tolerance: real) returns (equal: bool)
    ensures |list1| != |list2| ==> !equal
    ensures equal <==> ListsWithin(list1, list2, tolerance)
  {
    if |list1| != |list2| {
      return false;
    }
    for i := 0 to |list1|
      invariant forall k :: 0 <= k < i ==> DistanceAtMost(list1[k], list2[k], tolerance)
    {
      if !DistanceAtMost(list1[i], list2[i], tolerance) {
        return false;
      }
    }
    return true;
  }

  lemma ListsWithinIsSymmetric(list1: seq<Vector2>, list2: seq<Vector2>, tolerance: real)
    ensures ListsWithin(list1, list2, tolerance) <==> ListsWithin(list2, list1, tolerance)
  {
    forall a, b {:trigger SqDistance(a, b)}
      ensures SqDistance(a, b) == SqDistance(b, a)
    {
      assert (a.x - b.x) * (a.x - b.x) == (b.x - a.x) * (b.x - a.x);
      assert (a.y - b.y) * (a.y - b.y) == (b.y - a.y) * (b.y - a.y);
    }
  }

  /** Lists that are almost equal match element by element under AreApproximatelySame. */
  lemma ListsWithinMatchPairwise(list1: seq<Vector2>, list2: seq<Vector2>, tolerance: real)
    requires ListsWithin(list1, list2, tolerance)
    ensures forall i :: 0 <= i < |list1| ==> AreApproximatelySame(list1[i], list2[i], tolerance)
  {
    forall i | 0 <= i < |list1|
      ensures AreApproximatelySame(list1[i], list2[i], tolerance)
    {
      WithinDistanceIsApproximatelySame(list1[i], list2[i], tolerance);
    }
  }

  /** The length of the run of matching elements that starts at list1[i] and list2[j]: the scan
      stops at the first mismatch or at the end of either list. */
  function RunLength(list1: seq<Vector2>, list2: seq<Vector2>, tolerance: real, i: nat, j: nat): (n: nat)
    ensures n > 0 ==> i + n <= |list1| && j + n <= |list2|
    ensures forall k :: i <= k < i + n ==> AreApproximatelySame(list1[k], list2[j + (k - i)], tolerance)
    ensures i + n < |list1| && j + n < |list2| ==> !AreApproximatelySame(list1[i + n], list2[j + n], tolerance)
    decreases |list1| - i
  {
    if i < |list1| && j < |list2| && AreApproximatelySame(list1[i], list2[j], tolerance) then
      1 + RunLength(list1, list2, tolerance, i + 1, j + 1)
    else
      0
  }

  /** Pair (i1, j1) comes before pair (i2, j2) in the row-major order of the nested scan. */
  predicate Before(i1: int, j1: int, i2: int, j2: int)
  {
    i1 < i2 || (i1 == i2 && j1 < j2)
  }

  /** (len, bi, bj) is what the scan holds once it has visited every start pair before (i, j):
      len is the longest run found so far, (bi, bj) the first pair that reached it, or (-1, -1)
      when no run has been found. */
  ghost predicate BestBefore(list1: seq<Vector2>, list2: seq<Vector2>, tolerance: real,
                             len: nat, bi: int, bj: int, i: int, j: int)
  {
    && (len == 0 ==> bi == -1 && bj == -1)
    && (len > 0 ==>
          && 0 <= bi < |list1| && 0 <= bj < |list2| && Before(bi, bj, i, j)
          && RunLength(list1, list2, tolerance, bi, bj) == len
          && forall i': nat, j': nat | i' < |list1| && j' < |list2| && Before(i', j', bi, bj) ::
               RunLength(list1, list2, tolerance, i', j') < len)
    && forall i': nat, j': nat | i' < |list1| && j' < |list2| && Before(i', j', i, j) ::
         RunLength(list1, list2, tolerance, i', j') <= len
  }

  /** (len, bi, bj) is the overlap MergeListsWithOverlap splices around: the longest run over
      all start pairs, the first in row-major order among equally long ones (the update is a
      strict >), and (0, -1, -1) when no element of list1 matches one of list2. */
  ghost predicate IsBestOverlap(list1: seq<Vector2>, list2: seq<Vector2>, tolerance: real,
                                len: nat, bi: int, bj: int)
  {
    BestBefore(list1, list2, tolerance, len, bi, bj, |list1|, 0)
  }

  /** The scan has at most one outcome. */
  lemma BestOverlapIsUnique(list1: seq<Vector2>, list2: seq<Vector2>, tolerance: real,
                            len1: nat, bi1: int, bj1: int, len2: nat, bi2: int, bj2: int)
    requires IsBestOverlap(list1, list2, tolerance, len1, bi1, bj1)
    requires IsBestOverlap(list1, list2, tolerance, len2, bi2, bj2)
    ensures len1 == len2 && bi1 == bi2 && bj1 == bj2
  {
    if len1 > 0 && len2 > 0 {
      var n1 := RunLength(list1, list2, tolerance, bi1, bj1);
      var n2 := RunLength(list1, list2, tolerance, bi2, bj2);
      assert n1 <= len2 && n2 <= len1;
      assert Before(bi1, bj1, bi2, bj2) ==> n1 < len2;
      assert Before(bi2, bj2, bi1, bj1) ==> n2 < len1;
    }
  }

  /** The overlap is empty exactly when no element of list1 matches any element of list2. */
  lemma NoOverlapIffNoMatch(list1: seq<Vector2>, list2: seq<Vector2>, tolerance: real,
                            len: nat, bi: int, bj: int)
    requires IsBestOverlap(list1, list2, tolerance, len, bi, bj)
    ensures len == 0 <==> forall i, j :: 0 <= i < |list1| && 0 <= j < |list2| ==>
                            !AreApproximatelySame(list1[i], list2[j], tolerance)
  {
    if len == 0 {
      forall i, j | 0 <= i < |list1| && 0 <= j < |list2|
        ensures !AreApproximatelySame(list1[i], list2[j], tolerance)
      {
        assert Before(i, j, |list1|, 0);
        assert RunLength(list1, list2, tolerance, i, j) == 0;
      }
    } else {
      assert AreApproximatelySame(list1[bi], list2[bj + (bi - bi)], tolerance);
    }
  }

  /** Visiting start pair (i, j) extends what the scan knows from the pairs before (i, j) to the
      pairs up to and including it. */
  lemma ScanStep(list1: seq<Vector2>, list2: seq<Vector2>, tolerance: real,
                 len: nat, bi: int, bj: int, i: nat, j: nat)
    requires BestBefore(list1, list2, tolerance, len, bi, bj, i, j)
    requires i < |list1| && j < |list2|
    ensures var n := RunLength(list1, list2, tolerance, i, j);
      if n > len then BestBefore(list1, list2, tolerance, n, i, j, i, j + 1)
      else BestBefore(list1, list2, tolerance, len, bi, bj, i, j + 1)
  {
    var n := RunLength(list1, list2, tolerance, i, j);
    forall i': nat, j': nat | i' < |list1| && j' < |list2| && Before(i', j', i, j + 1)
      ensures RunLength(list1, list2, tolerance, i', j') <= if n > len then n else len
    {
      if Before(i', j', i, j) {
        assert RunLength(list1, list2, tolerance, i', j') <= len;
      } else {
        assert i' == i && j' == j;
      }
    }
    if n > len {
      forall i': nat, j': nat | i' < |list1| && j' < |list2| && Before(i', j', i, j)
        ensures RunLength(list1, list2, tolerance, i', j') < n
      {
        assert RunLength(list1, list2, tolerance, i', j') <= len;
      }
    }
  }

  /** Finishing row i of the scan is starting row i + 1. */
  lemma NextRow(list1: seq<Vector2>, list2: seq<Vector2>, tolerance: real,
                len: nat, bi: int, bj: int, i: nat)
    requires BestBefore(list1, list2, tolerance, len, bi, bj, i, |list2|)
    ensures BestBefore(list1, list2, tolerance, len, bi, bj, i + 1, 0)
  {
    forall i': nat, j': nat | i' < |list1| && j' < |list2| && Before(i', j', i + 1, 0)
      ensures RunLength(list1, list2, tolerance, i', j') <= len
    {
      assert Before(i', j', i, |list2|);
    }
    if len > 0 {
      assert bj < |list2|;
      assert Before(bi, bj, i + 1, 0);
    }
  }

  /** The innermost loop of the scan: counts matching elements from list1[i] and list2[j] on,
      never reading past the end of either list. */
  method MatchingRun(list1: seq<Vector2>, list2: seq<Vector2>, tolerance: real, i: nat, j: nat)
    returns (length: nat)
    ensures length == RunLength(list1, list2, tolerance, i, j)
  {
    length := 0;
    while i + length < |list1| && j + length < |list2|
          && AreApproximatelySame(list1[i + length], list2[j + length], tolerance)
      invariant RunLength(list1, list2, tolerance, i, j)
                == length + RunLength(list1, list2, tolerance, i + length, j + length)
      decreases |list1| - length
    {
      length := length + 1;
    }
  }

  /** The nested scan of MergeListsWithOverlap: for every start pair, in row-major order, count
      the run of matching elements and keep the first longest one. */
  method FindOverlap(list1: seq<Vector2>, list2: seq<Vector2>, tolerance: real)
    returns (bestLen: nat, bestI: int, bestJ: int)
    ensures IsBestOverlap(list1, list2, tolerance, bestLen, bestI, bestJ)
  {
    bestLen, bestI, bestJ := 0, -1, -1;
    for i := 0 to |list1|
      invariant BestBefore(list1, list2, tolerance, bestLen, bestI, bestJ, i, 0)
    {
      for j := 0 to |list2|
        invariant BestBefore(list1, list2, tolerance, bestLen, bestI, bestJ, i, j)
      {
        var length := MatchingRun(list1, list2, tolerance, i, j);
        ScanStep(list1, list2, tolerance, bestLen, bestI, bestJ, i, j);
        if length > bestLen {
          bestLen, bestI, bestJ := length, i, j;
        }
      }
      NextRow(list1, list2, tolerance, bestLen, bestI, bestJ, i);
    }
  }

  /** Splices list1 and list2 around their longest run of matching elements: list1 up to the end
      of the run, then list2 after it. With no matching element, list1 followed by list2. */
  method MergeListsWithOverlap(list1: seq<Vector2>, list2: seq<Vector2>, tolerance: real)
    returns (result: seq<Vector2>)
    ensures exists len: nat, bi: int, bj: int :: IsBestOverlap(list1, list2, tolerance, len, bi, bj)
              && (len == 0 ==> result == list1 + list2)
              && (len > 0 ==>
                    && 0 <= bi && bi + len <= |list1| && 0 <= bj && bj + len <= |list2|
                    && result == list1[..bi + len] + list2[bj + len..]
                    && |result| == bi + |list2| - bj)
  {
    var bestLen, bestI, bestJ := FindOverlap(list1, list2, tolerance);
    if bestLen == 0 {
      result := list1 + list2;
    } else {
      result := list1[..bestI] + list1[bestI..bestI + bestLen] + list2[bestJ + bestLen..];
      assert list1[..bestI] + list1[bestI..bestI + bestLen] == list1[..bestI + bestLen];
    }
    assert IsBestOverlap(list1, list2, tolerance, bestLen, bestI, bestJ);
  }
}
