/** The refinement that accepts a geofence polygon, as the loops run it, and the
    geometric meaning of acceptance. */
module Polygon {
  import opened Geofence

  /** What the schema itself demands before the refinement runs. */
  type Ring = ps: seq<Point> | 3 <= |ps| <= 100
    witness [Point(0.0, 0.0), Point(0.0, 1.0), Point(1.0, 0.0)]

  datatype Issue =
    | RepeatedVertex
    | ZeroArea
    | AdjacentOverlap(vertex: nat)
    | CrossingEdges

  // The neighbours of an index modulo the number of vertices.

  function Next(i: nat, n: nat): nat
    requires i < n
  {
    if i + 1 == n then 0 else i + 1
  }

  function Previous(i: nat, n: nat): nat
    requires i < n
  {
    if i == 0 then n - 1 else i - 1
  }

  function Shoelace(point: Point, next: Point): real {
    point.lng * next.lat - next.lng * point.lat
  }

  function TwiceAreaUpTo(ps: Ring, k: nat): real
    requires k <= |ps|
  {
    if k == 0 then 0.0
    else
      TwiceAreaUpTo(ps, k - 1) + Shoelace(ps[k - 1], ps[Next(k - 1, |ps|)])
  }

  function TwiceArea(ps: Ring): real {
    TwiceAreaUpTo(ps, |ps|)
  }

  predicate FoldsBack(ps: Ring, i: nat)
    requires i < |ps|
  {
    var previous, current, next := ps[Previous(i, |ps|)], ps[i], ps[Next(i, |ps|)];
    Orientation(previous, current, next) == 0 && OnSegment(previous, current, next)
  }

  predicate AdjacentEdges(i: nat, j: nat, n: nat) {
    j == i + 1 || (i == 0 && j == n - 1)
  }

  predicate EdgesCross(ps: Ring, i: nat, j: nat)
    requires i < |ps| && j < |ps|
  {
    Intersects(ps[i], ps[Next(i, |ps|)], ps[j], ps[Next(j, |ps|)])
  }

  // The issues each part of the refinement reports, in the order it reports them.

  function OverlapIssues(ps: Ring, k: nat): seq<Issue>
    requires k <= |ps|
  {
    if k == 0 then []
    else OverlapIssues(ps, k - 1) + if FoldsBack(ps, k - 1) then [AdjacentOverlap(k - 1)] else []
  }

  function CrossingIssuesOf(ps: Ring, i: nat, k: nat): seq<Issue>
    requires i < k <= |ps|
    decreases k
  {
    if k == i + 1 then []
    else
      CrossingIssuesOf(ps, i, k - 1) +
      if !AdjacentEdges(i, k - 1, |ps|) && EdgesCross(ps, i, k - 1) then [CrossingEdges] else []
  }

  function CrossingIssues(ps: Ring, k: nat): seq<Issue>
    requires k <= |ps|
  {
    if k == 0 then [] else CrossingIssues(ps, k - 1) + CrossingIssuesOf(ps, k - 1, |ps|)
  }

  function Elements<T(==)>(s: seq<T>): set<T> {
    set x <- s
  }

  function VertexIssues(ps: Ring): seq<Issue> {
    (if |Elements(ps)| != |ps| then [RepeatedVertex] else []) +
    (if Abs(TwiceArea(ps)) < TOLERANCE then [ZeroArea] else [])
  }

  function Issues(ps: Ring): seq<Issue> {
    VertexIssues(ps) + OverlapIssues(ps, |ps|) + CrossingIssues(ps, |ps|)
  }

  method Refine(ps: Ring) returns (issues: seq<Issue>)
    ensures issues == Issues(ps)
    ensures issues == [] <==> Distinct(ps) && Simple(ps) && Abs(TwiceArea(ps)) >= TOLERANCE
  {
    issues := [];
    var keys := Elements(ps);
    if |keys| != |ps| {
      issues := issues + [RepeatedVertex];
    }
    var twiceArea := 0.0;
    for index := 0 to |ps|
      invariant twiceArea == TwiceAreaUpTo(ps, index)
    {
      twiceArea := twiceArea + Shoelace(ps[index], ps[Next(index, |ps|)]);
    }
    if Abs(twiceArea) < TOLERANCE {
      issues := issues + [ZeroArea];
    }
    for i := 0 to |ps|
      invariant issues == VertexIssues(ps) + OverlapIssues(ps, i)
    {
      if FoldsBack(ps, i) {
        issues := issues + [AdjacentOverlap(i)];
      }
    }
    issues := CheckCrossings(ps, issues);
    AcceptsIffSimple(ps);
  }

  /** The last pair of loops of the refinement. */
  method CheckCrossings(ps: Ring, before: seq<Issue>) returns (issues: seq<Issue>)
    ensures issues == before + CrossingIssues(ps, |ps|)
  {
    hide EdgesCross, AdjacentEdges, Next;
    issues := before;
    for i := 0 to |ps|
      invariant issues == before + CrossingIssues(ps, i)
    {
      var row := [];
      for j := i + 1 to |ps|
        invariant row == CrossingIssuesOf(ps, i, j)
      {
        if !AdjacentEdges(i, j, |ps|) && EdgesCross(ps, i, j) {
          row := row + [CrossingEdges];
        }
      }
      issues := issues + row;
    }
  }

  // ---------------------------------------------------------------------------
  // The geometric meaning
  // ---------------------------------------------------------------------------

  ghost predicate Distinct(ps: Ring) {
    forall i, j :: 0 <= i < j < |ps| ==> ps[i] != ps[j]
  }

  ghost predicate EdgesMeet(ps: Ring, i: nat, j: nat)
    requires i < |ps| && j < |ps|
  {
    Meet(ps[i], ps[Next(i, |ps|)], ps[j], ps[Next(j, |ps|)])
  }

  /** Two edges that share the vertex q share nothing else. */
  ghost predicate OnlyShare(p: Point, q: Point, r: Point) {
    forall x :: On(x, p, q) && On(x, q, r) ==> x == q
  }

  /** A simple closed chain: edges without a common vertex are disjoint, and
      consecutive edges have only their common vertex in common. */
  ghost predicate Simple(ps: Ring) {
    ApartEdgesDisjoint(ps) && NeighboursOnlyShare(ps)
  }

  ghost predicate NoFolds(ps: Ring, k: nat)
    requires k <= |ps|
  {
    forall i :: 0 <= i < k ==> !FoldsBack(ps, i)
  }

  ghost predicate RowClear(ps: Ring, i: nat, k: nat)
    requires i < k <= |ps|
  {
    forall j :: i < j < k && !AdjacentEdges(i, j, |ps|) ==> !EdgesCross(ps, i, j)
  }

  ghost predicate NoCrossings(ps: Ring, k: nat)
    requires k <= |ps|
  {
    forall i :: 0 <= i < k ==> RowClear(ps, i, |ps|)
  }

  lemma {:induction false} OverlapIssuesEmpty(ps: Ring, k: nat)
    requires k <= |ps|
    ensures OverlapIssues(ps, k) == [] <==> NoFolds(ps, k)
  {
    hide FoldsBack;
    if k > 0 {
      OverlapIssuesEmpty(ps, k - 1);
    }
  }

  lemma {:induction false} CrossingIssuesOfEmpty(ps: Ring, i: nat, k: nat)
    requires i < k <= |ps|
    ensures CrossingIssuesOf(ps, i, k) == [] <==> RowClear(ps, i, k)
    decreases k
  {
    hide EdgesCross;
    if k > i + 1 {
      CrossingIssuesOfEmpty(ps, i, k - 1);
    }
  }

  lemma {:induction false} CrossingIssuesEmpty(ps: Ring, k: nat)
    requires k <= |ps|
    ensures CrossingIssues(ps, k) == [] <==> NoCrossings(ps, k)
  {
    hide EdgesCross;
    if k > 0 {
      CrossingIssuesEmpty(ps, k - 1);
      CrossingIssuesOfEmpty(ps, k - 1, |ps|);
    }
  }

  lemma {:induction false} SetOfDistinct<T>(s: seq<T>)
    ensures |Elements(s)| <= |s|
    ensures |Elements(s)| == |s| <==> forall i, j :: 0 <= i < j < |s| ==> s[i] != s[j]
  {
    if s != [] {
      var last, front := s[|s| - 1], s[..|s| - 1];
      SetOfDistinct(front);
      var a, b := Elements(s), Elements(front);
      assert s == front + [last];
      assert a == b + {last};
      if last in front {
        assert a == b;
        var i :| 0 <= i < |front| && front[i] == last;
        assert s[i] == s[|s| - 1];
      } else {
        assert forall i :: 0 <= i < |front| ==> front[i] != last;
        assert forall i, j :: 0 <= i < j < |front| ==> front[i] == s[i] && front[j] == s[j];
      }
    }
  }

  lemma PositiveFactor(x: real, y: real)
    requires x > 0.0
    ensures Times(x, y) > 0.0 <==> y > 0.0
  {
  }

  /** A shared point other than the common vertex makes the two edges run back over
      each other, one of them over the far end of the other. */
  lemma SharedPointFolds(p: Point, q: Point, r: Point, x: Point)
    requires p != q && q != r
    requires On(x, p, q) && On(x, q, r) && x != q
    ensures Cross(p, q, r) == 0.0
    ensures On(r, p, q) || On(p, q, r)
  {
    var t: real :| 0.0 <= t <= 1.0 && x == Along(p, q, t);
    var u: real :| 0.0 <= u <= 1.0 && x == Along(q, r, u);
    assert u != 0.0;
    CrossOnLine(p, q, t);
    CrossOfEnds(p, q);
    CrossIsAffine(p, q, q, r, u);
    assert u * Cross(p, q, r) == 0.0;
    Cancel(u, Cross(p, q, r), 0.0);
    var w := CollinearIsAlong(p, q, r);
    assert q == Along(p, q, 1.0);
    AlongAlong(p, q, 1.0, w, u);
    AlongIsInjective(p, q, t, 1.0 + Times(u, w - 1.0));
    PositiveFactor(u, w - 1.0);
    if w < 0.0 {
      var z := Ratio(1.0, w, 0.0);
      AlongAlong(p, q, 1.0, w, z);
      assert p == Along(p, q, 0.0) == Along(q, r, z);
    }
  }

  lemma TriangleArea(ps: Ring)
    requires |ps| == 3
    ensures TwiceArea(ps) == Cross(ps[0], ps[1], ps[2])
  {
    assert TwiceAreaUpTo(ps, 3) == TwiceAreaUpTo(ps, 2) + Shoelace(ps[2], ps[0]);
    assert TwiceAreaUpTo(ps, 2) == TwiceAreaUpTo(ps, 1) + Shoelace(ps[1], ps[2]);
    assert TwiceAreaUpTo(ps, 1) == TwiceAreaUpTo(ps, 0) + Shoelace(ps[0], ps[1]);
  }

  lemma CrossRotates(p: Point, q: Point, r: Point)
    ensures Cross(p, q, r) == Cross(q, r, p)
  {
  }

  /** The fold the one-sided adjacent check cannot see: the previous vertex lies on the
      next edge.  With four vertices or more the edge before catches it, with three the area. */
  lemma BackwardSpikeIsCaught(ps: Ring, i: nat)
    requires i < |ps| && Distinct(ps) && NoCrossings(ps, |ps|)
    requires Abs(TwiceArea(ps)) >= TOLERANCE
    requires Cross(ps[Previous(i, |ps|)], ps[i], ps[Next(i, |ps|)]) == 0.0
    ensures !On(ps[Previous(i, |ps|)], ps[i], ps[Next(i, |ps|)])
  {
    var n := |ps|;
    var h := Previous(i, n);
    var p, q, r := ps[h], ps[i], ps[Next(i, n)];
    if n == 3 {
      TriangleArea(ps);
      CrossRotates(p, q, r);
      CrossRotates(q, r, p);
      assert false;
    } else if On(p, q, r) {
      var g := Previous(h, n);
      EndsAreOn(ps[g], p);
      assert Next(g, n) == h;
      assert Meet(ps[g], p, q, r) && Meet(q, r, ps[g], p);
      IntersectsIffMeet(ps[g], p, q, r);
      IntersectsIffMeet(q, r, ps[g], p);
      if g < i {
        assert RowClear(ps, g, n) && !AdjacentEdges(g, i, n);
        assert EdgesCross(ps, g, i);
      } else {
        assert RowClear(ps, i, n) && !AdjacentEdges(i, g, n);
        assert EdgesCross(ps, i, g);
      }
    }
  }

  lemma AcceptedSharesOnlyVertices(ps: Ring, i: nat)
    requires i < |ps| && Distinct(ps) && NoFolds(ps, |ps|) && NoCrossings(ps, |ps|)
    requires Abs(TwiceArea(ps)) >= TOLERANCE
    ensures OnlyShare(ps[Previous(i, |ps|)], ps[i], ps[Next(i, |ps|)])
  {
    var p, q, r := ps[Previous(i, |ps|)], ps[i], ps[Next(i, |ps|)];
    forall x | On(x, p, q) && On(x, q, r)
      ensures x == q
    {
      if x != q {
        SharedPointFolds(p, q, r, x);
        assert !FoldsBack(ps, i);
        OnSegmentIff(p, q, r);
        BackwardSpikeIsCaught(ps, i);
      }
    }
  }

  lemma SimpleDoesNotFold(ps: Ring, i: nat)
    requires i < |ps| && Distinct(ps)
    requires OnlyShare(ps[Previous(i, |ps|)], ps[i], ps[Next(i, |ps|)])
    ensures !FoldsBack(ps, i)
  {
    var p, q, r := ps[Previous(i, |ps|)], ps[i], ps[Next(i, |ps|)];
    if FoldsBack(ps, i) {
      OnSegmentIff(p, q, r);
      EndsAreOn(q, r);
    }
  }

  ghost predicate ApartEdgesDisjoint(ps: Ring) {
    forall i, j :: 0 <= i < j < |ps| && !AdjacentEdges(i, j, |ps|) ==> !EdgesMeet(ps, i, j)
  }

  ghost predicate NeighboursOnlyShare(ps: Ring) {
    forall i :: 0 <= i < |ps| ==> OnlyShare(ps[Previous(i, |ps|)], ps[i], ps[Next(i, |ps|)])
  }

  lemma NoCrossingsIffDisjoint(ps: Ring)
    ensures NoCrossings(ps, |ps|) <==> ApartEdgesDisjoint(ps)
  {
    hide EdgesCross, EdgesMeet;
    var n := |ps|;
    forall i, j | 0 <= i < n && 0 <= j < n
      ensures EdgesCross(ps, i, j) <==> EdgesMeet(ps, i, j)
    {
      CrossingsAreMeetings(ps, i, j);
    }
    if ApartEdgesDisjoint(ps) {
      forall i | 0 <= i < n
        ensures RowClear(ps, i, n)
      {
      }
    }
    if NoCrossings(ps, n) {
      forall i, j | 0 <= i < j < n && !AdjacentEdges(i, j, n)
        ensures !EdgesMeet(ps, i, j)
      {
        assert RowClear(ps, i, n);
      }
    }
  }

  lemma CrossingsAreMeetings(ps: Ring, i: nat, j: nat)
    requires i < |ps| && j < |ps|
    ensures EdgesCross(ps, i, j) <==> EdgesMeet(ps, i, j)
  {
    IntersectsIffMeet(ps[i], ps[Next(i, |ps|)], ps[j], ps[Next(j, |ps|)]);
  }

  lemma NoFoldsIffOnlyShare(ps: Ring)
    requires Distinct(ps) && NoCrossings(ps, |ps|) && Abs(TwiceArea(ps)) >= TOLERANCE
    ensures NoFolds(ps, |ps|) <==> NeighboursOnlyShare(ps)
  {
    hide OnlyShare, FoldsBack, NoCrossings;
    if NoFolds(ps, |ps|) {
      forall i | 0 <= i < |ps|
        ensures OnlyShare(ps[Previous(i, |ps|)], ps[i], ps[Next(i, |ps|)])
      {
        AcceptedSharesOnlyVertices(ps, i);
      }
    }
    if NeighboursOnlyShare(ps) {
      forall i | 0 <= i < |ps|
        ensures !FoldsBack(ps, i)
      {
        SimpleDoesNotFold(ps, i);
      }
    }
  }

  /** Exactly the simple rings with distinct vertices and an area the tolerance can see
      are accepted, whatever the number of vertices. */
  lemma AcceptsIffSimple(ps: Ring)
    ensures Issues(ps) == [] <==> Distinct(ps) && Simple(ps) && Abs(TwiceArea(ps)) >= TOLERANCE
  {
    hide NeighboursOnlyShare, ApartEdgesDisjoint, NoCrossings, NoFolds, TwiceArea;
    SetOfDistinct(ps);
    OverlapIssuesEmpty(ps, |ps|);
    CrossingIssuesEmpty(ps, |ps|);
    NoCrossingsIffDisjoint(ps);
    if Distinct(ps) && NoCrossings(ps, |ps|) && Abs(TwiceArea(ps)) >= TOLERANCE {
      NoFoldsIffOnlyShare(ps);
    }
  }
}
