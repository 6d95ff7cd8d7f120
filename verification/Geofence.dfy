/** The polygon half of the geofence schema: the orientation test for two closed
    segments and the refinement that accepts a polygon.  Coordinates are exact reals. */
module Geofence {

  datatype Point = Point(lat: real, lng: real)

  const TOLERANCE := 0.000000000001

  function Cross(a: Point, b: Point, c: Point): real {
    (b.lng - a.lng) * (c.lat - a.lat) - (b.lat - a.lat) * (c.lng - a.lng)
  }

  function Sign(x: real): int {
    if x > 0.0 then 1 else if x < 0.0 then -1 else 0
  }

  function Abs(x: real): real {
    if x < 0.0 then -x else x
  }

  function Min(x: real, y: real): real {
    if x <= y then x else y
  }

  function Max(x: real, y: real): real {
    if x <= y then y else x
  }

  function Orientation(a: Point, b: Point, c: Point): int {
    Sign(Cross(a, b, c))
  }

  predicate InBox(a: Point, b: Point, p: Point) {
    && Min(a.lat, b.lat) <= p.lat <= Max(a.lat, b.lat)
    && Min(a.lng, b.lng) <= p.lng <= Max(a.lng, b.lng)
  }

  predicate OnSegment(a: Point, b: Point, p: Point) {
    Abs(Cross(a, b, p)) < TOLERANCE && InBox(a, b, p)
  }

  predicate Intersects(a: Point, b: Point, c: Point, d: Point) {
    var abC := Orientation(a, b, c);
    var abD := Orientation(a, b, d);
    var cdA := Orientation(c, d, a);
    var cdB := Orientation(c, d, b);
    || (abC != abD && cdA != cdB)
    || (abC == 0 && OnSegment(a, b, c))
    || (abD == 0 && OnSegment(a, b, d))
    || (cdA == 0 && OnSegment(c, d, a))
    || (cdB == 0 && OnSegment(c, d, b))
  }

  // ---------------------------------------------------------------------------
  // The closed segment as a set of points
  // ---------------------------------------------------------------------------

  function Times(t: real, d: real): real {
    t * d
  }

  /** The point a fraction t of the way from a to b. */
  function Along(a: Point, b: Point, t: real): Point {
    Point(a.lat + Times(t, b.lat - a.lat), a.lng + Times(t, b.lng - a.lng))
  }

  /** p is a point of the closed segment from a to b, which may be a single point. */
  ghost predicate On(p: Point, a: Point, b: Point) {
    exists t: real :: 0.0 <= t <= 1.0 && p == Along(a, b, t)
  }

  ghost predicate Meet(a: Point, b: Point, c: Point, d: Point) {
    exists p :: On(p, a, b) && On(p, c, d)
  }

  lemma CrossIsAffine(a: Point, b: Point, c: Point, d: Point, t: real)
    ensures Cross(a, b, Along(c, d, t)) == (1.0 - t) * Cross(a, b, c) + t * Cross(a, b, d)
  {
  }

  lemma CrossOfEnds(a: Point, b: Point)
    ensures Cross(a, b, a) == 0.0 && Cross(a, b, b) == 0.0
  {
  }

  lemma CrossOnLine(a: Point, b: Point, t: real)
    ensures Cross(a, b, Along(a, b, t)) == 0.0
  {
  }

  lemma NonNegativeProduct(x: real, y: real)
    requires x >= 0.0 && y >= 0.0
    ensures Times(x, y) >= 0.0
  {
  }

  lemma FractionOf(t: real, d: real)
    requires 0.0 <= t <= 1.0
    ensures d >= 0.0 ==> 0.0 <= Times(t, d) <= d
    ensures d <= 0.0 ==> d <= Times(t, d) <= 0.0
  {
  }

  lemma Between(x: real, y: real, t: real)
    requires 0.0 <= t <= 1.0
    ensures Min(x, y) <= x + Times(t, y - x) <= Max(x, y)
  {
    FractionOf(t, y - x);
  }

  lemma OnIsInBox(p: Point, a: Point, b: Point)
    requires On(p, a, b)
    ensures Cross(a, b, p) == 0.0 && InBox(a, b, p)
  {
    hide Cross, Times;
    var t: real :| 0.0 <= t <= 1.0 && p == Along(a, b, t);
    CrossIsAffine(a, b, a, b, t);
    CrossOfEnds(a, b);
    Between(a.lat, b.lat, t);
    Between(a.lng, b.lng, t);
  }

  lemma Ratio(x: real, y: real, z: real) returns (t: real)
    requires x != y
    ensures Times(t, y - x) == z - x
    ensures Min(x, y) <= z <= Max(x, y) ==> 0.0 <= t <= 1.0
  {
    t := (z - x) / (y - x);
  }

  lemma Cancel(k: real, x: real, y: real)
    requires k != 0.0 && k * x == k * y
    ensures x == y
  {
  }

  lemma Proportion(ex: real, ey: real, gx: real, gy: real, t: real)
    requires ex != 0.0 && Times(t, ex) == gx && ex * gy == ey * gx
    ensures Times(t, ey) == gy
  {
  }

  /** On a proper segment every collinear point has a coordinate along it. */
  lemma CollinearIsAlong(a: Point, b: Point, p: Point) returns (t: real)
    requires a != b && Cross(a, b, p) == 0.0
    ensures p == Along(a, b, t)
    ensures InBox(a, b, p) ==> 0.0 <= t <= 1.0
  {
    if a.lng != b.lng {
      t := Ratio(a.lng, b.lng, p.lng);
      Proportion(b.lng - a.lng, b.lat - a.lat, p.lng - a.lng, p.lat - a.lat, t);
    } else {
      t := Ratio(a.lat, b.lat, p.lat);
      Proportion(b.lat - a.lat, b.lng - a.lng, p.lat - a.lat, p.lng - a.lng, t);
    }
  }

  /** With orientation zero, the coded box test is membership of the closed segment. */
  lemma OnSegmentIff(a: Point, b: Point, p: Point)
    requires Orientation(a, b, p) == 0
    ensures OnSegment(a, b, p) <==> On(p, a, b)
  {
    if On(p, a, b) {
      OnIsInBox(p, a, b);
    }
    if OnSegment(a, b, p) {
      if a == b {
        assert p == Along(a, b, 0.0);
      } else {
        var t := CollinearIsAlong(a, b, p);
      }
    }
  }

  lemma EndsAreOn(a: Point, b: Point)
    ensures On(a, a, b) && On(b, a, b)
  {
    assert a == Along(a, b, 0.0);
    assert b == Along(a, b, 1.0);
  }

  lemma ThreeTerm(ex: real, ey: real, fx: real, fy: real, gx: real, gy: real)
    ensures (ex * gy - ey * gx) * fx + (gx * fy - gy * fx) * ex == (ex * fy - ey * fx) * gx
    ensures (ex * gy - ey * gx) * fy + (gx * fy - gy * fx) * ey == (ex * fy - ey * fx) * gy
  {
  }

  lemma Crossing(s: real, u: real) returns (t: real)
    requires Sign(s) != Sign(u)
    ensures s != u && 0.0 <= t <= 1.0 && t * (s - u) == s
  {
    t := s / (s - u);
  }

  /** Cramer's rule on one coordinate: the two parametrised lines agree there. */
  lemma SameCoordinate(det: real, s: real, v: real, tau: real, sigma: real, e: real, f: real, g: real)
    requires det != 0.0 && tau * det == -s && sigma * det == v
    requires s * f + v * e == det * g
    ensures Times(sigma, e) == g + Times(tau, f)
  {
  }

  /** The four orientations in terms of the two directions and the offset between the starts. */
  lemma CrossTerms(a: Point, b: Point, c: Point, d: Point)
    ensures
      var ex, ey := b.lng - a.lng, b.lat - a.lat;
      var fx, fy := d.lng - c.lng, d.lat - c.lat;
      var gx, gy := c.lng - a.lng, c.lat - a.lat;
      var det := ex * fy - ey * fx;
      && Cross(a, b, c) == ex * gy - ey * gx
      && Cross(a, b, d) == Cross(a, b, c) + det
      && Cross(c, d, a) == gx * fy - gy * fx
      && Cross(c, d, b) == Cross(c, d, a) - det
  {
  }

  lemma SamePoint(a: Point, b: Point, c: Point, d: Point, sigma: real, tau: real)
    requires Times(sigma, b.lng - a.lng) == c.lng - a.lng + Times(tau, d.lng - c.lng)
    requires Times(sigma, b.lat - a.lat) == c.lat - a.lat + Times(tau, d.lat - c.lat)
    requires 0.0 <= sigma <= 1.0 && 0.0 <= tau <= 1.0
    ensures Meet(a, b, c, d)
  {
    var p := Along(a, b, sigma);
    assert p == Along(c, d, tau);
    assert On(p, a, b) && On(p, c, d);
  }

  /** When each segment's ends lie on different sides of the other's line, the two
      fractions name one common point. */
  lemma ProperCrossing(a: Point, b: Point, c: Point, d: Point)
    requires Orientation(a, b, c) != Orientation(a, b, d)
    requires Orientation(c, d, a) != Orientation(c, d, b)
    ensures Meet(a, b, c, d)
  {
    var s, v := Cross(a, b, c), Cross(c, d, a);
    var tau := Crossing(s, Cross(a, b, d));
    var sigma := Crossing(v, Cross(c, d, b));
    CrossTerms(a, b, c, d);
    var ex, ey := b.lng - a.lng, b.lat - a.lat;
    var fx, fy := d.lng - c.lng, d.lat - c.lat;
    var gx, gy := c.lng - a.lng, c.lat - a.lat;
    var det := ex * fy - ey * fx;
    ThreeTerm(ex, ey, fx, fy, gx, gy);
    assert tau * (-det) == s && sigma * det == v;
    SameCoordinate(det, s, v, tau, sigma, ex, fx, gx);
    SameCoordinate(det, s, v, tau, sigma, ey, fy, gy);
    SamePoint(a, b, c, d, sigma, tau);
  }

  lemma PositiveMix(s: real, u: real, t: real)
    requires 0.0 <= t <= 1.0 && s > 0.0 && u > 0.0
    ensures (1.0 - t) * s + t * u > 0.0
  {
    NonNegativeProduct(1.0 - t, s);
    if t > 0.0 {
      assert t * u > 0.0;
    }
  }

  lemma MixOfSameSign(s: real, u: real, t: real)
    requires 0.0 <= t <= 1.0 && (1.0 - t) * s + t * u == 0.0
    ensures Sign(s) == Sign(u) ==> s == 0.0 && u == 0.0
  {
    if s > 0.0 && u > 0.0 {
      PositiveMix(s, u, t);
    }
    if s < 0.0 && u < 0.0 {
      PositiveMix(-s, -u, t);
    }
  }

  lemma AlongAlong(a: Point, b: Point, tc: real, td: real, z: real)
    ensures Along(Along(a, b, tc), Along(a, b, td), z) == Along(a, b, tc + Times(z, td - tc))
  {
  }

  lemma AlongIsInjective(a: Point, b: Point, x: real, y: real)
    requires a != b && Along(a, b, x) == Along(a, b, y)
    ensures x == y
  {
  }

  /** Two overlapping segments of one line: an end of one lies on the other. */
  lemma CollinearOverlap(a: Point, b: Point, c: Point, d: Point)
    requires a != b && Cross(a, b, c) == 0.0 && Cross(a, b, d) == 0.0
    requires Meet(a, b, c, d)
    ensures On(c, a, b) || On(d, a, b) || On(a, c, d)
  {
    var p :| On(p, a, b) && On(p, c, d);
    var x: real :| 0.0 <= x <= 1.0 && p == Along(a, b, x);
    var y: real :| 0.0 <= y <= 1.0 && p == Along(c, d, y);
    var tc := CollinearIsAlong(a, b, c);
    var td := CollinearIsAlong(a, b, d);
    AlongAlong(a, b, tc, td, y);
    AlongIsInjective(a, b, x, tc + Times(y, td - tc));
    Between(tc, td, y);
    if !(0.0 <= tc <= 1.0) && !(0.0 <= td <= 1.0) {
      var z := Ratio(tc, td, 0.0);
      AlongAlong(a, b, tc, td, z);
      assert a == Along(a, b, 0.0) == Along(c, d, z);
    }
  }

  /** The sign test decides exactly whether two closed segments have a common point. */
  lemma IntersectsIffMeet(a: Point, b: Point, c: Point, d: Point)
    ensures Intersects(a, b, c, d) <==> Meet(a, b, c, d)
  {
    if Intersects(a, b, c, d) {
      IntersectsMeans(a, b, c, d);
    }
    if Meet(a, b, c, d) {
      MeetIsDetected(a, b, c, d);
    }
  }

  lemma IntersectsMeans(a: Point, b: Point, c: Point, d: Point)
    requires Intersects(a, b, c, d)
    ensures Meet(a, b, c, d)
  {
    EndsAreOn(a, b);
    EndsAreOn(c, d);
    if Orientation(a, b, c) == 0 && OnSegment(a, b, c) {
      OnSegmentIff(a, b, c);
    } else if Orientation(a, b, d) == 0 && OnSegment(a, b, d) {
      OnSegmentIff(a, b, d);
    } else if Orientation(c, d, a) == 0 && OnSegment(c, d, a) {
      OnSegmentIff(c, d, a);
    } else if Orientation(c, d, b) == 0 && OnSegment(c, d, b) {
      OnSegmentIff(c, d, b);
    } else {
      ProperCrossing(a, b, c, d);
    }
  }

  /** The ends of a segment with a point on the line ab are on different sides of it,
      or both on it. */
  lemma SidesOfAMeeting(a: Point, b: Point, c: Point, d: Point, p: Point)
    requires On(p, a, b) && On(p, c, d)
    ensures Orientation(a, b, c) != Orientation(a, b, d) || (Cross(a, b, c) == 0.0 && Cross(a, b, d) == 0.0)
  {
    var y: real :| 0.0 <= y <= 1.0 && p == Along(c, d, y);
    OnIsInBox(p, a, b);
    CrossIsAffine(a, b, c, d, y);
    MixOfSameSign(Cross(a, b, c), Cross(a, b, d), y);
  }

  lemma MeetIsDetected(a: Point, b: Point, c: Point, d: Point)
    requires Meet(a, b, c, d)
    ensures Intersects(a, b, c, d)
  {
    var p :| On(p, a, b) && On(p, c, d);
    SidesOfAMeeting(a, b, c, d, p);
    SidesOfAMeeting(c, d, a, b, p);
    if Cross(a, b, c) == 0.0 && Cross(a, b, d) == 0.0 {
      FlatMeetIsDetected(a, b, c, d);
    } else if Cross(c, d, a) == 0.0 && Cross(c, d, b) == 0.0 {
      assert Meet(c, d, a, b);
      FlatMeetIsDetected(c, d, a, b);
    }
  }

  lemma FlatMeetIsDetected(a: Point, b: Point, c: Point, d: Point)
    requires Meet(a, b, c, d)
    requires Cross(a, b, c) == 0.0 && Cross(a, b, d) == 0.0
    ensures Intersects(a, b, c, d)
  {
    if a == b {
      var p :| On(p, a, b) && On(p, c, d);
      assert p == a;
    } else {
      CollinearOverlap(a, b, c, d);
    }
    if On(c, a, b) {
      OnSegmentIff(a, b, c);
    } else if On(d, a, b) {
      OnSegmentIff(a, b, d);
    } else {
      assert On(a, c, d);
      OnIsInBox(a, c, d);
      OnSegmentIff(c, d, a);
    }
  }
}
