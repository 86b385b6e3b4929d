/** Geometry of the map page: normalized points, the closure gesture that ends
    polygon authoring, the vertex-mean centroid used for check-in, and the
    area records rebuilt from the areas collection. */
module Geofence {
  import opened Wrappers

  /** A position as a fraction of the map's width (x) and height (y). */
  datatype Point = Point(x: real, y: real)

  datatype Axis = Horizontal | Vertical

  function Coord(p: Point, a: Axis): real {
    match a
    case Horizontal => p.x
    case Vertical => p.y
  }

  /** The nominal map width the click tolerance is measured against. */
  const ReferenceWidth: real := 1200.0

  /** Tolerance of the closure gesture: ten pixels of the reference width. */
  const ClickRadius: real := 10.0 / ReferenceWidth

  function DistSq(p: Point, q: Point): (d: real)
    ensures d >= 0.0
  {
    (p.x - q.x) * (p.x - q.x) + (p.y - q.y) * (p.y - q.y)
  }

  /** A click closes the draft when the draft already holds more than two
      points and the click lies strictly within ClickRadius of the first one.
      Distances are compared squared. */
  predicate Closes(draft: seq<Point>, pos: Point) {
    |draft| > 2 && DistSq(pos, draft[0]) < ClickRadius * ClickRadius
  }

  /** Comparing squared distances agrees with comparing the Euclidean distance
      itself (`dist` is any non-negative number whose square is DistSq). */
  lemma ClosesIffWithinRadius(draft: seq<Point>, pos: Point, dist: real)
    requires |draft| > 0
    requires dist >= 0.0 && dist * dist == DistSq(pos, draft[0])
    ensures Closes(draft, pos) <==> |draft| > 2 && dist < ClickRadius
  {
    SquaresOrdered(dist, ClickRadius);
  }

  lemma SquaresOrdered(d: real, r: real)
    requires d >= 0.0 && r > 0.0
    ensures d * d < r * r <==> d < r
  {
    if d < r {
      var a, b := r + d, r - d;
      ProductSign(a, b);
      assert a * b == r * r - d * d;
    } else {
      var a, b := d + r, d - r;
      ProductSign(a, b);
      assert a * b == d * d - r * r;
    }
  }

  lemma ProductSign(a: real, b: real)
    requires a > 0.0 && b >= 0.0
    ensures a * b >= 0.0 && (b > 0.0 ==> a * b > 0.0)
  {
  }

  /** Below three points the closure test never fires, however close the
      click is to the first point. */
  lemma ShortDraftNeverCloses(draft: seq<Point>, pos: Point)
    requires |draft| <= 2
    ensures !Closes(draft, pos)
  {
  }

  /** The closing click of the worked scenario: a triangle and a click next
      to its first vertex. */
  lemma TriangleScenarioCloses()
    ensures Closes([Point(0.1, 0.1), Point(0.5, 0.1), Point(0.5, 0.5)], Point(0.105, 0.105))
  {
  }

  /** The accumulator of the centroid's fold: vertices summed left to right,
      starting from the origin. */
  function VertexSum(ps: seq<Point>): Point {
    if ps == [] then Point(0.0, 0.0)
    else
      var s := VertexSum(ps[..|ps| - 1]);
      Point(s.x + ps[|ps| - 1].x, s.y + ps[|ps| - 1].y)
  }

  function MinAlong(ps: seq<Point>, a: Axis): real
    requires |ps| > 0
  {
    if |ps| == 1 then Coord(ps[0], a)
    else
      var m := MinAlong(ps[..|ps| - 1], a);
      var c := Coord(ps[|ps| - 1], a);
      if c < m then c else m
  }

  function MaxAlong(ps: seq<Point>, a: Axis): real
    requires |ps| > 0
  {
    if |ps| == 1 then Coord(ps[0], a)
    else
      var m := MaxAlong(ps[..|ps| - 1], a);
      var c := Coord(ps[|ps| - 1], a);
      if c > m then c else m
  }

  lemma {:induction false} MinMaxAreVertices(ps: seq<Point>, a: Axis)
    requires |ps| > 0
    ensures exists i :: 0 <= i < |ps| && MinAlong(ps, a) == Coord(ps[i], a)
    ensures exists j :: 0 <= j < |ps| && MaxAlong(ps, a) == Coord(ps[j], a)
    ensures forall k :: 0 <= k < |ps| ==> MinAlong(ps, a) <= Coord(ps[k], a) <= MaxAlong(ps, a)
  {
    if |ps| > 1 {
      var pre := ps[..|ps| - 1];
      MinMaxAreVertices(pre, a);
      var i :| 0 <= i < |pre| && MinAlong(pre, a) == Coord(pre[i], a);
      var j :| 0 <= j < |pre| && MaxAlong(pre, a) == Coord(pre[j], a);
      if Coord(ps[|ps| - 1], a) < MinAlong(pre, a) {
        assert MinAlong(ps, a) == Coord(ps[|ps| - 1], a);
      } else {
        assert MinAlong(ps, a) == Coord(ps[i], a);
      }
      if Coord(ps[|ps| - 1], a) > MaxAlong(pre, a) {
        assert MaxAlong(ps, a) == Coord(ps[|ps| - 1], a);
      } else {
        assert MaxAlong(ps, a) == Coord(ps[j], a);
      }
      forall k | 0 <= k < |ps|
        ensures MinAlong(ps, a) <= Coord(ps[k], a) <= MaxAlong(ps, a)
      {
        if k < |ps| - 1 {
          assert ps[k] == pre[k];
        }
      }
    } else {
      assert MinAlong(ps, a) == Coord(ps[0], a) == MaxAlong(ps, a);
    }
  }

  lemma VertexSumStep(ps: seq<Point>, a: Axis)
    requires |ps| > 0
    ensures Coord(VertexSum(ps), a) == Coord(VertexSum(ps[..|ps| - 1]), a) + Coord(ps[|ps| - 1], a)
    ensures |ps| == 1 ==> Coord(VertexSum(ps), a) == Coord(ps[0], a)
  {
    match a
    case Horizontal =>
    case Vertical =>
  }

  /** n copies of v added up; keeps the bounds below free of multiplication. */
  function Repeat(n: nat, v: real): real {
    if n == 0 then 0.0 else Repeat(n - 1, v) + v
  }

  lemma {:induction false} RepeatIsProduct(n: nat, v: real)
    ensures Repeat(n, v) == (n as real) * v
  {
    if n > 0 {
      RepeatIsProduct(n - 1, v);
      assert (n as real) * v == ((n - 1) as real) * v + v;
    }
  }

  lemma {:induction false} RepeatMonotonic(n: nat, u: real, v: real)
    requires u <= v
    ensures Repeat(n, u) <= Repeat(n, v)
  {
    if n > 0 {
      RepeatMonotonic(n - 1, u, v);
    }
  }

  /** The coordinate sum lies between |ps| copies of the smallest and |ps|
      copies of the largest coordinate along that axis. */
  lemma {:induction false} SumBounds(ps: seq<Point>, a: Axis)
    requires |ps| > 0
    ensures Repeat(|ps|, MinAlong(ps, a)) <= Coord(VertexSum(ps), a) <= Repeat(|ps|, MaxAlong(ps, a))
  {
    VertexSumStep(ps, a);
    if |ps| > 1 {
      var pre := ps[..|ps| - 1];
      SumBounds(pre, a);
      RepeatMonotonic(|pre|, MinAlong(ps, a), MinAlong(pre, a));
      RepeatMonotonic(|pre|, MaxAlong(pre, a), MaxAlong(ps, a));
    }
  }

  /** The check-in position: the arithmetic mean of the vertices (not the
      area-weighted centroid). Each coordinate lies between that axis's
      smallest and largest vertex coordinate. */
  function Centroid(ps: seq<Point>): (c: Point)
    requires |ps| > 0
    ensures forall a: Axis :: MinAlong(ps, a) <= Coord(c, a) <= MaxAlong(ps, a)
    ensures forall a: Axis :: Coord(c, a) == WSum(1.0 / (|ps| as real), ps, a)
  {
    var s := VertexSum(ps);
    var n := |ps| as real;
    var c := Point(s.x / n, s.y / n);
    CentroidBounds(ps, c);
    EqualWeightsMean(ps, c);
    c
  }

  lemma CentroidBounds(ps: seq<Point>, c: Point)
    requires |ps| > 0
    requires c == Point(VertexSum(ps).x / (|ps| as real), VertexSum(ps).y / (|ps| as real))
    ensures forall a: Axis :: MinAlong(ps, a) <= Coord(c, a) <= MaxAlong(ps, a)
  {
    forall a: Axis
      ensures MinAlong(ps, a) <= Coord(c, a) <= MaxAlong(ps, a)
    {
      MeanAlong(ps, a);
      assert Coord(c, a) == Coord(VertexSum(ps), a) / (|ps| as real) by {
        match a
        case Horizontal =>
        case Vertical =>
      }
    }
  }

  lemma MeanAlong(ps: seq<Point>, a: Axis)
    requires |ps| > 0
    ensures MinAlong(ps, a) <= Coord(VertexSum(ps), a) / (|ps| as real) <= MaxAlong(ps, a)
  {
    SumBounds(ps, a);
    MeanBounds(Coord(VertexSum(ps), a), |ps|, MinAlong(ps, a), MaxAlong(ps, a));
  }

  /** A sum between n copies of lo and n copies of hi has its mean between lo and hi. */
  lemma MeanBounds(s: real, n: nat, lo: real, hi: real)
    requires n > 0 && Repeat(n, lo) <= s <= Repeat(n, hi)
    ensures lo <= s / (n as real) <= hi
  {
    RepeatIsProduct(n, lo);
    RepeatIsProduct(n, hi);
    var m := n as real;
    var q := s / m;
    assert (q - lo) * m == s - m * lo;
    assert (hi - q) * m == m * hi - s;
  }

  /** The weighted coordinate sum with the same weight `w` on every vertex. */
  function WSum(w: real, ps: seq<Point>, a: Axis): real {
    if ps == [] then 0.0 else WSum(w, ps[..|ps| - 1], a) + w * Coord(ps[|ps| - 1], a)
  }

  /** A common weight factors out of the coordinate sum. */
  lemma {:induction false} WSumScales(w: real, ps: seq<Point>, a: Axis)
    ensures WSum(w, ps, a) == w * Coord(VertexSum(ps), a)
  {
    if ps != [] {
      var pre, last := ps[..|ps| - 1], Coord(ps[|ps| - 1], a);
      WSumScales(w, pre, a);
      VertexSumStep(ps, a);
      var s := Coord(VertexSum(pre), a);
      assert w * s + w * last == w * (s + last);
    }
  }

  /** The vertex mean is the convex combination of the vertices in which every
      vertex has weight 1/n, weights that are positive and sum to 1; so it lies
      in the convex hull of the vertices. */
  lemma EqualWeightsMean(ps: seq<Point>, c: Point)
    requires |ps| > 0
    requires c == Point(VertexSum(ps).x / (|ps| as real), VertexSum(ps).y / (|ps| as real))
    ensures forall a: Axis :: Coord(c, a) == WSum(1.0 / (|ps| as real), ps, a)
    ensures 1.0 / (|ps| as real) > 0.0 && Repeat(|ps|, 1.0 / (|ps| as real)) == 1.0
  {
    forall a: Axis
      ensures Coord(c, a) == WSum(1.0 / (|ps| as real), ps, a)
    {
      EqualWeightsAlong(ps, a);
      assert Coord(c, a) == Coord(VertexSum(ps), a) / (|ps| as real) by {
        match a
        case Horizontal =>
        case Vertical =>
      }
    }
    WeightsSumToOne(|ps|);
  }

  lemma EqualWeightsAlong(ps: seq<Point>, a: Axis)
    ensures |ps| > 0 ==> Coord(VertexSum(ps), a) / (|ps| as real) == WSum(1.0 / (|ps| as real), ps, a)
  {
    if |ps| > 0 {
      WSumScales(1.0 / (|ps| as real), ps, a);
      DivIsScale(Coord(VertexSum(ps), a), |ps| as real);
    }
  }

  lemma DivIsScale(s: real, n: real)
    requires n > 0.0
    ensures s / n == (1.0 / n) * s
  {
  }

  /** n copies of 1/n add up to 1. */
  lemma WeightsSumToOne(n: nat)
    requires n > 0
    ensures 1.0 / (n as real) > 0.0 && Repeat(n, 1.0 / (n as real)) == 1.0
  {
    RepeatIsProduct(n, 1.0 / (n as real));
  }

  /** The worked example: the unit square's vertex mean is its middle. */
  lemma UnitSquareCentroid()
    ensures Centroid([Point(0.0, 0.0), Point(1.0, 0.0), Point(1.0, 1.0), Point(0.0, 1.0)]) == Point(0.5, 0.5)
  {
    var sq := [Point(0.0, 0.0), Point(1.0, 0.0), Point(1.0, 1.0), Point(0.0, 1.0)];
    assert VertexSum(sq[..1]) == Point(0.0, 0.0);
    assert VertexSum(sq[..2]) == Point(1.0, 0.0) by { assert sq[..2][..1] == sq[..1]; }
    assert VertexSum(sq[..3]) == Point(2.0, 1.0) by { assert sq[..3][..2] == sq[..2]; }
    assert VertexSum(sq) == Point(2.0, 2.0) by { assert sq[..3] == sq[..|sq| - 1]; }
  }

  type AreaId = string

  /** An area document as stored: its name and, when present, its polygon. */
  datatype AreaDoc = AreaDoc(name: string, polygon: Option<seq<Point>>)

  /** An area as the page holds it: the document's fields plus its id. */
  datatype Area = Area(id: AreaId, name: string, polygon: Option<seq<Point>>)

  function AreaOf(id: AreaId, doc: AreaDoc): Area {
    Area(id, doc.name, doc.polygon)
  }

  /** `order` lists every key of `m` exactly once. */
  predicate EnumeratesKeys<K, V>(order: seq<K>, m: map<K, V>) {
    (forall i :: 0 <= i < |order| ==> order[i] in m) &&
    (forall k :: k in m ==> k in order) &&
    (forall i, j :: 0 <= i < j < |order| ==> order[i] != order[j])
  }

  /** The area map built from a snapshot, one entry per document id; for a
      repeated id the later document wins. */
  function AreasOf(docs: seq<(AreaId, AreaDoc)>): map<AreaId, Area> {
    if docs == [] then map[]
    else
      var last := docs[|docs| - 1];
      AreasOf(docs[..|docs| - 1])[last.0 := AreaOf(last.0, last.1)]
  }

  /** The ids of a snapshot in the order a JavaScript object first receives
      them as keys. */
  function KeyOrder(docs: seq<(AreaId, AreaDoc)>): seq<AreaId> {
    if docs == [] then []
    else
      var pre := KeyOrder(docs[..|docs| - 1]);
      var id := docs[|docs| - 1].0;
      if id in pre then pre else pre + [id]
  }

  /** The rebuilt map holds exactly the ids of the snapshot. */
  lemma {:induction false} AreasOfKeys(docs: seq<(AreaId, AreaDoc)>)
    ensures forall k :: k in AreasOf(docs) <==> exists i :: 0 <= i < |docs| && docs[i].0 == k
  {
    if docs != [] {
      var pre := docs[..|docs| - 1];
      AreasOfKeys(pre);
      forall k
        ensures k in AreasOf(docs) <==> exists i :: 0 <= i < |docs| && docs[i].0 == k
      {
        if k in AreasOf(pre) {
          var i :| 0 <= i < |pre| && pre[i].0 == k;
          assert docs[i].0 == k;
        }
        if exists i :: 0 <= i < |docs| && docs[i].0 == k {
          var i :| 0 <= i < |docs| && docs[i].0 == k;
          if i < |pre| {
            assert pre[i].0 == k;
          }
        }
      }
    }
  }

  /** Each id maps to the area of the last document carrying it. */
  lemma {:induction false} AreasOfLastWins(docs: seq<(AreaId, AreaDoc)>, i: nat)
    requires i < |docs|
    requires forall j :: i < j < |docs| ==> docs[j].0 != docs[i].0
    ensures docs[i].0 in AreasOf(docs) && AreasOf(docs)[docs[i].0] == AreaOf(docs[i].0, docs[i].1)
  {
    var pre := docs[..|docs| - 1];
    if i < |pre| {
      assert docs[i] == pre[i];
      forall j | i < j < |pre| ensures pre[j].0 != pre[i].0 {
        assert pre[j] == docs[j];
      }
      AreasOfLastWins(pre, i);
    }
  }

  /** The key order lists every key of the rebuilt map exactly once. */
  lemma {:induction false} KeyOrderEnumerates(docs: seq<(AreaId, AreaDoc)>)
    ensures EnumeratesKeys(KeyOrder(docs), AreasOf(docs))
  {
    if docs != [] {
      var pre := docs[..|docs| - 1];
      KeyOrderEnumerates(pre);
      var id := docs[|docs| - 1].0;
      var o := KeyOrder(pre);
      if id !in o {
        assert KeyOrder(docs) == o + [id];
        forall i, j | 0 <= i < j < |o + [id]| ensures (o + [id])[i] != (o + [id])[j] {
          if j < |o| {
            assert (o + [id])[i] == o[i] && (o + [id])[j] == o[j];
          } else {
            assert (o + [id])[i] == o[i];
          }
        }
      }
    }
  }

  /** The areas snapshot callback: a fresh map filled document by document,
      and the order in which its keys appear. */
  method BuildAreas(docs: seq<(AreaId, AreaDoc)>) returns (areas: map<AreaId, Area>, order: seq<AreaId>)
    ensures areas == AreasOf(docs) && order == KeyOrder(docs)
    ensures EnumeratesKeys(order, areas)
  {
    areas, order := map[], [];
    for i := 0 to |docs|
      invariant areas == AreasOf(docs[..i]) && order == KeyOrder(docs[..i])
    {
      assert docs[..i + 1][..i] == docs[..i];
      var (id, doc) := docs[i];
      areas := areas[id := AreaOf(id, doc)];
      if id !in order {
        order := order + [id];
      }
    }
    assert docs[..|docs|] == docs;
    KeyOrderEnumerates(docs);
  }
}
