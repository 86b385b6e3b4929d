/** The map component: pointer input to normalized coordinates, normalized
    coordinates to canvas pixels, the canvas commands a redraw issues, and the
    user markers laid over the map. */
module MapView {
  import opened Wrappers
  import opened Geofence
  import opened Presence

  /** The canvas's bounding rectangle in client coordinates. */
  datatype Rect = Rect(left: real, top: real, width: real, height: real)

  /** The canvas drawing buffer's size in pixels, copied from the image. */
  datatype Size = Size(width: nat, height: nat)

  /** Where a normalized point lies on the client rectangle `r`. */
  function ToClient(p: Point, r: Rect): (real, real) {
    (r.left + p.x * r.width, r.top + p.y * r.height)
  }

  /** A click on the canvas: nothing outside dev mode or without a canvas;
      otherwise the click's offset from the rectangle's corner as a fraction
      of its size, not clamped to the unit square. */
  function NormalizeClick(isDevMode: bool, canvas: Option<Rect>, clientX: real, clientY: real): (pos: Option<Point>)
    requires canvas.Some? ==> canvas.value.width != 0.0 && canvas.value.height != 0.0
    ensures pos.Some? <==> isDevMode && canvas.Some?
    ensures pos.Some? ==> ToClient(pos.value, canvas.value) == (clientX, clientY)
  {
    if !isDevMode || canvas.None? then None
    else
      var r := canvas.value;
      var pos := Point((clientX - r.left) / r.width, (clientY - r.top) / r.height);
      assert pos.x * r.width == clientX - r.left;
      assert pos.y * r.height == clientY - r.top;
      assert ToClient(pos, r).0 == clientX && ToClient(pos, r).1 == clientY;
      Some(pos)
  }

  /** A click left of or above the canvas gives a negative coordinate, one
      right of or below it a coordinate above 1: nothing is clamped. */
  lemma NormalizeDoesNotClamp(r: Rect, clientX: real, clientY: real)
    requires r.width > 0.0 && r.height > 0.0
    ensures var p := NormalizeClick(true, Some(r), clientX, clientY).value;
      (clientX < r.left ==> p.x < 0.0) && (clientX > r.left + r.width ==> p.x > 1.0) &&
      (clientY < r.top ==> p.y < 0.0) && (clientY > r.top + r.height ==> p.y > 1.0)
  {
    var p := NormalizeClick(true, Some(r), clientX, clientY).value;
    assert p.x * r.width == clientX - r.left && p.y * r.height == clientY - r.top;
    if clientX > r.left + r.width {
      assert p.x * r.width > 1.0 * r.width;
    }
    if clientY > r.top + r.height {
      assert p.y * r.height > 1.0 * r.height;
    }
  }

  function Px(p: Point, size: Size): real {
    p.x * (size.width as real)
  }

  function Py(p: Point, size: Size): real {
    p.y * (size.height as real)
  }

  /** Scaling a normalized click back to pixels of a canvas whose buffer is
      as large as its client rectangle, and adding the rectangle's corner,
      gives the client position that was clicked. */
  lemma PixelRoundTrip(r: Rect, size: Size, clientX: real, clientY: real)
    requires size.width > 0 && size.height > 0
    requires r.width == size.width as real && r.height == size.height as real
    ensures var p := NormalizeClick(true, Some(r), clientX, clientY).value;
      r.left + Px(p, size) == clientX && r.top + Py(p, size) == clientY
  {
  }

  /** Radius of the dot drawn on each vertex. */
  const VertexRadius: real := 5.0

  /** The canvas calls the map makes; colours and line widths are not modelled. */
  datatype DrawCmd =
    | ClearRect(width: real, height: real)
    | BeginPath
    | MoveTo(x: real, y: real)
    | LineTo(x: real, y: real)
    | ClosePath
    | Fill
    | Stroke
    | Arc(x: real, y: real, radius: real)

  /** One line segment to each point, in order. */
  function LinesTo(ps: seq<Point>, size: Size): (cmds: seq<DrawCmd>)
    ensures |cmds| == |ps|
    ensures forall k :: 0 <= k < |cmds| ==> cmds[k] == LineTo(Px(ps[k], size), Py(ps[k], size))
  {
    if ps == [] then []
    else LinesTo(ps[..|ps| - 1], size) + [LineTo(Px(ps[|ps| - 1], size), Py(ps[|ps| - 1], size))]
  }

  function Dot(p: Point, size: Size): seq<DrawCmd> {
    [BeginPath, Arc(Px(p, size), Py(p, size), VertexRadius), Fill]
  }

  /** A filled dot on each point, in order. */
  function VertexDots(ps: seq<Point>, size: Size): (cmds: seq<DrawCmd>)
    ensures |cmds| == 3 * |ps|
    ensures forall c :: c in cmds ==> c == BeginPath || c == Fill || c.Arc?
  {
    if ps == [] then []
    else VertexDots(ps[..|ps| - 1], size) + Dot(ps[|ps| - 1], size)
  }

  /** Closing and filling the path, done only for more than two points. */
  function Outline(n: nat): seq<DrawCmd> {
    if n > 2 then [ClosePath, Fill] else []
  }

  /** The open path through the points: a move to the first, a line to each other. */
  function PolygonPath(ps: seq<Point>, size: Size): seq<DrawCmd>
    requires |ps| > 0
  {
    [BeginPath, MoveTo(Px(ps[0], size), Py(ps[0], size))] + LinesTo(ps[1..], size)
  }

  /** What drawing one polygon issues. */
  function PolygonCommands(ps: seq<Point>, size: Size): seq<DrawCmd> {
    if |ps| < 1 then []
    else PolygonPath(ps, size) + Outline(|ps|) + [Stroke] + VertexDots(ps, size)
  }

  /** The dots a command list draws, in order. */
  function Arcs(cmds: seq<DrawCmd>): seq<DrawCmd> {
    if cmds == [] then []
    else Arcs(cmds[..|cmds| - 1]) + (if cmds[|cmds| - 1].Arc? then [cmds[|cmds| - 1]] else [])
  }

  /** How many outlines a command list strokes. */
  function StrokeCount(cmds: seq<DrawCmd>): nat {
    if cmds == [] then 0
    else StrokeCount(cmds[..|cmds| - 1]) + (if cmds[|cmds| - 1] == Stroke then 1 else 0)
  }

  lemma {:induction false} ArcsAppend(a: seq<DrawCmd>, b: seq<DrawCmd>)
    ensures Arcs(a + b) == Arcs(a) + Arcs(b)
    decreases |b|
  {
    if b != [] {
      assert (a + b)[..|a + b| - 1] == a + b[..|b| - 1];
      ArcsAppend(a, b[..|b| - 1]);
    } else {
      assert a + b == a;
    }
  }

  lemma {:induction false} StrokeCountAppend(a: seq<DrawCmd>, b: seq<DrawCmd>)
    ensures StrokeCount(a + b) == StrokeCount(a) + StrokeCount(b)
    decreases |b|
  {
    if b != [] {
      assert (a + b)[..|a + b| - 1] == a + b[..|b| - 1];
      StrokeCountAppend(a, b[..|b| - 1]);
    } else {
      assert a + b == a;
    }
  }

  lemma {:induction false} NoArcs(cmds: seq<DrawCmd>)
    requires forall c :: c in cmds ==> !c.Arc?
    ensures Arcs(cmds) == []
  {
    if cmds != [] {
      NoArcs(cmds[..|cmds| - 1]);
    }
  }

  lemma {:induction false} NoStrokes(cmds: seq<DrawCmd>)
    requires Stroke !in cmds
    ensures StrokeCount(cmds) == 0
  {
    if cmds != [] {
      NoStrokes(cmds[..|cmds| - 1]);
    }
  }

  /** The dot of each vertex, at its pixel position, in vertex order. */
  function DotsAt(ps: seq<Point>, size: Size): (arcs: seq<DrawCmd>) {
    seq(|ps|, i requires 0 <= i < |ps| => Arc(Px(ps[i], size), Py(ps[i], size), VertexRadius))
  }

  lemma {:induction false} VertexDotsArcs(ps: seq<Point>, size: Size)
    ensures Arcs(VertexDots(ps, size)) == DotsAt(ps, size)
  {
    if ps != [] {
      var pre, p := ps[..|ps| - 1], ps[|ps| - 1];
      VertexDotsArcs(pre, size);
      ArcsAppend(VertexDots(pre, size), Dot(p, size));
      DotArcs(p, size);
      DotsAtStep(ps, size);
    }
  }

  lemma DotArcs(p: Point, size: Size)
    ensures Arcs(Dot(p, size)) == [Arc(Px(p, size), Py(p, size), VertexRadius)]
  {
    var d := Dot(p, size);
    assert d[..2][..1] == [BeginPath] && d[..2] == [BeginPath, d[1]];
    assert Arcs([BeginPath]) == [] by {
      assert [BeginPath][..0] == [];
    }
  }

  lemma DotsAtStep(ps: seq<Point>, size: Size)
    requires ps != []
    ensures DotsAt(ps, size) ==
      DotsAt(ps[..|ps| - 1], size) + [Arc(Px(ps[|ps| - 1], size), Py(ps[|ps| - 1], size), VertexRadius)]
  {
  }

  /** Exactly one dot per vertex, at (x * width, y * height), in vertex order. */
  lemma PolygonDots(ps: seq<Point>, size: Size)
    ensures Arcs(PolygonCommands(ps, size)) == DotsAt(ps, size)
  {
    if |ps| > 0 {
      var head := PolygonPath(ps, size) + Outline(|ps|) + [Stroke];
      PathIsOpen(ps, size);
      assert forall c :: c in head ==> !c.Arc?;
      NoArcs(head);
      ArcsAppend(head, VertexDots(ps, size));
      VertexDotsArcs(ps, size);
    }
  }

  /** The path neither closes, fills nor strokes. */
  lemma PathIsOpen(ps: seq<Point>, size: Size)
    requires |ps| > 0
    ensures Fill !in PolygonPath(ps, size) && ClosePath !in PolygonPath(ps, size)
    ensures Stroke !in PolygonPath(ps, size)
    ensures forall c :: c in PolygonPath(ps, size) ==> c.BeginPath? || c.MoveTo? || c.LineTo?
  {
    var lines := LinesTo(ps[1..], size);
    assert forall c :: c in lines ==> c.LineTo?;
  }

  lemma DotsAreOpen(ps: seq<Point>, size: Size)
    ensures ClosePath !in VertexDots(ps, size) && Stroke !in VertexDots(ps, size)
  {
  }

  /** A non-empty polygon strokes exactly once. */
  lemma PolygonStrokedOnce(ps: seq<Point>, size: Size)
    requires |ps| > 0
    ensures StrokeCount(PolygonCommands(ps, size)) == 1
  {
    var before := PolygonPath(ps, size) + Outline(|ps|);
    var dots := VertexDots(ps, size);
    PathIsOpen(ps, size);
    DotsAreOpen(ps, size);
    assert Stroke !in before;
    NoStrokes(before);
    NoStrokes(dots);
    StrokeCountAppend(before, [Stroke]);
    StrokeCountAppend(before + [Stroke], dots);
    assert StrokeCount([Stroke]) == 1 by {
      assert [Stroke][..0] == [];
    }
  }

  /** An empty point list draws nothing; otherwise a polygon is stroked once,
      and it is closed, and filled before it is stroked, exactly when it has
      more than two points. */
  lemma PolygonOutline(ps: seq<Point>, size: Size)
    ensures |ps| == 0 ==> PolygonCommands(ps, size) == []
    ensures |ps| > 0 ==> StrokeCount(PolygonCommands(ps, size)) == 1
    ensures ClosePath in PolygonCommands(ps, size) <==> |ps| > 2
    ensures |ps| > 0 ==>
      exists k :: 0 <= k < |PolygonCommands(ps, size)| && PolygonCommands(ps, size)[k] == Stroke &&
        (Fill in PolygonCommands(ps, size)[..k] <==> |ps| > 2)
  {
    if |ps| > 0 {
      PolygonStrokedOnce(ps, size);
      PathIsOpen(ps, size);
      DotsAreOpen(ps, size);
      var before := PolygonPath(ps, size) + Outline(|ps|);
      var cmds := PolygonCommands(ps, size);
      assert cmds == before + [Stroke] + VertexDots(ps, size);
      var k := |before|;
      assert cmds[k] == Stroke;
      assert cmds[..k] == before;
    }
  }

  lemma LinesToStep(ps: seq<Point>, i: nat, size: Size)
    requires 1 <= i < |ps|
    ensures LinesTo(ps[1..i + 1], size) == LinesTo(ps[1..i], size) + [LineTo(Px(ps[i], size), Py(ps[i], size))]
  {
    assert ps[1..i + 1][..i - 1] == ps[1..i];
  }

  lemma VertexDotsStep(ps: seq<Point>, i: nat, size: Size)
    requires i < |ps|
    ensures VertexDots(ps[..i + 1], size) == VertexDots(ps[..i], size) + Dot(ps[i], size)
  {
    assert ps[..i + 1][..i] == ps[..i];
  }

  /** drawPolygon: a path through the points, closed and filled when it has
      more than two points, stroked, then a dot on every vertex. */
  method DrawPolygon(points: seq<Point>, size: Size) returns (cmds: seq<DrawCmd>)
    ensures cmds == PolygonCommands(points, size)
    ensures |points| == 0 ==> cmds == []
    ensures Arcs(cmds) == DotsAt(points, size)
  {
    PolygonDots(points, size);
    if |points| < 1 {
      return [];
    }
    var head := [BeginPath, MoveTo(Px(points[0], size), Py(points[0], size))];
    var lines := [];
    for i := 1 to |points|
      invariant lines == LinesTo(points[1..i], size)
    {
      LinesToStep(points, i, size);
      lines := lines + [LineTo(Px(points[i], size), Py(points[i], size))];
    }
    var outline := [];
    if |points| > 2 {
      outline := [ClosePath, Fill];
    }
    var dots := [];
    for i := 0 to |points|
      invariant dots == VertexDots(points[..i], size)
    {
      VertexDotsStep(points, i, size);
      dots := dots + Dot(points[i], size);
    }
    assert points[..|points|] == points;
    cmds := head + lines + outline + [Stroke] + dots;
  }

  /** An area is drawn when its document has a polygon field. */
  function AreaCommands(order: seq<AreaId>, areas: map<AreaId, Area>, size: Size): seq<DrawCmd>
    requires forall i :: 0 <= i < |order| ==> order[i] in areas
  {
    if order == [] then []
    else AreaCommands(order[..|order| - 1], areas, size) + AreaDraw(areas[order[|order| - 1]], size)
  }

  function AreaDraw(a: Area, size: Size): seq<DrawCmd> {
    match a.polygon
    case None => []
    case Some(ps) => PolygonCommands(ps, size)
  }

  lemma AreaDrawStrokes(a: Area, size: Size)
    ensures StrokeCount(AreaDraw(a, size)) == if IsOutlined(a) then 1 else 0
  {
    if a.polygon.Some? {
      PolygonOutline(a.polygon.value, size);
    }
  }

  function DraftCommands(isDevMode: bool, draft: seq<Point>, size: Size): seq<DrawCmd> {
    if isDevMode && |draft| > 0 then PolygonCommands(draft, size) else []
  }

  /** What a redraw issues: nothing without a canvas or an image; otherwise
      the canvas is sized to the image and cleared, the areas are drawn in key
      order, and the draft is drawn last in dev mode. */
  function RedrawCommands(hasCanvas: bool, image: Option<Size>, areas: map<AreaId, Area>, order: seq<AreaId>,
                          isDevMode: bool, draft: seq<Point>): seq<DrawCmd>
    requires forall i :: 0 <= i < |order| ==> order[i] in areas
  {
    if !hasCanvas || image.None? then []
    else
      var size := image.value;
      [ClearRect(size.width as real, size.height as real)] + AreaCommands(order, areas, size)
      + DraftCommands(isDevMode, draft, size)
  }

  lemma AreaCommandsStep(order: seq<AreaId>, areas: map<AreaId, Area>, size: Size, i: nat)
    requires forall j :: 0 <= j < |order| ==> order[j] in areas
    requires i < |order|
    ensures AreaCommands(order[..i + 1], areas, size) == AreaCommands(order[..i], areas, size) + AreaDraw(areas[order[i]], size)
  {
    assert order[..i + 1][..i] == order[..i];
  }

  /** redrawAll, iterating `for ... in` over the area keys in `order`. */
  method RedrawAll(hasCanvas: bool, image: Option<Size>, areas: map<AreaId, Area>, order: seq<AreaId>,
                   isDevMode: bool, draft: seq<Point>) returns (cmds: seq<DrawCmd>)
    requires EnumeratesKeys(order, areas)
    ensures cmds == RedrawCommands(hasCanvas, image, areas, order, isDevMode, draft)
    ensures !hasCanvas || image.None? ==> cmds == []
    ensures hasCanvas && image.Some? ==>
      StrokeCount(cmds) == |OutlinedAreas(areas)| + (if isDevMode && |draft| > 0 then 1 else 0)
  {
    RedrawStrokes(hasCanvas, image, areas, order, isDevMode, draft);
    if !hasCanvas || image.None? {
      return [];
    }
    var size := image.value;
    var drawn := [];
    for i := 0 to |order|
      invariant drawn == AreaCommands(order[..i], areas, size)
    {
      AreaCommandsStep(order, areas, size, i);
      var area := areas[order[i]];
      var more := [];
      if area.polygon.Some? {
        more := DrawPolygon(area.polygon.value, size);
      }
      assert more == AreaDraw(area, size);
      drawn := drawn + more;
    }
    assert order[..|order|] == order;
    var draftCmds := [];
    if isDevMode && |draft| > 0 {
      draftCmds := DrawPolygon(draft, size);
    }
    assert draftCmds == DraftCommands(isDevMode, draft, size);
    cmds := [ClearRect(size.width as real, size.height as real)] + drawn + draftCmds;
  }

  predicate IsOutlined(a: Area) {
    a.polygon.Some? && |a.polygon.value| > 0
  }

  /** The areas a redraw outlines: those with a non-empty polygon. */
  function OutlinedAreas(areas: map<AreaId, Area>): set<AreaId> {
    set k | k in areas && IsOutlined(areas[k])
  }

  function OutlinedIn(order: seq<AreaId>, areas: map<AreaId, Area>): set<AreaId> {
    set k | k in order && k in areas && IsOutlined(areas[k])
  }

  lemma OutlinedInStep(order: seq<AreaId>, areas: map<AreaId, Area>)
    requires order != [] && order[|order| - 1] in areas
    requires order[|order| - 1] !in order[..|order| - 1]
    ensures var pre, last := order[..|order| - 1], order[|order| - 1];
      |OutlinedIn(order, areas)| == |OutlinedIn(pre, areas)| + (if IsOutlined(areas[last]) then 1 else 0)
  {
    var pre, last := order[..|order| - 1], order[|order| - 1];
    assert order == pre + [last];
    if IsOutlined(areas[last]) {
      assert OutlinedIn(order, areas) == OutlinedIn(pre, areas) + {last};
    } else {
      assert OutlinedIn(order, areas) == OutlinedIn(pre, areas);
    }
  }

  lemma {:induction false} AreaStrokes(order: seq<AreaId>, areas: map<AreaId, Area>, size: Size)
    requires forall i :: 0 <= i < |order| ==> order[i] in areas
    requires forall i, j :: 0 <= i < j < |order| ==> order[i] != order[j]
    ensures StrokeCount(AreaCommands(order, areas, size)) == |OutlinedIn(order, areas)|
  {
    if order != [] {
      var pre := order[..|order| - 1];
      var last := order[|order| - 1];
      AreaStrokes(pre, areas, size);
      StrokeCountAppend(AreaCommands(pre, areas, size), AreaDraw(areas[last], size));
      AreaDrawStrokes(areas[last], size);
      assert last !in pre;
      OutlinedInStep(order, areas);
    }
  }

  /** A redraw outlines every area that has a non-empty polygon once, plus
      the draft exactly when dev mode is on and the draft is non-empty. */
  lemma RedrawStrokes(hasCanvas: bool, image: Option<Size>, areas: map<AreaId, Area>, order: seq<AreaId>,
                      isDevMode: bool, draft: seq<Point>)
    requires EnumeratesKeys(order, areas)
    ensures hasCanvas && image.Some? ==>
      StrokeCount(RedrawCommands(hasCanvas, image, areas, order, isDevMode, draft)) ==
      |OutlinedAreas(areas)| + (if isDevMode && |draft| > 0 then 1 else 0)
  {
    if hasCanvas && image.Some? {
      var size := image.value;
      var clear := [ClearRect(size.width as real, size.height as real)];
      AreaStrokes(order, areas, size);
      assert OutlinedIn(order, areas) == OutlinedAreas(areas);
      NoStrokes(clear);
      StrokeCountAppend(clear, AreaCommands(order, areas, size));
      StrokeCountAppend(clear + AreaCommands(order, areas, size), DraftCommands(isDevMode, draft, size));
      PolygonOutline(draft, size);
    }
  }

  /** The vertex dots of the areas with a polygon, area after area in key order. */
  function AreaDots(order: seq<AreaId>, areas: map<AreaId, Area>, size: Size): seq<DrawCmd>
    requires forall i :: 0 <= i < |order| ==> order[i] in areas
  {
    if order == [] then []
    else
      var a := areas[order[|order| - 1]];
      AreaDots(order[..|order| - 1], areas, size) + (if a.polygon.Some? then DotsAt(a.polygon.value, size) else [])
  }

  /** The areas' commands draw each area's vertex dots, and nothing else,
      in key order. */
  lemma {:induction false} AreaArcs(order: seq<AreaId>, areas: map<AreaId, Area>, size: Size)
    requires forall i :: 0 <= i < |order| ==> order[i] in areas
    ensures Arcs(AreaCommands(order, areas, size)) == AreaDots(order, areas, size)
  {
    if order != [] {
      var pre, a := order[..|order| - 1], areas[order[|order| - 1]];
      AreaArcs(pre, areas, size);
      ArcsAppend(AreaCommands(pre, areas, size), AreaDraw(a, size));
      if a.polygon.Some? {
        PolygonDots(a.polygon.value, size);
      }
    }
  }

  lemma DraftArcs(isDevMode: bool, draft: seq<Point>, size: Size)
    ensures Arcs(DraftCommands(isDevMode, draft, size)) == if isDevMode then DotsAt(draft, size) else []
  {
    PolygonDots(draft, size);
  }

  /** A redraw draws the dots of every area with a polygon in key order (so,
      when the order enumerates the keys, each such area exactly once), then
      the draft's dots in dev mode. */
  lemma RedrawArcs(hasCanvas: bool, image: Option<Size>, areas: map<AreaId, Area>, order: seq<AreaId>,
                   isDevMode: bool, draft: seq<Point>)
    requires forall i :: 0 <= i < |order| ==> order[i] in areas
    ensures hasCanvas && image.Some? ==>
      Arcs(RedrawCommands(hasCanvas, image, areas, order, isDevMode, draft)) ==
      AreaDots(order, areas, image.value) + (if isDevMode then DotsAt(draft, image.value) else [])
  {
    if hasCanvas && image.Some? {
      var size := image.value;
      var clear := [ClearRect(size.width as real, size.height as real)];
      var drawn := AreaCommands(order, areas, size);
      var last := DraftCommands(isDevMode, draft, size);
      assert RedrawCommands(hasCanvas, image, areas, order, isDevMode, draft) == clear + drawn + last;
      AreaArcs(order, areas, size);
      DraftArcs(isDevMode, draft, size);
      ArcsAfterClear(clear[0], drawn, last);
    }
  }

  lemma ArcsAfterClear(c: DrawCmd, a: seq<DrawCmd>, b: seq<DrawCmd>)
    requires c.ClearRect?
    ensures Arcs([c] + a + b) == Arcs(a) + Arcs(b)
  {
    assert Arcs([c]) == [] by {
      assert [c][..0] == [];
    }
    ArcsAppend([c], a);
    ArcsAppend([c] + a, b);
  }

  /** Outside dev mode the draft has no effect on what is drawn. */
  lemma RedrawIgnoresDraftOutsideDevMode(hasCanvas: bool, image: Option<Size>, areas: map<AreaId, Area>,
                                         order: seq<AreaId>, draft: seq<Point>)
    requires forall i :: 0 <= i < |order| ==> order[i] in areas
    ensures RedrawCommands(hasCanvas, image, areas, order, false, draft) ==
            RedrawCommands(hasCanvas, image, areas, order, false, [])
  {
  }

  // ---- user markers ----

  datatype Avatar = Photo(url: string) | Placeholder(initial: string)

  /** The marker's CSS left/top percentages; NaN coordinates give NaN%. */
  datatype Placement = Percent(left: real, top: real) | NaNPercent

  datatype Marker = Marker(key: Uid, placement: Placement, avatar: Avatar, caption: string)

  /** The first field of `s.split(' ')`: everything before the first space. */
  function FirstWord(s: string): (w: string)
    ensures w <= s && ' ' !in w
    ensures w == s || s[|w|] == ' '
  {
    if s == [] || s[0] == ' ' then []
    else [s[0]] + FirstWord(s[1..])
  }

  /** The display name, or "User" when it is null or empty. */
  function DisplayName(u: Profile): (n: string)
    ensures n != []
    ensures u.displayName.Some? && u.displayName.value != [] ==> n == u.displayName.value
    ensures u.displayName.None? || u.displayName.value == [] ==> n == "User"
  {
    if u.displayName.None? || u.displayName.value == [] then "User" else u.displayName.value
  }

  predicate Located(u: Option<Profile>) {
    u.Some? && u.value.location != Unset
  }

  /** The marker for a user with a location: keyed by uid, placed at
      x * 100% / y * 100%, labelled with the first word of the display name. */
  function MarkerOf(u: Profile): (m: Marker)
    requires u.location != Unset
    ensures m.key == u.uid
    ensures m.caption <= DisplayName(u) && ' ' !in m.caption
    ensures m.caption == DisplayName(u) || DisplayName(u)[|m.caption|] == ' '
    ensures u.displayName.None? ==> m.caption == "User"
    ensures u.location.At? ==> m.placement == Percent(u.location.p.x * 100.0, u.location.p.y * 100.0)
    ensures u.location.NotANumber? ==> m.placement == NaNPercent
    ensures u.location.At? && 0.0 <= u.location.p.x <= 1.0 && 0.0 <= u.location.p.y <= 1.0 ==>
      m.placement.Percent? && 0.0 <= m.placement.left <= 100.0 && 0.0 <= m.placement.top <= 100.0
    ensures u.photoURL.Some? && u.photoURL.value != [] ==> m.avatar == Photo(u.photoURL.value)
    ensures u.photoURL.None? || u.photoURL.value == [] ==> m.avatar == Placeholder([DisplayName(u)[0]])
  {
    var name := DisplayName(u);
    var placement := match u.location
                     case At(p) => Percent(p.x * 100.0, p.y * 100.0)
                     case _ => NaNPercent;
    var avatar := if u.photoURL.Some? && u.photoURL.value != [] then Photo(u.photoURL.value)
                  else Placeholder([name[0]]);
    assert FirstWord("User") == "User" by {
      assert FirstWord("") == "";
      assert "User"[1..] == "ser" && "ser"[1..] == "er" && "er"[1..] == "r" && "r"[1..] == "";
    }
    Marker(u.uid, placement, avatar, FirstWord(name))
  }

  /** The positions of the entries that hold a located profile. */
  function LocatedAt(users: seq<Option<Profile>>): set<nat> {
    set i: nat | i < |users| && Located(users[i])
  }

  lemma LocatedAtStep(users: seq<Option<Profile>>)
    requires users != []
    ensures var n := |users| - 1;
      |LocatedAt(users)| == |LocatedAt(users[..n])| + (if Located(users[n]) then 1 else 0)
  {
    var n := |users| - 1;
    var pre := users[..n];
    assert LocatedAt(users) == LocatedAt(pre) + (if Located(users[n]) then {n} else {});
    assert n !in LocatedAt(pre);
  }

  /** The markers layer: one marker per entry that holds a profile with a
      location, and none for any other entry. */
  function Markers(users: seq<Option<Profile>>): (ms: seq<Marker>)
    ensures |ms| == |LocatedAt(users)|
    ensures forall m :: m in ms ==> exists u :: u in users && Located(u) && m == MarkerOf(u.value)
    ensures forall u :: u in users && Located(u) ==> MarkerOf(u.value) in ms
  {
    if users == [] then []
    else
      var pre := users[..|users| - 1];
      var u := users[|users| - 1];
      assert users == pre + [u];
      LocatedAtStep(users);
      Markers(pre) + (if Located(u) then [MarkerOf(u.value)] else [])
  }
}
