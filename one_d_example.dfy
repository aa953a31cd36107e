/**
 The numbering loop of the one-dimensional demo's `main`, as the nested
 loops it is: the two maps, the two counters, the kernel-call logs and the
 per-polygon vectors `loop` and `curveloop` are updated in place, and
 `domElelIds` is sized once and filled polygon by polygon.
 */
module OneDExample {
  import opened Geometry
  import opened Polygons
  import opened Numbering

  /**
   The first inner loop: looks every vertex up in the point map, issuing
   addPoint and advancing the point counter for each new key, and collects
   the polygon's `loop` of point ids.
   */
  method NumberVertices(s: State, vertex: seq<Point>) returns (s': State, loop: seq<int>)
    ensures (s', loop) == PointLoop(s, vertex)
    ensures |loop| == |vertex|
    ensures forall j :: 0 <= j < |vertex| ==> KeyOf(vertex[j]) in s'.recPoints && loop[j] == s'.recPoints[KeyOf(vertex[j])]
  {
    var recPoints, ctPoint, pointCalls := s.recPoints, s.ctPoint, s.pointCalls;
    loop := [];
    var j := 0;
    while j < |vertex|
      invariant 0 <= j <= |vertex|
      invariant (s.(recPoints := recPoints, ctPoint := ctPoint, pointCalls := pointCalls), loop)
        == PointLoop(s, vertex[..j])
    {
      var p := vertex[j];
      var key := KeyOf(p);
      if key !in recPoints {
        pointCalls := pointCalls + [AddPoint(p, ctPoint)];
        recPoints := recPoints[key := ctPoint];
        loop := loop + [ctPoint];
        ctPoint := ctPoint + 1;
      } else {
        loop := loop + [recPoints[key]];
      }
      assert vertex[..j + 1][..j] == vertex[..j];
      j := j + 1;
    }
    assert vertex[..|vertex|] == vertex;
    s' := s.(recPoints := recPoints, ctPoint := ctPoint, pointCalls := pointCalls);
    PointLoopIds(s, vertex);
  }

  /**
   The second inner loop: looks every edge from loop[j] to its cyclic
   successor up in the line map in both directions, issuing addLine and
   advancing the line counter for an edge found in neither, and collects the
   polygon's `curveloop` of signed line ids.
   */
  method NumberEdges(s: State, loop: seq<int>) returns (s': State, curveloop: seq<int>)
    ensures (s', curveloop) == EdgeLoop(s, loop, |loop|)
    ensures |curveloop| == |loop|
    ensures LinesValid(s) ==> EdgesMatch(s', loop, curveloop, |loop|)
  {
    var recLines, ctLine, lineCalls := s.recLines, s.ctLine, s.lineCalls;
    curveloop := [];
    var j := 0;
    while j < |loop|
      invariant 0 <= j <= |loop|
      invariant (s.(recLines := recLines, ctLine := ctLine, lineCalls := lineCalls), curveloop)
        == EdgeLoop(s, loop, j)
    {
      var l1 := loop[j];
      var l2 := if j == |loop| - 1 then loop[0] else loop[j + 1];
      var topo := Topology(l1, l2);
      var topo2 := Topology(l2, l1);
      if topo !in recLines && topo2 !in recLines {
        lineCalls := lineCalls + [AddLine(l1, l2, ctLine)];
        recLines := recLines[topo := ctLine];
        recLines := recLines[topo2 := -ctLine];
        curveloop := curveloop + [ctLine];
        ctLine := ctLine + 1;
      } else if topo in recLines {
        curveloop := curveloop + [recLines[topo]];
      } else {
        curveloop := curveloop + [recLines[topo2]];
      }
      j := j + 1;
    }
    s' := s.(recLines := recLines, ctLine := ctLine, lineCalls := lineCalls);
    if LinesValid(s) {
      EdgeLoopMatches(s, loop, |loop|);
    }
  }

  /**
   One pass of the outer loop's body: numbers the vertices of one polygon,
   then its edges, and yields the polygon's curve loop.
   */
  method NumberPolygon(s: State, vertex: seq<Point>) returns (s': State, curveloop: seq<int>)
    ensures (s', curveloop) == VisitPolygon(s, vertex)
    ensures |curveloop| == |vertex|
  {
    var s1, loop := NumberVertices(s, vertex);
    s', curveloop := NumberEdges(s1, loop);
  }

  /** Writing entry i of a sequence makes its first i + 1 entries the old first i followed by the new one. */
  lemma UpdatePrefix<T>(a: seq<T>, i: nat, x: T)
    requires i < |a|
    ensures a[i := x][..i + 1] == a[..i] + [x]
  {
  }

  /**
   The outer loop: numbers the points and lines of `region`, starting with
   empty maps and both counters at 1, and records each polygon's curve loop
   in `domElelIds`, which is sized to the region up front. The result is the
   numbering of the specification, so every property proved of `RegionLoop`
   holds of it.
   */
  method NumberRegion(region: seq<PolygonValue>) returns (domElelIds: seq<seq<int>>, final: State)
    ensures (final, domElelIds) == RegionLoop(Initial, region)
    ensures |domElelIds| == |region|
  {
    var state := Initial;
    domElelIds := seq(|region|, _ => []);
    var i := 0;
    while i < |region|
      invariant 0 <= i <= |region|
      invariant |domElelIds| == |region|
      invariant state == RegionLoop(Initial, region[..i]).0
      invariant domElelIds[..i] == RegionLoop(Initial, region[..i]).1
    {
      RegionLoopStep(Initial, region, i);
      var curveloop;
      state, curveloop := NumberPolygon(state, region[i].vertex);
      UpdatePrefix(domElelIds, i, curveloop);
      domElelIds := domElelIds[i := curveloop];
      i := i + 1;
    }
    assert region[..|region|] == region;
    assert domElelIds[..|region|] == domElelIds;
    final := state;
  }

  /**
   The demo's `main` up to the meshing: generates the five polygons into an
   empty region and numbers them.
   */
  method NumberDemoRegion() returns (region: seq<PolygonValue>, domElelIds: seq<seq<int>>)
    ensures region == DemoPolygons()
    ensures domElelIds == RegionLoop(Initial, DemoPolygons()).1
    ensures |domElelIds| == 5 && domElelIds[1][0] == -domElelIds[0][6] && domElelIds[4][0] == -domElelIds[1][2]
  {
    region := GeneratePolygons([]);
    assert [] + DemoPolygons() == DemoPolygons();
    var final;
    domElelIds, final := NumberRegion(region);
    DemoSharedSides();
  }

  /**
   In the demo region every side shared by two polygons is walked in
   opposite directions by them and so gets opposite line ids, while the two
   sides meeting at (2, 1) on poly_1 and poly_2 stay different lines.
   */
  lemma DemoSharedSides()
    ensures var ids := RegionLoop(Initial, DemoPolygons()).1;
      && |ids| == 5 && |ids[0]| == 8 && |ids[1]| == 4 && |ids[2]| == 4 && |ids[3]| == 4 && |ids[4]| == 8
      && ids[1][0] == -ids[0][6]
      && ids[2][0] == -ids[0][4]
      && ids[3][0] == -ids[0][2]
      && ids[4][0] == -ids[1][2]
      && ids[4][2] == -ids[2][2]
      && ids[4][4] == -ids[3][2]
      && ids[0][5] != ids[1][0] && ids[0][5] != -ids[1][0]
  {
    var region := DemoPolygons();
    SideIds(region, 1, 0, 0, 6);
    SideIds(region, 2, 0, 0, 4);
    SideIds(region, 3, 0, 0, 2);
    SideIds(region, 4, 0, 1, 2);
    SideIds(region, 4, 2, 2, 2);
    SideIds(region, 4, 4, 3, 2);
    SideIds(region, 0, 5, 1, 0);
  }

  /**
   A polygon whose two vertices differ only in z: both get point id 1 and
   one addPoint is issued. Its two sides are the self-loop (1, 1); the first
   registers line 1, whose entry the reverse assignment then overwrites
   with -1, so the second side reads back -1 although it runs the same way.
   */
  lemma SelfLoopQuirk()
    ensures var (s, curveloop) := VisitPolygon(Initial, [Point(0, 0, 0), Point(0, 0, 1)]);
      curveloop == [1, -1] && |s.pointCalls| == 1 && |s.lineCalls| == 1 && Topology(1, 1) in s.recLines && s.recLines[Topology(1, 1)] == -1
  {
    var a, b := Point(0, 0, 0), Point(0, 0, 1);
    var v := [a, b];
    var p1 := VisitPoint(Initial, a);
    assert p1.1 == 1 && KeyOf(b) in p1.0.recPoints;
    assert PointLoop(Initial, []) == (Initial, []);
    assert [a][..0] == [] && [a][0] == a;
    assert PointLoop(Initial, [a]) == (VisitPoint(Initial, a).0, [] + [VisitPoint(Initial, a).1]);
    assert [] + [1] == [1];
    assert PointLoop(Initial, [a]) == (p1.0, [1]);
    var p2 := VisitPoint(p1.0, b);
    assert p2 == (p1.0, 1);
    assert v[..1] == [a] && v[1] == b;
    assert PointLoop(Initial, v) == (VisitPoint(p1.0, b).0, [1] + [VisitPoint(p1.0, b).1]);
    assert [1] + [1] == [1, 1];
    assert PointLoop(Initial, v) == (p1.0, [1, 1]);
    var loop := [1, 1];
    var t := Topology(1, 1);
    assert EdgeAt(loop, 0) == t && EdgeAt(loop, 1) == t;
    var e1 := VisitEdge(p1.0, t);
    assert e1.1 == 1 && e1.0.recLines[t] == -1;
    assert EdgeLoop(p1.0, loop, 1) == (e1.0, [1]);
    var e2 := VisitEdge(e1.0, t);
    assert e2 == (e1.0, -1);
  }
}
