/**
 The shared-topology numbering of the one-dimensional demo, as functions.

 The region's polygons are walked in order. Every vertex is looked up by its
 (x, y) key in the point map: a key seen before gives back its id, a new key
 is registered with the gmsh kernel under the next point counter value. Then
 every edge from a vertex to its cyclic successor is looked up in the line
 map by its directed pair of point ids: a pair seen before, in either
 direction, gives back the stored signed id, and a new pair is registered
 under the next line counter value, stored as +id for its own direction and
 -id for the reverse. The signed ids of a polygon's edges form its curve loop.

 The kernel calls `addPoint` and `addLine` are kept as two logs of calls.
 */
module Numbering {
  import opened Geometry
  import opened Polygons

  /** A call `addPoint(x, y, z, lc, tag)` issued to the kernel. */
  datatype PointCall = AddPoint(p: Point, tag: int)

  /** A call `addLine(startTag, endTag, tag)` issued to the kernel. */
  datatype LineCall = AddLine(startTag: int, endTag: int, tag: int)
  {
    function Forward(): Topology
    {
      Topology(startTag, endTag)
    }
  }

  /** The two maps, the two counters and the log of kernel calls. */
  datatype State = State(
    recPoints: map<PointKey, int>,
    ctPoint: int,
    pointCalls: seq<PointCall>,
    recLines: map<Topology, int>,
    ctLine: int,
    lineCalls: seq<LineCall>)

  /** Both maps empty, both counters at 1, no call issued yet. */
  const Initial := State(map[], 1, [], map[], 1, [])

  function Abs(v: int): nat
  {
    if v < 0 then -v else v
  }

  /** Every entry of `m` is in `m'` with the same value. */
  ghost predicate Extends<K>(m: map<K, int>, m': map<K, int>)
  {
    forall k :: k in m ==> k in m' && m'[k] == m[k]
  }

  ghost predicate SamePoints(s: State, s': State)
  {
    s'.recPoints == s.recPoints && s'.ctPoint == s.ctPoint && s'.pointCalls == s.pointCalls
  }

  ghost predicate SameLines(s: State, s': State)
  {
    s'.recLines == s.recLines && s'.ctLine == s.ctLine && s'.lineCalls == s.lineCalls
  }

  /** `s'` is `s` with possibly more points, more lines and more calls. */
  ghost predicate Grows(s: State, s': State)
  {
    && Extends(s.recPoints, s'.recPoints)
    && Extends(s.recLines, s'.recLines)
    && s.pointCalls <= s'.pointCalls
    && s.lineCalls <= s'.lineCalls
    && s.ctPoint <= s'.ctPoint
    && s.ctLine <= s'.ctLine
  }

  /** The vertex a polygon's side j runs to: the next one, or the first for the last side. */
  function NextVertex(vertex: seq<Point>, j: nat): Point
    requires j < |vertex|
  {
    if j == |vertex| - 1 then vertex[0] else vertex[j + 1]
  }

  function KeySet(vertex: seq<Point>): set<PointKey>
  {
    set j | 0 <= j < |vertex| :: KeyOf(vertex[j])
  }

  function RegionKeys(region: seq<PolygonValue>): set<PointKey>
  {
    set i, j | 0 <= i < |region| && 0 <= j < |region[i].vertex| :: KeyOf(region[i].vertex[j])
  }

  // ---------------------------------------------------------------------------
  // The numbering, step by step

  /** Looks up one vertex, registering its key if it is new; yields its point id. */
  function VisitPoint(s: State, p: Point): (r: (State, int))
    ensures KeyOf(p) in r.0.recPoints && r.1 == r.0.recPoints[KeyOf(p)]
    ensures KeyOf(p) in s.recPoints ==> r.0 == s
    ensures KeyOf(p) !in s.recPoints ==> r.1 == s.ctPoint && r.0.pointCalls == s.pointCalls + [AddPoint(p, r.1)]
    ensures r.0.recPoints.Keys == s.recPoints.Keys + {KeyOf(p)}
    ensures Grows(s, r.0) && SameLines(s, r.0)
  {
    var key := KeyOf(p);
    if key in s.recPoints then
      (s, s.recPoints[key])
    else
      var s' := s.(recPoints := s.recPoints[key := s.ctPoint],
                   ctPoint := s.ctPoint + 1,
                   pointCalls := s.pointCalls + [AddPoint(p, s.ctPoint)]);
      (s', s.ctPoint)
  }

  /** The ids of the vertices, in order: the polygon's `loop`. */
  function PointLoop(s: State, vertex: seq<Point>): (r: (State, seq<int>))
    ensures |r.1| == |vertex|
    decreases |vertex|
  {
    if vertex == [] then
      (s, [])
    else
      var (s', loop) := PointLoop(s, vertex[..|vertex| - 1]);
      var (s'', id) := VisitPoint(s', vertex[|vertex| - 1]);
      (s'', loop + [id])
  }

  /**
   Edge j of a loop of point ids runs from entry j to the next entry, and
   the last edge wraps round to the first entry, closing the loop.
   */
  function EdgeAt(loop: seq<int>, j: nat): Topology
    requires j < |loop|
  {
    Topology(loop[j], if j == |loop| - 1 then loop[0] else loop[j + 1])
  }

  /**
   Looks up one directed edge; an edge found in neither direction is
   registered as +id for its own direction and -id for the reverse.
   */
  function VisitEdge(s: State, topo: Topology): (r: (State, int))
    ensures topo !in s.recLines && topo.Reversed() !in s.recLines ==>
      r.1 == s.ctLine && r.0.lineCalls == s.lineCalls + [AddLine(topo.firstId, topo.secondId, r.1)]
    ensures topo in s.recLines || topo.Reversed() in s.recLines ==> r.0 == s
    ensures topo in r.0.recLines || topo.Reversed() in r.0.recLines
    ensures Grows(s, r.0) && SamePoints(s, r.0)
  {
    var topo2 := topo.Reversed();
    if topo !in s.recLines && topo2 !in s.recLines then
      var lines := s.recLines[topo := s.ctLine];
      var s' := s.(recLines := lines[topo2 := -s.ctLine],
                   ctLine := s.ctLine + 1,
                   lineCalls := s.lineCalls + [AddLine(topo.firstId, topo.secondId, s.ctLine)]);
      (s', s.ctLine)
    else if topo in s.recLines then
      (s, s.recLines[topo])
    else
      (s, s.recLines[topo2])
  }

  /** A new edge adds exactly its two directions to the line map's keys. */
  lemma VisitEdgeKeys(s: State, topo: Topology)
    ensures topo !in s.recLines && topo.Reversed() !in s.recLines ==>
      VisitEdge(s, topo).0.recLines.Keys == s.recLines.Keys + {topo, topo.Reversed()}
  {
  }

  /** The signed ids of the first j edges of a loop: a prefix of its `curveloop`. */
  function EdgeLoop(s: State, loop: seq<int>, j: nat): (r: (State, seq<int>))
    requires j <= |loop|
    ensures |r.1| == j
  {
    if j == 0 then
      (s, [])
    else
      var (s', curveloop) := EdgeLoop(s, loop, j - 1);
      var (s'', id) := VisitEdge(s', EdgeAt(loop, j - 1));
      (s'', curveloop + [id])
  }

  /** One turn of the outer loop: the polygon's `loop`, then its `curveloop`. */
  function VisitPolygon(s: State, vertex: seq<Point>): (r: (State, seq<int>))
    ensures |r.1| == |vertex|
  {
    var (s', loop) := PointLoop(s, vertex);
    EdgeLoop(s', loop, |loop|)
  }

  /** The whole numbering: the final state and `domElelIds`, one curve loop per polygon. */
  function RegionLoop(s: State, region: seq<PolygonValue>): (r: (State, seq<seq<int>>))
    ensures |r.1| == |region|
    ensures forall i :: 0 <= i < |region| ==> |r.1[i]| == |region[i].vertex|
    decreases |region|
  {
    if region == [] then
      (s, [])
    else
      var (s', ids) := RegionLoop(s, region[..|region| - 1]);
      var (s'', curveloop) := VisitPolygon(s', region[|region| - 1].vertex);
      (s'', ids + [curveloop])
  }

  /** One more polygon adds one turn of the outer loop. */
  lemma RegionLoopStep(s: State, region: seq<PolygonValue>, i: nat)
    requires i < |region|
    ensures var r := RegionLoop(s, region[..i]);
      var v := VisitPolygon(r.0, region[i].vertex);
      RegionLoop(s, region[..i + 1]).0 == v.0 && RegionLoop(s, region[..i + 1]).1 == r.1 + [v.1]
  {
    assert region[..i + 1][..i] == region[..i];
  }

  // ---------------------------------------------------------------------------
  // Invariants

  /** The i-th addPoint call carries tag i + 1, and its point's key maps to i + 1. */
  ghost predicate PointCallOk(s: State, i: nat)
    requires i < |s.pointCalls|
  {
    && s.pointCalls[i].tag == i + 1
    && KeyOf(s.pointCalls[i].p) in s.recPoints
    && s.recPoints[KeyOf(s.pointCalls[i].p)] == i + 1
  }

  /** A known key maps to a counter value already handed out, and that call registered it. */
  ghost predicate PointEntryOk(s: State, k: PointKey)
    requires k in s.recPoints
  {
    && 1 <= s.recPoints[k] < s.ctPoint
    && s.recPoints[k] - 1 < |s.pointCalls|
    && KeyOf(s.pointCalls[s.recPoints[k] - 1].p) == k
  }

  /** Point ids are dense: one per addPoint call, in call order, one call per known key. */
  ghost predicate PointsValid(s: State)
  {
    && s.ctPoint == |s.pointCalls| + 1
    && |s.recPoints| == |s.pointCalls|
    && (forall i: nat :: i < |s.pointCalls| ==> PointCallOk(s, i))
    && (forall k {:trigger PointEntryOk(s, k)} :: k in s.recPoints ==> PointEntryOk(s, k))
  }

  /** The i-th addLine call carries tag i + 1; its pair is known and its reverse maps to -(i + 1). */
  ghost predicate LineCallOk(s: State, i: nat)
    requires i < |s.lineCalls|
  {
    var t := s.lineCalls[i].Forward();
    && s.lineCalls[i].tag == i + 1
    && t in s.recLines
    && t.Reversed() in s.recLines
    && s.recLines[t.Reversed()] == -(i + 1)
  }

  /**
   A known pair has its reverse known; the two map to v and -v (a self-loop
   pair, whose two assignments fall on one entry, keeps the negative one);
   and the call |v| registered this pair or its reverse.
   */
  ghost predicate LineEntryOk(s: State, t: Topology)
    requires t in s.recLines
  {
    var v := s.recLines[t];
    && t.Reversed() in s.recLines
    && v != 0 && Abs(v) < s.ctLine
    && Abs(v) - 1 < |s.lineCalls|
    && (if t.IsSelfLoop() then v < 0 else s.recLines[t.Reversed()] == -v)
    && s.lineCalls[Abs(v) - 1].Forward() == (if v > 0 then t else t.Reversed())
  }

  /** Line ids are dense and signed: one per addLine call, in call order. */
  ghost predicate LinesValid(s: State)
  {
    && s.ctLine == |s.lineCalls| + 1
    && (forall i: nat :: i < |s.lineCalls| ==> LineCallOk(s, i))
    && (forall t {:trigger LineEntryOk(s, t)} :: t in s.recLines ==> LineEntryOk(s, t))
  }

  ghost predicate Valid(s: State)
  {
    PointsValid(s) && LinesValid(s)
  }

  /** The point invariant depends only on the point part of the state. */
  lemma PointsValidFrame(s: State, s': State)
    requires PointsValid(s) && SamePoints(s, s')
    ensures PointsValid(s')
  {
    forall i: nat | i < |s'.pointCalls| ensures PointCallOk(s', i) {
      assert PointCallOk(s, i);
    }
    forall k | k in s'.recPoints ensures PointEntryOk(s', k) {
      assert PointEntryOk(s, k);
    }
  }

  /** The line invariant depends only on the line part of the state. */
  lemma LinesValidFrame(s: State, s': State)
    requires LinesValid(s) && SameLines(s, s')
    ensures LinesValid(s')
  {
    forall i: nat | i < |s'.lineCalls| ensures LineCallOk(s', i) {
      assert LineCallOk(s, i);
    }
    forall t | t in s'.recLines ensures LineEntryOk(s', t) {
      assert LineEntryOk(s, t);
    }
  }

  lemma InitialIsValid()
    ensures Valid(Initial)
  {
  }

  // ---------------------------------------------------------------------------
  // Points

  lemma VisitPointKeepsValid(s: State, p: Point)
    requires PointsValid(s)
    ensures PointsValid(VisitPoint(s, p).0)
  {
    var key := KeyOf(p);
    if key !in s.recPoints {
      var s' := VisitPoint(s, p).0;
      assert s'.recPoints == s.recPoints[key := s.ctPoint];
      forall i: nat | i < |s'.pointCalls|
        ensures PointCallOk(s', i)
      {
        if i < |s.pointCalls| {
          assert PointCallOk(s, i);
          assert s'.pointCalls[i] == s.pointCalls[i];
        }
      }
      forall k | k in s'.recPoints
        ensures PointEntryOk(s', k)
      {
        if k != key {
          assert PointEntryOk(s, k);
          assert s'.pointCalls[s.recPoints[k] - 1] == s.pointCalls[s.recPoints[k] - 1];
        }
      }
    }
  }

  lemma GrowsTransitive(s1: State, s2: State, s3: State)
    requires Grows(s1, s2) && Grows(s2, s3)
    ensures Grows(s1, s3)
  {
  }

  lemma KeySetSnoc(vertex: seq<Point>)
    requires vertex != []
    ensures KeySet(vertex) == KeySet(vertex[..|vertex| - 1]) + {KeyOf(vertex[|vertex| - 1])}
  {
    var n := |vertex|;
    var front := vertex[..n - 1];
    forall k | k in KeySet(vertex) ensures k in KeySet(front) + {KeyOf(vertex[n - 1])} {
      var j :| 0 <= j < n && k == KeyOf(vertex[j]);
      if j < n - 1 { assert front[j] == vertex[j]; }
    }
    forall k | k in KeySet(front) ensures k in KeySet(vertex) {
      var j :| 0 <= j < n - 1 && k == KeyOf(front[j]);
      assert vertex[j] == front[j];
    }
  }

  /** Walking a vertex list only adds points and calls; keys already known keep their ids; lines are untouched. */
  lemma {:induction false} PointLoopGrows(s: State, vertex: seq<Point>)
    ensures Grows(s, PointLoop(s, vertex).0) && SameLines(s, PointLoop(s, vertex).0)
    decreases |vertex|
  {
    if vertex != [] {
      var front := vertex[..|vertex| - 1];
      PointLoopGrows(s, front);
      var s1 := PointLoop(s, front).0;
      GrowsTransitive(s, s1, VisitPoint(s1, vertex[|vertex| - 1]).0);
    }
  }

  /** The keys known after walking a vertex list are the old ones plus the vertices' keys. */
  lemma {:induction false} PointLoopKeys(s: State, vertex: seq<Point>)
    ensures PointLoop(s, vertex).0.recPoints.Keys == s.recPoints.Keys + KeySet(vertex)
    decreases |vertex|
  {
    if vertex != [] {
      PointLoopKeys(s, vertex[..|vertex| - 1]);
      KeySetSnoc(vertex);
    }
  }

  /** The loop has one id per vertex, each the id the final point map holds for that vertex's key. */
  lemma {:induction false} PointLoopIds(s: State, vertex: seq<Point>)
    ensures var (s', loop) := PointLoop(s, vertex);
      forall j :: 0 <= j < |vertex| ==> KeyOf(vertex[j]) in s'.recPoints && loop[j] == s'.recPoints[KeyOf(vertex[j])]
    decreases |vertex|
  {
    if vertex != [] {
      var n := |vertex|;
      var front := vertex[..n - 1];
      PointLoopIds(s, front);
      var (s1, loop1) := PointLoop(s, front);
      var (s2, id) := VisitPoint(s1, vertex[n - 1]);
      forall j | 0 <= j < n
        ensures KeyOf(vertex[j]) in s2.recPoints && (loop1 + [id])[j] == s2.recPoints[KeyOf(vertex[j])]
      {
        if j < n - 1 {
          assert front[j] == vertex[j];
        }
      }
    }
  }

  /** Walking a vertex list keeps point ids dense. */
  lemma {:induction false} PointLoopKeepsValid(s: State, vertex: seq<Point>)
    requires PointsValid(s)
    ensures PointsValid(PointLoop(s, vertex).0)
    decreases |vertex|
  {
    if vertex != [] {
      var front := vertex[..|vertex| - 1];
      PointLoopKeepsValid(s, front);
      VisitPointKeepsValid(PointLoop(s, front).0, vertex[|vertex| - 1]);
    }
  }

  /** Each addPoint call issued while walking a vertex list is for a key that was not known before. */
  lemma {:induction false} PointLoopCallsAreNew(s: State, vertex: seq<Point>)
    ensures var s' := PointLoop(s, vertex).0;
      && |s.pointCalls| <= |s'.pointCalls|
      && (forall i :: |s.pointCalls| <= i < |s'.pointCalls| ==> KeyOf(s'.pointCalls[i].p) !in s.recPoints)
    decreases |vertex|
  {
    if vertex != [] {
      var n := |vertex|;
      var front := vertex[..n - 1];
      PointLoopCallsAreNew(s, front);
      PointLoopGrows(s, front);
      var s1 := PointLoop(s, front).0;
      var s2 := VisitPoint(s1, vertex[n - 1]).0;
      forall i | |s.pointCalls| <= i < |s2.pointCalls|
        ensures KeyOf(s2.pointCalls[i].p) !in s.recPoints
      {
        if i < |s1.pointCalls| {
          assert s2.pointCalls[i] == s1.pointCalls[i];
        } else {
          assert s2.pointCalls[i].p == vertex[n - 1];
          assert KeyOf(vertex[n - 1]) !in s1.recPoints;
        }
      }
    }
  }

  // ---------------------------------------------------------------------------
  // Lines

  lemma VisitEdgeKeepsValid(s: State, topo: Topology)
    requires LinesValid(s)
    ensures LinesValid(VisitEdge(s, topo).0)
  {
    var topo2 := topo.Reversed();
    if topo !in s.recLines && topo2 !in s.recLines {
      var s' := VisitEdge(s, topo).0;
      var c := s.ctLine;
      assert s'.recLines == s.recLines[topo := c][topo2 := -c];
      assert topo2.Reversed() == topo;
      forall i: nat | i < |s'.lineCalls|
        ensures LineCallOk(s', i)
      {
        if i < |s.lineCalls| {
          assert LineCallOk(s, i);
          assert s'.lineCalls[i] == s.lineCalls[i];
        } else {
          assert s'.lineCalls[i].Forward() == topo;
        }
      }
      forall t | t in s'.recLines
        ensures LineEntryOk(s', t)
      {
        if t == topo || t == topo2 {
          assert s'.lineCalls[c - 1].Forward() == topo;
        } else {
          assert LineEntryOk(s, t);
          assert t.Reversed() != topo && t.Reversed() != topo2;
          assert s'.lineCalls[Abs(s.recLines[t]) - 1] == s.lineCalls[Abs(s.recLines[t]) - 1];
        }
      }
    }
  }

  /**
   Under the line invariant an edge is new exactly when its own direction is
   not in the map (its reverse is then absent too); afterwards both
   directions are in the map, and an edge that is not a self-loop yields
   exactly the value its own direction maps to: a line seen before in the
   same direction gives back its id, in the opposite direction the negated id.
   */
  lemma VisitEdgeSpec(s: State, topo: Topology)
    requires LinesValid(s)
    ensures var (s', id) := VisitEdge(s, topo);
      && LinesValid(s')
      && topo in s'.recLines && topo.Reversed() in s'.recLines
      && (!topo.IsSelfLoop() ==> id == s'.recLines[topo])
      && (topo in s.recLines ==> s' == s && id == s.recLines[topo])
      && (topo !in s.recLines ==>
            && id == s.ctLine && s'.ctLine == s.ctLine + 1
            && s'.lineCalls == s.lineCalls + [AddLine(topo.firstId, topo.secondId, id)])
      && id != 0 && Abs(id) < s'.ctLine
  {
    VisitEdgeKeepsValid(s, topo);
    var topo2 := topo.Reversed();
    assert topo2.Reversed() == topo;
    if topo2 in s.recLines {
      assert LineEntryOk(s, topo2);
    }
    if topo in s.recLines {
      assert LineEntryOk(s, topo);
    }
  }

  /** Walking the edges only adds lines and calls; points are untouched. */
  lemma {:induction false} EdgeLoopGrows(s: State, loop: seq<int>, j: nat)
    requires j <= |loop|
    ensures Grows(s, EdgeLoop(s, loop, j).0) && SamePoints(s, EdgeLoop(s, loop, j).0)
  {
    if j > 0 {
      EdgeLoopGrows(s, loop, j - 1);
      var s1 := EdgeLoop(s, loop, j - 1).0;
      GrowsTransitive(s, s1, VisitEdge(s1, EdgeAt(loop, j - 1)).0);
    }
  }

  /** Walking the edges keeps line ids dense and signed. */
  lemma {:induction false} EdgeLoopKeepsValid(s: State, loop: seq<int>, j: nat)
    requires LinesValid(s)
    requires j <= |loop|
    ensures LinesValid(EdgeLoop(s, loop, j).0)
  {
    if j > 0 {
      EdgeLoopKeepsValid(s, loop, j - 1);
      VisitEdgeKeepsValid(EdgeLoop(s, loop, j - 1).0, EdgeAt(loop, j - 1));
    }
  }

  /**
   The first j entries of a curve loop: entry k is the value the line map
   holds for edge k (unless edge k is a self-loop), and every entry is a
   registered line id up to sign.
   */
  ghost predicate EdgesMatch(s: State, loop: seq<int>, curveloop: seq<int>, j: nat)
    requires j <= |loop| && j <= |curveloop|
  {
    && (forall k :: 0 <= k < j ==> EdgeAt(loop, k) in s.recLines)
    && (forall k :: 0 <= k < j && !EdgeAt(loop, k).IsSelfLoop() ==> curveloop[k] == s.recLines[EdgeAt(loop, k)])
    && (forall k :: 0 <= k < j ==> curveloop[k] != 0 && Abs(curveloop[k]) < s.ctLine)
  }

  /** Under the line invariant, the curve loop built so far matches the edges walked so far. */
  lemma {:induction false} EdgeLoopMatches(s: State, loop: seq<int>, j: nat)
    requires LinesValid(s)
    requires j <= |loop|
    ensures var (s', curveloop) := EdgeLoop(s, loop, j);
      EdgesMatch(s', loop, curveloop, j)
  {
    if j > 0 {
      EdgeLoopMatches(s, loop, j - 1);
      EdgeLoopKeepsValid(s, loop, j - 1);
      var (s1, c1) := EdgeLoop(s, loop, j - 1);
      var e := EdgeAt(loop, j - 1);
      VisitEdgeSpec(s1, e);
      EdgesMatchStep(s1, loop, c1, j - 1);
    }
  }

  /** Visiting edge j extends a match of the first j edges to the first j + 1. */
  lemma EdgesMatchStep(s: State, loop: seq<int>, curveloop: seq<int>, j: nat)
    requires LinesValid(s)
    requires j < |loop| && j == |curveloop|
    requires EdgesMatch(s, loop, curveloop, j)
    ensures var (s', id) := VisitEdge(s, EdgeAt(loop, j));
      EdgesMatch(s', loop, curveloop + [id], j + 1)
  {
    var e := EdgeAt(loop, j);
    VisitEdgeSpec(s, e);
    var (s', id) := VisitEdge(s, e);
    var c := curveloop + [id];
    forall k | 0 <= k < j + 1
      ensures EdgeAt(loop, k) in s'.recLines
      ensures !EdgeAt(loop, k).IsSelfLoop() ==> c[k] == s'.recLines[EdgeAt(loop, k)]
      ensures c[k] != 0 && Abs(c[k]) < s'.ctLine
    {
      if k < j {
        assert c[k] == curveloop[k];
      }
    }
  }

  /**
   Each addLine call issued while walking the edges is for an edge whose
   two directions were both unknown before.
   */
  lemma {:induction false} EdgeLoopCallsAreNew(s: State, loop: seq<int>, j: nat)
    requires j <= |loop|
    ensures var s' := EdgeLoop(s, loop, j).0;
      && |s.lineCalls| <= |s'.lineCalls|
      && (forall i :: |s.lineCalls| <= i < |s'.lineCalls| ==>
            s'.lineCalls[i].Forward() !in s.recLines && s'.lineCalls[i].Forward().Reversed() !in s.recLines)
  {
    if j > 0 {
      EdgeLoopCallsAreNew(s, loop, j - 1);
      EdgeLoopGrows(s, loop, j - 1);
      var s1 := EdgeLoop(s, loop, j - 1).0;
      var e := EdgeAt(loop, j - 1);
      var s2 := VisitEdge(s1, e).0;
      forall i | |s.lineCalls| <= i < |s2.lineCalls|
        ensures s2.lineCalls[i].Forward() !in s.recLines && s2.lineCalls[i].Forward().Reversed() !in s.recLines
      {
        if i < |s1.lineCalls| {
          assert s2.lineCalls[i] == s1.lineCalls[i];
        } else {
          assert s2.lineCalls[i].Forward() == e;
        }
      }
    }
  }

  // ---------------------------------------------------------------------------
  // Polygons and the region

  /** Every vertex of the polygon has its key in the point map. */
  ghost predicate Known(s: State, vertex: seq<Point>)
  {
    forall j :: 0 <= j < |vertex| ==> KeyOf(vertex[j]) in s.recPoints
  }

  lemma KnownFromKeys(s: State, vertex: seq<Point>)
    requires KeySet(vertex) <= s.recPoints.Keys
    ensures Known(s, vertex)
  {
    forall j | 0 <= j < |vertex| ensures KeyOf(vertex[j]) in s.recPoints {
      assert KeyOf(vertex[j]) in KeySet(vertex);
    }
  }

  /**
   The edge j of a polygon, walked from vertex j to its cyclic successor, as
   the pair of point ids the state holds for the two vertex keys.
   */
  function PolygonEdge(s: State, vertex: seq<Point>, j: nat): (t: Topology)
    requires j < |vertex|
    requires Known(s, vertex)
    ensures t.firstId == s.recPoints[KeyOf(vertex[j])]
    ensures j + 1 < |vertex| ==> t.secondId == s.recPoints[KeyOf(vertex[j + 1])]
    ensures j + 1 == |vertex| ==> t.secondId == s.recPoints[KeyOf(vertex[0])]
  {
    Topology(s.recPoints[KeyOf(vertex[j])], s.recPoints[KeyOf(NextVertex(vertex, j))])
  }

  /**
   A curve loop matches a polygon in a state when every vertex key and every
   edge is known and each entry is the signed id the line map holds for its
   edge (for an edge that is not a self-loop).
   */
  ghost predicate CurveLoopMatches(s: State, vertex: seq<Point>, curveloop: seq<int>)
  {
    && |curveloop| == |vertex|
    && Known(s, vertex)
    && (forall j :: 0 <= j < |vertex| ==> PolygonEdge(s, vertex, j) in s.recLines)
    && (forall j :: 0 <= j < |vertex| && !PolygonEdge(s, vertex, j).IsSelfLoop() ==>
          curveloop[j] == s.recLines[PolygonEdge(s, vertex, j)])
  }

  lemma MatchesGrow(s: State, s': State, vertex: seq<Point>, curveloop: seq<int>)
    requires CurveLoopMatches(s, vertex, curveloop)
    requires Grows(s, s')
    ensures CurveLoopMatches(s', vertex, curveloop)
  {
    forall j | 0 <= j < |vertex|
      ensures PolygonEdge(s', vertex, j) == PolygonEdge(s, vertex, j)
    {
    }
  }

  lemma {:induction false} PolygonGrows(s: State, vertex: seq<Point>)
    ensures Grows(s, VisitPolygon(s, vertex).0)
  {
    PointLoopGrows(s, vertex);
    var (s1, loop) := PointLoop(s, vertex);
    EdgeLoopGrows(s1, loop, |loop|);
    GrowsTransitive(s, s1, EdgeLoop(s1, loop, |loop|).0);
  }

  /** The keys known after one polygon are the old ones plus its vertices' keys. */
  lemma PolygonKeys(s: State, vertex: seq<Point>)
    ensures VisitPolygon(s, vertex).0.recPoints.Keys == s.recPoints.Keys + KeySet(vertex)
  {
    PointLoopKeys(s, vertex);
    var (s1, loop) := PointLoop(s, vertex);
    EdgeLoopGrows(s1, loop, |loop|);
  }

  /** One polygon keeps both invariants. */
  lemma PolygonKeepsValid(s: State, vertex: seq<Point>)
    requires Valid(s)
    ensures Valid(VisitPolygon(s, vertex).0)
  {
    PointLoopKeepsValid(s, vertex);
    PointLoopGrows(s, vertex);
    var (s1, loop) := PointLoop(s, vertex);
    LinesValidFrame(s, s1);
    EdgeLoopKeepsValid(s1, loop, |loop|);
    EdgeLoopGrows(s1, loop, |loop|);
    PointsValidFrame(s1, EdgeLoop(s1, loop, |loop|).0);
  }

  /** The curve loop built for a polygon matches that polygon's edges. */
  lemma PolygonMatches(s: State, vertex: seq<Point>)
    requires LinesValid(s)
    ensures var (s', curveloop) := VisitPolygon(s, vertex);
      CurveLoopMatches(s', vertex, curveloop)
  {
    PointLoopIds(s, vertex);
    PointLoopGrows(s, vertex);
    var (s1, loop) := PointLoop(s, vertex);
    LinesValidFrame(s, s1);
    EdgeLoopGrows(s1, loop, |loop|);
    EdgeLoopMatches(s1, loop, |loop|);
    var (s2, curveloop) := EdgeLoop(s1, loop, |loop|);
    assert Known(s2, vertex);
    forall j | 0 <= j < |vertex|
      ensures PolygonEdge(s2, vertex, j) == EdgeAt(loop, j)
    {
    }
  }

  lemma RegionKeysSnoc(region: seq<PolygonValue>)
    requires region != []
    ensures RegionKeys(region) == RegionKeys(region[..|region| - 1]) + KeySet(region[|region| - 1].vertex)
  {
    var n := |region|;
    var front := region[..n - 1];
    forall k | k in RegionKeys(region) ensures k in RegionKeys(front) + KeySet(region[n - 1].vertex) {
      var i, j :| 0 <= i < n && 0 <= j < |region[i].vertex| && k == KeyOf(region[i].vertex[j]);
      if i < n - 1 { assert front[i] == region[i]; }
    }
    forall k | k in RegionKeys(front) ensures k in RegionKeys(region) {
      var i, j :| 0 <= i < n - 1 && 0 <= j < |front[i].vertex| && k == KeyOf(front[i].vertex[j]);
      assert region[i] == front[i];
    }
  }

  lemma {:induction false} RegionGrows(s: State, region: seq<PolygonValue>)
    ensures Grows(s, RegionLoop(s, region).0)
    decreases |region|
  {
    if region != [] {
      var front := region[..|region| - 1];
      RegionGrows(s, front);
      var s1 := RegionLoop(s, front).0;
      PolygonGrows(s1, region[|region| - 1].vertex);
      GrowsTransitive(s, s1, VisitPolygon(s1, region[|region| - 1].vertex).0);
    }
  }

  /** The point keys known after the region are the old ones plus those of all its vertices. */
  lemma {:induction false} RegionKeysKnown(s: State, region: seq<PolygonValue>)
    ensures RegionLoop(s, region).0.recPoints.Keys == s.recPoints.Keys + RegionKeys(region)
    decreases |region|
  {
    if region != [] {
      var front := region[..|region| - 1];
      RegionKeysKnown(s, front);
      PolygonKeys(RegionLoop(s, front).0, region[|region| - 1].vertex);
      RegionKeysSnoc(region);
    }
  }

  /** The whole region keeps both invariants. */
  lemma {:induction false} RegionKeepsValid(s: State, region: seq<PolygonValue>)
    requires Valid(s)
    ensures Valid(RegionLoop(s, region).0)
    decreases |region|
  {
    if region != [] {
      var front := region[..|region| - 1];
      RegionKeepsValid(s, front);
      PolygonKeepsValid(RegionLoop(s, front).0, region[|region| - 1].vertex);
    }
  }

  /** Each polygon's entry of `domElelIds` matches that polygon in the final state. */
  lemma {:induction false} RegionMatches(s: State, region: seq<PolygonValue>)
    requires Valid(s)
    ensures var (s', ids) := RegionLoop(s, region);
      forall i :: 0 <= i < |region| ==> CurveLoopMatches(s', region[i].vertex, ids[i])
    decreases |region|
  {
    if region != [] {
      var n := |region|;
      var front := region[..n - 1];
      RegionMatches(s, front);
      RegionKeepsValid(s, front);
      var (s1, ids1) := RegionLoop(s, front);
      PolygonMatches(s1, region[n - 1].vertex);
      PolygonGrows(s1, region[n - 1].vertex);
      var (s2, cl) := VisitPolygon(s1, region[n - 1].vertex);
      forall i | 0 <= i < n
        ensures CurveLoopMatches(s2, region[i].vertex, (ids1 + [cl])[i])
      {
        if i < n - 1 {
          assert front[i] == region[i];
          MatchesGrow(s1, s2, region[i].vertex, ids1[i]);
        }
      }
    }
  }

  /**
   The numbering of a region from the initial state keeps both invariants,
   and each polygon's entry of `domElelIds` matches that polygon.
   */
  lemma NumberingIsValid(region: seq<PolygonValue>)
    ensures var (s, ids) := RegionLoop(Initial, region);
      && Valid(s)
      && forall i :: 0 <= i < |region| ==> CurveLoopMatches(s, region[i].vertex, ids[i])
  {
    InitialIsValid();
    RegionKeepsValid(Initial, region);
    RegionMatches(Initial, region);
  }

  /** Numbering a longer region leaves the curve loops of its first polygons unchanged. */
  lemma {:induction false} RegionLoopPrefix(s: State, region: seq<PolygonValue>, m: nat)
    requires m <= |region|
    ensures RegionLoop(s, region[..m]).1 == RegionLoop(s, region).1[..m]
    decreases |region|
  {
    if m < |region| {
      var n := |region|;
      assert region[..n - 1][..m] == region[..m];
      RegionLoopPrefix(s, region[..n - 1], m);
    } else {
      assert region[..m] == region;
    }
  }

  // ---------------------------------------------------------------------------
  // Which keys the line map ends up holding

  /** Both directions of the first j edges of a loop of point ids. */
  function LoopKeys(loop: seq<int>, j: nat): set<Topology>
    requires j <= |loop|
  {
    if j == 0 then {} else LoopKeys(loop, j - 1) + {EdgeAt(loop, j - 1), EdgeAt(loop, j - 1).Reversed()}
  }

  /** Walking the first j edges adds no key to the line map other than those edges, either way round. */
  lemma {:induction false} EdgeLoopKeys(s: State, loop: seq<int>, j: nat)
    requires j <= |loop|
    ensures EdgeLoop(s, loop, j).0.recLines.Keys <= s.recLines.Keys + LoopKeys(loop, j)
  {
    if j > 0 {
      EdgeLoopKeys(s, loop, j - 1);
      VisitEdgeKeys(EdgeLoop(s, loop, j - 1).0, EdgeAt(loop, j - 1));
    }
  }

  /** Both directions of the first j sides of a polygon, as pairs of point ids. */
  ghost function SideKeys(s: State, vertex: seq<Point>, j: nat): set<Topology>
    requires j <= |vertex| && Known(s, vertex)
  {
    if j == 0 then {}
    else SideKeys(s, vertex, j - 1) + {PolygonEdge(s, vertex, j - 1), PolygonEdge(s, vertex, j - 1).Reversed()}
  }

  lemma {:induction false} LoopKeysAreSideKeys(s: State, vertex: seq<Point>, loop: seq<int>, j: nat)
    requires Known(s, vertex) && j <= |vertex| == |loop|
    requires forall k :: 0 <= k < |vertex| ==> PolygonEdge(s, vertex, k) == EdgeAt(loop, k)
    ensures LoopKeys(loop, j) == SideKeys(s, vertex, j)
  {
    if j > 0 {
      LoopKeysAreSideKeys(s, vertex, loop, j - 1);
    }
  }

  /** A polygon's sides, taken as pairs of point ids, stay the same pairs while the state grows. */
  lemma {:induction false} SideKeysGrow(s: State, s': State, vertex: seq<Point>, j: nat)
    requires j <= |vertex| && Known(s, vertex) && Grows(s, s')
    ensures Known(s', vertex) && SideKeys(s', vertex, j) == SideKeys(s, vertex, j)
  {
    if j > 0 {
      SideKeysGrow(s, s', vertex, j - 1);
      assert PolygonEdge(s', vertex, j - 1) == PolygonEdge(s, vertex, j - 1);
    }
  }

  /** One polygon adds no key to the line map other than its own sides, either way round. */
  lemma PolygonLineKeys(s: State, vertex: seq<Point>)
    ensures var s' := VisitPolygon(s, vertex).0;
      && Known(s', vertex)
      && s'.recLines.Keys <= s.recLines.Keys + SideKeys(s', vertex, |vertex|)
  {
    PointLoopIds(s, vertex);
    PointLoopGrows(s, vertex);
    var (s1, loop) := PointLoop(s, vertex);
    EdgeLoopGrows(s1, loop, |loop|);
    EdgeLoopKeys(s1, loop, |loop|);
    var s2 := EdgeLoop(s1, loop, |loop|).0;
    assert Known(s2, vertex);
    forall k | 0 <= k < |vertex|
      ensures PolygonEdge(s2, vertex, k) == EdgeAt(loop, k)
    {
    }
    LoopKeysAreSideKeys(s2, vertex, loop, |vertex|);
  }

  /** Under the line invariant, both directions of every side of a matching polygon are keys. */
  lemma {:induction false} SideKeysIn(s: State, vertex: seq<Point>, curveloop: seq<int>, j: nat)
    requires LinesValid(s) && CurveLoopMatches(s, vertex, curveloop) && j <= |vertex|
    ensures SideKeys(s, vertex, j) <= s.recLines.Keys
  {
    if j > 0 {
      SideKeysIn(s, vertex, curveloop, j - 1);
      assert LineEntryOk(s, PolygonEdge(s, vertex, j - 1));
    }
  }

  /** The vertex keys of the first n polygons are all in the point map. */
  ghost predicate KnownUpTo(s: State, region: seq<PolygonValue>, n: nat)
    requires n <= |region|
  {
    forall i :: 0 <= i < n ==> Known(s, region[i].vertex)
  }

  /** Both directions of every side of the first n polygons. */
  ghost function RegionSideKeys(s: State, region: seq<PolygonValue>, n: nat): set<Topology>
    requires n <= |region| && KnownUpTo(s, region, n)
  {
    if n == 0 then {}
    else RegionSideKeys(s, region, n - 1) + SideKeys(s, region[n - 1].vertex, |region[n - 1].vertex|)
  }

  /** The sides of the first n polygons stay the same pairs while the state grows. */
  lemma {:induction false} RegionSideKeysGrow(s: State, s': State, region: seq<PolygonValue>, n: nat)
    requires n <= |region| && KnownUpTo(s, region, n) && Grows(s, s')
    ensures KnownUpTo(s', region, n) && RegionSideKeys(s', region, n) == RegionSideKeys(s, region, n)
  {
    forall i | 0 <= i < n ensures Known(s', region[i].vertex) {
      SideKeysGrow(s, s', region[i].vertex, 0);
    }
    if n > 0 {
      RegionSideKeysGrow(s, s', region, n - 1);
      SideKeysGrow(s, s', region[n - 1].vertex, |region[n - 1].vertex|);
    }
  }

  /** Numbering the first n polygons adds no key to the line map other than their sides, either way round. */
  lemma {:induction false} RegionLineKeysAdded(s: State, region: seq<PolygonValue>, n: nat)
    requires n <= |region|
    ensures var s' := RegionLoop(s, region[..n]).0;
      && KnownUpTo(s', region, n)
      && s'.recLines.Keys <= s.recLines.Keys + RegionSideKeys(s', region, n)
  {
    if n > 0 {
      RegionLineKeysAdded(s, region, n - 1);
      RegionLoopStep(s, region, n - 1);
      RegionLineKeysStep(s, RegionLoop(s, region[..n - 1]).0, region, n);
    }
  }

  /** One more polygon keeps the line map's keys within the sides numbered so far. */
  lemma RegionLineKeysStep(s: State, s1: State, region: seq<PolygonValue>, n: nat)
    requires 0 < n <= |region| && KnownUpTo(s1, region, n - 1)
    requires s1.recLines.Keys <= s.recLines.Keys + RegionSideKeys(s1, region, n - 1)
    ensures var s2 := VisitPolygon(s1, region[n - 1].vertex).0;
      && KnownUpTo(s2, region, n)
      && s2.recLines.Keys <= s.recLines.Keys + RegionSideKeys(s2, region, n)
  {
    var v := region[n - 1].vertex;
    PolygonLineKeys(s1, v);
    PolygonGrows(s1, v);
    var s2 := VisitPolygon(s1, v).0;
    RegionSideKeysGrow(s1, s2, region, n - 1);
    forall i | 0 <= i < n ensures Known(s2, region[i].vertex) {
      if i < n - 1 {
        assert Known(s2, region[i].vertex);
      }
    }
    ghost var earlier, own := RegionSideKeys(s2, region, n - 1), SideKeys(s2, v, |v|);
    assert RegionSideKeys(s2, region, n) == earlier + own;
    assert s2.recLines.Keys <= s1.recLines.Keys + own;
  }

  /** Under the line invariant, both directions of every side of the first n matching polygons are keys. */
  lemma {:induction false} RegionSideKeysIn(s: State, region: seq<PolygonValue>, ids: seq<seq<int>>, n: nat)
    requires n <= |region| == |ids| && LinesValid(s)
    requires forall i :: 0 <= i < n ==> CurveLoopMatches(s, region[i].vertex, ids[i])
    ensures KnownUpTo(s, region, n) && RegionSideKeys(s, region, n) <= s.recLines.Keys
  {
    if n > 0 {
      RegionSideKeysIn(s, region, ids, n - 1);
      SideKeysIn(s, region[n - 1].vertex, ids[n - 1], |region[n - 1].vertex|);
    }
  }

  /**
   The keys of the final line map are exactly the sides of the region's
   polygons, each in both directions, and every addLine call registers one
   of them; with `RegionLineIds` the M calls are one per undirected side.
   */
  lemma RegionLineKeys(region: seq<PolygonValue>)
    ensures var s := RegionLoop(Initial, region).0;
      && KnownUpTo(s, region, |region|)
      && s.recLines.Keys == RegionSideKeys(s, region, |region|)
      && forall i :: 0 <= i < |s.lineCalls| ==> s.lineCalls[i].Forward() in RegionSideKeys(s, region, |region|)
  {
    var (s, ids) := RegionLoop(Initial, region);
    assert region[..|region|] == region;
    RegionLineKeysAdded(Initial, region, |region|);
    NumberingIsValid(region);
    RegionSideKeysIn(s, region, ids, |region|);
    forall i | 0 <= i < |s.lineCalls|
      ensures s.lineCalls[i].Forward() in RegionSideKeys(s, region, |region|)
    {
      assert LineCallOk(s, i);
    }
  }

  // ---------------------------------------------------------------------------
  // What the numbering guarantees

  /**
   In a state with dense point ids no id is given to two keys, every key's
   id lies in 1..N for the N calls issued, and the i-th call's key holds i + 1.
   */
  lemma PointIdsDense(s: State)
    requires PointsValid(s)
    ensures forall k1, k2 :: k1 in s.recPoints && k2 in s.recPoints && s.recPoints[k1] == s.recPoints[k2] ==> k1 == k2
    ensures forall k :: k in s.recPoints ==> 1 <= s.recPoints[k] <= |s.pointCalls|
    ensures forall i :: 0 <= i < |s.pointCalls| ==>
      && s.pointCalls[i].tag == i + 1
      && KeyOf(s.pointCalls[i].p) in s.recPoints
      && s.recPoints[KeyOf(s.pointCalls[i].p)] == i + 1
  {
    forall k1, k2 | k1 in s.recPoints && k2 in s.recPoints && s.recPoints[k1] == s.recPoints[k2]
      ensures k1 == k2
    {
      assert PointEntryOk(s, k1) && PointEntryOk(s, k2);
    }
    forall k | k in s.recPoints ensures 1 <= s.recPoints[k] <= |s.pointCalls| {
      assert PointEntryOk(s, k);
    }
    forall i | 0 <= i < |s.pointCalls|
      ensures s.pointCalls[i].tag == i + 1 && KeyOf(s.pointCalls[i].p) in s.recPoints
      ensures s.recPoints[KeyOf(s.pointCalls[i].p)] == i + 1
    {
      assert PointCallOk(s, i);
    }
  }

  /**
   Point ids are 1..N for the N distinct (x, y) keys of the region: no id is
   given to two keys, every id up to N is in use, and the addPoint calls
   carry the tags 1..N in order, one per key.
   */
  lemma RegionPointIds(region: seq<PolygonValue>)
    ensures var s := RegionLoop(Initial, region).0;
      && s.recPoints.Keys == RegionKeys(region)
      && |RegionKeys(region)| == s.ctPoint - 1 == |s.pointCalls|
      && (forall k1, k2 :: k1 in s.recPoints && k2 in s.recPoints && s.recPoints[k1] == s.recPoints[k2] ==> k1 == k2)
      && (forall k :: k in s.recPoints ==> 1 <= s.recPoints[k] <= |RegionKeys(region)|)
      && (forall i :: 0 <= i < |s.pointCalls| ==>
            && s.pointCalls[i].tag == i + 1
            && KeyOf(s.pointCalls[i].p) in s.recPoints
            && s.recPoints[KeyOf(s.pointCalls[i].p)] == i + 1)
  {
    InitialIsValid();
    RegionKeepsValid(Initial, region);
    RegionKeysKnown(Initial, region);
    var s := RegionLoop(Initial, region).0;
    assert s.recPoints.Keys == RegionKeys(region);
    assert |s.recPoints| == |s.recPoints.Keys|;
    PointIdsDense(s);
  }

  /**
   Two addLine calls never register the same undirected edge: every line id
   stands for exactly one pair of points.
   */
  lemma LineCallsDistinct(s: State, i1: nat, i2: nat)
    requires LinesValid(s)
    requires i1 < |s.lineCalls| && i2 < |s.lineCalls| && i1 != i2
    ensures s.lineCalls[i1].Forward() != s.lineCalls[i2].Forward()
    ensures s.lineCalls[i1].Forward() != s.lineCalls[i2].Forward().Reversed()
  {
    var t1, t2 := s.lineCalls[i1].Forward(), s.lineCalls[i2].Forward();
    assert t1.Reversed().Reversed() == t1;
    assert t2.Reversed().Reversed() == t2;
    assert LineCallOk(s, i1) && LineCallOk(s, i2);
    assert LineEntryOk(s, t1.Reversed()) && LineEntryOk(s, t2.Reversed());
  }

  /**
   Line ids are dense and signed, stated on the calls: the i-th addLine call
   carries tag i + 1; every key of the line map holds +v or -v for a v in
   1..M, the M calls issued, and the v-th call registered that key or its
   reverse; distinct calls register distinct undirected edges.
   */
  ghost predicate DenseLineIds(s: State)
  {
    && (forall i :: 0 <= i < |s.lineCalls| ==> s.lineCalls[i].tag == i + 1)
    && (forall t :: t in s.recLines ==>
          && 1 <= Abs(s.recLines[t]) <= |s.lineCalls|
          && (s.lineCalls[Abs(s.recLines[t]) - 1].Forward() == t ||
              s.lineCalls[Abs(s.recLines[t]) - 1].Forward() == t.Reversed()))
    && (forall i1, i2 :: 0 <= i1 < |s.lineCalls| && 0 <= i2 < |s.lineCalls| && i1 != i2 ==>
          s.lineCalls[i1].Forward() != s.lineCalls[i2].Forward() &&
          s.lineCalls[i1].Forward() != s.lineCalls[i2].Forward().Reversed())
  }

  /** The line invariant gives dense signed line ids. */
  lemma LineIdsDense(s: State)
    requires LinesValid(s)
    ensures DenseLineIds(s)
  {
    forall t | t in s.recLines
      ensures 1 <= Abs(s.recLines[t]) <= |s.lineCalls|
      ensures s.lineCalls[Abs(s.recLines[t]) - 1].Forward() == t ||
              s.lineCalls[Abs(s.recLines[t]) - 1].Forward() == t.Reversed()
    {
      assert LineEntryOk(s, t);
    }
    forall i | 0 <= i < |s.lineCalls| ensures s.lineCalls[i].tag == i + 1 {
      assert LineCallOk(s, i);
    }
    forall i1, i2 | 0 <= i1 < |s.lineCalls| && 0 <= i2 < |s.lineCalls| && i1 != i2
      ensures s.lineCalls[i1].Forward() != s.lineCalls[i2].Forward()
      ensures s.lineCalls[i1].Forward() != s.lineCalls[i2].Forward().Reversed()
    {
      LineCallsDistinct(s, i1, i2);
    }
  }

  /**
   Line ids are dense: after the region, M addLine calls were issued with
   tags 1..M, every key of the line map holds +v or -v for a v in 1..M whose
   call registered that key or its reverse, and distinct calls register
   distinct undirected edges. That the keys are exactly the region's sides
   in both directions is `RegionLineKeys`.
   */
  lemma RegionLineIds(region: seq<PolygonValue>)
    ensures var s := RegionLoop(Initial, region).0;
      s.ctLine == |s.lineCalls| + 1 && DenseLineIds(s)
  {
    NumberingIsValid(region);
    LineIdsDense(RegionLoop(Initial, region).0);
  }

  /**
   Any two edges of the region's polygons that join the same two distinct
   points get the same line id when walked in the same direction and
   opposite ids when walked in opposite directions; edges with the same
   line id (up to sign) join the same two points.
   */
  lemma SharedEdgeIds(region: seq<PolygonValue>, i1: nat, j1: nat, i2: nat, j2: nat)
    requires i1 < |region| && j1 < |region[i1].vertex|
    requires i2 < |region| && j2 < |region[i2].vertex|
    ensures var (s, ids) := RegionLoop(Initial, region);
      && Known(s, region[i1].vertex)
      && Known(s, region[i2].vertex)
      && (var e1 := PolygonEdge(s, region[i1].vertex, j1);
          var e2 := PolygonEdge(s, region[i2].vertex, j2);
          && (!e1.IsSelfLoop() && e1 == e2 ==> ids[i1][j1] == ids[i2][j2])
          && (!e1.IsSelfLoop() && e1 == e2.Reversed() ==> ids[i1][j1] == -ids[i2][j2])
          && (!e1.IsSelfLoop() && !e2.IsSelfLoop() && Abs(ids[i1][j1]) == Abs(ids[i2][j2]) ==>
                e1 == e2 || e1 == e2.Reversed()))
  {
    var (s, ids) := RegionLoop(Initial, region);
    NumberingIsValid(region);
    assert CurveLoopMatches(s, region[i1].vertex, ids[i1]);
    assert CurveLoopMatches(s, region[i2].vertex, ids[i2]);
    CurveLoopIdsAgree(s, region[i1].vertex, ids[i1], j1, region[i2].vertex, ids[i2], j2);
  }

  /**
   Under the line invariant, two entries of matching curve loops agree as
   their edges do: a proper edge has a nonzero id, the same edge gives the
   same id, the reversed edge the negated id, and equal ids up to sign come
   from the same undirected edge.
   */
  lemma CurveLoopIdsAgree(s: State, v1: seq<Point>, c1: seq<int>, j1: nat, v2: seq<Point>, c2: seq<int>, j2: nat)
    requires LinesValid(s)
    requires CurveLoopMatches(s, v1, c1) && CurveLoopMatches(s, v2, c2)
    requires j1 < |v1| && j2 < |v2|
    ensures var (e1, e2) := (PolygonEdge(s, v1, j1), PolygonEdge(s, v2, j2));
      && (!e1.IsSelfLoop() ==> c1[j1] != 0)
      && (!e1.IsSelfLoop() && e1 == e2 ==> c1[j1] == c2[j2])
      && (!e1.IsSelfLoop() && e1 == e2.Reversed() ==> c1[j1] == -c2[j2])
      && (!e1.IsSelfLoop() && !e2.IsSelfLoop() && Abs(c1[j1]) == Abs(c2[j2]) ==>
            e1 == e2 || e1 == e2.Reversed())
  {
    var e1 := PolygonEdge(s, v1, j1);
    var e2 := PolygonEdge(s, v2, j2);
    assert e2.Reversed().Reversed() == e2;
    assert LineEntryOk(s, e1) && LineEntryOk(s, e2);
  }

  /** Side j of a polygon has two different end points. */
  predicate ProperSide(vertex: seq<Point>, j: nat)
    requires j < |vertex|
  {
    KeyOf(vertex[j]) != KeyOf(NextVertex(vertex, j))
  }

  /**
   The shared-topology guarantee in terms of the region's points: two proper
   sides get the same line id exactly when they run between the same two
   points in the same direction, and opposite ids exactly when they run
   between them in opposite directions.
   */
  lemma SideIds(region: seq<PolygonValue>, i1: nat, j1: nat, i2: nat, j2: nat)
    requires i1 < |region| && j1 < |region[i1].vertex| && ProperSide(region[i1].vertex, j1)
    requires i2 < |region| && j2 < |region[i2].vertex| && ProperSide(region[i2].vertex, j2)
    ensures var ids := RegionLoop(Initial, region).1;
      var (a1, b1) := (KeyOf(region[i1].vertex[j1]), KeyOf(NextVertex(region[i1].vertex, j1)));
      var (a2, b2) := (KeyOf(region[i2].vertex[j2]), KeyOf(NextVertex(region[i2].vertex, j2)));
      && (ids[i1][j1] == ids[i2][j2] <==> a1 == a2 && b1 == b2)
      && (ids[i1][j1] == -ids[i2][j2] <==> a1 == b2 && b1 == a2)
  {
    var (s, ids) := RegionLoop(Initial, region);
    NumberingIsValid(region);
    RegionPointIds(region);
    var v1, v2 := region[i1].vertex, region[i2].vertex;
    assert CurveLoopMatches(s, v1, ids[i1]) && CurveLoopMatches(s, v2, ids[i2]);
    CurveLoopIdsAgree(s, v1, ids[i1], j1, v2, ids[i2], j2);
    var e1 := PolygonEdge(s, v1, j1);
    var e2 := PolygonEdge(s, v2, j2);
    assert e1 == Topology(s.recPoints[KeyOf(v1[j1])], s.recPoints[KeyOf(NextVertex(v1, j1))]);
    assert e2 == Topology(s.recPoints[KeyOf(v2[j2])], s.recPoints[KeyOf(NextVertex(v2, j2))]);
  }
}
