/**
 The polygon container and the fixed demo region built from it.
 */
module Polygons {
  import opened Geometry

  /** The copy of a polygon that `vector<Polygon>::push_back` stores. */
  datatype PolygonValue = PolygonValue(vertex: seq<Point>, name: string)

  /** A named, ordered list of vertices, updated in place. */
  class Polygon {
    var vertex: seq<Point>
    var name: string

    /** The default polygon: no vertices and an empty name. */
    constructor ()
      ensures vertex == [] && name == ""
    {
      vertex := [];
      name := "";
    }

    /** A polygon over the given vertices, named "poly" unless a name is given. */
    constructor FromVertex(vertex: seq<Point>, name: string := "poly")
      ensures this.vertex == vertex && this.name == name
    {
      this.vertex := vertex;
      this.name := name;
    }

    /** The value a copy of this polygon holds. */
    function Value(): (v: PolygonValue)
      reads this
      ensures v.vertex == vertex && v.name == name
    {
      PolygonValue(vertex, name)
    }

    /** Drops every vertex; the name stays. */
    method Clear()
      modifies this
      ensures vertex == [] && name == old(name)
    {
      vertex := [];
    }

    /** Adds `p` after the last vertex and changes nothing else. */
    method Append(p: Point)
      modifies this
      ensures vertex == old(vertex) + [p] && name == old(name)
    {
      vertex := vertex + [p];
    }

    /** Replaces the vertex list; the name stays. */
    method SetPoints(vertex: seq<Point>)
      modifies this
      ensures this.vertex == vertex && name == old(name)
    {
      this.vertex := vertex;
    }

    /** Replaces the name; the vertices stay. */
    method SetName(name: string)
      modifies this
      ensures this.name == name && vertex == old(vertex)
    {
      this.name := name;
    }
  }

  function P(x: int, y: int): Point
  {
    Point(x, y, 0)
  }

  /** The bottom strip of the demo region, with the corners of the three squares on its top edge. */
  function Poly1(): PolygonValue
  {
    PolygonValue([P(0, 0), P(8, 0), P(8, 1), P(6, 1), P(5, 1), P(3, 1), P(2, 1), P(0, 1)], "poly_1")
  }

  function Poly2(): PolygonValue
  {
    PolygonValue([P(0, 1), P(2, 1), P(2, 2), P(0, 2)], "poly_2")
  }

  function Poly3(): PolygonValue
  {
    PolygonValue([P(3, 1), P(5, 1), P(5, 2), P(3, 2)], "poly_3")
  }

  function Poly4(): PolygonValue
  {
    PolygonValue([P(6, 1), P(8, 1), P(8, 2), P(6, 2)], "poly_4")
  }

  /** The top strip, resting on the three squares. */
  function Poly5(): PolygonValue
  {
    PolygonValue([P(0, 2), P(2, 2), P(3, 2), P(5, 2), P(6, 2), P(8, 2), P(8, 3), P(0, 3)], "poly_5")
  }

  /** The five polygons of the demo region, in insertion order. */
  function DemoPolygons(): seq<PolygonValue>
  {
    [Poly1(), Poly2(), Poly3(), Poly4(), Poly5()]
  }

  /** Refills the reused polygon with the vertices and the name of poly_1. */
  method FillPoly1(poly: Polygon)
    modifies poly
    ensures poly.Value() == Poly1()
  {
    var z := 0;
    poly.Clear();
    poly.Append(Point(0, 0, z));
    poly.Append(Point(8, 0, z));
    poly.Append(Point(8, 1, z));
    poly.Append(Point(6, 1, z));
    poly.Append(Point(5, 1, z));
    poly.Append(Point(3, 1, z));
    poly.Append(Point(2, 1, z));
    poly.Append(Point(0, 1, z));
    poly.SetName("poly_1");
    assert poly.vertex == [Point(0, 0, z), Point(8, 0, z), Point(8, 1, z), Point(6, 1, z), Point(5, 1, z), Point(3, 1, z), Point(2, 1, z), Point(0, 1, z)];
  }

  /** Refills the reused polygon with the vertices and the name of poly_2. */
  method FillPoly2(poly: Polygon)
    modifies poly
    ensures poly.Value() == Poly2()
  {
    var z := 0;
    poly.Clear();
    poly.Append(Point(0, 1, z));
    poly.Append(Point(2, 1, z));
    poly.Append(Point(2, 2, z));
    poly.Append(Point(0, 2, z));
    poly.SetName("poly_2");
    assert poly.vertex == [Point(0, 1, z), Point(2, 1, z), Point(2, 2, z), Point(0, 2, z)];
  }

  /** Refills the reused polygon with the vertices and the name of poly_3. */
  method FillPoly3(poly: Polygon)
    modifies poly
    ensures poly.Value() == Poly3()
  {
    var z := 0;
    poly.Clear();
    poly.Append(Point(3, 1, z));
    poly.Append(Point(5, 1, z));
    poly.Append(Point(5, 2, z));
    poly.Append(Point(3, 2, z));
    poly.SetName("poly_3");
    assert poly.vertex == [Point(3, 1, z), Point(5, 1, z), Point(5, 2, z), Point(3, 2, z)];
  }

  /** Refills the reused polygon with the vertices and the name of poly_4. */
  method FillPoly4(poly: Polygon)
    modifies poly
    ensures poly.Value() == Poly4()
  {
    var z := 0;
    poly.Clear();
    poly.Append(Point(6, 1, z));
    poly.Append(Point(8, 1, z));
    poly.Append(Point(8, 2, z));
    poly.Append(Point(6, 2, z));
    poly.SetName("poly_4");
    assert poly.vertex == [Point(6, 1, z), Point(8, 1, z), Point(8, 2, z), Point(6, 2, z)];
  }

  /** Refills the reused polygon with the vertices and the name of poly_5. */
  method FillPoly5(poly: Polygon)
    modifies poly
    ensures poly.Value() == Poly5()
  {
    var z := 0;
    poly.Clear();
    poly.Append(Point(0, 2, z));
    poly.Append(Point(2, 2, z));
    poly.Append(Point(3, 2, z));
    poly.Append(Point(5, 2, z));
    poly.Append(Point(6, 2, z));
    poly.Append(Point(8, 2, z));
    poly.Append(Point(8, 3, z));
    poly.Append(Point(0, 3, z));
    poly.SetName("poly_5");
    assert poly.vertex == [Point(0, 2, z), Point(2, 2, z), Point(3, 2, z), Point(5, 2, z), Point(6, 2, z), Point(8, 2, z), Point(8, 3, z), Point(0, 3, z)];
  }

  /**
   Appends the five demo polygons to `region`, building each in one reused
   polygon that is cleared, filled vertex by vertex, named and copied.
   */
  method GeneratePolygons(region: seq<PolygonValue>) returns (r: seq<PolygonValue>)
    ensures r == region + DemoPolygons()
    ensures |r| == |region| + 5 && r[..|region|] == region
  {
    r := region;
    var poly := new Polygon();
    FillPoly1(poly);
    r := r + [poly.Value()];
    FillPoly2(poly);
    r := r + [poly.Value()];
    FillPoly3(poly);
    r := r + [poly.Value()];
    FillPoly4(poly);
    r := r + [poly.Value()];
    FillPoly5(poly);
    r := r + [poly.Value()];
  }
}
