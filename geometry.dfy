/**
 The value classes of the one-dimensional gmsh demo that the numbering
 uses: points and directed topology keys, together with the two
 comparators that order them as keys of an ordered map.

 Coordinates are modelled as integers: the numbering code only ever tests
 them with `==` and `<`, and the demo data is integer valued.
 */
module Geometry {

  /** A point of the plane with a (mesh-irrelevant) z coordinate. */
  datatype Point = Point(x: int, y: int, z: int)
  {
    /**
     The point comparator used by the point map. `this.Less(p)` holds when
     p comes strictly before this one: x decides, then y; z is never looked at.
     */
    predicate Less(p: Point)
    {
      if p.x == x then p.y < y else p.x < x
    }
  }

  /** The part of a point that the point comparator looks at. */
  datatype PointKey = PointKey(x: int, y: int)

  function KeyOf(p: Point): PointKey
  {
    PointKey(p.x, p.y)
  }

  /** Two points are the same key of the point map when neither is less than the other. */
  predicate SameKey(a: Point, b: Point)
  {
    !a.Less(b) && !b.Less(a)
  }

  /** A directed pair of point ids; the key of the line map. */
  datatype Topology = Topology(firstId: int, secondId: int)
  {
    /**
     The topology comparator used by the line map: the first ids decide,
     then the second ids.
     */
    predicate Less(topo: Topology)
    {
      if topo.firstId == firstId then topo.secondId < secondId else topo.firstId < firstId
    }

    /** The same pair walked the other way. */
    function Reversed(): Topology
    {
      Topology(secondId, firstId)
    }

    predicate IsSelfLoop()
    {
      firstId == secondId
    }
  }

  predicate SameTopology(a: Topology, b: Topology)
  {
    !a.Less(b) && !b.Less(a)
  }

  /** The point comparator is a strict order. */
  lemma PointLessIsStrictOrder(a: Point, b: Point, c: Point)
    ensures !a.Less(a)
    ensures a.Less(b) ==> !b.Less(a)
    ensures a.Less(b) && b.Less(c) ==> a.Less(c)
  {
  }

  /** The point comparator is total on keys: any two points with different keys are ordered. */
  lemma PointLessIsTotalOnKeys(a: Point, b: Point)
    ensures KeyOf(a) != KeyOf(b) ==> a.Less(b) || b.Less(a)
  {
  }

  /**
   Equivalence under the point comparator is exactly equality of (x, y):
   two points that differ only in z are one key of the point map.
   */
  lemma SameKeyIffSameXY(a: Point, b: Point)
    ensures SameKey(a, b) <==> KeyOf(a) == KeyOf(b)
    ensures SameKey(a, b) <==> a.x == b.x && a.y == b.y
  {
  }

  /** The topology comparator is a strict order. */
  lemma TopologyLessIsStrictOrder(s: Topology, t: Topology, u: Topology)
    ensures !s.Less(s)
    ensures s.Less(t) ==> !t.Less(s)
    ensures s.Less(t) && t.Less(u) ==> s.Less(u)
  {
  }

  /**
   Equivalence under the topology comparator is equality of the pair, so
   (a, b) and (b, a) are different keys whenever a != b.
   */
  lemma SameTopologyIffEqual(s: Topology, t: Topology)
    ensures SameTopology(s, t) <==> s == t
    ensures s != t ==> s.Less(t) || t.Less(s)
    ensures SameTopology(s, s.Reversed()) <==> s.IsSelfLoop()
  {
  }
}
