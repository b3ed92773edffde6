/**
  The mind-map view: a slide becomes a star graph, its title at the root and
  one child per point, laid out top to bottom. The layout engine itself is a
  parameter: it gives the centre of every node's 280 x 100 box.
 */
module VisualizationMode {
  import opened Wrappers
  import opened Text
  import opened SlideStore

  /** The box every node occupies during layout. */
  const NodeWidth: real := 280.0
  const NodeHeight: real := 100.0

  /** The id of the root node. */
  const RootId: string := "root"

  datatype Point = Point(x: real, y: real)

  /** The side of a node an edge leaves or enters. */
  datatype Side = Top | Bottom

  /** A node as built, before layout (the placeholder position (0, 0) is not modelled). */
  datatype Node = Node(id: string, text: string)

  datatype Edge = Edge(id: string, source: string, target: string)

  /** A node after layout: its top-left corner and the sides its edges attach to. */
  datatype PlacedNode = PlacedNode(id: string, text: string, position: Point, targetPosition: Side, sourcePosition: Side)

  /** `p-${i}`: the id of the node of point `i`. */
  function PointId(i: nat): string {
    "p-" + Decimal(i)
  }

  /** `e-${i}`: the id of the edge to point `i`. */
  function EdgeId(i: nat): string {
    "e-" + Decimal(i)
  }

  /** Point ids are pairwise distinct and never the root's. */
  lemma PointIdsDistinct(i: nat, j: nat)
    ensures PointId(i) != RootId
    ensures i != j ==> PointId(i) != PointId(j)
  {
    assert PointId(i)[0] == 'p';
    assert PointId(i)[2..] == Decimal(i) && PointId(j)[2..] == Decimal(j);
    if i != j {
      DecimalInjective(i, j);
    }
  }

  /** The ids of a list of nodes. */
  function Ids(nodes: seq<Node>): (ids: set<string>)
    ensures forall i :: 0 <= i < |nodes| ==> nodes[i].id in ids
  {
    set n | n in nodes :: n.id
  }

  /**
    The graph construction of the view's `useMemo`: nothing for a missing slide
    or an empty title; otherwise the root labelled with the title, then for each
    point in order its node and the edge from the root to it.
   */
  method BuildGraph(slide: Option<Slide>) returns (nodes: seq<Node>, edges: seq<Edge>)
    ensures slide.None? || slide.value.title == "" ==> nodes == [] && edges == []
    ensures slide.Some? && slide.value.title != "" ==>
      var points := slide.value.points;
      && |nodes| == |points| + 1 && |edges| == |points|
      && nodes[0] == Node(RootId, slide.value.title)
      && (forall i :: 0 <= i < |points| ==> nodes[i + 1] == Node(PointId(i), points[i]))
      && (forall i :: 0 <= i < |points| ==> edges[i] == Edge(EdgeId(i), RootId, PointId(i)))
    ensures forall i, j :: 0 <= i < j < |nodes| ==> nodes[i].id != nodes[j].id
    ensures forall e :: e in edges ==> e.source in Ids(nodes) && e.target in Ids(nodes)
  {
    if slide.None? || slide.value.title == "" {
      return [], [];
    }
    var points := slide.value.points;
    nodes := [Node(RootId, slide.value.title)];
    edges := [];
    for i := 0 to |points|
      invariant |nodes| == i + 1 && |edges| == i
      invariant nodes[0] == Node(RootId, slide.value.title)
      invariant forall k :: 0 <= k < i ==> nodes[k + 1] == Node(PointId(k), points[k])
      invariant forall k :: 0 <= k < i ==> edges[k] == Edge(EdgeId(k), RootId, PointId(k))
    {
      nodes := nodes + [Node(PointId(i), points[i])];
      edges := edges + [Edge(EdgeId(i), RootId, PointId(i))];
    }
    forall i, j | 0 <= i < j < |nodes|
      ensures nodes[i].id != nodes[j].id
    {
      if i == 0 {
        PointIdsDistinct(j - 1, j - 1);
      } else {
        PointIdsDistinct(i - 1, j - 1);
      }
    }
    forall e | e in edges
      ensures e.source in Ids(nodes) && e.target in Ids(nodes)
    {
      var k :| 0 <= k < |edges| && edges[k] == e;
      assert nodes[0].id == e.source && nodes[k + 1].id == e.target;
    }
  }

  /** The top-left corner of a box centred on `centre`. */
  function TopLeft(centre: Point): (corner: Point)
    ensures corner.x + NodeWidth / 2.0 == centre.x && corner.y + NodeHeight / 2.0 == centre.y
  {
    Point(centre.x - NodeWidth / 2.0, centre.y - NodeHeight / 2.0)
  }

  /**
    `getLayoutedElements`: `centre` is the layout engine's answer (the centre it
    gives each node id for this graph). Every node keeps its id and label, in
    order, and is moved so that its box's top-left corner sits where the centre
    minus half the box is; edges enter at the top and leave at the bottom.
   */
  function Layout(nodes: seq<Node>, edges: seq<Edge>, centre: string -> Point): (r: (seq<PlacedNode>, seq<Edge>))
    ensures |r.0| == |nodes| && r.1 == edges
    ensures forall i :: 0 <= i < |nodes| ==>
      && r.0[i].id == nodes[i].id && r.0[i].text == nodes[i].text
      && r.0[i].position.x == centre(nodes[i].id).x - 140.0
      && r.0[i].position.y == centre(nodes[i].id).y - 50.0
      && r.0[i].targetPosition == Top && r.0[i].sourcePosition == Bottom
  {
    var placed := seq(|nodes|, i requires 0 <= i < |nodes| =>
      PlacedNode(nodes[i].id, nodes[i].text, TopLeft(centre(nodes[i].id)), Top, Bottom));
    (placed, edges)
  }

  /** The whole `useMemo`: the star graph of the slide, laid out. */
  method Visualize(slide: Option<Slide>, centre: string -> Point) returns (nodes: seq<PlacedNode>, edges: seq<Edge>)
    ensures slide.None? || slide.value.title == "" ==> nodes == [] && edges == []
    ensures slide.Some? && slide.value.title != "" ==>
      && |nodes| == |slide.value.points| + 1 && |edges| == |slide.value.points|
      && nodes[0].id == RootId && nodes[0].text == slide.value.title
      && (forall i :: 0 <= i < |slide.value.points| ==>
            nodes[i + 1].id == PointId(i) && nodes[i + 1].text == slide.value.points[i])
      && (forall i :: 0 <= i < |slide.value.points| ==> edges[i] == Edge(EdgeId(i), RootId, PointId(i)))
    ensures forall i, j :: 0 <= i < j < |nodes| ==> nodes[i].id != nodes[j].id
    ensures forall e :: e in edges ==> e.source in (set n | n in nodes :: n.id) && e.target in (set n | n in nodes :: n.id)
    ensures forall i :: 0 <= i < |nodes| ==>
      nodes[i].position == TopLeft(centre(nodes[i].id)) && nodes[i].targetPosition == Top && nodes[i].sourcePosition == Bottom
  {
    var built, links := BuildGraph(slide);
    var laid := Layout(built, links, centre);
    nodes, edges := laid.0, laid.1;
    assert Ids(built) == (set n | n in nodes :: n.id) by {
      forall id | id in Ids(built)
        ensures id in (set n | n in nodes :: n.id)
      {
        var k :| 0 <= k < |built| && built[k].id == id;
      }
      forall id | id in (set n | n in nodes :: n.id)
        ensures id in Ids(built)
      {
        var k :| 0 <= k < |nodes| && nodes[k].id == id;
      }
    }
  }
}
