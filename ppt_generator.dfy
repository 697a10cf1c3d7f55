/**
 * PptGeneratorService.generateSlide with the rendering library stripped off:
 * the plan it hands to the library. Nodes sit on a fixed three-column grid,
 * their bounds are kept in an id-to-rectangle map, every link whose target
 * id is in that map becomes a line anchored on the box between the two box
 * centres, and each node's shape, fill colour and label follow its type and
 * image. Java computes coordinates as doubles; every value here is an integer
 * (widths and heights are even), so int arithmetic is exact.
 */
module PptGenerator {
  import opened Wrappers
  import opened ServiceModel

  const Columns: int := 3
  const ShapeWidth: int := 200
  const ShapeHeight: int := 100
  const HorizontalSpacing: int := 250
  const VerticalSpacing: int := 150
  const StartX: int := 100
  const StartY: int := 100
  const PageWidth: int := 1920
  const PageHeight: int := 1080
  const NoServicesText: string := "No services to display"

  /** A Rectangle2D anchor: top-left corner, width and height. */
  datatype Rect = Rect(x: int, y: int, width: int, height: int)

  /** The two auto-shape kinds a node is drawn with. */
  datatype Geometry = MagneticDisk | RoundRect

  datatype Rgb = Rgb(red: int, green: int, blue: int)

  const Orange: Rgb := Rgb(255, 165, 0)
  const Blue: Rgb := Rgb(0, 100, 200)

  /** A node's shape: kind, fill colour, anchor and the texts of its label
      runs (the id run, then optionally the image run). */
  datatype NodeShape = NodeShape(geometry: Geometry, fill: Rgb, anchor: Rect, runs: seq<JString>)

  /** The slide: the placeholder text box for an empty list, or the page size,
      the node shapes in list order and the connector line anchors in drawing
      order. */
  datatype Slide =
    | Placeholder(text: string, anchor: Rect)
    | Diagram(pageWidth: int, pageHeight: int, shapes: seq<NodeShape>, connectors: seq<Rect>)

  /** The bounds of the node at list index i. */
  function Cell(i: nat): Rect {
    Rect(StartX + (i % Columns) * HorizontalSpacing, StartY + (i / Columns) * VerticalSpacing, ShapeWidth, ShapeHeight)
  }

  /** The interiors of two rectangles intersect. */
  predicate Overlap(a: Rect, b: Rect) {
    a.x < b.x + b.width && b.x < a.x + a.width && a.y < b.y + b.height && b.y < a.y + a.height
  }

  /** Boxes of distinct indices never overlap: the column step exceeds the
      width and the row step exceeds the height. */
  lemma CellsDisjoint(i: nat, j: nat)
    requires i != j
    ensures !Overlap(Cell(i), Cell(j))
  {
    assert i == Columns * (i / Columns) + i % Columns;
    assert j == Columns * (j / Columns) + j % Columns;
    if i / Columns == j / Columns {
      assert i % Columns != j % Columns;
    }
  }

  /** Every box lies between x = 100 and x = 800, inside the 1920-wide page,
      and no higher than y = 100. */
  lemma CellWithinColumns(i: nat)
    ensures StartX <= Cell(i).x && Cell(i).x + Cell(i).width <= 800 < PageWidth
    ensures StartY <= Cell(i).y
  {
  }

  /** A box fits the 1080-high page exactly when its index is below 18, that
      is, in the first six rows. */
  lemma CellFitsPageIff(i: nat)
    ensures Cell(i).y + Cell(i).height <= PageHeight <==> i < 18
  {
    assert i == Columns * (i / Columns) + i % Columns;
  }

  predicate HasImageLine(node: ServiceNode) {
    node.image.Some? && node.image.value != ""
  }

  /** createNodeShape: a magnetic disk filled orange for the exact type
      "DATABASE", a blue rounded rectangle for anything else; the id run, and
      a "\n"+image run when the image is non-null and non-empty. */
  function NodeShapeAt(node: ServiceNode, x: int, y: int): NodeShape {
    var isDatabase := node.nodeType == Some(DatabaseType);
    var runs := [node.id] + (if HasImageLine(node) then [Some("\n" + node.image.value)] else []);
    NodeShape(
      if isDatabase then MagneticDisk else RoundRect,
      if isDatabase then Orange else Blue,
      Rect(x, y, ShapeWidth, ShapeHeight),
      runs)
  }

  /** The shape's kind and colour follow the type alone, compared
      case-sensitively; its label follows id and image alone. */
  lemma NodeShapeStyle(node: ServiceNode, x: int, y: int)
    ensures var r := NodeShapeAt(node, x, y);
      && (r.geometry == MagneticDisk <==> node.nodeType == Some(DatabaseType))
      && (r.fill == Orange <==> r.geometry == MagneticDisk)
      && (r.fill == Blue <==> r.geometry == RoundRect)
      && r.anchor == Rect(x, y, ShapeWidth, ShapeHeight)
      && 1 <= |r.runs| <= 2 && r.runs[0] == node.id
      && (|r.runs| == 2 <==> HasImageLine(node))
      && (|r.runs| == 2 ==> r.runs[1] == Some("\n" + node.image.value))
  {
  }

  /** A lower-case "database" type is drawn as a service. */
  lemma TypeMatchIsCaseSensitive(node: ServiceNode, x: int, y: int)
    requires node.nodeType == Some("database")
    ensures NodeShapeAt(node, x, y).geometry == RoundRect && NodeShapeAt(node, x, y).fill == Blue
  {
  }

  /** nodePositions after the first |nodes| iterations: each id maps to the
      bounds of the last node with that id. */
  function PositionsOf(nodes: seq<ServiceNode>): map<JString, Rect>
    decreases |nodes|
  {
    if |nodes| == 0 then map[]
    else PositionsOf(nodes[..|nodes| - 1])[nodes[|nodes| - 1].id := Cell(|nodes| - 1)]
  }

  /** The shapes created by the first |nodes| iterations. */
  function ShapesOf(nodes: seq<ServiceNode>): seq<NodeShape>
    decreases |nodes|
  {
    if |nodes| == 0 then []
    else
      var i := |nodes| - 1;
      ShapesOf(nodes[..i]) + [NodeShapeAt(nodes[i], Cell(i).x, Cell(i).y)]
  }

  /** An id is in the map exactly when some node has it. */
  lemma {:induction false} PositionsOfKeys(nodes: seq<ServiceNode>, id: JString)
    ensures id in PositionsOf(nodes) <==> exists k :: 0 <= k < |nodes| && nodes[k].id == id
    decreases |nodes|
  {
    if |nodes| > 0 {
      var init := nodes[..|nodes| - 1];
      PositionsOfKeys(init, id);
      assert forall k :: 0 <= k < |init| ==> init[k] == nodes[k];
    }
  }

  /** When an id repeats, the later node's bounds win. */
  lemma {:induction false} PositionsOfLastWins(nodes: seq<ServiceNode>, k: nat)
    requires k < |nodes|
    requires forall m :: k < m < |nodes| ==> nodes[m].id != nodes[k].id
    ensures nodes[k].id in PositionsOf(nodes) && PositionsOf(nodes)[nodes[k].id] == Cell(k)
    decreases |nodes|
  {
    if k < |nodes| - 1 {
      var init := nodes[..|nodes| - 1];
      assert forall m :: 0 <= m < |init| ==> init[m] == nodes[m];
      PositionsOfLastWins(init, k);
    }
  }

  /** Every bounds in the map is the grid cell of some index of the list. */
  lemma {:induction false} PositionsOfAreCells(nodes: seq<ServiceNode>, id: JString)
    requires id in PositionsOf(nodes)
    ensures exists k :: 0 <= k < |nodes| && nodes[k].id == id && PositionsOf(nodes)[id] == Cell(k)
    decreases |nodes|
  {
    var init := nodes[..|nodes| - 1];
    assert forall m :: 0 <= m < |init| ==> init[m] == nodes[m];
    if nodes[|nodes| - 1].id != id {
      PositionsOfAreCells(init, id);
    }
  }

  /** The node at list index i gets the shape for its grid cell. */
  lemma {:induction false} ShapesOfAt(nodes: seq<ServiceNode>, i: nat)
    requires i < |nodes|
    ensures |ShapesOf(nodes)| == |nodes|
    ensures ShapesOf(nodes)[i] == NodeShapeAt(nodes[i], Cell(i).x, Cell(i).y)
    ensures ShapesOf(nodes)[i].anchor == Rect(100 + (i % 3) * 250, 100 + (i / 3) * 150, 200, 100)
    decreases |nodes|
  {
    var init := nodes[..|nodes| - 1];
    if i < |nodes| - 1 {
      ShapesOfAt(init, i);
    } else if i > 0 {
      ShapesOfAt(init, i - 1);
    }
  }

  function Min(a: int, b: int): int {
    if a <= b then a else b
  }

  function Abs(a: int): int {
    if a < 0 then -a else a
  }

  function CentreX(r: Rect): int {
    r.x + r.width / 2
  }

  function CentreY(r: Rect): int {
    r.y + r.height / 2
  }

  /** The anchor of the line between two boxes: the box with the two centres
      at opposite corners, widened to at least 1 by 1. */
  function Anchor(source: Rect, target: Rect): (r: Rect)
    ensures r.width >= 1 && r.height >= 1
    ensures r.x <= CentreX(source) && r.x <= CentreX(target) && r.y <= CentreY(source) && r.y <= CentreY(target)
    ensures r.x == CentreX(source) || r.x == CentreX(target)
    ensures r.y == CentreY(source) || r.y == CentreY(target)
    ensures CentreX(source) == CentreX(target) ==> r.width == 1
    ensures CentreY(source) == CentreY(target) ==> r.height == 1
  {
    var sourceX, sourceY := CentreX(source), CentreY(source);
    var targetX, targetY := CentreX(target), CentreY(target);
    var width := Abs(targetX - sourceX);
    var height := Abs(targetY - sourceY);
    Rect(Min(sourceX, targetX), Min(sourceY, targetY), if width < 1 then 1 else width, if height < 1 then 1 else height)
  }

  /** On each axis the anchor runs from one centre to the other, or is exactly
      1 wide (high) at the shared centre when the centres agree on that axis. */
  lemma AnchorSpansCentres(source: Rect, target: Rect)
    ensures var r := Anchor(source, target);
      && (CentreX(source) != CentreX(target) ==>
            {r.x, r.x + r.width} == {CentreX(source), CentreX(target)})
      && (CentreX(source) == CentreX(target) ==> r.x == CentreX(source) && r.width == 1)
      && (CentreY(source) != CentreY(target) ==>
            {r.y, r.y + r.height} == {CentreY(source), CentreY(target)})
      && (CentreY(source) == CentreY(target) ==> r.y == CentreY(source) && r.height == 1)
  {
  }

  /** Swapping source and target gives the same anchor. */
  lemma AnchorSymmetric(source: Rect, target: Rect)
    ensures Anchor(source, target) == Anchor(target, source)
  {
  }

  /** A self-link gives a 1-by-1 box at the centre. */
  lemma AnchorSelf(box: Rect)
    ensures Anchor(box, box) == Rect(CentreX(box), CentreY(box), 1, 1)
  {
  }

  /** The lines for the first |targets| links of a node whose bounds are
      `source`: one per target id found in the map. */
  function LinkConnectors(source: Rect, targets: seq<string>, positions: map<JString, Rect>): seq<Rect>
    decreases |targets|
  {
    if |targets| == 0 then []
    else
      var rest := LinkConnectors(source, targets[..|targets| - 1], positions);
      var target := Some(targets[|targets| - 1]);
      if target in positions then rest + [Anchor(source, positions[target])] else rest
  }

  /** The lines of one node: none when its id is not in the map or its links
      are null. */
  function NodeConnectors(node: ServiceNode, positions: map<JString, Rect>): seq<Rect> {
    if node.id !in positions || node.links.None? then []
    else LinkConnectors(positions[node.id], node.links.value, positions)
  }

  /** drawConnectors over the first |nodes| nodes: node order, then link order. */
  function ConnectorsOf(nodes: seq<ServiceNode>, positions: map<JString, Rect>): seq<Rect>
    decreases |nodes|
  {
    if |nodes| == 0 then []
    else ConnectorsOf(nodes[..|nodes| - 1], positions) + NodeConnectors(nodes[|nodes| - 1], positions)
  }

  /** Link j of node i is drawn, with anchor r. */
  ghost predicate Draws(nodes: seq<ServiceNode>, positions: map<JString, Rect>, i: int, j: int, r: Rect) {
    && 0 <= i < |nodes|
    && nodes[i].id in positions
    && nodes[i].links.Some?
    && 0 <= j < |nodes[i].links.value|
    && Some(nodes[i].links.value[j]) in positions
    && r == Anchor(positions[nodes[i].id], positions[Some(nodes[i].links.value[j])])
  }

  /** The lines of a run of links are those of each part, in order. */
  lemma {:induction false} LinkConnectorsAppend(source: Rect, a: seq<string>, b: seq<string>, positions: map<JString, Rect>)
    ensures LinkConnectors(source, a + b, positions) == LinkConnectors(source, a, positions) + LinkConnectors(source, b, positions)
    decreases |b|
  {
    if |b| == 0 {
      assert a + b == a;
    } else {
      var init := b[..|b| - 1];
      assert (a + b)[..|a + b| - 1] == a + init;
      assert (a + b)[|a + b| - 1] == b[|b| - 1];
      LinkConnectorsAppend(source, a, init, positions);
    }
  }

  /** A single link gives one line when its target is in the map, none otherwise. */
  lemma LinkConnectorsSingle(source: Rect, target: string, positions: map<JString, Rect>)
    ensures LinkConnectors(source, [target], positions) ==
      if Some(target) in positions then [Anchor(source, positions[Some(target)])] else []
  {
    assert [target][..0] == [];
  }

  /** The lines of a run of nodes are those of each part, in order. */
  lemma {:induction false} ConnectorsOfAppend(a: seq<ServiceNode>, b: seq<ServiceNode>, positions: map<JString, Rect>)
    ensures ConnectorsOf(a + b, positions) == ConnectorsOf(a, positions) + ConnectorsOf(b, positions)
    decreases |b|
  {
    if |b| == 0 {
      assert a + b == a;
    } else {
      var init := b[..|b| - 1];
      assert (a + b)[..|a + b| - 1] == a + init;
      assert (a + b)[|a + b| - 1] == b[|b| - 1];
      ConnectorsOfAppend(a, init, positions);
    }
  }

  lemma {:induction false} LinkConnectorsMembers(source: Rect, targets: seq<string>, positions: map<JString, Rect>, r: Rect)
    ensures r in LinkConnectors(source, targets, positions) <==>
      exists j :: 0 <= j < |targets| && Some(targets[j]) in positions && r == Anchor(source, positions[Some(targets[j])])
    decreases |targets|
  {
    if |targets| > 0 {
      var init := targets[..|targets| - 1];
      assert forall j :: 0 <= j < |init| ==> init[j] == targets[j];
      LinkConnectorsMembers(source, init, positions, r);
    }
  }

  /** A line is drawn exactly for a link of a node whose own id and whose
      target id are both in the map. */
  lemma {:induction false} ConnectorsOfMembers(nodes: seq<ServiceNode>, positions: map<JString, Rect>, r: Rect)
    ensures r in ConnectorsOf(nodes, positions) <==> exists i, j :: Draws(nodes, positions, i, j, r)
    decreases |nodes|
  {
    if |nodes| > 0 {
      var n := |nodes| - 1;
      var init := nodes[..n];
      assert forall i :: 0 <= i < |init| ==> init[i] == nodes[i];
      ConnectorsOfMembers(init, positions, r);
      var last := nodes[n];
      if last.id in positions && last.links.Some? {
        LinkConnectorsMembers(positions[last.id], last.links.value, positions, r);
      }
      if r in NodeConnectors(last, positions) {
        var j :| 0 <= j < |last.links.value| && Some(last.links.value[j]) in positions
          && r == Anchor(positions[last.id], positions[Some(last.links.value[j])]);
        assert Draws(nodes, positions, n, j, r);
      }
      if r in ConnectorsOf(init, positions) {
        var i, j :| Draws(init, positions, i, j, r);
        assert Draws(nodes, positions, i, j, r);
      }
      if i, j :| Draws(nodes, positions, i, j, r) {
        if i < n {
          assert Draws(init, positions, i, j, r);
        } else {
          assert r in NodeConnectors(last, positions);
        }
      }
    }
  }

  /** At most one line per link; exactly one per link, in link order, when
      every target is in the map; none when no target is. */
  lemma {:induction false} LinkConnectorsCount(source: Rect, targets: seq<string>, positions: map<JString, Rect>)
    ensures |LinkConnectors(source, targets, positions)| <= |targets|
    ensures (forall j :: 0 <= j < |targets| ==> Some(targets[j]) !in positions) ==>
      LinkConnectors(source, targets, positions) == []
    ensures (forall j :: 0 <= j < |targets| ==> Some(targets[j]) in positions) ==>
      && |LinkConnectors(source, targets, positions)| == |targets|
      && forall j :: 0 <= j < |targets| ==>
           LinkConnectors(source, targets, positions)[j] == Anchor(source, positions[Some(targets[j])])
    decreases |targets|
  {
    if |targets| > 0 {
      var init := targets[..|targets| - 1];
      assert forall j :: 0 <= j < |init| ==> init[j] == targets[j];
      LinkConnectorsCount(source, init, positions);
    }
  }

  /** The nodes of the repository's slide test: web links to api, api links to
      db, and db is a database. */
  const TestNodes: seq<ServiceNode> := [
    ServiceNode(Some("frontend-web"), Some("nginx:latest"), Some(DefaultType), Some(["backend-api"])),
    ServiceNode(Some("backend-api"), Some("java:17"), Some(DefaultType), Some(["user-db"])),
    ServiceNode(Some("user-db"), Some("postgres:15"), Some(DatabaseType), Some([]))]

  lemma TestNodesPositions()
    ensures PositionsOf(TestNodes) == map[
      Some("frontend-web") := Rect(100, 100, 200, 100),
      Some("backend-api") := Rect(350, 100, 200, 100),
      Some("user-db") := Rect(600, 100, 200, 100)]
  {
    assert TestNodes[..1][..0] == [];
    assert Cell(0) == Rect(100, 100, 200, 100) && Cell(1) == Rect(350, 100, 200, 100) && Cell(2) == Rect(600, 100, 200, 100);
    var m: map<JString, Rect> := map[];
    assert PositionsOf(TestNodes[..1]) == m[Some("frontend-web") := Cell(0)];
    assert TestNodes[..2][..1] == TestNodes[..1];
    assert PositionsOf(TestNodes[..2]) == m[Some("frontend-web") := Cell(0)][Some("backend-api") := Cell(1)];
    assert TestNodes[..|TestNodes| - 1] == TestNodes[..2];
    assert PositionsOf(TestNodes) == m[Some("frontend-web") := Cell(0)][Some("backend-api") := Cell(1)][Some("user-db") := Cell(2)];
  }

  /** That list draws three boxes along the first row, the last one an orange
      disk, and two horizontal lines joining the box centres. */
  lemma TestNodesSlide()
    ensures SlideOf(Some(TestNodes)) == Diagram(1920, 1080,
      [NodeShape(RoundRect, Blue, Rect(100, 100, 200, 100), [Some("frontend-web"), Some("\nnginx:latest")]),
       NodeShape(RoundRect, Blue, Rect(350, 100, 200, 100), [Some("backend-api"), Some("\njava:17")]),
       NodeShape(MagneticDisk, Orange, Rect(600, 100, 200, 100), [Some("user-db"), Some("\npostgres:15")])],
      [Rect(200, 150, 250, 1), Rect(450, 150, 250, 1)])
  {
    TestNodesPositions();
    var positions := PositionsOf(TestNodes);
    assert TestNodes[..1][..0] == [];
    assert TestNodes[..2][..1] == TestNodes[..1];
    assert TestNodes[..|TestNodes| - 1] == TestNodes[..2];
    var web := NodeShape(RoundRect, Blue, Rect(100, 100, 200, 100), [Some("frontend-web"), Some("\nnginx:latest")]);
    var api := NodeShape(RoundRect, Blue, Rect(350, 100, 200, 100), [Some("backend-api"), Some("\njava:17")]);
    var db := NodeShape(MagneticDisk, Orange, Rect(600, 100, 200, 100), [Some("user-db"), Some("\npostgres:15")]);
    assert "\n" + "nginx:latest" == "\nnginx:latest";
    assert "\n" + "java:17" == "\njava:17";
    assert "\n" + "postgres:15" == "\npostgres:15";
    assert NodeShapeAt(TestNodes[0], 100, 100) == web;
    assert NodeShapeAt(TestNodes[1], 350, 100) == api;
    assert NodeShapeAt(TestNodes[2], 600, 100) == db;
    var none: seq<NodeShape> := [];
    assert none + [web] == [web];
    assert ShapesOf(TestNodes[..1]) == [web];
    assert ShapesOf(TestNodes[..2]) == [web, api];
    assert ShapesOf(TestNodes) == [web, api, db];
    assert Anchor(Rect(100, 100, 200, 100), Rect(350, 100, 200, 100)) == Rect(200, 150, 250, 1);
    assert Anchor(Rect(350, 100, 200, 100), Rect(600, 100, 200, 100)) == Rect(450, 150, 250, 1);
    LinkConnectorsSingle(Rect(100, 100, 200, 100), "backend-api", positions);
    LinkConnectorsSingle(Rect(350, 100, 200, 100), "user-db", positions);
    assert ConnectorsOf(TestNodes[..1], positions) == [Rect(200, 150, 250, 1)];
    assert ConnectorsOf(TestNodes[..2], positions) == [Rect(200, 150, 250, 1), Rect(450, 150, 250, 1)];
    assert NodeConnectors(TestNodes[2], positions) == [];
  }

  /** generateSlide's plan, specified. */
  function SlideOf(nodes: Option<seq<ServiceNode>>): Slide {
    if nodes.None? || |nodes.value| == 0 then Placeholder(NoServicesText, Rect(StartX, StartY, 400, 50))
    else Diagram(PageWidth, PageHeight, ShapesOf(nodes.value), ConnectorsOf(nodes.value, PositionsOf(nodes.value)))
  }

  /** A null or empty list gives the placeholder text box and nothing else; a
      non-empty one gives one shape per node on pairwise disjoint cells. */
  lemma SlideOfShapes(nodes: Option<seq<ServiceNode>>)
    ensures SlideOf(nodes).Placeholder? <==> nodes.None? || |nodes.value| == 0
    ensures SlideOf(nodes).Placeholder? ==>
      SlideOf(nodes) == Placeholder("No services to display", Rect(100, 100, 400, 50))
    ensures SlideOf(nodes).Diagram? ==>
      && |SlideOf(nodes).shapes| == |nodes.value|
      && SlideOf(nodes).pageWidth == 1920 && SlideOf(nodes).pageHeight == 1080
      && forall i, j :: 0 <= i < j < |nodes.value| ==>
           !Overlap(SlideOf(nodes).shapes[i].anchor, SlideOf(nodes).shapes[j].anchor)
  {
    if nodes.Some? && |nodes.value| > 0 {
      var ns := nodes.value;
      ShapesOfAt(ns, 0);
      forall i, j | 0 <= i < j < |ns|
        ensures !Overlap(SlideOf(nodes).shapes[i].anchor, SlideOf(nodes).shapes[j].anchor)
      {
        ShapesOfAt(ns, i);
        ShapesOfAt(ns, j);
        CellsDisjoint(i, j);
      }
    }
  }

  /** drawConnectors. */
  method DrawConnectors(nodes: seq<ServiceNode>, positions: map<JString, Rect>) returns (lines: seq<Rect>)
    ensures lines == ConnectorsOf(nodes, positions)
  {
    lines := [];
    for i := 0 to |nodes|
      invariant lines == ConnectorsOf(nodes[..i], positions)
    {
      assert nodes[..i + 1][..i] == nodes[..i];
      var node := nodes[i];
      if node.id !in positions || node.links.None? {
        continue;
      }
      var sourcePos := positions[node.id];
      var targets := node.links.value;
      ghost var before := lines;
      for j := 0 to |targets|
        invariant lines == before + LinkConnectors(sourcePos, targets[..j], positions)
      {
        assert targets[..j + 1][..j] == targets[..j];
        var targetId := Some(targets[j]);
        if targetId !in positions {
          continue;
        }
        var targetPos := positions[targetId];
        var sourceX := sourcePos.x + sourcePos.width / 2;
        var sourceY := sourcePos.y + sourcePos.height / 2;
        var targetX := targetPos.x + targetPos.width / 2;
        var targetY := targetPos.y + targetPos.height / 2;
        var minX := Min(sourceX, targetX);
        var minY := Min(sourceY, targetY);
        var width := Abs(targetX - sourceX);
        var height := Abs(targetY - sourceY);
        if width < 1 {
          width := 1;
        }
        if height < 1 {
          height := 1;
        }
        lines := lines + [Rect(minX, minY, width, height)];
      }
      assert targets[..|targets|] == targets;
    }
    assert nodes[..|nodes|] == nodes;
  }

  /** generateSlide, up to the hand-over to the rendering library. */
  method GenerateSlide(nodes: Option<seq<ServiceNode>>) returns (slide: Slide)
    ensures slide == SlideOf(nodes)
  {
    if nodes.None? || |nodes.value| == 0 {
      return Placeholder(NoServicesText, Rect(StartX, StartY, 400, 50));
    }
    var list := nodes.value;
    var positions: map<JString, Rect> := map[];
    var shapes: seq<NodeShape> := [];
    for i := 0 to |list|
      invariant positions == PositionsOf(list[..i])
      invariant shapes == ShapesOf(list[..i])
    {
      assert list[..i + 1][..i] == list[..i];
      var node := list[i];
      var row := i / Columns;
      var col := i % Columns;
      var x := StartX + col * HorizontalSpacing;
      var y := StartY + row * VerticalSpacing;
      var shape := NodeShapeAt(node, x, y);
      shapes := shapes + [shape];
      positions := positions[node.id := Rect(x, y, ShapeWidth, ShapeHeight)];
    }
    assert list[..|list|] == list;
    var lines := DrawConnectors(list, positions);
    slide := Diagram(PageWidth, PageHeight, shapes, lines);
  }
}
