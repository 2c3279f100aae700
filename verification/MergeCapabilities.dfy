/** The graph writes of `merge_capabilities.py` and `load_graph.py`, issued one at a time to a
    store whose connection may fail at any query. */
module MergeCapabilities {
  import opened Optional
  import opened GraphModel
  import opened Reload
  import opened Records

  type Props = map<string, string>

  /** Everything the tools can change. */
  datatype Graph = Graph(nodes: set<Node>, edges: map<Edge, Props>, mergedFrom: map<Node, seq<string>>) {
    function Plain(): Plain { GraphModel.Plain(nodes, edges.Keys) }

    function Notes(): Notes { Records.Notes(nodes, mergedFrom) }
  }

  datatype Row = Row(edge: Edge, props: Props)

  function MergedFrom(g: Graph, n: Node): seq<string> {
    g.Notes().Of(n)
  }

  /** What is set on an edge is added to what it had. */
  function PropsMerged(edges: map<Edge, Props>, e: Edge, props: Props): Props {
    (if e in edges then edges[e] else map[]) + props
  }

  /** `MATCH` both ends, `MERGE` the edge, `SET r += props`. */
  function EdgeMerged(g: Graph, e: Edge, props: Props): Graph {
    if e.from !in g.nodes || e.to !in g.nodes then g else g.(edges := g.edges[e := PropsMerged(g.edges, e, props)])
  }

  /** The last query of a merge: note the id on the kept node, then detach and delete. */
  function Retired(g: Graph, keep: Node, drop: Node): Graph {
    if keep !in g.nodes || drop !in g.nodes then g
    else Graph(g.nodes - {drop},
               map e | e in g.edges && !Touches(e, drop) :: g.edges[e],
               g.mergedFrom[keep := MergedFrom(g, keep) + [drop.id]] - {drop})
  }

  // ----- between the first write and the last -----

  function Image(g: Graph, keep: Node, drop: Node): set<Edge> {
    MapEdges(g.edges.Keys, Onto(keep, drop))
  }

  /** No edge at `drop` falls onto `e`. */
  predicate Alone(g: Graph, e: Edge, keep: Node, drop: Node) {
    !Touches(e, drop) && forall d :: d in g.edges && Touches(d, drop) ==> MapEdge(d, Onto(keep, drop)) != e
  }

  /** A property that some edge with the image of `e` had from the start. */
  ghost predicate Source(g0: Graph, e: Edge, key: string, value: string, keep: Node, drop: Node) {
    exists d :: d in g0.edges && MapEdge(d, Onto(keep, drop)) == MapEdge(e, Onto(keep, drop))
      && key in g0.edges[d] && g0.edges[d][key] == value
  }

  /** Every property comes from an edge that falls onto the same one. */
  ghost predicate Gathered(g0: Graph, edges: map<Edge, Props>, keep: Node, drop: Node) {
    forall e, key :: e in edges && key in edges[e] ==> Source(g0, e, key, edges[e][key], keep, drop)
  }

  /** No edge is lost, and none loses a property. */
  predicate KeysKept(before: map<Edge, Props>, after: map<Edge, Props>) {
    forall e :: e in before ==> e in after && before[e].Keys <= after[e].Keys
  }

  /** `g` is what is left of `g0` when a merge stopped after some of its edge writes: nothing is
      lost, and the image of the edges under `drop` onto `keep` has not changed. */
  ghost predicate Partial(g0: Graph, g: Graph, keep: Node, drop: Node) {
    && g.nodes == g0.nodes && g.mergedFrom == g0.mergedFrom
    && Closed(g.Plain()) && KeysKept(g0.edges, g.edges)
    && Image(g, keep, drop) == Image(g0, keep, drop)
    && Gathered(g0, g.edges, keep, drop)
  }

  /** An edge has every property of every edge that fell onto it. */
  predicate KeysArrive(g0: Graph, edges: map<Edge, Props>, keep: Node, drop: Node) {
    forall d :: d in g0.edges && MapEdge(d, Onto(keep, drop)) in edges ==>
      g0.edges[d].Keys <= edges[MapEdge(d, Onto(keep, drop))].Keys
  }

  /** `g` is what a whole merge makes of `g0`. */
  ghost predicate Finished(g0: Graph, g: Graph, keep: Node, drop: Node) {
    && g.Plain() == MergePair(g0.Plain(), keep, drop)
    && (g == g0 || g.mergedFrom == g0.mergedFrom[keep := MergedFrom(g0, keep) + [drop.id]] - {drop})
    && (drop in g.nodes ==> g == g0)
    && Gathered(g0, g.edges, keep, drop) && KeysArrive(g0, g.edges, keep, drop)
  }

  /** An edge onto which no other falls keeps its properties, through a part of a merge or a whole one. */
  lemma AloneIsUnchanged(g0: Graph, g: Graph, keep: Node, drop: Node, e: Edge)
    requires Partial(g0, g, keep, drop) || Finished(g0, g, keep, drop)
    requires e in g0.edges && e in g.edges && Alone(g0, e, keep, drop)
    ensures g.edges[e] == g0.edges[e]
  {
    assert MapEdge(e, Onto(keep, drop)) == e;
    forall key | key in g.edges[e]
      ensures key in g0.edges[e] && g0.edges[e][key] == g.edges[e][key]
    {
      assert Source(g0, e, key, g.edges[e][key], keep, drop);
    }
  }

  lemma ImageOfOneMore(es: set<Edge>, d: Edge, e: Edge, f: Node -> Node)
    requires d in es && MapEdge(e, f) == MapEdge(d, f)
    ensures MapEdges(es + {e}, f) == MapEdges(es, f)
  {
    assert MapEdge(d, f) in MapEdges(es, f);
    assert forall x :: x in es + {e} ==> MapEdge(x, f) in MapEdges(es, f);
    assert forall x :: x in es ==> x in es + {e};
  }

  lemma ClosedWithOneMore(nodes: set<Node>, es: set<Edge>, e: Edge)
    requires Closed(GraphModel.Plain(nodes, es)) && e.from in nodes && e.to in nodes
    ensures Closed(GraphModel.Plain(nodes, es + {e}))
  {
  }

  /** A row's properties come from edges that fall where its edge does. */
  ghost predicate RowFits(g0: Graph, row: Row, keep: Node, drop: Node) {
    forall key :: key in row.props ==> Source(g0, row.edge, key, row.props[key], keep, drop)
  }

  lemma SourceMoves(g0: Graph, d: Edge, e: Edge, key: string, value: string, keep: Node, drop: Node)
    requires Source(g0, d, key, value, keep, drop) && MapEdge(e, Onto(keep, drop)) == MapEdge(d, Onto(keep, drop))
    ensures Source(g0, e, key, value, keep, drop)
  {
  }

  lemma KeysWith(edges: map<Edge, Props>, e: Edge, props: Props)
    ensures edges[e := props].Keys == edges.Keys + {e}
  {
  }

  lemma WriteKeepsProps(g0: Graph, g: Graph, keep: Node, drop: Node, row: Row, e: Edge)
    requires Gathered(g0, g.edges, keep, drop) && KeysKept(g0.edges, g.edges) && RowFits(g0, row, keep, drop)
    requires MapEdge(e, Onto(keep, drop)) == MapEdge(row.edge, Onto(keep, drop))
    ensures var edges := g.edges[e := PropsMerged(g.edges, e, row.props)];
      Gathered(g0, edges, keep, drop) && KeysKept(g0.edges, edges)
  {
    var edges := g.edges[e := PropsMerged(g.edges, e, row.props)];
    forall x, key | x in edges && key in edges[x]
      ensures Source(g0, x, key, edges[x][key], keep, drop)
    {
      if x == e && key in row.props {
        SourceMoves(g0, row.edge, e, key, row.props[key], keep, drop);
      } else {
        assert x in g.edges && key in g.edges[x];
      }
    }
  }

  lemma EdgesKeepPartial(g0: Graph, g: Graph, edges: map<Edge, Props>, keep: Node, drop: Node)
    requires Partial(g0, g, keep, drop)
    requires Closed(g.(edges := edges).Plain()) && Image(g.(edges := edges), keep, drop) == Image(g, keep, drop)
    requires Gathered(g0, edges, keep, drop) && KeysKept(g0.edges, edges)
    ensures Partial(g0, g.(edges := edges), keep, drop)
  {
  }

  /** One rewiring write, in either direction, keeps the quotient of the edge set. */
  lemma WriteKeepsPartial(g0: Graph, g: Graph, keep: Node, drop: Node, row: Row, e: Edge)
    requires Partial(g0, g, keep, drop) && RowFits(g0, row, keep, drop)
    requires row.edge in g.edges
    requires MapEdge(e, Onto(keep, drop)) == MapEdge(row.edge, Onto(keep, drop))
    ensures Partial(g0, EdgeMerged(g, e, row.props), keep, drop)
  {
    if e.from in g.nodes && e.to in g.nodes {
      var props := PropsMerged(g.edges, e, row.props);
      WriteKeepsImage(g, keep, drop, row.edge, e, props);
      WriteKeepsProps(g0, g, keep, drop, row, e);
      EdgesKeepPartial(g0, g, g.edges[e := props], keep, drop);
    }
  }

  lemma WriteKeepsImage(g: Graph, keep: Node, drop: Node, d: Edge, e: Edge, props: Props)
    requires Closed(g.Plain()) && d in g.edges && e.from in g.nodes && e.to in g.nodes
    requires MapEdge(e, Onto(keep, drop)) == MapEdge(d, Onto(keep, drop))
    ensures var r := g.(edges := g.edges[e := props]);
      Closed(r.Plain()) && Image(r, keep, drop) == Image(g, keep, drop)
  {
    KeysWith(g.edges, e, props);
    ImageOfOneMore(g.edges.Keys, d, e, Onto(keep, drop));
    ClosedWithOneMore(g.nodes, g.edges.Keys, e);
  }

  lemma SourcesCompose(g0: Graph, g1: Graph, edges: map<Edge, Props>, keep: Node, drop: Node)
    requires Gathered(g0, g1.edges, keep, drop) && Gathered(g1, edges, keep, drop)
    ensures Gathered(g0, edges, keep, drop)
  {
    forall e, key | e in edges && key in edges[e]
      ensures Source(g0, e, key, edges[e][key], keep, drop)
    {
      assert Source(g1, e, key, edges[e][key], keep, drop);
      var d :| d in g1.edges && MapEdge(d, Onto(keep, drop)) == MapEdge(e, Onto(keep, drop))
        && key in g1.edges[d] && g1.edges[d][key] == edges[e][key];
      SourceMoves(g0, d, e, key, edges[e][key], keep, drop);
    }
  }

  lemma PartialsCompose(g0: Graph, g1: Graph, g2: Graph, keep: Node, drop: Node)
    requires Partial(g0, g1, keep, drop) && Partial(g1, g2, keep, drop)
    ensures Partial(g0, g2, keep, drop)
  {
    SourcesCompose(g0, g1, g2.edges, keep, drop);
  }

  lemma SameQuotient(g0: Graph, g1: Graph, keep: Node, drop: Node)
    requires Partial(g0, g1, keep, drop) && keep in g0.nodes && drop in g0.nodes && keep != drop
    ensures MergePair(g1.Plain(), keep, drop) == MergePair(g0.Plain(), keep, drop)
    ensures drop !in MergePair(g0.Plain(), keep, drop).nodes
  {
  }

  lemma PartialThenFinished(g0: Graph, g1: Graph, g2: Graph, keep: Node, drop: Node)
    requires keep in g0.nodes && drop in g0.nodes && keep != drop
    requires Partial(g0, g1, keep, drop) && Finished(g1, g2, keep, drop)
    ensures Finished(g0, g2, keep, drop)
  {
    SameQuotient(g0, g1, keep, drop);
    SourcesCompose(g0, g1, g2.edges, keep, drop);
  }

  predicate PassDone(g0: Graph, g: Graph, keep: Node, drop: Node, dir: Direction) {
    forall e :: e in g0.edges && RowAt(e, drop, dir) ==>
      Rewired(e, keep, dir) in g.edges && g0.edges[e].Keys <= g.edges[Rewired(e, keep, dir)].Keys
  }

  /** Why the incoming rows are read after the outgoing writes: a self-loop on `drop` has by then
      become an edge from `keep` to `drop`, which the incoming rows move on to `keep`. */
  lemma EdgeMoved(g0: Graph, g1: Graph, g: Graph, keep: Node, drop: Node, e: Edge)
    requires keep != drop && e in g0.edges
    requires KeysKept(g0.edges, g1.edges) && KeysKept(g1.edges, g.edges)
    requires PassDone(g0, g1, keep, drop, Outgoing) && PassDone(g1, g, keep, drop, Incoming)
    ensures MapEdge(e, Onto(keep, drop)) in g.edges && !Touches(MapEdge(e, Onto(keep, drop)), drop)
    ensures g0.edges[e].Keys <= g.edges[MapEdge(e, Onto(keep, drop))].Keys
  {
    if e.from == drop {
      assert Edge(keep, e.kind, e.to) in g1.edges;
    }
  }

  lemma SurvivorIsImage(es: set<Edge>, keep: Node, drop: Node, e: Edge)
    requires e in es && !Touches(e, drop)
    ensures e in MapEdges(es, Onto(keep, drop))
  {
    assert MapEdge(e, Onto(keep, drop)) == e;
  }

  lemma AllEdgesMoved(g0: Graph, g1: Graph, g: Graph, keep: Node, drop: Node)
    requires keep != drop && Image(g, keep, drop) == Image(g0, keep, drop)
    requires KeysKept(g0.edges, g1.edges) && KeysKept(g1.edges, g.edges)
    requires PassDone(g0, g1, keep, drop, Outgoing) && PassDone(g1, g, keep, drop, Incoming)
    ensures (set e | e in g.edges && !Touches(e, drop)) == Image(g0, keep, drop)
  {
    forall e | e in g.edges && !Touches(e, drop)
      ensures e in Image(g0, keep, drop)
    {
      SurvivorIsImage(g.edges.Keys, keep, drop, e);
    }
    forall x | x in Image(g0, keep, drop)
      ensures x in g.edges && !Touches(x, drop)
    {
      var e :| e in g0.edges.Keys && MapEdge(e, Onto(keep, drop)) == x;
      EdgeMoved(g0, g1, g, keep, drop, e);
    }
  }

  lemma OntoItselfChangesNoEdge(es: set<Edge>, n: Node)
    ensures MapEdges(es, Onto(n, n)) == es
  {
    assert forall e :: MapEdge(e, Onto(n, n)) == e;
    assert forall e :: e in es ==> MapEdge(e, Onto(n, n)) in MapEdges(es, Onto(n, n));
  }

  lemma RetiredEdges(g: Graph, keep: Node, drop: Node)
    requires keep in g.nodes && drop in g.nodes
    ensures Retired(g, keep, drop).edges.Keys == set e | e in g.edges && !Touches(e, drop)
    ensures forall e :: e in Retired(g, keep, drop).edges ==> Retired(g, keep, drop).edges[e] == g.edges[e]
  {
  }

  lemma RetiredIsMerged(g0: Graph, g1: Graph, g: Graph, keep: Node, drop: Node)
    requires keep in g0.nodes && drop in g0.nodes && g.nodes == g0.nodes && Closed(g0.Plain())
    requires Image(g, keep, drop) == Image(g0, keep, drop)
    requires keep != drop ==> KeysKept(g0.edges, g1.edges) && KeysKept(g1.edges, g.edges)
    requires keep != drop ==> PassDone(g0, g1, keep, drop, Outgoing) && PassDone(g1, g, keep, drop, Incoming)
    ensures Retired(g, keep, drop).Plain() == MergePair(g0.Plain(), keep, drop)
  {
    MergeLosesOnlyDrop(g0.Plain(), keep, drop);
    RetiredEdges(g, keep, drop);
    if keep != drop {
      AllEdgesMoved(g0, g1, g, keep, drop);
    } else {
      OntoItselfChangesNoEdge(g.edges.Keys, keep);
      OntoItselfChangesNoEdge(g0.edges.Keys, keep);
    }
  }

  lemma RetiredRecords(g: Graph, mergedFrom: map<Node, seq<string>>, keep: Node, drop: Node)
    requires keep in g.nodes && drop in g.nodes && g.mergedFrom == mergedFrom
    ensures var before := if keep in mergedFrom then mergedFrom[keep] else [];
      Retired(g, keep, drop).mergedFrom == mergedFrom[keep := before + [drop.id]] - {drop}
    ensures drop !in Retired(g, keep, drop).nodes
  {
  }

  lemma FewerStillGathered(g0: Graph, edges: map<Edge, Props>, fewer: map<Edge, Props>, keep: Node, drop: Node)
    requires Gathered(g0, edges, keep, drop)
    requires forall e :: e in fewer ==> e in edges && fewer[e] == edges[e]
    ensures Gathered(g0, fewer, keep, drop)
  {
  }

  lemma RetiredHasAllKeys(g0: Graph, g1: Graph, g: Graph, keep: Node, drop: Node)
    requires keep in g.nodes && drop in g.nodes && KeysKept(g0.edges, g.edges)
    requires keep != drop ==> KeysKept(g0.edges, g1.edges) && KeysKept(g1.edges, g.edges)
    requires keep != drop ==> PassDone(g0, g1, keep, drop, Outgoing) && PassDone(g1, g, keep, drop, Incoming)
    ensures KeysArrive(g0, Retired(g, keep, drop).edges, keep, drop)
  {
    var r := Retired(g, keep, drop);
    RetiredEdges(g, keep, drop);
    forall d | d in g0.edges && MapEdge(d, Onto(keep, drop)) in r.edges
      ensures g0.edges[d].Keys <= r.edges[MapEdge(d, Onto(keep, drop))].Keys
    {
      if keep != drop { EdgeMoved(g0, g1, g, keep, drop, d); } else { assert MapEdge(d, Onto(keep, drop)) == d; }
    }
  }

  lemma RetireFinishes(g0: Graph, g1: Graph, g: Graph, keep: Node, drop: Node)
    requires Partial(g0, g, keep, drop) && keep in g0.nodes && drop in g0.nodes && Closed(g0.Plain())
    requires keep != drop ==> KeysKept(g0.edges, g1.edges) && KeysKept(g1.edges, g.edges)
    requires keep != drop ==> PassDone(g0, g1, keep, drop, Outgoing) && PassDone(g1, g, keep, drop, Incoming)
    ensures Finished(g0, Retired(g, keep, drop), keep, drop)
  {
    var r := Retired(g, keep, drop);
    RetiredIsMerged(g0, g1, g, keep, drop);
    RetiredEdges(g, keep, drop);
    FewerStillGathered(g0, g.edges, r.edges, keep, drop);
    RetiredHasAllKeys(g0, g1, g, keep, drop);
    RetiredRecords(g, g0.mergedFrom, keep, drop);
  }

  /** With `keep` gone there is nothing to do. */
  lemma KeepGoneIsFinished(g: Graph, keep: Node, drop: Node)
    requires Closed(g.Plain()) && keep !in g.nodes
    ensures Finished(g, g, keep, drop)
  {
    forall e, key | e in g.edges && key in g.edges[e]
      ensures Source(g, e, key, g.edges[e][key], keep, drop)
    {
    }
    forall d | d in g.edges && MapEdge(d, Onto(keep, drop)) in g.edges
      ensures g.edges[d].Keys <= g.edges[MapEdge(d, Onto(keep, drop))].Keys
    {
      assert !Touches(d, drop);
    }
  }

  // ----- one pass over the rows -----

  datatype Direction = Outgoing | Incoming

  predicate RowAt(e: Edge, drop: Node, dir: Direction) {
    match dir case Outgoing => e.from == drop case Incoming => e.to == drop
  }

  /** The edge that is written on the kept node for a row of the dropped one. */
  function Rewired(e: Edge, keep: Node, dir: Direction): Edge {
    match dir
    case Outgoing => Edge(keep, e.kind, e.to)
    case Incoming => Edge(e.from, e.kind, keep)
  }

  /** The write for one row. */
  function Written(g: Graph, keep: Node, row: Row, dir: Direction): (r: Graph)
    ensures r.nodes == g.nodes && r.mergedFrom == g.mergedFrom && KeysKept(g.edges, r.edges)
  {
    EdgeMerged(g, Rewired(row.edge, keep, dir), row.props)
  }

  function Pass(g: Graph, keep: Node, rows: seq<Row>, dir: Direction): (r: Graph)
    ensures r.nodes == g.nodes && r.mergedFrom == g.mergedFrom && KeysKept(g.edges, r.edges)
    decreases |rows|
  {
    if rows == [] then g
    else Written(Pass(g, keep, rows[..|rows| - 1], dir), keep, rows[|rows| - 1], dir)
  }

  lemma PassGoesOn(g: Graph, keep: Node, rows: seq<Row>, i: nat, dir: Direction)
    requires i < |rows|
    ensures Pass(g, keep, rows[..i + 1], dir) == Written(Pass(g, keep, rows[..i], dir), keep, rows[i], dir)
  {
    assert rows[..i + 1][..i] == rows[..i];
  }

  predicate RowsAt(g: Graph, drop: Node, rows: seq<Row>, dir: Direction) {
    forall r :: r in rows ==> r.edge in g.edges && r.props == g.edges[r.edge] && RowAt(r.edge, drop, dir)
  }

  lemma {:induction false} PassIdles(g: Graph, keep: Node, rows: seq<Row>, dir: Direction)
    requires keep !in g.nodes
    ensures Pass(g, keep, rows, dir) == g
    decreases |rows|
  {
    if rows != [] {
      PassIdles(g, keep, rows[..|rows| - 1], dir);
    }
  }

  lemma {:induction false} PassWrites(g: Graph, drop: Node, keep: Node, rows: seq<Row>, dir: Direction, row: Row)
    requires keep in g.nodes && row in rows && RowsAt(g, drop, rows, dir) && Closed(g.Plain())
    ensures var r := Pass(g, keep, rows, dir);
      Rewired(row.edge, keep, dir) in r.edges && row.props.Keys <= r.edges[Rewired(row.edge, keep, dir)].Keys
    decreases |rows|
  {
    var n := |rows| - 1;
    if row in rows[..n] {
      assert forall r :: r in rows[..n] ==> r in rows;
      PassWrites(g, drop, keep, rows[..n], dir, row);
    } else {
      assert row == rows[n];
      assert row.edge in g.edges.Keys;
    }
  }

  lemma RewiredHasSameImage(e: Edge, keep: Node, drop: Node, dir: Direction)
    requires RowAt(e, drop, dir)
    ensures Touches(e, drop)
    ensures MapEdge(Rewired(e, keep, dir), Onto(keep, drop)) == MapEdge(e, Onto(keep, drop))
  {
  }

  lemma RowKeepsPartial(g0: Graph, g: Graph, keep: Node, drop: Node, row: Row, dir: Direction)
    requires Partial(g0, g, keep, drop) && row.edge in g.edges && RowAt(row.edge, drop, dir)
    requires RowFits(g0, row, keep, drop)
    ensures Partial(g0, Written(g, keep, row, dir), keep, drop)
  {
    RewiredHasSameImage(row.edge, keep, drop, dir);
    WriteKeepsPartial(g0, g, keep, drop, row, Rewired(row.edge, keep, dir));
  }

  /** What every write of a pass keeps, the pass keeps. */
  lemma {:induction false} PassKeeps(inv: Graph -> bool, fits: Row -> bool, g: Graph, keep: Node, drop: Node,
                                     rows: seq<Row>, dir: Direction)
    requires inv(g) && RowsAt(g, drop, rows, dir) && forall row :: row in rows ==> fits(row)
    requires forall r: Graph, row: Row :: inv(r) && fits(row) && row.edge in r.edges && RowAt(row.edge, drop, dir) ==>
      inv(Written(r, keep, row, dir))
    ensures inv(Pass(g, keep, rows, dir))
    decreases |rows|
  {
    if rows != [] {
      var n := |rows| - 1;
      assert forall r :: r in rows[..n] ==> r in rows;
      PassKeeps(inv, fits, g, keep, drop, rows[..n], dir);
      assert rows[n] in rows && rows[n].edge in g.edges;
    }
  }

  /** Any number of the writes of a pass keeps the quotient and every property. */
  lemma PassKeepsPartial(g0: Graph, g: Graph, keep: Node, drop: Node, rows: seq<Row>, dir: Direction)
    requires Partial(g0, g, keep, drop) && RowsAt(g, drop, rows, dir)
    ensures Partial(g0, Pass(g, keep, rows, dir), keep, drop)
    ensures keep !in g.nodes ==> Pass(g, keep, rows, dir) == g
    ensures keep in g.nodes ==> forall row :: row in rows ==> Rewired(row.edge, keep, dir) in Pass(g, keep, rows, dir).edges
  {
    PassStaysPartial(g0, g, keep, drop, rows, dir);
    if keep in g.nodes {
      forall row | row in rows
        ensures Rewired(row.edge, keep, dir) in Pass(g, keep, rows, dir).edges
      {
        PassWrites(g, drop, keep, rows, dir, row);
      }
    } else {
      PassIdles(g, keep, rows, dir);
    }
  }

  lemma PassStaysPartial(g0: Graph, g: Graph, keep: Node, drop: Node, rows: seq<Row>, dir: Direction)
    requires Partial(g0, g, keep, drop) && RowsAt(g, drop, rows, dir)
    ensures Partial(g0, Pass(g, keep, rows, dir), keep, drop)
  {
    ghost var inv: Graph -> bool := r => Partial(g0, r, keep, drop);
    ghost var fits: Row -> bool := row => RowFits(g0, row, keep, drop);
    forall r: Graph, row: Row | inv(r) && fits(row) && row.edge in r.edges && RowAt(row.edge, drop, dir)
      ensures inv(Written(r, keep, row, dir))
    {
      RowKeepsPartial(g0, r, keep, drop, row, dir);
    }
    forall row | row in rows
      ensures fits(row)
    {
      assert row.edge in g.edges && row.props == g.edges[row.edge];
    }
    PassKeeps(inv, fits, g, keep, drop, rows, dir);
  }

  lemma WholePassIsDone(g: Graph, keep: Node, drop: Node, rows: seq<Row>, dir: Direction)
    requires Closed(g.Plain()) && RowsAt(g, drop, rows, dir)
    requires forall e :: e in g.edges && RowAt(e, drop, dir) ==> Row(e, g.edges[e]) in rows
    ensures keep in g.nodes ==> PassDone(g, Pass(g, keep, rows, dir), keep, drop, dir)
  {
    if keep in g.nodes {
      forall e | e in g.edges && RowAt(e, drop, dir)
        ensures var r := Pass(g, keep, rows, dir);
          Rewired(e, keep, dir) in r.edges && g.edges[e].Keys <= r.edges[Rewired(e, keep, dir)].Keys
      {
        PassWrites(g, drop, keep, rows, dir, Row(e, g.edges[e]));
      }
    }
  }

  // ----- the store and its queries -----

  class Store {
    var nodes: set<Node>
    var edges: map<Edge, Props>
    var mergedFrom: map<Node, seq<string>>

    /** How many more queries are answered before the connection fails, if it does; and whether the
        write whose answer is lost took effect all the same. */
    var answers: Option<nat>
    var lastWriteLands: bool

    constructor (nodes: set<Node>, edges: map<Edge, Props>)
      ensures View() == Graph(nodes, edges, map[]) && answers == None
    {
      this.nodes, this.edges, mergedFrom := nodes, edges, map[];
      answers, lastWriteLands := None, false;
    }

    ghost function View(): Graph
      reads this
    {
      Graph(nodes, edges, mergedFrom)
    }

    method Ask() returns (ok: bool)
      modifies this`answers
      ensures old(answers) == None ==> ok && answers == None
    {
      ok := answers != Some(0);
      if answers.Some? && ok {
        answers := Some(answers.value - 1);
      }
    }

    /** `node_exists`. */
    method NodeExists(n: Node) returns (ok: bool, found: bool)
      modifies this`answers
      ensures old(answers) == None ==> ok && answers == None
      ensures ok ==> (found <==> n in nodes)
    {
      ok := Ask();
      found := n in nodes;
    }

    /** The rows of the edges in `es`, in whatever order the database gives them. */
    method Rows(es: set<Edge>) returns (rows: seq<Row>)
      requires es <= edges.Keys
      ensures forall r :: r in rows ==> r.edge in es && r.props == edges[r.edge]
      ensures forall e :: e in es ==> Row(e, edges[e]) in rows
    {
      rows := [];
      var todo := es;
      while todo != {}
        invariant todo <= es
        invariant forall r :: r in rows ==> r.edge in es && r.props == edges[r.edge]
        invariant forall e :: e in es - todo ==> Row(e, edges[e]) in rows
        decreases todo
      {
        var e :| e in todo;
        rows := rows + [Row(e, edges[e])];
        todo := todo - {e};
      }
    }

    method MergeEdge(e: Edge, props: Props) returns (ok: bool)
      modifies this`edges, this`answers
      ensures old(answers) == None ==> ok && answers == None
      ensures ok ==> View() == EdgeMerged(old(View()), e, props)
      ensures View() == old(View()) || View() == EdgeMerged(old(View()), e, props)
    {
      ok := Ask();
      if (ok || lastWriteLands) && e.from in nodes && e.to in nodes {
        edges := edges[e := (if e in edges then edges[e] else map[]) + props];
      }
    }

    method Retire(keep: Node, drop: Node) returns (ok: bool)
      modifies this`nodes, this`edges, this`mergedFrom, this`answers
      ensures old(answers) == None ==> ok && answers == None
      ensures ok ==> View() == Retired(old(View()), keep, drop)
      ensures View() == old(View()) || View() == Retired(old(View()), keep, drop)
    {
      ok := Ask();
      if (ok || lastWriteLands) && keep in nodes && drop in nodes {
        mergedFrom := mergedFrom[keep := (if keep in mergedFrom then mergedFrom[keep] else []) + [drop.id]] - {drop};
        nodes := nodes - {drop};
        edges := map e | e in edges && !Touches(e, drop) :: edges[e];
      }
    }

    /** One of the two loops of `rewire_and_delete`; `done` is how many of its writes went through. */
    method Rewire(keep: Node, drop: Node, dir: Direction) returns (ok: bool, ghost rows: seq<Row>, ghost done: nat)
      modifies this`edges, this`answers
      ensures old(answers) == None ==> ok && answers == None
      ensures RowsAt(old(View()), drop, rows, dir)
      ensures done <= |rows| && View() == Pass(old(View()), keep, rows[..done], dir)
      ensures ok ==> done == |rows|
      ensures ok ==> forall e :: e in old(edges) && RowAt(e, drop, dir) ==> Row(e, old(edges)[e]) in rows
    {
      ghost var g := View();
      rows, done := [], 0;
      ok := Ask();
      if !ok { return; }
      var found := Rows(set e | e in edges && RowAt(e, drop, dir));
      rows := found;
      for i := 0 to |found|
        invariant ok && (old(answers) == None ==> answers == None)
        invariant rows == found && View() == Pass(g, keep, rows[..i], dir)
      {
        ok := MergeEdge(Rewired(found[i].edge, keep, dir), found[i].props);
        PassGoesOn(g, keep, rows, i, dir);
        if !ok {
          done := if View() == Pass(g, keep, rows[..i], dir) then i else i + 1;
          return;
        }
      }
      done := |rows|;
      assert rows[..done] == rows;
    }

    /** `rewire_and_delete`. Whenever the connection fails, the graph is left as a partial merge or -
        when only the last answer was lost - as a whole one. */
    method RewireAndDelete(keep: Node, drop: Node) returns (ok: bool)
      requires Closed(View().Plain()) && drop in nodes
      modifies this`nodes, this`edges, this`mergedFrom, this`answers
      ensures old(answers) == None ==> ok && answers == None
      ensures ok ==> Finished(old(View()), View(), keep, drop)
      ensures ok && keep in old(nodes) ==>
        (View().Plain() == Quotient(old(View()).Plain(), Onto(keep, drop)) <==> keep != drop)
      ensures Partial(old(View()), View(), keep, drop) || Finished(old(View()), View(), keep, drop)
      ensures keep !in old(nodes) ==> View() == old(View())
    {
      ghost var g0 := View();
      if keep in nodes { MergeIsQuotientIffDistinct(g0.Plain(), keep, drop); } else { KeepGoneIsFinished(g0, keep, drop); }
      ghost var rows, done;
      ok, rows, done := Rewire(keep, drop, Outgoing);
      PartialAtFirst(g0, keep, drop);
      PassKeepsPartial(g0, g0, keep, drop, rows[..done], Outgoing);
      if !ok { return; }
      ghost var g1 := View();
      assert rows[..done] == rows;
      WholePassIsDone(g0, keep, drop, rows, Outgoing);

      ok, rows, done := Rewire(keep, drop, Incoming);
      PassKeepsPartial(g0, g1, keep, drop, rows[..done], Incoming);
      if !ok { return; }
      ghost var g := View();
      assert rows[..done] == rows;
      WholePassIsDone(g1, keep, drop, rows, Incoming);

      if keep in nodes { RetireFinishes(g0, g1, g, keep, drop); }
      ok := Retire(keep, drop);
    }

    /** One pair of a decision as `main` runs it: skip it when either node is missing. */
    method MergeOnce(keep: Node, drop: Node) returns (ok: bool)
      requires Closed(View().Plain())
      modifies this`nodes, this`edges, this`mergedFrom, this`answers
      ensures old(answers) == None ==> ok && answers == None
      ensures keep in old(nodes) && drop in old(nodes) ==>
        && (ok ==> Finished(old(View()), View(), keep, drop))
        && (Partial(old(View()), View(), keep, drop) || Finished(old(View()), View(), keep, drop))
      ensures keep !in old(nodes) || drop !in old(nodes) ==> View() == old(View())
    {
      PartialAtFirst(View(), keep, drop);
      var found;
      ok, found := NodeExists(keep);
      if !ok || !found { return; }
      ok, found := NodeExists(drop);
      if !ok || !found { return; }
      ok := RewireAndDelete(keep, drop);
    }

    /** Crash after any number of queries, any number of times, with or without the last write
        taking effect, then run the decision to its end: the graph is that of one clean run on the
        graph before the first crash, with the retired id recorded once. */
    method CrashAndResume(keep: Node, drop: Node, crashes: seq<(nat, bool)>)
      requires Closed(View().Plain()) && keep in nodes && drop in nodes && keep != drop
      modifies this
      ensures Finished(old(View()), View(), keep, drop)
      ensures mergedFrom == old(mergedFrom)[keep := MergedFrom(old(View()), keep) + [drop.id]] - {drop}
    {
      ghost var g0 := View();
      PartialAtFirst(g0, keep, drop);
      MergeLosesOnlyDrop(g0.Plain(), keep, drop);
      for i := 0 to |crashes| + 1
        invariant Partial(g0, View(), keep, drop) || Finished(g0, View(), keep, drop)
        invariant i == |crashes| + 1 ==> Finished(g0, View(), keep, drop)
      {
        answers := if i < |crashes| then Some(crashes[i].0) else None;
        lastWriteLands := i < |crashes| && crashes[i].1;
        ghost var g := View();
        var ok := MergeOnce(keep, drop);
        if drop in g.nodes {
          Compose(g0, g, View(), keep, drop);
        }
      }
    }

    /** The loop over one decision's drops, on a `keep` that was found. A run that is cut off can be
        started over. */
    method ApplyDrops(keep: string, drop: seq<string>) returns (ok: bool, merged: nat)
      requires Closed(View().Plain())
      modifies this`nodes, this`edges, this`mergedFrom, this`answers
      ensures old(answers) == None ==> ok && answers == None
      ensures ok ==> (View().Plain(), merged) == MergeDrops(old(View()).Plain(), keep, drop) && Closed(View().Plain())
      ensures Halfway(old(View()).Plain(), View().Plain(), keep, drop)
      ensures ok ==> View().Notes() == NoteDrops(old(View()).Notes(), keep, drop)
      ensures NotedHalfway(old(View()).Notes(), View().Notes(), keep, drop)
    {
      ok, merged := true, 0;
      ghost var p, s := View().Plain(), View().Notes();
      assert drop[0..] == drop;
      for i := 0 to |drop|
        invariant ok && (old(answers) == None ==> answers == None)
        invariant DropsDone(p, View().Plain(), keep, drop, i) && DropsNoted(s, View().Notes(), keep, drop, i)
        invariant MergeDrops(p, keep, drop).1 == MergeDrops(View().Plain(), keep, drop[i..]).1 + merged
      {
        assert drop[i..][0] == drop[i] && drop[i..][1..] == drop[i + 1..];
        ghost var g := View();
        StoppedBetweenDrops(p, g.Plain(), keep, drop, i);
        NextDrop(p, g.Plain(), keep, drop, i);
        NotedBetweenDrops(s, g.Notes(), keep, drop, i);
        NoteNextDrop(s, g.Notes(), keep, drop, i);
        var found;
        ok, found := NodeExists(Capability(drop[i]));
        if !ok { return; }
        if found {
          ok := RewireAndDelete(Capability(keep), Capability(drop[i]));
          CutOffInsideDrop(p, g, View(), keep, drop, i);
          NotedInsideDrop(s, g, View(), keep, drop, i);
          if !ok { return; }
          merged := merged + 1;
        }
      }
      StoppedBetweenDrops(p, View().Plain(), keep, drop, |drop|);
      NotedBetweenDrops(s, View().Notes(), keep, drop, |drop|);
    }

    /** The decision loop of `main`, and the two counts it prints. A run that is cut off, started over,
        comes to the same nodes, edges and records. */
    method ApplyDecisions(ds: seq<Decision>) returns (ok: bool, applied: nat, skipped: nat)
      requires Closed(View().Plain())
      modifies this`nodes, this`edges, this`mergedFrom, this`answers
      ensures old(answers) == None ==> ok && answers == None
      ensures ok ==> (View().Plain(), Tally(applied, skipped)) == MergeAll(old(View()).Plain(), ds)
      ensures Closed(View().Plain()) && MergeAll(View().Plain(), ds).0 == MergeAll(old(View()).Plain(), ds).0
      ensures ok ==> View().Notes() == NoteAll(old(View()).Notes(), ds)
      ensures NoteAll(View().Notes(), ds) == NoteAll(old(View()).Notes(), ds)
    {
      ok, applied, skipped := true, 0, 0;
      ghost var p, s := View().Plain(), View().Notes();
      assert ds[0..] == ds && ds[..0] == [];
      for i := 0 to |ds|
        invariant ok && (old(answers) == None ==> answers == None)
        invariant DecisionsDone(p, View().Plain(), ds, i) && DecisionsNoted(s, View().Notes(), ds, i)
        invariant MergeAll(p, ds).1.applied == MergeAll(View().Plain(), ds[i..]).1.applied + applied
        invariant MergeAll(p, ds).1.skipped == MergeAll(View().Plain(), ds[i..]).1.skipped + skipped
      {
        assert ds[i..][0] == ds[i] && ds[i..][1..] == ds[i + 1..];
        ghost var q, t := View().Plain(), View().Notes();
        StartingOver(p, q, q, ds, i);
        NextDecision(p, q, ds, i);
        NotesStartOver(s, t, t, ds, i);
        NoteNextDecision(s, t, ds, i);
        var found;
        ok, found := NodeExists(Capability(ds[i].keep));
        if !ok { return; }
        if !found {
          skipped := skipped + |ds[i].drop|;
        } else {
          var merged;
          ok, merged := ApplyDrops(ds[i].keep, ds[i].drop);
          StartingOver(p, q, View().Plain(), ds, i);
          NotesStartOver(s, t, View().Notes(), ds, i);
          if !ok { return; }
          applied := applied + merged;
        }
      }
      StartingOver(p, View().Plain(), View().Plain(), ds, |ds|);
      NotesStartOver(s, View().Notes(), View().Notes(), ds, |ds|);
    }

    /** The whole file, cut off after any number of queries, any number of times, with or without the
        last write taking effect, and started over each time: in the end the nodes, edges and records
        of one clean run. Where the file drops no `keep`, a node that is left has recorded each id that
        went to it once. */
    method CrashAndResumeFile(ds: seq<Decision>, crashes: seq<(nat, bool)>)
      requires Closed(View().Plain())
      modifies this
      ensures View().Plain() == MergeAll(old(View()).Plain(), ds).0
      ensures View().Notes() == NoteAll(old(View()).Notes(), ds)
      ensures KeepsStay(ds) ==> forall n :: n in nodes ==>
        exists added :: RecordsArrivals(old(View()).Notes(), ds, n, added)
                     && MergedFrom(View(), n) == MergedFrom(old(View()), n) + added
    {
      ghost var p, s := View().Plain(), View().Notes();
      for i := 0 to |crashes|
        invariant Closed(View().Plain()) && MergeAll(View().Plain(), ds).0 == MergeAll(p, ds).0
        invariant NoteAll(View().Notes(), ds) == NoteAll(s, ds)
      {
        answers, lastWriteLands := Some(crashes[i].0), crashes[i].1;
        var _, _, _ := ApplyDecisions(ds);
      }
      answers := None;
      var _, _, _ := ApplyDecisions(ds);
      if KeepsStay(ds) {
        forall n | n in nodes
          ensures exists added :: RecordsArrivals(s, ds, n, added) && MergedFrom(View(), n) == s.Of(n) + added
        {
          var added := EachRecordedOnce(s, ds, n);
        }
      }
    }

    // ----- load_graph.py -----

    method UpsertNode(n: Node)
      modifies this`nodes
      ensures nodes == old(nodes) + {n}
    {
      nodes := nodes + {n};
    }

    method UpsertEdge(e: Edge, props: Props)
      modifies this`edges
      ensures View() == EdgeMerged(old(View()), e, props)
    {
      if e.from in nodes && e.to in nodes {
        edges := edges[e := (if e in edges then edges[e] else map[]) + props];
      }
    }

    /** `load_graph`: every node first, so that each edge can find both of its endpoints. Every row whose
        ends are there then has its edge, no other edge comes or goes, and a property has the value of
        the last row that sets it, or the one it had. */
    method LoadGraph(newNodes: seq<Node>, newEdges: seq<Row>)
      modifies this`nodes, this`edges
      ensures nodes == old(nodes) + set n | n in newNodes
      ensures forall e :: e in edges <==>
        e in old(edges) || (e.from in nodes && e.to in nodes && exists r :: r in newEdges && r.edge == e)
      ensures forall e, key, i :: e in edges && e.from in nodes && e.to in nodes && SetsLast(newEdges, e, key, i) ==>
        key in edges[e] && edges[e][key] == newEdges[i].props[key]
      ensures forall e, key :: e in edges && (NeverSets(newEdges, e, key) || e.from !in nodes || e.to !in nodes) ==>
        SameProperty(edges[e], if e in old(edges) then old(edges)[e] else map[], key)
      ensures View().Plain() == Load(old(View()).Plain(), GraphModel.Plain(set n | n in newNodes, set r | r in newEdges :: r.edge))
    {
      for i := 0 to |newNodes|
        invariant nodes == old(nodes) + set n | n in newNodes[..i]
        invariant edges == old(edges)
      {
        UpsertNode(newNodes[i]);
      }
      assert newNodes[..|newNodes|] == newNodes;
      for i := 0 to |newEdges|
        invariant nodes == old(nodes) + set n | n in newNodes
        invariant edges == Upserted(nodes, old(edges), newEdges[..i])
      {
        assert newEdges[..i + 1][..i] == newEdges[..i];
        UpsertEdge(newEdges[i].edge, newEdges[i].props);
      }
      assert newEdges[..|newEdges|] == newEdges;
      UpsertedEdges(nodes, old(edges), newEdges);
      UpsertedIsLoaded(old(View()).Plain(), nodes, edges, newNodes, newEdges);
      forall e, key, i | e in edges && e.from in nodes && e.to in nodes && SetsLast(newEdges, e, key, i)
        ensures key in edges[e] && edges[e][key] == newEdges[i].props[key]
      {
        UpsertedSets(nodes, old(edges), newEdges, e, key, i);
      }
      forall e, key | e in edges && (NeverSets(newEdges, e, key) || e.from !in nodes || e.to !in nodes)
        ensures SameProperty(edges[e], if e in old(edges) then old(edges)[e] else map[], key)
      {
        UpsertedLeaves(nodes, old(edges), newEdges, e, key);
      }
    }
  }

  // ----- what rows leave on the edges -----

  function Upserted(nodes: set<Node>, edges: map<Edge, Props>, rows: seq<Row>): map<Edge, Props>
    decreases |rows|
  {
    if rows == [] then edges
    else
      var row, before := rows[|rows| - 1], Upserted(nodes, edges, rows[..|rows| - 1]);
      if row.edge.from in nodes && row.edge.to in nodes
      then before[row.edge := PropsMerged(before, row.edge, row.props)] else before
  }

  /** The `i`-th row is the last one that sets the property. */
  predicate SetsLast(rows: seq<Row>, e: Edge, key: string, i: int) {
    && 0 <= i < |rows| && rows[i].edge == e && key in rows[i].props
    && forall j :: i < j < |rows| && rows[j].edge == e ==> key !in rows[j].props
  }

  predicate NeverSets(rows: seq<Row>, e: Edge, key: string) {
    forall j :: 0 <= j < |rows| && rows[j].edge == e ==> key !in rows[j].props
  }

  predicate SameProperty(a: Props, b: Props, key: string) {
    (key in a <==> key in b) && (key in a ==> a[key] == b[key])
  }

  lemma {:induction false} UpsertedEdges(nodes: set<Node>, edges: map<Edge, Props>, rows: seq<Row>)
    ensures forall e :: e in Upserted(nodes, edges, rows) <==>
      e in edges || (e.from in nodes && e.to in nodes && exists r :: r in rows && r.edge == e)
    decreases |rows|
  {
    if rows != [] {
      var n := |rows| - 1;
      UpsertedEdges(nodes, edges, rows[..n]);
      assert forall r :: r in rows <==> r in rows[..n] || r == rows[n];
    }
  }

  lemma UpsertedIsLoaded(p: GraphModel.Plain, nodes: set<Node>, edges: map<Edge, Props>, newNodes: seq<Node>, rows: seq<Row>)
    requires nodes == p.nodes + set n | n in newNodes
    requires forall e :: e in edges <==>
      e in p.edges || (e.from in nodes && e.to in nodes && exists r :: r in rows && r.edge == e)
    ensures GraphModel.Plain(nodes, edges.Keys) ==
      Load(p, GraphModel.Plain(set n | n in newNodes, set r | r in rows :: r.edge))
  {
    var written := set r | r in rows :: r.edge;
    forall e
      ensures e in edges.Keys <==> e in p.edges || (e in written && e.from in nodes && e.to in nodes)
    {
    }
    assert edges.Keys == p.edges + set e | e in written && e.from in nodes && e.to in nodes;
  }

  lemma {:induction false} UpsertedSets(nodes: set<Node>, edges: map<Edge, Props>, rows: seq<Row>, e: Edge, key: string, i: nat)
    requires SetsLast(rows, e, key, i) && e.from in nodes && e.to in nodes
    ensures var after := Upserted(nodes, edges, rows);
      e in after && key in after[e] && after[e][key] == rows[i].props[key]
    decreases |rows|
  {
    var n := |rows| - 1;
    if i < n {
      assert rows[n].edge == e ==> key !in rows[n].props;
      assert SetsLast(rows[..n], e, key, i);
      UpsertedSets(nodes, edges, rows[..n], e, key, i);
    }
  }

  lemma {:induction false} UpsertedLeaves(nodes: set<Node>, edges: map<Edge, Props>, rows: seq<Row>, e: Edge, key: string)
    requires e in Upserted(nodes, edges, rows) && (NeverSets(rows, e, key) || e.from !in nodes || e.to !in nodes)
    ensures SameProperty(Upserted(nodes, edges, rows)[e], if e in edges then edges[e] else map[], key)
    decreases |rows|
  {
    if rows != [] {
      var n := |rows| - 1;
      UpsertedEdges(nodes, edges, rows[..n]);
      assert NeverSets(rows, e, key) ==> NeverSets(rows[..n], e, key) && (rows[n].edge == e ==> key !in rows[n].props);
      if e in Upserted(nodes, edges, rows[..n]) { UpsertedLeaves(nodes, edges, rows[..n], e, key); }
    }
  }

  /** A partial merge still merges to what the whole graph merges to. */
  lemma PartialMergesAlike(g0: Graph, g: Graph, keep: Node, drop: Node)
    requires Partial(g0, g, keep, drop) && keep in g0.nodes && drop in g0.nodes
    ensures MergePair(g.Plain(), keep, drop) == MergePair(g0.Plain(), keep, drop)
  {
    if keep == drop {
      OntoItselfChangesNoEdge(g.edges.Keys, keep);
      OntoItselfChangesNoEdge(g0.edges.Keys, keep);
    }
  }

  lemma CutOffInsideDrop(p: GraphModel.Plain, g: Graph, r: Graph, keep: string, drop: seq<string>, i: nat)
    requires i < |drop| && DropsDone(p, g.Plain(), keep, drop, i) && Capability(drop[i]) in g.nodes
    requires Partial(g, r, Capability(keep), Capability(drop[i])) || Finished(g, r, Capability(keep), Capability(drop[i]))
    requires Capability(keep) !in g.nodes ==> r == g
    ensures Halfway(p, r.Plain(), keep, drop)
  {
    var k, d := Capability(keep), Capability(drop[i]);
    if k !in g.nodes {
      StoppedBetweenDrops(p, g.Plain(), keep, drop, i);
    } else if Finished(g, r, k, d) {
      NextDrop(p, g.Plain(), keep, drop, i);
      StoppedBetweenDrops(p, r.Plain(), keep, drop, i + 1);
    } else {
      PartialMergesAlike(g, r, k, d);
      StoppedInsideDrop(p, g.Plain(), r.Plain(), keep, drop, i);
    }
  }

  /** A merge cut off anywhere has recorded its id or it has not. */
  lemma NotedInsideDrop(s: Notes, g: Graph, r: Graph, keep: string, drop: seq<string>, i: nat)
    requires i < |drop| && DropsNoted(s, g.Notes(), keep, drop, i) && Capability(drop[i]) in g.nodes && Closed(g.Plain())
    requires Partial(g, r, Capability(keep), Capability(drop[i])) || Finished(g, r, Capability(keep), Capability(drop[i]))
    ensures Finished(g, r, Capability(keep), Capability(drop[i])) ==>
      r.Notes() == NotePair(g.Notes(), Capability(keep), Capability(drop[i]))
    ensures NotedHalfway(s, r.Notes(), keep, drop)
  {
    var k, d := Capability(keep), Capability(drop[i]);
    if Finished(g, r, k, d) {
      FinishedIsNoted(g, r, k, d);
      NoteNextDrop(s, g.Notes(), keep, drop, i);
      NotedBetweenDrops(s, r.Notes(), keep, drop, i + 1);
    } else {
      NotedBetweenDrops(s, g.Notes(), keep, drop, i);
    }
  }

  lemma FinishedIsNoted(g: Graph, r: Graph, keep: Node, drop: Node)
    requires Finished(g, r, keep, drop) && drop in g.nodes && Closed(g.Plain())
    ensures r.Notes() == NotePair(g.Notes(), keep, drop)
  {
    if keep in g.nodes { MergeLosesOnlyDrop(g.Plain(), keep, drop); }
  }

  lemma PartialAtFirst(g: Graph, keep: Node, drop: Node)
    requires Closed(g.Plain())
    ensures Partial(g, g, keep, drop)
  {
  }

  lemma Compose(g0: Graph, g1: Graph, g2: Graph, keep: Node, drop: Node)
    requires keep in g0.nodes && drop in g0.nodes && keep != drop
    requires Partial(g0, g1, keep, drop)
    ensures Partial(g1, g2, keep, drop) ==> Partial(g0, g2, keep, drop)
    ensures Finished(g1, g2, keep, drop) ==> Finished(g0, g2, keep, drop)
  {
    if Partial(g1, g2, keep, drop) { PartialsCompose(g0, g1, g2, keep, drop); }
    if Finished(g1, g2, keep, drop) { PartialThenFinished(g0, g1, g2, keep, drop); }
  }
}
