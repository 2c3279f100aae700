/** Capability merges on the graph's node and edge sets: what one merge, one decisions file and
    a reload leave behind. */
module GraphModel {

  /** A node is known by its label and `id`, as every `MERGE` and `MATCH` of the tools keys it. */
  datatype Node = Node(tag: string, id: string)

  /** `MERGE` keeps one edge per source, type and target. */
  datatype Edge = Edge(from: Node, kind: string, to: Node)

  datatype Plain = Plain(nodes: set<Node>, edges: set<Edge>)

  function Capability(id: string): Node { Node("Capability", id) }

  predicate Closed(p: Plain) {
    forall e :: e in p.edges ==> e.from in p.nodes && e.to in p.nodes
  }

  // ----- substitutions -----

  function MapNodes(ns: set<Node>, f: Node -> Node): set<Node> {
    set n | n in ns :: f(n)
  }

  function MapEdge(e: Edge, f: Node -> Node): Edge {
    Edge(f(e.from), e.kind, f(e.to))
  }

  function MapEdges(es: set<Edge>, f: Node -> Node): set<Edge> {
    set e | e in es :: MapEdge(e, f)
  }

  /** The graph with every node replaced by its image: equal edges fall together. */
  function Quotient(p: Plain, f: Node -> Node): Plain {
    Plain(MapNodes(p.nodes, f), MapEdges(p.edges, f))
  }

  function Onto(keep: Node, drop: Node): Node -> Node {
    n => if n == drop then keep else n
  }

  predicate Touches(e: Edge, n: Node) { e.from == n || e.to == n }

  lemma QuotientsCompose(p: Plain, f: Node -> Node, g: Node -> Node, h: Node -> Node)
    requires Closed(p) && forall n :: n in p.nodes ==> h(n) == g(f(n))
    ensures Quotient(Quotient(p, f), g) == Quotient(p, h)
  {
    var q := Quotient(p, f);
    forall n | n in MapNodes(p.nodes, h)
      ensures n in MapNodes(q.nodes, g)
    {
      var m :| m in p.nodes && h(m) == n;
      assert f(m) in q.nodes;
    }
    forall e | e in MapEdges(p.edges, h)
      ensures e in MapEdges(q.edges, g)
    {
      var d :| d in p.edges && MapEdge(d, h) == e;
      assert MapEdge(d, f) in q.edges && MapEdge(MapEdge(d, f), g) == e;
    }
  }

  lemma QuotientByIdentity(p: Plain, f: Node -> Node)
    requires Closed(p) && forall n :: n in p.nodes ==> f(n) == n
    ensures Quotient(p, f) == p
  {
    assert forall n :: n in p.nodes ==> f(n) in MapNodes(p.nodes, f);
    forall e | e in p.edges
      ensures e in MapEdges(p.edges, f)
    {
      assert MapEdge(e, f) == e;
    }
  }

  // ----- one decision -----

  datatype Decision = Decision(keep: string, drop: seq<string>)

  function Without(p: Plain, n: Node): Plain {
    Plain(p.nodes - {n}, set e | e in p.edges && !Touches(e, n))
  }

  /** What rewiring `drop` onto `keep` and deleting `drop` leaves. With `keep` gone nothing
      matches; with `keep` and `drop` the same node, that node is deleted with its edges. */
  function MergePair(p: Plain, keep: Node, drop: Node): Plain {
    if keep !in p.nodes || drop !in p.nodes then p
    else if keep == drop then Without(p, keep)
    else Quotient(p, Onto(keep, drop))
  }

  /** The retired node is gone and nothing else is. */
  lemma MergeLosesOnlyDrop(p: Plain, keep: Node, drop: Node)
    requires Closed(p) && keep in p.nodes && drop in p.nodes
    ensures MergePair(p, keep, drop).nodes == p.nodes - {drop}
    ensures Closed(MergePair(p, keep, drop))
    ensures forall e :: e in MergePair(p, keep, drop).edges ==> !Touches(e, drop)
  {
    if keep != drop {
      var f := Onto(keep, drop);
      forall n | n in p.nodes - {drop}
        ensures n in MapNodes(p.nodes, f)
      {
        assert f(n) == n;
      }
    }
  }

  /** The merge is the quotient of the graph exactly when the two ids differ: a node merged onto
      itself is lost. */
  lemma MergeIsQuotientIffDistinct(p: Plain, keep: Node, drop: Node)
    requires Closed(p) && keep in p.nodes && drop in p.nodes
    ensures MergePair(p, keep, drop) == Quotient(p, Onto(keep, drop)) <==> keep != drop
  {
    if keep == drop {
      QuotientByIdentity(p, Onto(keep, drop));
      assert keep !in MergePair(p, keep, drop).nodes;
    }
  }

  /** The loop over one decision's `drop` list, counting the merges it reports. */
  function MergeDrops(p: Plain, keep: string, drop: seq<string>): (r: (Plain, nat))
    decreases |drop|
  {
    if drop == [] then (p, 0)
    else if Capability(drop[0]) !in p.nodes then MergeDrops(p, keep, drop[1..])
    else
      var (q, applied) := MergeDrops(MergePair(p, Capability(keep), Capability(drop[0])), keep, drop[1..]);
      (q, applied + 1)
  }

  datatype Tally = Tally(applied: nat, skipped: nat)

  /** The decision loop of `main`. */
  function MergeAll(p: Plain, ds: seq<Decision>): (r: (Plain, Tally))
    decreases |ds|
  {
    if ds == [] then (p, Tally(0, 0))
    else if Capability(ds[0].keep) !in p.nodes then
      var (q, t) := MergeAll(p, ds[1..]);
      (q, Tally(t.applied, t.skipped + |ds[0].drop|))
    else
      var (p1, n) := MergeDrops(p, ds[0].keep, ds[0].drop);
      var (q, t) := MergeAll(p1, ds[1..]);
      (q, Tally(t.applied + n, t.skipped))
  }

  /** One decision more is skipped whole, with all its drops counted, exactly when its `keep` is not in
      the graph that the decisions before it left; else it merges into that graph and skips none. */
  lemma {:induction false} OneMoreDecision(p: Plain, ds: seq<Decision>, d: Decision)
    ensures var (q, t) := MergeAll(p, ds);
      MergeAll(p, ds + [d]) ==
        if Capability(d.keep) !in q.nodes then (q, Tally(t.applied, t.skipped + |d.drop|))
        else (MergeDrops(q, d.keep, d.drop).0, Tally(t.applied + MergeDrops(q, d.keep, d.drop).1, t.skipped))
    decreases |ds|
  {
    if ds == [] {
      assert ds + [d] == [d] && [d][1..] == [];
    } else {
      assert (ds + [d])[0] == ds[0] && (ds + [d])[1..] == ds[1..] + [d];
      OneMoreDecision(if Capability(ds[0].keep) in p.nodes then MergeDrops(p, ds[0].keep, ds[0].drop).0 else p, ds[1..], d);
    }
  }

  predicate KeepsNoneItDrops(ds: seq<Decision>) {
    forall d :: d in ds ==> d.keep !in d.drop
  }

  // ----- the composed substitution -----

  /** Where a node ends up under one decision's drops. */
  function SubDrops(nodes: set<Node>, keep: string, drop: seq<string>, n: Node): Node
    decreases |drop|
  {
    if drop == [] then n
    else
      var d := Capability(drop[0]);
      if d !in nodes then SubDrops(nodes, keep, drop[1..], n)
      else SubDrops(nodes - {d}, keep, drop[1..], if n == d then Capability(keep) else n)
  }

  function NodesAfterDrops(nodes: set<Node>, drop: seq<string>): set<Node>
    decreases |drop|
  {
    if drop == [] then nodes else NodesAfterDrops(nodes - {Capability(drop[0])}, drop[1..])
  }

  /** Where a node ends up under a whole decisions file. */
  function Sub(nodes: set<Node>, ds: seq<Decision>, n: Node): Node
    decreases |ds|
  {
    if ds == [] then n
    else if Capability(ds[0].keep) !in nodes then Sub(nodes, ds[1..], n)
    else Sub(NodesAfterDrops(nodes, ds[0].drop), ds[1..], SubDrops(nodes, ds[0].keep, ds[0].drop, n))
  }

  lemma QuotientsAgree(p: Plain, g: Node -> Node, h: Node -> Node)
    requires forall n :: g(n) == h(n)
    ensures Quotient(p, g) == Quotient(p, h)
  {
    assert forall e :: MapEdge(e, g) == MapEdge(e, h);
  }

  lemma {:induction false} DropsAreQuotient(p: Plain, keep: string, drop: seq<string>)
    requires Closed(p) && Capability(keep) in p.nodes && keep !in drop
    ensures var (q, applied) := MergeDrops(p, keep, drop);
      && q == Quotient(p, n => SubDrops(p.nodes, keep, drop, n))
      && q.nodes == NodesAfterDrops(p.nodes, drop)
      && Closed(q)
      && |q.nodes| + applied == |p.nodes|
    decreases |drop|
  {
    var h := n => SubDrops(p.nodes, keep, drop, n);
    if drop == [] {
      QuotientByIdentity(p, h);
    } else {
      var d := Capability(drop[0]);
      assert keep != drop[0];
      if d !in p.nodes {
        assert p.nodes - {d} == p.nodes;
        DropsAreQuotient(p, keep, drop[1..]);
        QuotientsAgree(p, n => SubDrops(p.nodes, keep, drop[1..], n), h);
      } else {
        var f := Onto(Capability(keep), d);
        var p1 := Quotient(p, f);
        MergeLosesOnlyDrop(p, Capability(keep), d);
        DropsAreQuotient(p1, keep, drop[1..]);
        QuotientsCompose(p, f, n => SubDrops(p1.nodes, keep, drop[1..], n), h);
      }
    }
  }

  /** One whole decisions file, with no `keep` in its own `drop` list: the result is the image of
      the graph under the composed substitution, and `applied` counts the nodes that are gone. */
  lemma {:induction false} FileIsQuotient(p: Plain, ds: seq<Decision>)
    requires Closed(p) && KeepsNoneItDrops(ds)
    ensures var (q, tally) := MergeAll(p, ds);
      && q == Quotient(p, n => Sub(p.nodes, ds, n))
      && Closed(q) && q.nodes <= p.nodes
      && |q.nodes| + tally.applied == |p.nodes|
    decreases |ds|
  {
    var h := n => Sub(p.nodes, ds, n);
    if ds == [] {
      QuotientByIdentity(p, h);
    } else {
      assert KeepsNoneItDrops(ds[1..]);
      if Capability(ds[0].keep) !in p.nodes {
        FileIsQuotient(p, ds[1..]);
        var g := n => Sub(p.nodes, ds[1..], n);
        assert Quotient(p, g) == Quotient(p, h) by {
          assert forall n :: g(n) == h(n);
          assert forall e :: MapEdge(e, g) == MapEdge(e, h);
        }
      } else {
        var d := ds[0];
        assert d in ds;
        DropsAreQuotient(p, d.keep, d.drop);
        DropsShrink(p.nodes, d.drop);
        var p1 := MergeDrops(p, d.keep, d.drop).0;
        FileIsQuotient(p1, ds[1..]);
        QuotientsCompose(p, n => SubDrops(p.nodes, d.keep, d.drop, n), n => Sub(p1.nodes, ds[1..], n), h);
      }
    }
  }

  lemma {:induction false} DropsShrink(nodes: set<Node>, drop: seq<string>)
    ensures NodesAfterDrops(nodes, drop) == nodes - (set x | x in drop :: Capability(x))
    decreases |drop|
  {
    if drop != [] {
      DropsShrink(nodes - {Capability(drop[0])}, drop[1..]);
      assert forall x :: x in drop <==> x == drop[0] || x in drop[1..];
    }
  }

  // ----- a decision that drops its own keep -----

  lemma {:induction false} KeepStaysItself(nodes: set<Node>, keep: string, drop: seq<string>)
    ensures SubDrops(nodes, keep, drop, Capability(keep)) == Capability(keep)
    decreases |drop|
  {
    if drop != [] {
      var d := Capability(drop[0]);
      KeepStaysItself(if d in nodes then nodes - {d} else nodes, keep, drop[1..]);
    }
  }

  lemma {:induction false} MergedNodesOnlyShrink(p: Plain, keep: string, drop: seq<string>)
    requires Closed(p)
    ensures Closed(MergeDrops(p, keep, drop).0) && MergeDrops(p, keep, drop).0.nodes <= p.nodes
    decreases |drop|
  {
    if drop != [] {
      var k, d := Capability(keep), Capability(drop[0]);
      if d !in p.nodes {
        MergedNodesOnlyShrink(p, keep, drop[1..]);
      } else {
        if k in p.nodes { MergeLosesOnlyDrop(p, k, d); }
        MergedNodesOnlyShrink(MergePair(p, k, d), keep, drop[1..]);
      }
    }
  }

  /** After its own decision no dropped node is left, unless the decision deleted its `keep`. */
  lemma {:induction false} DropsAreGone(p: Plain, keep: string, drop: seq<string>)
    requires Closed(p) && Capability(keep) in p.nodes
    ensures var q := MergeDrops(p, keep, drop).0;
      && (keep in drop ==> Capability(keep) !in q.nodes)
      && (keep !in drop ==> forall x :: x in drop ==> Capability(x) !in q.nodes)
    decreases |drop|
  {
    if drop != [] {
      var k, d := Capability(keep), Capability(drop[0]);
      if d in p.nodes { MergeLosesOnlyDrop(p, k, d); }
      var p1 := if d in p.nodes then MergePair(p, k, d) else p;
      MergedNodesOnlyShrink(p1, keep, drop[1..]);
      if d != k { DropsAreGone(p1, keep, drop[1..]); }
    }
  }

  /** One decision merges - gives the image of the graph under its substitution - exactly when it
      does not list its own `keep`; when it does, the kept node is lost. */
  lemma DecisionMergesIffKeepNotDropped(p: Plain, d: Decision)
    requires Closed(p) && Capability(d.keep) in p.nodes
    ensures MergeDrops(p, d.keep, d.drop).0 == Quotient(p, n => SubDrops(p.nodes, d.keep, d.drop, n))
      <==> d.keep !in d.drop
  {
    if d.keep in d.drop {
      var f := n => SubDrops(p.nodes, d.keep, d.drop, n);
      KeepStaysItself(p.nodes, d.keep, d.drop);
      DropsAreGone(p, d.keep, d.drop);
      assert f(Capability(d.keep)) in MapNodes(p.nodes, f);
    } else {
      DropsAreQuotient(p, d.keep, d.drop);
    }
  }

  // ----- running the same file again -----

  predicate NothingToDo(nodes: set<Node>, ds: seq<Decision>) {
    forall d :: d in ds ==> Capability(d.keep) !in nodes || forall x :: x in d.drop ==> Capability(x) !in nodes
  }

  lemma {:induction false} MergesOnlyShrink(p: Plain, ds: seq<Decision>)
    requires Closed(p)
    ensures Closed(MergeAll(p, ds).0) && MergeAll(p, ds).0.nodes <= p.nodes
    decreases |ds|
  {
    if ds != [] {
      if Capability(ds[0].keep) !in p.nodes {
        MergesOnlyShrink(p, ds[1..]);
      } else {
        MergedNodesOnlyShrink(p, ds[0].keep, ds[0].drop);
        MergesOnlyShrink(MergeDrops(p, ds[0].keep, ds[0].drop).0, ds[1..]);
      }
    }
  }

  lemma {:induction false} NothingLeftToDo(p: Plain, ds: seq<Decision>)
    requires Closed(p)
    ensures NothingToDo(MergeAll(p, ds).0.nodes, ds)
    decreases |ds|
  {
    if ds != [] {
      var keep, drop := ds[0].keep, ds[0].drop;
      var p1 := if Capability(keep) in p.nodes then MergeDrops(p, keep, drop).0 else p;
      if Capability(keep) in p.nodes {
        DropsAreGone(p, keep, drop);
        MergedNodesOnlyShrink(p, keep, drop);
      }
      MergesOnlyShrink(p1, ds[1..]);
      NothingLeftToDo(p1, ds[1..]);
      forall d | d in ds
        ensures Capability(d.keep) !in MergeAll(p, ds).0.nodes
          || forall x :: x in d.drop ==> Capability(x) !in MergeAll(p, ds).0.nodes
      {
        assert d == ds[0] || d in ds[1..];
      }
    }
  }

  lemma {:induction false} NoDropsNoMerge(p: Plain, keep: string, drop: seq<string>)
    requires forall x :: x in drop ==> Capability(x) !in p.nodes
    ensures MergeDrops(p, keep, drop) == (p, 0)
    decreases |drop|
  {
    if drop != [] {
      assert drop[0] in drop;
      NoDropsNoMerge(p, keep, drop[1..]);
    }
  }

  lemma {:induction false} NothingToDoDoesNothing(p: Plain, ds: seq<Decision>)
    requires NothingToDo(p.nodes, ds)
    ensures MergeAll(p, ds).0 == p && MergeAll(p, ds).1.applied == 0
    decreases |ds|
  {
    if ds != [] {
      assert ds[0] in ds;
      if Capability(ds[0].keep) in p.nodes { NoDropsNoMerge(p, ds[0].keep, ds[0].drop); }
      assert NothingToDo(p.nodes, ds[1..]);
      NothingToDoDoesNothing(p, ds[1..]);
    }
  }

  /** A second run of any decisions file applies nothing and changes nothing. */
  lemma SecondRunAppliesNothing(p: Plain, ds: seq<Decision>)
    requires Closed(p)
    ensures var first := MergeAll(p, ds).0;
      MergeAll(first, ds).0 == first && MergeAll(first, ds).1.applied == 0
  {
    NothingLeftToDo(p, ds);
    NothingToDoDoesNothing(MergeAll(p, ds).0, ds);
  }

  // ----- stopping on the way -----

  lemma {:induction false} KeepGoneMergesNothing(p: Plain, keep: string, drop: seq<string>)
    requires Capability(keep) !in p.nodes
    ensures MergeDrops(p, keep, drop).0 == p
    decreases |drop|
  {
    if drop != [] { KeepGoneMergesNothing(p, keep, drop[1..]); }
  }

  lemma {:induction false} SkipsGoneDrops(p: Plain, keep: string, drop: seq<string>, i: nat)
    requires i <= |drop| && forall j :: 0 <= j < i ==> Capability(drop[j]) !in p.nodes
    ensures MergeDrops(p, keep, drop).0 == MergeDrops(p, keep, drop[i..]).0
    decreases i
  {
    if i == 0 {
      assert drop[0..] == drop;
    } else {
      assert drop[1..][i - 1..] == drop[i..];
      SkipsGoneDrops(p, keep, drop[1..], i - 1);
    }
  }

  lemma {:induction false} SkipsDoneDecisions(p: Plain, ds: seq<Decision>, i: nat)
    requires i <= |ds| && NothingToDo(p.nodes, ds[..i])
    ensures MergeAll(p, ds).0 == MergeAll(p, ds[i..]).0
    decreases i
  {
    if i == 0 {
      assert ds[0..] == ds;
    } else {
      assert ds[..i][0] == ds[0] && ds[0] in ds[..i];
      if Capability(ds[0].keep) in p.nodes { NoDropsNoMerge(p, ds[0].keep, ds[0].drop); }
      assert ds[1..][..i - 1] == ds[..i][1..] && ds[1..][i - 1..] == ds[i..];
      assert NothingToDo(p.nodes, ds[..i][1..]);
      SkipsDoneDecisions(p, ds[1..], i - 1);
    }
  }

  /** `q` is what an interrupted run of one decision may leave of `p`: running the decision again comes
      to the same, and where `keep` is gone there is nothing more to come. */
  predicate Halfway(p: Plain, q: Plain, keep: string, drop: seq<string>) {
    && Closed(q) && q.nodes <= p.nodes
    && (Capability(keep) in q.nodes ==> MergeDrops(q, keep, drop).0 == MergeDrops(p, keep, drop).0)
    && (Capability(keep) !in q.nodes ==> q == MergeDrops(p, keep, drop).0)
  }

  /** Where the loop over one decision's drops stands before its `i`-th drop. */
  predicate DropsDone(p: Plain, q: Plain, keep: string, drop: seq<string>, i: nat)
    requires i <= |drop|
  {
    && Closed(q) && q.nodes <= p.nodes
    && MergeDrops(q, keep, drop[i..]).0 == MergeDrops(p, keep, drop).0
    && (Capability(keep) in q.nodes ==> forall j :: 0 <= j < i ==> Capability(drop[j]) !in q.nodes)
  }

  lemma StoppedBetweenDrops(p: Plain, q: Plain, keep: string, drop: seq<string>, i: nat)
    requires i <= |drop| && DropsDone(p, q, keep, drop, i)
    ensures Halfway(p, q, keep, drop)
  {
    if Capability(keep) in q.nodes {
      SkipsGoneDrops(q, keep, drop, i);
    } else {
      KeepGoneMergesNothing(q, keep, drop[i..]);
    }
  }

  /** One more drop: the next place in the loop. */
  lemma NextDrop(p: Plain, q: Plain, keep: string, drop: seq<string>, i: nat)
    requires i < |drop| && DropsDone(p, q, keep, drop, i)
    ensures var d := Capability(drop[i]);
      DropsDone(p, if d in q.nodes then MergePair(q, Capability(keep), d) else q, keep, drop, i + 1)
  {
    var k, d := Capability(keep), Capability(drop[i]);
    assert drop[i..][0] == drop[i] && drop[i..][1..] == drop[i + 1..];
    if d in q.nodes && k in q.nodes { MergeLosesOnlyDrop(q, k, d); }
  }

  /** Stopped inside a merge: `r` still merges to what `q` merges to, and is no smaller. */
  lemma StoppedInsideDrop(p: Plain, q: Plain, r: Plain, keep: string, drop: seq<string>, i: nat)
    requires i < |drop| && DropsDone(p, q, keep, drop, i)
    requires Capability(keep) in q.nodes && Capability(drop[i]) in q.nodes
    requires Closed(r) && r.nodes == q.nodes
    requires MergePair(r, Capability(keep), Capability(drop[i])) == MergePair(q, Capability(keep), Capability(drop[i]))
    ensures Halfway(p, r, keep, drop)
  {
    assert drop[i..][0] == drop[i] && drop[i..][1..] == drop[i + 1..];
    SkipsGoneDrops(r, keep, drop, i);
  }

  /** Where the loop over the decisions stands before its `i`-th decision. */
  predicate DecisionsDone(p: Plain, q: Plain, ds: seq<Decision>, i: nat)
    requires i <= |ds|
  {
    Closed(q) && MergeAll(q, ds[i..]).0 == MergeAll(p, ds).0 && NothingToDo(q.nodes, ds[..i])
  }

  lemma FewerNodesNothingToDo(nodes: set<Node>, fewer: set<Node>, ds: seq<Decision>)
    requires NothingToDo(nodes, ds) && fewer <= nodes
    ensures NothingToDo(fewer, ds)
  {
  }

  lemma NextDecision(p: Plain, q: Plain, ds: seq<Decision>, i: nat)
    requires i < |ds| && DecisionsDone(p, q, ds, i)
    ensures var d := ds[i];
      DecisionsDone(p, if Capability(d.keep) in q.nodes then MergeDrops(q, d.keep, d.drop).0 else q, ds, i + 1)
  {
    var d := ds[i];
    var r := if Capability(d.keep) in q.nodes then MergeDrops(q, d.keep, d.drop).0 else q;
    assert ds[i..][0] == d && ds[i..][1..] == ds[i + 1..];
    if Capability(d.keep) in q.nodes {
      MergedNodesOnlyShrink(q, d.keep, d.drop);
      DropsAreGone(q, d.keep, d.drop);
    }
    FewerNodesNothingToDo(q.nodes, r.nodes, ds[..i]);
    assert ds[..i + 1] == ds[..i] + [d];
  }

  /** A run stopped between decisions or inside one: starting over comes to the same. */
  lemma StartingOver(p: Plain, q: Plain, r: Plain, ds: seq<Decision>, i: nat)
    requires i <= |ds| && DecisionsDone(p, q, ds, i)
    requires r == q || (i < |ds| && Capability(ds[i].keep) in q.nodes && Halfway(q, r, ds[i].keep, ds[i].drop))
    ensures MergeAll(r, ds).0 == MergeAll(p, ds).0
  {
    FewerNodesNothingToDo(q.nodes, r.nodes, ds[..i]);
    SkipsDoneDecisions(r, ds, i);
    if i < |ds| { assert ds[i..][0] == ds[i] && ds[i..][1..] == ds[i + 1..]; }
  }
}
