/** Loading the data file into a merged graph and merging again: exactly when that is stable. */
module Reload {
  import opened GraphModel

  /** `load_graph`: all nodes, then the edges that find both of their endpoints. */
  function Load(p: Plain, data: Plain): Plain {
    var nodes := p.nodes + data.nodes;
    Plain(nodes, p.edges + set e | e in data.edges && e.from in nodes && e.to in nodes)
  }

  /** A file whose edges have their nodes is there after one load, and a second load adds nothing. */
  lemma LoadsOnceAndForAll(p: Plain, data: Plain)
    requires Closed(data)
    ensures Load(p, data).nodes == p.nodes + data.nodes && Load(p, data).edges == p.edges + data.edges
    ensures Load(Load(p, data), data) == Load(p, data)
  {
    var nodes := p.nodes + data.nodes;
    assert nodes + data.nodes == nodes;
    assert (set e | e in data.edges && e.from in nodes && e.to in nodes) == data.edges;
  }

  lemma {:induction false} DropsFixSurvivors(nodes: set<Node>, keep: string, drop: seq<string>, n: Node)
    requires n in NodesAfterDrops(nodes, drop)
    ensures SubDrops(nodes, keep, drop, n) == n
    decreases |drop|
  {
    if drop != [] {
      var d := Capability(drop[0]);
      DropsShrink(nodes - {d}, drop[1..]);
      if d !in nodes { assert nodes - {d} == nodes; }
      DropsFixSurvivors(nodes - {d}, keep, drop[1..], n);
    }
  }

  lemma {:induction false} FileFixesSurvivors(p: Plain, ds: seq<Decision>, n: Node)
    requires Closed(p) && KeepsNoneItDrops(ds) && n in MergeAll(p, ds).0.nodes
    ensures Sub(p.nodes, ds, n) == n
    decreases |ds|
  {
    if ds != [] {
      assert KeepsNoneItDrops(ds[1..]) && ds[0] in ds;
      if Capability(ds[0].keep) !in p.nodes {
        FileFixesSurvivors(p, ds[1..], n);
      } else {
        DropsAreQuotient(p, ds[0].keep, ds[0].drop);
        var p1 := MergeDrops(p, ds[0].keep, ds[0].drop).0;
        MergesOnlyShrink(p1, ds[1..]);
        DropsFixSurvivors(p.nodes, ds[0].keep, ds[0].drop, n);
        FileFixesSurvivors(p1, ds[1..], n);
      }
    }
  }

  predicate Lists(ds: seq<Decision>, n: Node) {
    exists d :: d in ds && exists x :: x in d.drop && Capability(x) == n
  }

  lemma {:induction false} FileLosesOnlyListed(p: Plain, ds: seq<Decision>, n: Node)
    requires Closed(p) && KeepsNoneItDrops(ds) && n in p.nodes && !Lists(ds, n)
    ensures n in MergeAll(p, ds).0.nodes
    decreases |ds|
  {
    if ds != [] {
      assert KeepsNoneItDrops(ds[1..]) && ds[0] in ds;
      if Capability(ds[0].keep) !in p.nodes {
        FileLosesOnlyListed(p, ds[1..], n);
      } else {
        DropsAreQuotient(p, ds[0].keep, ds[0].drop);
        DropsShrink(p.nodes, ds[0].drop);
        FileLosesOnlyListed(MergeDrops(p, ds[0].keep, ds[0].drop).0, ds[1..], n);
      }
    }
  }

  ghost predicate Stable(p: Plain, data: Plain, ds: seq<Decision>) {
    var merged := MergeAll(Load(p, data), ds).0;
    MergeAll(Load(merged, data), ds).0 == merged
  }

  lemma LoadIsClosed(p: Plain, data: Plain)
    requires Closed(p)
    ensures Closed(Load(p, data))
  {
  }

  /** The merged graph is fixed by the substitution that made it. */
  lemma MergedIsFixed(loaded: Plain, ds: seq<Decision>, e: Edge)
    requires Closed(loaded) && KeepsNoneItDrops(ds)
    ensures var f := n => Sub(loaded.nodes, ds, n);
      && (forall n :: n in loaded.nodes ==> f(n) in MergeAll(loaded, ds).0.nodes && f(f(n)) == f(n))
      && (e in MergeAll(loaded, ds).0.edges ==> MapEdge(e, f) == e)
  {
    var f := n => Sub(loaded.nodes, ds, n);
    FileIsQuotient(loaded, ds);
    forall n | n in loaded.nodes
      ensures f(n) in MergeAll(loaded, ds).0.nodes && f(f(n)) == f(n)
    {
      FileFixesSurvivors(loaded, ds, f(n));
    }
    if e in MergeAll(loaded, ds).0.edges {
      FileFixesSurvivors(loaded, ds, e.from);
      FileFixesSurvivors(loaded, ds, e.to);
    }
  }

  /** On a graph with the nodes of `loaded`, the file is the same substitution. */
  lemma SameSubstitution(loaded: Plain, again: Plain, ds: seq<Decision>)
    requires Closed(again) && KeepsNoneItDrops(ds) && again.nodes == loaded.nodes
    ensures MergeAll(again, ds).0 == Quotient(again, n => Sub(loaded.nodes, ds, n))
  {
    FileIsQuotient(again, ds);
    QuotientsAgree(again, n => Sub(again.nodes, ds, n), n => Sub(loaded.nodes, ds, n));
  }

  /** Every node that was merged away comes back: the second merge repeats the first. */
  lemma StableIfNodesReturn(p: Plain, data: Plain, ds: seq<Decision>)
    requires Closed(p) && KeepsNoneItDrops(ds)
    requires Load(MergeAll(Load(p, data), ds).0, data).nodes == Load(p, data).nodes
    ensures Stable(p, data, ds)
  {
    var loaded := Load(p, data);
    var f := n => Sub(loaded.nodes, ds, n);
    LoadIsClosed(p, data);
    FileIsQuotient(loaded, ds);
    var merged := MergeAll(loaded, ds).0;
    var again := Load(merged, data);
    LoadIsClosed(merged, data);
    SameSubstitution(loaded, again, ds);
    var result := MergeAll(again, ds).0;
    forall e | e in result.edges
      ensures e in merged.edges
    {
      var d :| d in again.edges && MapEdge(d, f) == e;
      MergedIsFixed(loaded, ds, d);
      assert d in merged.edges || d in loaded.edges;
    }
    forall e | e in merged.edges
      ensures e in result.edges
    {
      MergedIsFixed(loaded, ds, e);
      assert e in again.edges && MapEdge(e, f) == e;
    }
    assert result.nodes == merged.nodes;
  }

  /** Nothing that was merged away comes back: the second merge has nothing to do. */
  lemma StableIfNothingReturns(p: Plain, data: Plain, ds: seq<Decision>)
    requires Closed(p) && KeepsNoneItDrops(ds)
    requires Load(MergeAll(Load(p, data), ds).0, data).nodes == MergeAll(Load(p, data), ds).0.nodes
    ensures Stable(p, data, ds)
  {
    var loaded := Load(p, data);
    var f := n => Sub(loaded.nodes, ds, n);
    LoadIsClosed(p, data);
    FileIsQuotient(loaded, ds);
    var merged := MergeAll(loaded, ds).0;
    var again := Load(merged, data);
    forall e | e in loaded.edges && e.from in merged.nodes && e.to in merged.nodes
      ensures e in merged.edges
    {
      FileFixesSurvivors(loaded, ds, e.from);
      FileFixesSurvivors(loaded, ds, e.to);
      assert MapEdge(e, f) == e;
    }
    MergesOnlyShrink(loaded, ds);
    assert forall e :: e in again.edges ==> e in merged.edges;
    assert again == merged;
    SecondRunAppliesNothing(loaded, ds);
  }

  lemma {:induction false} SomeCapabilityStays(p: Plain, ds: seq<Decision>, x: string) returns (c: string)
    requires Closed(p) && KeepsNoneItDrops(ds) && Capability(x) in p.nodes
    ensures Capability(c) in MergeAll(p, ds).0.nodes
    decreases |ds|
  {
    if ds == [] {
      c := x;
    } else {
      assert KeepsNoneItDrops(ds[1..]) && ds[0] in ds;
      if Capability(ds[0].keep) !in p.nodes {
        c := SomeCapabilityStays(p, ds[1..], x);
      } else {
        DropsAreQuotient(p, ds[0].keep, ds[0].drop);
        DropsShrink(p.nodes, ds[0].drop);
        c := SomeCapabilityStays(MergeDrops(p, ds[0].keep, ds[0].drop).0, ds[1..], ds[0].keep);
      }
    }
  }

  lemma LostIsCapability(p: Plain, ds: seq<Decision>, n: Node) returns (x: string)
    requires Closed(p) && KeepsNoneItDrops(ds) && n in p.nodes && n !in MergeAll(p, ds).0.nodes
    ensures n == Capability(x)
  {
    if !Lists(ds, n) { FileLosesOnlyListed(p, ds, n); }
    x := n.id;
  }

  /** `b` is only in the graph, `a` is in the data file, and there is a third capability. */
  predicate Unsettled(p: Plain, data: Plain, a: string, b: string, c: string) {
    && a != b && b != c && a != c
    && Capability(b) in p.nodes && Capability(b) !in data.nodes
    && Capability(a) in data.nodes
    && Capability(c) in p.nodes + data.nodes
  }

  lemma StableUnlessUnsettled(p: Plain, data: Plain, ds: seq<Decision>)
    requires Closed(p) && KeepsNoneItDrops(ds)
    requires !exists a, b, c :: Unsettled(p, data, a, b, c)
    ensures Stable(p, data, ds)
  {
    var loaded := Load(p, data);
    LoadIsClosed(p, data);
    MergesOnlyShrink(loaded, ds);
    var merged := MergeAll(loaded, ds).0;
    var again := Load(merged, data);
    if forall n :: n in loaded.nodes && n !in merged.nodes ==> n in data.nodes {
      assert again.nodes == loaded.nodes;
      StableIfNodesReturn(p, data, ds);
    } else if data.nodes <= merged.nodes {
      assert again.nodes == merged.nodes;
      StableIfNothingReturns(p, data, ds);
    } else {
      var m :| m in loaded.nodes && m !in merged.nodes && m !in data.nodes;
      var n :| n in data.nodes && n !in merged.nodes;
      var b := LostIsCapability(loaded, ds, m);
      var a := LostIsCapability(loaded, ds, n);
      var c := SomeCapabilityStays(loaded, ds, a);
      assert Unsettled(p, data, a, b, c);
    }
  }

  /** `b` takes over `a` and is merged into `c`; the reload brings back `a` but not `b`. */
  lemma UnsettledIsUnstable(p: Plain, data: Plain, a: string, b: string, c: string)
    requires Closed(p) && Unsettled(p, data, a, b, c)
    ensures KeepsNoneItDrops([Decision(b, [a]), Decision(c, [b])])
    ensures !Stable(p, data, [Decision(b, [a]), Decision(c, [b])])
  {
    var A, B, C := Capability(a), Capability(b), Capability(c);
    var p0 := Load(p, data);
    LoadIsClosed(p, data);
    var p2 := TwoMerges(p0, a, b, c);
    var p3 := Load(p2, data);
    assert A in p3.nodes && B !in p3.nodes;
    NoMerges(p3, a, b, c);
  }

  lemma TwoMerges(p: Plain, a: string, b: string, c: string) returns (q: Plain)
    requires Closed(p) && a != b && b != c && a != c
    requires Capability(a) in p.nodes && Capability(b) in p.nodes && Capability(c) in p.nodes
    ensures q == MergeAll(p, [Decision(b, [a]), Decision(c, [b])]).0
    ensures q.nodes == p.nodes - {Capability(a), Capability(b)}
  {
    var ds := [Decision(b, [a]), Decision(c, [b])];
    MergeLosesOnlyDrop(p, Capability(b), Capability(a));
    var p1 := MergePair(p, Capability(b), Capability(a));
    OneDrop(p, b, a);
    MergeLosesOnlyDrop(p1, Capability(c), Capability(b));
    OneDrop(p1, c, b);
    assert ds[1..] == [Decision(c, [b])] && ds[1..][1..] == [];
    q := MergeAll(p, ds).0;
    assert MergeAll(p1, ds[1..]).0 == MergePair(p1, Capability(c), Capability(b));
  }

  lemma OneDrop(p: Plain, keep: string, x: string)
    ensures MergeDrops(p, keep, [x]).0 == if Capability(x) in p.nodes then MergePair(p, Capability(keep), Capability(x)) else p
  {
    assert [x][1..] == [];
  }

  lemma NoMerges(p: Plain, a: string, b: string, c: string)
    requires Capability(b) !in p.nodes
    ensures MergeAll(p, [Decision(b, [a]), Decision(c, [b])]).0 == p
  {
    var ds := [Decision(b, [a]), Decision(c, [b])];
    assert ds[1..] == [Decision(c, [b])] && ds[1..][1..] == [];
    OneDrop(p, c, b);
    assert MergeAll(p, ds[1..]).0 == p;
  }

  /** For a graph and a data file: load, merge, load, merge leaves the nodes and edges of load, merge
      for every decisions file with no `keep` in its own drops, exactly when no capability of the
      graph is missing from a data file that has one, with a third beside them. */
  lemma ReloadIsStableExactly(p: Plain, data: Plain)
    requires Closed(p)
    ensures (forall ds :: KeepsNoneItDrops(ds) ==> Stable(p, data, ds)) <==>
      !exists a, b, c :: Unsettled(p, data, a, b, c)
  {
    if exists a, b, c :: Unsettled(p, data, a, b, c) {
      var a, b, c :| Unsettled(p, data, a, b, c);
      UnsettledIsUnstable(p, data, a, b, c);
    } else {
      forall ds | KeepsNoneItDrops(ds)
        ensures Stable(p, data, ds)
      {
        StableUnlessUnsettled(p, data, ds);
      }
    }
  }
}
