/** What merges write to `merged_from`: one record per merge, on the node that was kept. */
module Records {
  import opened GraphModel
  import opened Reload

  /** The nodes and what each has recorded; a node without an entry has recorded nothing. */
  datatype Notes = Notes(nodes: set<Node>, mergedFrom: map<Node, seq<string>>) {
    function Of(n: Node): seq<string> {
      if n in mergedFrom then mergedFrom[n] else []
    }
  }

  /** The last query of a merge: note the id on the kept node, then delete the dropped one. */
  function NotePair(s: Notes, keep: Node, drop: Node): Notes {
    if keep !in s.nodes || drop !in s.nodes then s
    else Notes(s.nodes - {drop}, s.mergedFrom[keep := s.Of(keep) + [drop.id]] - {drop})
  }

  function NoteDrops(s: Notes, keep: string, drop: seq<string>): Notes
    decreases |drop|
  {
    if drop == [] then s else NoteDrops(NotePair(s, Capability(keep), Capability(drop[0])), keep, drop[1..])
  }

  function NoteAll(s: Notes, ds: seq<Decision>): Notes
    decreases |ds|
  {
    if ds == [] then s
    else if Capability(ds[0].keep) !in s.nodes then NoteAll(s, ds[1..])
    else NoteAll(NoteDrops(s, ds[0].keep, ds[0].drop), ds[1..])
  }

  // ----- stopping on the way -----

  lemma {:induction false} KeepGoneNotesNothing(s: Notes, keep: string, drop: seq<string>)
    requires Capability(keep) !in s.nodes
    ensures NoteDrops(s, keep, drop) == s
    decreases |drop|
  {
    if drop != [] { KeepGoneNotesNothing(s, keep, drop[1..]); }
  }

  lemma {:induction false} NotesSkipGoneDrops(s: Notes, keep: string, drop: seq<string>, i: nat)
    requires i <= |drop| && forall j :: 0 <= j < i ==> Capability(drop[j]) !in s.nodes
    ensures NoteDrops(s, keep, drop) == NoteDrops(s, keep, drop[i..])
    decreases i
  {
    if i == 0 {
      assert drop[0..] == drop;
    } else {
      assert drop[1..][i - 1..] == drop[i..];
      NotesSkipGoneDrops(s, keep, drop[1..], i - 1);
    }
  }

  lemma {:induction false} NotesSkipDoneDecisions(s: Notes, ds: seq<Decision>, i: nat)
    requires i <= |ds| && NothingToDo(s.nodes, ds[..i])
    ensures NoteAll(s, ds) == NoteAll(s, ds[i..])
    decreases i
  {
    if i == 0 {
      assert ds[0..] == ds;
    } else {
      assert ds[..i][0] == ds[0] && ds[0] in ds[..i];
      if Capability(ds[0].keep) in s.nodes { NotesSkipGoneDrops(s, ds[0].keep, ds[0].drop, |ds[0].drop|); }
      assert ds[1..][..i - 1] == ds[..i][1..] && ds[1..][i - 1..] == ds[i..];
      assert NothingToDo(s.nodes, ds[..i][1..]);
      NotesSkipDoneDecisions(s, ds[1..], i - 1);
    }
  }

  /** `t` is what an interrupted run of one decision may leave of `s`. */
  predicate NotedHalfway(s: Notes, t: Notes, keep: string, drop: seq<string>) {
    && t.nodes <= s.nodes
    && (Capability(keep) in t.nodes ==> NoteDrops(t, keep, drop) == NoteDrops(s, keep, drop))
    && (Capability(keep) !in t.nodes ==> t == NoteDrops(s, keep, drop))
  }

  /** Where the records stand before the `i`-th drop of a decision. */
  predicate DropsNoted(s: Notes, t: Notes, keep: string, drop: seq<string>, i: nat)
    requires i <= |drop|
  {
    && t.nodes <= s.nodes
    && NoteDrops(t, keep, drop[i..]) == NoteDrops(s, keep, drop)
    && (Capability(keep) in t.nodes ==> forall j :: 0 <= j < i ==> Capability(drop[j]) !in t.nodes)
  }

  lemma NotedBetweenDrops(s: Notes, t: Notes, keep: string, drop: seq<string>, i: nat)
    requires i <= |drop| && DropsNoted(s, t, keep, drop, i)
    ensures NotedHalfway(s, t, keep, drop)
    ensures i == |drop| ==> t == NoteDrops(s, keep, drop)
  {
    if Capability(keep) in t.nodes {
      NotesSkipGoneDrops(t, keep, drop, i);
    } else {
      KeepGoneNotesNothing(t, keep, drop[i..]);
    }
  }

  lemma NoteNextDrop(s: Notes, t: Notes, keep: string, drop: seq<string>, i: nat)
    requires i < |drop| && DropsNoted(s, t, keep, drop, i)
    ensures DropsNoted(s, NotePair(t, Capability(keep), Capability(drop[i])), keep, drop, i + 1)
  {
    assert drop[i..][0] == drop[i] && drop[i..][1..] == drop[i + 1..];
  }

  /** Where the records stand before the `i`-th decision. */
  predicate DecisionsNoted(s: Notes, t: Notes, ds: seq<Decision>, i: nat)
    requires i <= |ds|
  {
    NoteAll(t, ds[i..]) == NoteAll(s, ds) && NothingToDo(t.nodes, ds[..i])
  }

  lemma {:induction false} DropsGoneFromNotes(s: Notes, keep: string, drop: seq<string>)
    ensures var t := NoteDrops(s, keep, drop);
      && t.nodes <= s.nodes
      && (Capability(keep) in t.nodes ==> forall x :: x in drop ==> Capability(x) !in t.nodes)
    decreases |drop|
  {
    if drop != [] { DropsGoneFromNotes(NotePair(s, Capability(keep), Capability(drop[0])), keep, drop[1..]); }
  }

  lemma NoteNextDecision(s: Notes, t: Notes, ds: seq<Decision>, i: nat)
    requires i < |ds| && DecisionsNoted(s, t, ds, i)
    ensures var d := ds[i];
      DecisionsNoted(s, if Capability(d.keep) in t.nodes then NoteDrops(t, d.keep, d.drop) else t, ds, i + 1)
  {
    var d := ds[i];
    var u := if Capability(d.keep) in t.nodes then NoteDrops(t, d.keep, d.drop) else t;
    assert ds[i..][0] == d && ds[i..][1..] == ds[i + 1..];
    DropsGoneFromNotes(t, d.keep, d.drop);
    FewerNodesNothingToDo(t.nodes, u.nodes, ds[..i]);
    assert ds[..i + 1] == ds[..i] + [d];
  }

  /** Stopped between decisions or inside one: starting over records the same. */
  lemma NotesStartOver(s: Notes, t: Notes, u: Notes, ds: seq<Decision>, i: nat)
    requires i <= |ds| && DecisionsNoted(s, t, ds, i)
    requires u == t || (i < |ds| && Capability(ds[i].keep) in t.nodes && NotedHalfway(t, u, ds[i].keep, ds[i].drop))
    ensures NoteAll(u, ds) == NoteAll(s, ds)
  {
    FewerNodesNothingToDo(t.nodes, u.nodes, ds[..i]);
    NotesSkipDoneDecisions(u, ds, i);
    if i < |ds| { assert ds[i..][0] == ds[i] && ds[i..][1..] == ds[i + 1..]; }
  }

  // ----- each id once, on the node it went to -----

  /** No decision drops the `keep` of any. */
  predicate KeepsStay(ds: seq<Decision>) {
    forall d, e :: d in ds && e in ds ==> d.keep !in e.drop
  }

  predicate Distinct(xs: seq<string>) {
    forall i, j :: 0 <= i < j < |xs| ==> xs[i] != xs[j]
  }

  lemma {:induction false} UnlistedFixed(nodes: set<Node>, keep: string, drop: seq<string>, n: Node)
    requires forall x :: x in drop ==> Capability(x) != n
    ensures SubDrops(nodes, keep, drop, n) == n
    decreases |drop|
  {
    if drop != [] {
      var d := Capability(drop[0]);
      assert drop[0] in drop;
      UnlistedFixed(if d in nodes then nodes - {d} else nodes, keep, drop[1..], n);
    }
  }

  lemma {:induction false} KeepFixed(nodes: set<Node>, ds: seq<Decision>, n: Node)
    requires forall d, x :: d in ds && x in d.drop ==> Capability(x) != n
    ensures Sub(nodes, ds, n) == n
    decreases |ds|
  {
    if ds != [] {
      assert ds[0] in ds;
      UnlistedFixed(nodes, ds[0].keep, ds[0].drop, n);
      KeepFixed(NodesAfterDrops(nodes, ds[0].drop), ds[1..], n);
      KeepFixed(nodes, ds[1..], n);
    }
  }

  /** One decision whose `keep` is there: what `n`, if it stays, records of it. */
  lemma {:induction false} DropsRecorded(s: Notes, keep: string, drop: seq<string>, n: Node) returns (added: seq<string>)
    requires Capability(keep) in s.nodes && keep !in drop && n in NoteDrops(s, keep, drop).nodes
    ensures var t := NoteDrops(s, keep, drop);
      t.nodes == NodesAfterDrops(s.nodes, drop) && t.Of(n) == s.Of(n) + added
    ensures Distinct(added)
    ensures forall x :: x in added <==> n == Capability(keep) && x in drop && Capability(x) in s.nodes
    decreases |drop|
  {
    if drop == [] {
      return [];
    }
    var k, d := Capability(keep), Capability(drop[0]);
    var t := NotePair(s, k, d);
    assert keep != drop[0];
    assert t.nodes == s.nodes - {d};
    DropsGoneFromNotes(t, keep, drop[1..]);
    var rest := DropsRecorded(t, keep, drop[1..], n);
    added := (if d in s.nodes && n == k then [drop[0]] else []) + rest;
    assert d.id == drop[0];
  }

  lemma AppendDistinct(a: seq<string>, b: seq<string>)
    requires Distinct(a) && Distinct(b) && forall x :: x in a ==> x !in b
    ensures Distinct(a + b)
  {
    forall i, j | 0 <= i < j < |a + b|
      ensures (a + b)[i] != (a + b)[j]
    {
      if i < |a| <= j { assert a[i] in a && b[j - |a|] in b; }
    }
  }

  /** Where a capability goes under the first decision: to the `keep` if it is dropped, and else nowhere. */
  lemma FirstDecisionMoves(nodes: set<Node>, keep: string, drop: seq<string>, x: string)
    requires keep !in drop && Capability(x) in nodes
    ensures SubDrops(nodes, keep, drop, Capability(x)) == Capability(if x in drop then keep else x)
    ensures Capability(x) in NodesAfterDrops(nodes, drop) <==> x !in drop
    decreases |drop|
  {
    DropsShrink(nodes, drop);
    if drop != [] {
      var d := Capability(drop[0]);
      if d == Capability(x) {
        assert x == drop[0] by { assert d.id == x; }
        UnlistedFixed(nodes - {d}, keep, drop[1..], Capability(keep));
      } else {
        if d !in nodes { assert nodes - {d} == nodes; }
        FirstDecisionMoves(nodes - {d}, keep, drop[1..], x);
      }
    }
  }

  predicate GoesTo(nodes: set<Node>, ds: seq<Decision>, x: string, n: Node) {
    Capability(x) in nodes && Capability(x) != n && Sub(nodes, ds, Capability(x)) == n
  }

  /** `added` lists what goes to `n`, each id once. */
  ghost predicate RecordsArrivals(s: Notes, ds: seq<Decision>, n: Node, added: seq<string>) {
    Distinct(added) && forall x :: x in added <==> GoesTo(s.nodes, ds, x, n)
  }

  /** What goes to `n` does so under the first decision or under the others. */
  lemma GoesAtOnceOrLater(nodes: set<Node>, ds: seq<Decision>, x: string, n: Node)
    requires KeepsStay(ds) && ds != [] && Capability(ds[0].keep) in nodes
    ensures var d := ds[0];
      GoesTo(nodes, ds, x, n) <==>
        || (n == Capability(d.keep) && x in d.drop && Capability(x) in nodes)
        || GoesTo(NodesAfterDrops(nodes, d.drop), ds[1..], x, n)
    ensures x in ds[0].drop ==> !GoesTo(NodesAfterDrops(nodes, ds[0].drop), ds[1..], x, n)
  {
    var d := ds[0];
    assert d in ds;
    DropsShrink(nodes, d.drop);
    if Capability(x) in nodes {
      FirstDecisionMoves(nodes, d.keep, d.drop, x);
      KeepFixed(NodesAfterDrops(nodes, d.drop), ds[1..], Capability(d.keep));
    }
  }

  /** After a whole file in which no `keep` is dropped, a node that is left has recorded, after what it
      had, exactly the ids of the nodes that went to it, each once. */
  lemma {:induction false} EachRecordedOnce(s: Notes, ds: seq<Decision>, n: Node) returns (added: seq<string>)
    requires KeepsStay(ds) && n in NoteAll(s, ds).nodes
    ensures NoteAll(s, ds).Of(n) == s.Of(n) + added && RecordsArrivals(s, ds, n, added)
    decreases |ds|
  {
    if ds == [] {
      return [];
    }
    var d, more := ds[0], ds[1..];
    assert d in ds && KeepsStay(more);
    if Capability(d.keep) !in s.nodes {
      added := EachRecordedOnce(s, more, n);
      assert forall x :: GoesTo(s.nodes, ds, x, n) <==> GoesTo(s.nodes, more, x, n);
    } else {
      var t := NoteDrops(s, d.keep, d.drop);
      NotesOnlyShrink(t, more);
      var first := DropsRecorded(s, d.keep, d.drop, n);
      var later := EachRecordedOnce(t, more, n);
      added := first + later;
      forall x
        ensures x in added <==> GoesTo(s.nodes, ds, x, n)
        ensures x in first ==> x !in later
      {
        GoesAtOnceOrLater(s.nodes, ds, x, n);
      }
      AppendDistinct(first, later);
    }
  }

  lemma {:induction false} NotesOnlyShrink(s: Notes, ds: seq<Decision>)
    ensures NoteAll(s, ds).nodes <= s.nodes
    decreases |ds|
  {
    if ds != [] {
      DropsGoneFromNotes(s, ds[0].keep, ds[0].drop);
      NotesOnlyShrink(if Capability(ds[0].keep) in s.nodes then NoteDrops(s, ds[0].keep, ds[0].drop) else s, ds[1..]);
    }
  }

  /** With a `keep` that is dropped later, what it had recorded is lost: `a` goes to `c`, where only `b`
      is recorded. */
  lemma ChainForgets(s: Notes, a: string, b: string, c: string)
    requires a != b && b != c && a != c
    requires Capability(a) in s.nodes && Capability(b) in s.nodes && Capability(c) in s.nodes
    ensures var ds := [Decision(b, [a]), Decision(c, [b])];
      NoteAll(s, ds).Of(Capability(c)) == s.Of(Capability(c)) + [b] && GoesTo(s.nodes, ds, a, Capability(c))
  {
    var d, e := Decision(b, [a]), Decision(c, [b]);
    var A, B, C := Capability(a), Capability(b), Capability(c);
    var t := NotePair(s, B, A);
    assert [a][1..] == [] && [b][1..] == [] && [d, e][1..] == [e] && [e][1..] == [];
    assert NoteDrops(s, b, [a]) == NoteDrops(t, b, []) == t;
    assert NoteDrops(t, c, [b]) == NoteDrops(NotePair(t, C, B), c, []);
    assert NoteAll(t, [e]) == NoteAll(NotePair(t, C, B), []);
    assert SubDrops(s.nodes, b, [a], A) == SubDrops(s.nodes - {A}, b, [], B) == B;
    assert NodesAfterDrops(s.nodes, [a]) == NodesAfterDrops(s.nodes - {A}, []);
    assert SubDrops(s.nodes - {A}, c, [b], B) == SubDrops(s.nodes - {A} - {B}, c, [], C) == C;
    assert Sub(s.nodes - {A}, [e], B) == Sub(NodesAfterDrops(s.nodes - {A}, [b]), [], C);
  }
}
