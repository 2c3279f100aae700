/** Context names that only a quoted key can spell, as a file edited by hand may hold them: they are
    read, and the next command that rewrites the file loses it. */
module QuotedNames {
  import opened Optional
  import opened Scan
  import opened Toml
  import opened Targets
  import opened TargetsRoundTrip
  import opened PrintedNames
  import opened ConfigDir
  import opened ConfigHandlers

  /** A file of one context whose name is spelled as a basic string. */
  function QuotedText(name: string, url: string): string {
    "[contexts." + Quoted(name) + "]\n" + Line(Set("url", Text(url)))
  }

  lemma ReadsQuotedPart(name: string, rest: string)
    ensures ReadPath(Quoted(name) + ("]" + rest)) == Got([name], rest)
  {
    var s := Quoted(name) + ("]" + rest);
    assert s[0] == '"' && SkipBlanks(s) == s;
    ReadsQuoted(name, "]" + rest);
    assert ("]" + rest)[1..] == rest;
  }

  lemma ReadsQuotedPath(name: string, rest: string)
    ensures ReadPath("contexts" + ("." + (Quoted(name) + ("]" + rest)))) == Got(CONTEXTS + [name], rest)
  {
    assert forall c :: c in "contexts" ==> IsBareChar(c);
    ReadsQuotedPart(name, rest);
    ReadsNextPart("contexts", Quoted(name) + ("]" + rest), [name], rest);
  }

  lemma HeaderFromPath(s: string, path: seq<string>, rest: string)
    requires s != "" && s[0] == '[' && ReadPath(s[1..]) == Got(path, "\n" + rest)
    ensures ReadStmt(s) == Got(Header(path), rest)
  {
    assert ("\n" + rest)[1..] == rest;
  }

  lemma ReadsQuotedHeader(name: string, rest: string)
    ensures ReadStmt("[contexts." + Quoted(name) + "]\n" + rest) == Got(Header(CONTEXTS + [name]), rest)
  {
    ReadsQuotedPath(name, "\n" + rest);
    HeaderShape(Quoted(name), rest);
    HeaderFromPath("[contexts." + Quoted(name) + "]\n" + rest, CONTEXTS + [name], rest);
  }

  lemma HeaderShape(q: string, rest: string)
    ensures ("[contexts." + q + "]\n" + rest)[1..] == "contexts" + ("." + (q + ("]" + ("\n" + rest))))
    ensures ("[contexts." + q + "]\n" + rest)[0] == '['
  {
  }

  lemma StmtThenRest(s: string, stmt: Stmt, rest: string, at: Cursor)
    requires s != "" && SkipLines(s) == s && ReadStmt(s) == Got(stmt, rest)
    ensures ReadDoc(s, at) == match Exec(at, stmt) case None => None case Some(next) => ReadDoc(rest, next)
  {
  }

  lemma QuotedDoc(name: string, url: string)
    ensures ReadDoc(QuotedText(name, url), START) == Some(START.doc[CONTEXTS + [name] := map["url" := Text(url)]])
  {
    var set' := Set("url", Text(url));
    ReadsQuotedHeader(name, Line(set'));
    HeaderShape(Quoted(name), Line(set'));
    StmtThenRest(QuotedText(name, url), Header(CONTEXTS + [name]), Line(set'), START);
    assert Fresh(START.doc, name);
    ExecContext(START, name, url);
    var at := Exec(START, Header(CONTEXTS + [name]));
    assert ContextStmts(name, url)[1..] == [set'];
    OneLine(set', at.value);
  }

  /** Every name there is can be read from its quoted spelling, and the file is a good one. */
  lemma QuotedNameLoads(name: string, url: string)
    ensures FileOf(Some(QuotedText(name, url))) ==
      Readable(TargetsFile(None, map[name := ContextEntry(url, None)]), false)
  {
    var t := TargetsFile(None, map[name := ContextEntry(url, None)]);
    QuotedDoc(name, url);
    DocOfOne(t, name, url);
    InterpretsBack(t, [name], false);
    InterpretsBack(t, [name], true);
  }

  lemma OneLine(stmt: Stmt, at: Cursor)
    requires WellFormed(stmt)
    ensures ReadDoc(Line(stmt), at) == match ExecAll(at, [stmt]) case None => None case Some(next) => Some(next.doc)
  {
    LinesOfOne(stmt);
    assert Lines([stmt]) + "" == Lines([stmt]);
    ReadsLines([stmt], "", at);
  }

  lemma DocOfOne(t: TargetsFile, name: string, url: string)
    requires t == TargetsFile(None, map[name := ContextEntry(url, None)])
    ensures DocOf(t, [name]) == START.doc[CONTEXTS + [name] := map["url" := Text(url)]]
  {
    assert [name][..0] == [];
  }

  // ----- printed as if it were bare -----

  /** A name with a space between two words. */
  predicate Spaced(name: string, x: string, y: string) {
    name == x + (" " + y) && IsBare(x) && y != "" && IsBareChar(y[0])
  }

  lemma SpacedPathFails(x: string, y: string, rest: string)
    requires IsBare(x) && y != "" && IsBareChar(y[0])
    ensures ReadPath(x + (" " + (y + rest))) == Fail
  {
    ReadsKey(x, " " + (y + rest));
    assert (" " + (y + rest))[1..] == y + rest && (y + rest)[0] == y[0];
    assert SkipBlanks(" " + (y + rest)) == y + rest;
  }

  lemma SpacedContextFails(name: string, x: string, y: string, rest: string)
    requires Spaced(name, x, y)
    ensures ReadPath("contexts" + ("." + (name + rest))) == Fail
  {
    var tail := x + (" " + (y + rest));
    assert name + rest == tail;
    SpacedPathFails(x, y, rest);
    assert forall c :: c in "contexts" ==> IsBareChar(c);
    ReadsKey("contexts", "." + tail);
    assert ("." + tail)[1..] == tail;
  }

  lemma SpacedHeaderFails(name: string, x: string, y: string, rest: string, at: Cursor)
    requires Spaced(name, x, y)
    ensures ReadDoc("[contexts." + name + "]\n" + rest, at) == None
  {
    HeaderShape(name, rest);
    SpacedContextFails(name, x, y, "]" + ("\n" + rest));
  }

  lemma JoinsFirst(first: string, more: seq<string>)
    requires more != []
    ensures Join("\n", [first] + more) == first + ("\n" + Join("\n", more))
  {
    assert ([first] + more)[1..] == more;
    Regroup(first, "\n", Join("\n", more), "", "");
  }

  lemma JoinsBlocks(block: seq<Stmt>, more: seq<seq<Stmt>>)
    requires more != []
    ensures Join("\n", LinesOf([block] + more)) == Lines(block) + ("\n" + Join("\n", LinesOf(more)))
  {
    LinesOfMore(block, more);
    JoinsFirst(Lines(block), LinesOf(more));
  }

  lemma LinesOfMore(block: seq<Stmt>, more: seq<seq<Stmt>>)
    ensures LinesOf([block] + more) == [Lines(block)] + LinesOf(more)
  {
    forall i | 0 <= i < 1 + |more|
      ensures LinesOf([block] + more)[i] == ([Lines(block)] + LinesOf(more))[i]
    {
      assert ([block] + more)[i] == if i == 0 then block else more[i - 1];
    }
  }

  lemma {:induction false} ReadsBlocksThen(a: seq<seq<Stmt>>, b: seq<seq<Stmt>>, at: Cursor)
    requires BlocksWellFormed(a) && b != []
    ensures ReadDoc(Join("\n", LinesOf(a + b)), at) ==
      match ExecAll(at, Flat(a)) case None => None case Some(next) => ReadDoc(Join("\n", LinesOf(b)), next)
    decreases |a|
  {
    if a == [] {
      assert a + b == b;
    } else {
      var more := a[1..] + b;
      ExecAppend(at, a[0], Flat(a[1..]));
      assert a + b == [a[0]] + more;
      JoinsBlocks(a[0], more);
      ReadsBlockThen(a[0], Join("\n", LinesOf(more)), at);
      if ExecAll(at, a[0]).Some? { ReadsBlocksThen(a[1..], b, ExecAll(at, a[0]).value); }
    }
  }

  lemma {:induction false} BlocksSplit(t: TargetsFile, names: seq<string>, k: nat) returns (more: seq<seq<Stmt>>)
    requires (forall n :: n in names ==> n in t.contexts) && k < |names|
    ensures BlocksOf(t, names) == BlocksOf(t, names[..k]) + ([ContextStmts(names[k], t.contexts[names[k]].url)] + more)
    decreases |names|
  {
    var n := |names| - 1;
    var e := t.contexts[names[n]];
    if k == n {
      more := if e.auth.Some? then [AuthStmts(names[n], e.auth.value)] else [];
    } else {
      var less := BlocksSplit(t, names[..n], k);
      assert names[..n][..k] == names[..k];
      more := less + ContextBlocks(names[n], e);
    }
  }

  lemma BlockText(name: string, url: string, more: seq<seq<Stmt>>) returns (rest: string)
    ensures Join("\n", LinesOf([ContextStmts(name, url)] + more)) == "[contexts." + name + "]\n" + rest
  {
    var blocks := [ContextStmts(name, url)] + more;
    ContextLines(name, url);
    rest := Line(Set("url", Text(url)));
    LinesOfOne(Set("url", Text(url)));
    HeaderSpelled(name);
    assert ContextStmts(name, url)[1..] == [Set("url", Text(url))];
    assert Lines(ContextStmts(name, url)) == "[contexts." + name + "]\n" + rest;
    if more != [] {
      var tail := "\n" + Join("\n", LinesOf(blocks)[1..]);
      Regroup("[contexts." + name + "]\n", rest, tail, "", "");
      Regroup(Lines(ContextStmts(name, url)), "\n", Join("\n", LinesOf(blocks)[1..]), "", "");
      rest := rest + tail;
    }
  }

  /** A printed file with a spaced name, the names before it bare, is no TOML any more. */
  lemma SpacedNameIsUnreadable(t: TargetsFile, names: seq<string>, k: nat, x: string, y: string, strict: bool)
    requires Listed(t, names) && k < |names| && Spaced(names[k], x, y)
    requires forall i :: 0 <= i < k ==> IsBare(names[i])
    ensures ReadTargets(Render(t, names), strict) == Err(InvalidToml)
  {
    var a := BlocksOf(t, names[..k]);
    var more := BlocksSplit(t, names, k);
    var b := [ContextStmts(names[k], t.contexts[names[k]].url)] + more;
    BlocksAreWellFormed(t, names[..k]);
    ReadsBlocksThen(a, b, START);
    if ExecAll(START, Flat(a)).Some? {
      var rest := BlockText(names[k], t.contexts[names[k]].url, more);
      SpacedHeaderFails(names[k], x, y, rest, ExecAll(START, Flat(a)).value);
    }
  }

  lemma SpacedRewriteIsUnreadable(t: TargetsFile, name: string, x: string, y: string)
    requires name in t.contexts && Spaced(name, x, y)
    requires forall n :: n in t.contexts && n != name ==> IsBare(n)
    ensures Rewritten(t) == Unreadable
  {
    var names := SortedOf(t.contexts.Keys);
    SortedIsListed(t, names);
    assert name in names;
    var k :| 0 <= k < |names| && names[k] == name;
    assert forall i :: 0 <= i < k ==> names[i] in names && names[i] != name;
    SpacedNameIsUnreadable(t, names, k, x, y, false);
  }

  /** A good file with one name that has a space in it: setting any context, or selecting one, leaves
      a file that no later command can read. */
  lemma RewritingLosesSpacedName(f: File, name: string, x: string, y: string, other: string, url: string, flags: AuthOverrides)
    requires name in Contexts(f) && Spaced(name, x, y) && IsBare(other)
    requires forall n :: n in Contexts(f) && n != name ==> IsBare(n)
    ensures AfterSetContext(f, other, url, flags) == Unreadable
    ensures Selects(f, other) ==> AfterUseContext(f, other) == Unreadable
  {
    assert !IsBare(name) by { assert name[|x|] == ' ' && name[|x|] in name; }
    SpacedRewriteIsUnreadable(WithContext(f, other, url, flags), name, x, y);
    if Selects(f, other) { SpacedRewriteIsUnreadable(TargetsFile(Some(other), Contexts(f)), name, x, y); }
  }

  // ----- printed as if it were a path -----

  lemma {:induction false} PrefixIsLess(a: string, b: string)
    requires b != ""
    ensures Less(a, a + b)
    decreases |a|
  {
    if a == "" {
      assert a + b == b;
    } else {
      assert (a + b)[1..] == a[1..] + b;
      PrefixIsLess(a[1..], b);
    }
  }

  /** The file that the text of two contexts `a` and `a.auth` describes. */
  function DottedDoc(current: Option<string>, a: string, u: string, v: string): Doc {
    var start: Doc := map[[] := Field("current_context", TextOf(current))];
    start[CONTEXTS + [a] := map["url" := Text(u)]][CONTEXTS + [a, "auth"] := map["url" := Text(v)]]
  }

  function DottedStmts(a: string, v: string): seq<Stmt> {
    [Header(CONTEXTS + [a, "auth"]), Set("url", Text(v))]
  }

  lemma DottedBlockText(a: string, v: string)
    ensures Lines(ContextStmts(a + ".auth", v)) == Lines(DottedStmts(a, v))
  {
    HeaderSpelled(a + ".auth");
    HeaderSpelled(a);
    assert "[contexts." + (a + ".auth") + "]\n" == "[contexts." + a + ".auth]\n";
    assert ContextStmts(a + ".auth", v)[1..] == DottedStmts(a, v)[1..];
  }

  lemma ExecDotted(at: Cursor, a: string, v: string)
    requires [] in at.doc && "contexts" !in at.doc[[]] && CONTEXTS !in at.doc
    requires CONTEXTS + [a] in at.doc && "auth" !in at.doc[CONTEXTS + [a]]
    requires forall q :: q in at.doc ==> !(CONTEXTS + [a, "auth"] <= q)
    ensures ExecAll(at, DottedStmts(a, v)) ==
      Some(Cursor(CONTEXTS + [a, "auth"], at.doc[CONTEXTS + [a, "auth"] := map["url" := Text(v)]]))
  {
    var p := CONTEXTS + [a, "auth"];
    var empty := at.doc[p := map[]];
    DefineAuth(at.doc, a);
    ExecField(Cursor(p, empty), "url", Some(Text(v)));
    assert map[] + map["url" := Text(v)] == map["url" := Text(v)];
    assert empty[p := map["url" := Text(v)]] == at.doc[p := map["url" := Text(v)]];
    assert DottedStmts(a, v)[1..] == [Set("url", Text(v))];
  }

  lemma DottedIsWellFormed(a: string, v: string)
    requires IsBare(a)
    ensures AllWellFormed(DottedStmts(a, v))
  {
    assert forall k :: k in CONTEXTS + [a, "auth"] ==> IsBare(k);
  }

  lemma DottedBlocks(t: TargetsFile, a: string, v: string)
    requires a in t.contexts && a + ".auth" in t.contexts && t.contexts[a + ".auth"] == ContextEntry(v, None)
    ensures LinesOf(BlocksOf(t, [a, a + ".auth"])) == LinesOf(BlocksOf(t, [a]) + [DottedStmts(a, v)])
  {
    var names := [a, a + ".auth"];
    assert names[..1] == [a];
    DottedBlockText(a, v);
    assert BlocksOf(t, names) == BlocksOf(t, [a]) + [ContextStmts(a + ".auth", v)];
  }

  lemma ReadsDotted(current: Option<string>, a: string, u: string, v: string)
    requires IsBare(a)
    ensures var t := TargetsFile(current, map[a := ContextEntry(u, None), a + ".auth" := ContextEntry(v, None)]);
      ReadDoc(Render(t, [a, a + ".auth"]), START) == Some(DottedDoc(current, a, u, v))
  {
    var t := TargetsFile(current, map[a := ContextEntry(u, None), a + ".auth" := ContextEntry(v, None)]);
    DottedBlocks(t, a, v);
    assert Listed(t, [a]);
    BlocksAreWellFormed(t, [a]);
    DottedIsWellFormed(a, v);
    ReadsBlocks(BlocksOf(t, [a]) + [DottedStmts(a, v)], START);
    DottedFile(t, a, u, v);
  }

  lemma DottedFile(t: TargetsFile, a: string, u: string, v: string)
    requires a in t.contexts && t.contexts[a] == ContextEntry(u, None)
    ensures var flat := Flat(BlocksOf(t, [a]) + [DottedStmts(a, v)]);
      ExecAll(START, flat).Some? && ExecAll(START, flat).value.doc == DottedDoc(t.currentContext, a, u, v)
  {
    assert Listed(t, [a]);
    ExecFile(t, [a]);
    var at := ExecAll(START, Flat(BlocksOf(t, [a]))).value;
    assert [a][..0] == [];
    assert at.doc == map[[] := Field("current_context", TextOf(t.currentContext))][CONTEXTS + [a] := map["url" := Text(u)]];
    ExecDotted(at, a, v);
    FlatAppend(BlocksOf(t, [a]), [DottedStmts(a, v)]);
    assert Flat([DottedStmts(a, v)]) == DottedStmts(a, v);
    ExecTwo(START, Flat(BlocksOf(t, [a])), at, DottedStmts(a, v));
  }

  lemma DottedNames(current: Option<string>, a: string, u: string, v: string)
    ensures ContextNames(DottedDoc(current, a, u, v)) == {a}
    ensures Table(DottedDoc(current, a, u, v), CONTEXTS) == map[]
    ensures Table(DottedDoc(current, a, u, v), []) == Field("current_context", TextOf(current))
  {
    var doc := DottedDoc(current, a, u, v);
    var p := CONTEXTS + [a];
    assert doc.Keys == {[], p, CONTEXTS + [a, "auth"]};
    assert p in doc && p[0] == "contexts" && p[1] == a;
  }

  lemma DottedEntry(current: Option<string>, a: string, u: string, v: string)
    ensures var doc := DottedDoc(current, a, u, v);
      EntryReadable(doc, a) && ParseEntry(doc, a) == ContextEntry(u, Some(NO_OVERRIDES))
  {
    var doc := DottedDoc(current, a, u, v);
    var q := CONTEXTS + [a, "auth"];
    assert q in doc && q <= q;
    assert Table(doc, CONTEXTS + [a]) == map["url" := Text(u)];
    assert Table(doc, q) == map["url" := Text(v)];
  }

  lemma DottedMeans(current: Option<string>, a: string, u: string, v: string, strict: bool)
    ensures Interpret(DottedDoc(current, a, u, v), strict) ==
      Ok(TargetsFile(current, map[a := ContextEntry(u, Some(NO_OVERRIDES))]))
  {
    DottedNames(current, a, u, v);
    DottedEntry(current, a, u, v);
    MeansParts(DottedDoc(current, a, u, v), TargetsFile(current, map[a := ContextEntry(u, Some(NO_OVERRIDES))]), strict);
  }

  /** A context called `a.auth` beside `a`: rewriting the file loses it and gives `a` overrides that
      nobody asked for, although `a` itself has a bare name. */
  lemma DottedNameBecomesOverrides(current: Option<string>, a: string, u: string, v: string)
    requires IsBare(a)
    ensures Rewritten(TargetsFile(current, map[a := ContextEntry(u, None), a + ".auth" := ContextEntry(v, None)])) ==
      Readable(TargetsFile(current, map[a := ContextEntry(u, Some(NO_OVERRIDES))]), false)
  {
    var t := TargetsFile(current, map[a := ContextEntry(u, None), a + ".auth" := ContextEntry(v, None)]);
    var names := [a, a + ".auth"];
    PrefixIsLess(a, ".auth");
    SortingIsUnique(names, SortedOf(t.contexts.Keys), t.contexts.Keys);
    ReadsDotted(current, a, u, v);
    DottedMeans(current, a, u, v, false);
    DottedMeans(current, a, u, v, true);
  }
}
