/** Reading what `write_targets` wrote gives back the same value, exactly for bare context names. */
module TargetsRoundTrip {
  import opened Optional
  import opened Scan
  import opened Toml
  import opened Targets

  lemma Regroup(a: string, b: string, c: string, d: string, e: string)
    ensures a + b + c + d + e == a + (b + (c + (d + e)))
    ensures a + b + c + d + e == a + (b + (c + d + e))
    ensures a + b + c == a + (b + c)
  {
  }

  // ----- one line -----

  lemma {:induction false} ReadsBare(k: string, tail: string)
    requires forall c :: c in k ==> IsBareChar(c)
    requires tail == "" || !IsBareChar(tail[0])
    ensures BarePrefix(k + tail) == k
    decreases |k|
  {
    if k == "" {
      assert k + tail == tail;
    } else {
      assert k[0] in k && (k + tail)[1..] == k[1..] + tail;
      ReadsBare(k[1..], tail);
      assert [k[0]] + k[1..] == k;
    }
  }

  lemma ReadsKey(k: string, tail: string)
    requires IsBare(k) && (tail == "" || !IsBareChar(tail[0]))
    ensures ReadKey(k + tail) == Got(k, tail) && SkipBlanks(k + tail) == k + tail && SkipLines(k + tail) == k + tail
  {
    ReadsBare(k, tail);
    assert k[0] in k && (k + tail)[0] == k[0];
    assert (k + tail)[|k|..] == tail;
  }

  lemma ReadsLastPart(k: string, rest: string)
    requires IsBare(k)
    ensures ReadPath(k + ("]" + rest)) == Got([k], rest)
  {
    ReadsKey(k, "]" + rest);
    assert ("]" + rest)[1..] == rest;
  }

  lemma ReadsNextPart(k: string, tail: string, ks: seq<string>, rest: string)
    requires IsBare(k) && ReadPath(tail) == Got(ks, rest)
    ensures ReadPath(k + ("." + tail)) == Got([k] + ks, rest)
  {
    ReadsKey(k, "." + tail);
    assert ("." + tail)[1..] == tail;
  }

  lemma {:induction false} ReadsPath(path: seq<string>, rest: string)
    requires path != [] && forall k :: k in path ==> IsBare(k)
    ensures ReadPath(Join(".", path) + "]" + rest) == Got(path, rest)
    decreases |path|
  {
    var k := path[0];
    assert k in path;
    if |path| == 1 {
      Regroup(k, "]", rest, "", "");
      ReadsLastPart(k, rest);
      assert [k] == path;
    } else {
      var tail := Join(".", path[1..]) + "]" + rest;
      ReadsPath(path[1..], rest);
      ReadsNextPart(k, tail, path[1..], rest);
      Regroup(k, ".", Join(".", path[1..]), "]", rest);
      assert [k] + path[1..] == path;
    }
  }

  lemma EndsLine(rest: string)
    ensures ReadLineEnd("\n" + rest) == Got((), rest)
  {
    assert ("\n" + rest)[1..] == rest;
  }

  lemma HeaderText(path: seq<string>, rest: string)
    ensures (Line(Header(path)) + rest)[0] == '['
    ensures (Line(Header(path)) + rest)[1..] == Join(".", path) + "]" + ("\n" + rest)
  {
    Regroup(Join(".", path), "]", "\n", rest, "");
  }

  lemma ReadsHeader(path: seq<string>, rest: string)
    requires WellFormed(Header(path))
    ensures ReadStmt(Line(Header(path)) + rest) == Got(Header(path), rest)
  {
    HeaderText(path, rest);
    ReadsPath(path, "\n" + rest);
    EndsLine(rest);
  }

  lemma SkipsBlank(s: string)
    ensures SkipBlanks([' '] + s) == SkipBlanks(s)
  {
    assert ([' '] + s)[1..] == s;
  }

  lemma EqualsApart(value: string)
    ensures " = " + value == [' '] + (['='] + ([' '] + value))
  {
  }

  lemma ReadsEquals(value: string)
    requires SkipBlanks(value) == value
    ensures ReadEquals(" = " + value) == Got((), value)
  {
    var s1 := ['='] + ([' '] + value);
    EqualsApart(value);
    SkipsBlank(s1);
    SkipsBlank(value);
    assert s1[0] == '=' && s1[1..] == [' '] + value && SkipBlanks(s1) == s1;
  }

  lemma ReadsSetting(v: Scalar, rest: string)
    ensures ReadSetting(FormatScalar(v) + ("\n" + rest)) == Got(v, rest)
  {
    ReadsScalar(v, "\n" + rest);
    EndsLine(rest);
  }

  lemma ReadsAssignment(key: string, value: string, v: Scalar, rest: string)
    requires IsBare(key) && ReadSetting(value) == Got(v, rest) && SkipBlanks(value) == value
    ensures ReadStmt(key + (" = " + value)) == Got(Set(key, v), rest)
  {
    ReadsKey(key, " = " + value);
    ReadsEquals(value);
    assert key[0] in key && (key + (" = " + value))[0] == key[0];
  }

  lemma ReadsSet(key: string, v: Scalar, rest: string)
    requires IsBare(key)
    ensures ReadStmt(Line(Set(key, v)) + rest) == Got(Set(key, v), rest)
  {
    var value := FormatScalar(v) + ("\n" + rest);
    ReadsSetting(v, rest);
    ReadsAssignment(key, value, v, rest);
    Regroup(key, " = ", FormatScalar(v), "\n", rest);
  }

  lemma ReadsStmt(stmt: Stmt, rest: string)
    requires WellFormed(stmt)
    ensures ReadStmt(Line(stmt) + rest) == Got(stmt, rest)
    ensures SkipLines(Line(stmt) + rest) == Line(stmt) + rest
  {
    match stmt
    case Header(path) => ReadsHeader(path, rest);
    case Set(key, v) =>
      ReadsSet(key, v, rest);
      assert key[0] in key;
  }

  // ----- all lines -----

  predicate AllWellFormed(stmts: seq<Stmt>) {
    forall i :: 0 <= i < |stmts| ==> WellFormed(stmts[i])
  }

  predicate BlocksWellFormed(blocks: seq<seq<Stmt>>) {
    forall i :: 0 <= i < |blocks| ==> AllWellFormed(blocks[i])
  }

  function ExecAll(at: Cursor, stmts: seq<Stmt>): Option<Cursor>
    decreases |stmts|
  {
    if stmts == [] then Some(at)
    else match Exec(at, stmts[0]) case None => None case Some(next) => ExecAll(next, stmts[1..])
  }

  lemma {:induction false} ReadsLines(stmts: seq<Stmt>, rest: string, at: Cursor)
    requires AllWellFormed(stmts)
    ensures ReadDoc(Lines(stmts) + rest, at) ==
      match ExecAll(at, stmts) case None => None case Some(next) => ReadDoc(rest, next)
    decreases |stmts|
  {
    if stmts == [] {
      assert Lines(stmts) + rest == rest;
    } else {
      var tail := Lines(stmts[1..]) + rest;
      assert Lines(stmts) + rest == Line(stmts[0]) + tail;
      ReadsStmt(stmts[0], tail);
      match Exec(at, stmts[0]) {
        case None =>
        case Some(next) => ReadsLines(stmts[1..], rest, next);
      }
    }
  }

  lemma EmptyLineIsNothing(rest: string, at: Cursor)
    ensures ReadDoc("\n" + rest, at) == ReadDoc(rest, at)
  {
    assert ("\n" + rest)[1..] == rest;
  }

  function Flat(blocks: seq<seq<Stmt>>): seq<Stmt> {
    if blocks == [] then [] else blocks[0] + Flat(blocks[1..])
  }

  lemma {:induction false} ExecAppend(at: Cursor, a: seq<Stmt>, b: seq<Stmt>)
    ensures ExecAll(at, a + b) ==
      match ExecAll(at, a) case None => None case Some(next) => ExecAll(next, b)
    decreases |a|
  {
    if a == [] {
      assert a + b == b;
    } else {
      assert (a + b)[1..] == a[1..] + b;
      match Exec(at, a[0]) {
        case None =>
        case Some(next) => ExecAppend(next, a[1..], b);
      }
    }
  }

  lemma ReadsBlockThen(block: seq<Stmt>, tail: string, at: Cursor)
    requires AllWellFormed(block)
    ensures ReadDoc(Lines(block) + ("\n" + tail), at) ==
      match ExecAll(at, block) case None => None case Some(next) => ReadDoc(tail, next)
  {
    ReadsLines(block, "\n" + tail, at);
    match ExecAll(at, block)
    case None =>
    case Some(next) => EmptyLineIsNothing(tail, next);
  }

  lemma {:induction false} ReadsBlocks(blocks: seq<seq<Stmt>>, at: Cursor)
    requires BlocksWellFormed(blocks)
    ensures ReadDoc(Join("\n", LinesOf(blocks)), at) ==
      match ExecAll(at, Flat(blocks)) case None => None case Some(next) => Some(next.doc)
    decreases |blocks|
  {
    if blocks != [] {
      var tail := Join("\n", LinesOf(blocks[1..]));
      ExecAppend(at, blocks[0], Flat(blocks[1..]));
      if |blocks| == 1 {
        assert Lines(blocks[0]) + "" == Lines(blocks[0]);
        ReadsLines(blocks[0], "", at);
      } else {
        assert LinesOf(blocks)[1..] == LinesOf(blocks[1..]);
        Regroup(Lines(blocks[0]), "\n", tail, "", "");
        ReadsBlockThen(blocks[0], tail, at);
        if ExecAll(at, blocks[0]).Some? { ReadsBlocks(blocks[1..], ExecAll(at, blocks[0]).value); }
      }
    }
  }

  // ----- the document that the lines describe -----

  function Field(key: string, value: Option<Scalar>): map<string, Scalar> {
    if value.Some? then map[key := value.value] else map[]
  }

  function TextOf(o: Option<string>): Option<Scalar> {
    if o.Some? then Some(Text(o.value)) else None
  }

  function TextsOf(o: Option<seq<string>>): Option<Scalar> {
    if o.Some? then Some(Texts(o.value)) else None
  }

  function AuthTable(a: AuthOverrides): map<string, Scalar> {
    Field("audience", TextOf(a.audience)) + Field("client_id", TextOf(a.clientId))
    + Field("issuer", TextOf(a.issuer)) + Field("scopes", TextsOf(a.scopes))
  }

  function AddContext(doc: Doc, name: string, e: ContextEntry): Doc {
    var d := doc[CONTEXTS + [name] := map["url" := Text(e.url)]];
    if e.auth.Some? then d[CONTEXTS + [name, "auth"] := AuthTable(e.auth.value)] else d
  }

  function DocOf(t: TargetsFile, names: seq<string>): Doc
    requires forall n :: n in names ==> n in t.contexts
  {
    if names == [] then map[[] := Field("current_context", TextOf(t.currentContext))]
    else
      var n := |names| - 1;
      AddContext(DocOf(t, names[..n]), names[n], t.contexts[names[n]])
  }

  predicate NoneBelow(doc: Doc, p: seq<string>) {
    forall q :: q in doc && p <= q ==> q == p
  }

  lemma LongerPrefix(p: seq<string>, key: string, q: seq<string>)
    ensures p + [key] <= q ==> p <= q && q != p
  {
  }

  lemma ExecField(at: Cursor, key: string, value: Option<Scalar>)
    requires at.table in at.doc && NoneBelow(at.doc, at.table) && key !in at.doc[at.table]
    ensures var stmts := if value.Some? then [Set(key, value.value)] else [];
      ExecAll(at, stmts) == Some(Cursor(at.table, at.doc[at.table := at.doc[at.table] + Field(key, value)]))
  {
    if value.Some? {
      forall q | q in at.doc
        ensures !(at.table + [key] <= q)
      {
        LongerPrefix(at.table, key, q);
      }
      assert at.doc[at.table] + map[key := value.value] == at.doc[at.table][key := value.value];
    } else {
      assert at.doc[at.table] + map[] == at.doc[at.table];
      assert at.doc[at.table := at.doc[at.table]] == at.doc;
    }
  }

  /** Nothing of this context is in the document yet. */
  predicate Fresh(doc: Doc, name: string) {
    && [] in doc && "contexts" !in doc[[]] && CONTEXTS !in doc
    && forall q :: q in doc ==> !(CONTEXTS + [name] <= q)
  }

  lemma ExecContext(at: Cursor, name: string, url: string)
    requires Fresh(at.doc, name)
    ensures ExecAll(at, ContextStmts(name, url))
      == Some(Cursor(CONTEXTS + [name], at.doc[CONTEXTS + [name] := map["url" := Text(url)]]))
  {
    var p := CONTEXTS + [name];
    var empty := at.doc[p := map[]];
    assert p[..0] == [] && p[..1] == CONTEXTS;
    assert Exec(at, Header(p)) == Some(Cursor(p, empty));
    ExecField(Cursor(p, empty), "url", Some(Text(url)));
    assert map[] + map["url" := Text(url)] == map["url" := Text(url)];
    assert empty[p := map["url" := Text(url)]] == at.doc[p := map["url" := Text(url)]];
    assert ContextStmts(name, url)[1..] == [Set("url", Text(url))];
  }

  lemma ExecTwo(at: Cursor, a: seq<Stmt>, mid: Cursor, b: seq<Stmt>)
    requires ExecAll(at, a) == Some(mid)
    ensures ExecAll(at, a + b) == ExecAll(mid, b)
  {
    ExecAppend(at, a, b);
  }

  lemma ExecFields(at: Cursor, auth: AuthOverrides)
    requires at.table in at.doc && NoneBelow(at.doc, at.table) && at.doc[at.table] == map[]
    ensures ExecAll(at, FieldStmts(auth)) == Some(Cursor(at.table, at.doc[at.table := AuthTable(auth)]))
  {
    var p := at.table;
    var m1 := Field("audience", TextOf(auth.audience));
    var m2 := m1 + Field("client_id", TextOf(auth.clientId));
    var m3 := m2 + Field("issuer", TextOf(auth.issuer));
    var s1, s2, s3 := TextLine("audience", auth.audience), TextLine("client_id", auth.clientId), TextLine("issuer", auth.issuer);
    var s4 := if auth.scopes.Some? then [Set("scopes", Texts(auth.scopes.value))] else [];
    ExecNext(at, at, "audience", TextOf(auth.audience), [], s1, map[], m1);
    ExecNext(at, Cursor(p, at.doc[p := m1]), "client_id", TextOf(auth.clientId), s1, s2, m1, m2);
    ExecNext(at, Cursor(p, at.doc[p := m2]), "issuer", TextOf(auth.issuer), s1 + s2, s3, m2, m3);
    ExecNext(at, Cursor(p, at.doc[p := m3]), "scopes", TextsOf(auth.scopes), s1 + s2 + s3, s4, m3, AuthTable(auth));
    assert [] + s1 == s1;
  }

  /** One more field on a table that holds `m` so far. */
  lemma ExecNext(at: Cursor, now: Cursor, key: string, value: Option<Scalar>, before: seq<Stmt>, stmts: seq<Stmt>,
                 m: map<string, Scalar>, m': map<string, Scalar>)
    requires at.table in at.doc && NoneBelow(at.doc, at.table)
    requires now == Cursor(at.table, at.doc[at.table := m]) && ExecAll(at, before) == Some(now)
    requires key !in m && m' == m + Field(key, value)
    requires stmts == if value.Some? then [Set(key, value.value)] else []
    ensures ExecAll(at, before + stmts) == Some(Cursor(at.table, at.doc[at.table := m']))
  {
    ExecField(now, key, value);
    assert now.doc[at.table := m'] == at.doc[at.table := m'];
    ExecTwo(at, before, now, stmts);
  }

  lemma DefineAuth(doc: Doc, name: string)
    requires [] in doc && "contexts" !in doc[[]] && CONTEXTS !in doc
    requires CONTEXTS + [name] in doc && "auth" !in doc[CONTEXTS + [name]]
    requires CONTEXTS + [name, "auth"] !in doc
    ensures Define(doc, CONTEXTS + [name, "auth"]) == Some(doc[CONTEXTS + [name, "auth"] := map[]])
  {
    var p := CONTEXTS + [name, "auth"];
    assert p[..0] == [] && p[..1] == CONTEXTS && p[..2] == CONTEXTS + [name];
  }

  function FieldStmts(auth: AuthOverrides): seq<Stmt> {
    TextLine("audience", auth.audience) + TextLine("client_id", auth.clientId)
    + TextLine("issuer", auth.issuer) + (if auth.scopes.Some? then [Set("scopes", Texts(auth.scopes.value))] else [])
  }

  lemma ExecAuth(at: Cursor, name: string, auth: AuthOverrides)
    requires [] in at.doc && "contexts" !in at.doc[[]] && CONTEXTS !in at.doc
    requires CONTEXTS + [name] in at.doc && "auth" !in at.doc[CONTEXTS + [name]]
    requires forall q :: q in at.doc ==> !(CONTEXTS + [name, "auth"] <= q)
    ensures ExecAll(at, AuthStmts(name, auth))
      == Some(Cursor(CONTEXTS + [name, "auth"], at.doc[CONTEXTS + [name, "auth"] := AuthTable(auth)]))
  {
    var p := CONTEXTS + [name, "auth"];
    var empty := Cursor(p, at.doc[p := map[]]);
    DefineAuth(at.doc, name);
    ExecFields(empty, auth);
    assert empty.doc[p := AuthTable(auth)] == at.doc[p := AuthTable(auth)];
    SplitAuth(name, auth);
    ExecTwo(at, [Header(p)], empty, FieldStmts(auth));
  }

  lemma SplitAuth(name: string, auth: AuthOverrides)
    ensures AuthStmts(name, auth) == [Header(CONTEXTS + [name, "auth"])] + FieldStmts(auth)
  {
  }

  // ----- which tables a written document has -----

  predicate Listed(t: TargetsFile, names: seq<string>) {
    && (forall n :: n in names ==> n in t.contexts)
    && (forall i, j :: 0 <= i < j < |names| ==> names[i] != names[j])
  }

  predicate IsPathOf(t: TargetsFile, names: seq<string>, p: seq<string>)
    requires Listed(t, names)
  {
    || p == []
    || (|p| == 2 && p[0] == "contexts" && p[1] in names)
    || (|p| == 3 && p[0] == "contexts" && p[1] in names && p[2] == "auth" && t.contexts[p[1]].auth.Some?)
  }

  lemma PathForms(p: seq<string>)
    ensures |p| == 2 && p[0] == "contexts" ==> p == CONTEXTS + [p[1]]
    ensures |p| == 3 && p[0] == "contexts" && p[2] == "auth" ==> p == CONTEXTS + [p[1], "auth"]
  {
  }

  lemma {:induction false} PathsOf(t: TargetsFile, names: seq<string>, p: seq<string>)
    requires Listed(t, names)
    ensures p in DocOf(t, names) <==> IsPathOf(t, names, p)
    decreases |names|
  {
    PathForms(p);
    if names != [] {
      var k := |names| - 1;
      assert forall n :: n in names <==> n in names[..k] || n == names[k];
      PathsOf(t, names[..k], p);
    }
  }

  lemma OtherPaths(a: string, b: string)
    ensures CONTEXTS + [a] != [] && CONTEXTS + [a, "auth"] != [] && CONTEXTS + [a] != CONTEXTS + [b, "auth"]
    ensures a != b ==> CONTEXTS + [a] != CONTEXTS + [b] && CONTEXTS + [a, "auth"] != CONTEXTS + [b, "auth"]
  {
    assert (CONTEXTS + [a])[1] == a && (CONTEXTS + [b])[1] == b;
    assert (CONTEXTS + [a, "auth"])[1] == a && (CONTEXTS + [b, "auth"])[1] == b;
  }

  lemma {:induction false} TopOf(t: TargetsFile, names: seq<string>)
    requires Listed(t, names)
    ensures [] in DocOf(t, names) && DocOf(t, names)[[]] == Field("current_context", TextOf(t.currentContext))
    decreases |names|
  {
    if names != [] {
      TopOf(t, names[..|names| - 1]);
      OtherPaths(names[|names| - 1], "");
    }
  }

  lemma {:induction false} ContextOf(t: TargetsFile, names: seq<string>, n: string)
    requires Listed(t, names) && n in names
    ensures CONTEXTS + [n] in DocOf(t, names)
    ensures DocOf(t, names)[CONTEXTS + [n]] == map["url" := Text(t.contexts[n].url)]
    decreases |names|
  {
    var k := |names| - 1;
    OtherPaths(n, names[k]);
    if n != names[k] {
      assert n in names[..k];
      ContextOf(t, names[..k], n);
    }
  }

  lemma {:induction false} AuthOf(t: TargetsFile, names: seq<string>, n: string)
    requires Listed(t, names) && n in names && t.contexts[n].auth.Some?
    ensures CONTEXTS + [n, "auth"] in DocOf(t, names)
    ensures DocOf(t, names)[CONTEXTS + [n, "auth"]] == AuthTable(t.contexts[n].auth.value)
    decreases |names|
  {
    var k := |names| - 1;
    OtherPaths(n, names[k]);
    OtherPaths(names[k], n);
    if n != names[k] {
      assert n in names[..k];
      AuthOf(t, names[..k], n);
    }
  }

  lemma TablesOf(t: TargetsFile, names: seq<string>, n: string)
    requires Listed(t, names)
    ensures [] in DocOf(t, names) && DocOf(t, names)[[]] == Field("current_context", TextOf(t.currentContext))
    ensures n in names ==>
      && CONTEXTS + [n] in DocOf(t, names)
      && DocOf(t, names)[CONTEXTS + [n]] == map["url" := Text(t.contexts[n].url)]
    ensures n in names && t.contexts[n].auth.Some? ==>
      && CONTEXTS + [n, "auth"] in DocOf(t, names)
      && DocOf(t, names)[CONTEXTS + [n, "auth"]] == AuthTable(t.contexts[n].auth.value)
  {
    TopOf(t, names);
    if n in names {
      ContextOf(t, names, n);
      if t.contexts[n].auth.Some? { AuthOf(t, names, n); }
    }
  }

  // ----- the whole file -----

  lemma {:induction false} FlatAppend(a: seq<seq<Stmt>>, b: seq<seq<Stmt>>)
    ensures Flat(a + b) == Flat(a) + Flat(b)
    decreases |a|
  {
    if a == [] {
      assert a + b == b;
    } else {
      assert (a + b)[1..] == a[1..] + b;
      FlatAppend(a[1..], b);
    }
  }

  lemma PrefixAgrees(p: seq<string>, q: seq<string>, i: nat)
    requires i < |p|
    ensures p <= q ==> i < |q| && q[i] == p[i]
  {
  }

  lemma FlatOfFew(a: seq<Stmt>, b: seq<Stmt>)
    ensures Flat([a]) == a && Flat([a] + [b]) == a + b
  {
    assert [a][1..] == [] && ([a] + [b])[1..] == [b] && [b][1..] == [];
  }

  lemma FreshNext(t: TargetsFile, names: seq<string>, name: string)
    requires Listed(t, names) && name !in names
    ensures Fresh(DocOf(t, names), name)
  {
    var doc := DocOf(t, names);
    TablesOf(t, names, name);
    PathsOf(t, names, CONTEXTS);
    forall q | q in doc
      ensures !(CONTEXTS + [name] <= q)
    {
      PathsOf(t, names, q);
      PrefixAgrees(CONTEXTS + [name], q, 1);
    }
  }

  lemma ExecEntry(at: Cursor, name: string, e: ContextEntry)
    requires Fresh(at.doc, name)
    ensures ExecAll(at, Flat(ContextBlocks(name, e))).Some?
    ensures ExecAll(at, Flat(ContextBlocks(name, e))).value.doc == AddContext(at.doc, name, e)
  {
    var p := CONTEXTS + [name];
    var mid := Cursor(p, at.doc[p := map["url" := Text(e.url)]]);
    ExecContext(at, name, e.url);
    if e.auth.Some? {
      forall q | q in mid.doc
        ensures !(CONTEXTS + [name, "auth"] <= q)
      {
        LongerPrefix(p, "auth", q);
        assert p + ["auth"] == CONTEXTS + [name, "auth"];
      }
      ExecAuth(mid, name, e.auth.value);
      FlatOfFew(ContextStmts(name, e.url), AuthStmts(name, e.auth.value));
      ExecTwo(at, ContextStmts(name, e.url), mid, AuthStmts(name, e.auth.value));
    } else {
      FlatOfFew(ContextStmts(name, e.url), []);
      assert ContextBlocks(name, e) == [ContextStmts(name, e.url)];
    }
  }

  lemma ExecOneMore(t: TargetsFile, names: seq<string>, name: string)
    requires Listed(t, names + [name])
    requires ExecAll(START, Flat(BlocksOf(t, names))).Some?
    requires ExecAll(START, Flat(BlocksOf(t, names))).value.doc == DocOf(t, names)
    requires Fresh(DocOf(t, names), name)
    ensures var flat := Flat(BlocksOf(t, names) + ContextBlocks(name, t.contexts[name]));
      ExecAll(START, flat).Some? && ExecAll(START, flat).value.doc == AddContext(DocOf(t, names), name, t.contexts[name])
  {
    var blocks := BlocksOf(t, names);
    var mid := ExecAll(START, Flat(blocks)).value;
    ExecEntry(mid, name, t.contexts[name]);
    FlatAppend(blocks, ContextBlocks(name, t.contexts[name]));
    ExecTwo(START, Flat(blocks), mid, Flat(ContextBlocks(name, t.contexts[name])));
  }

  lemma {:induction false} ExecFile(t: TargetsFile, names: seq<string>)
    requires Listed(t, names)
    ensures ExecAll(START, Flat(BlocksOf(t, names))).Some?
    ensures ExecAll(START, Flat(BlocksOf(t, names))).value.doc == DocOf(t, names)
    decreases |names|
  {
    if names == [] {
      ExecField(START, "current_context", TextOf(t.currentContext));
      assert START.doc[[] := map[] + Field("current_context", TextOf(t.currentContext))] == DocOf(t, names);
      assert Flat(BlocksOf(t, names)) == TextLine("current_context", t.currentContext);
    } else {
      var k := |names| - 1;
      assert names[..k] + [names[k]] == names;
      assert forall n :: n in names[..k] ==> n in names;
      ExecFile(t, names[..k]);
      FreshNext(t, names[..k], names[k]);
      ExecOneMore(t, names[..k], names[k]);
    }
  }

  // ----- the old format -----

  function WithoutOldEntries(doc: Doc): Doc { doc[CONTEXTS := map[]] }

  lemma SameEntry(doc: Doc, name: string)
    requires CONTEXTS in doc
    ensures var less := WithoutOldEntries(doc);
      && EntryReadable(less, name) == EntryReadable(doc, name)
      && (EntryReadable(doc, name) ==> ParseEntry(less, name) == ParseEntry(doc, name))
  {
    assert |CONTEXTS| == 1 && |CONTEXTS + [name]| == 2 && |CONTEXTS + [name, "auth"]| == 3;
    SameTables(doc, CONTEXTS + [name, "auth"]);
  }

  lemma SameTables(doc: Doc, p: seq<string>)
    requires CONTEXTS in doc
    ensures HasTable(WithoutOldEntries(doc), p) == HasTable(doc, p)
  {
    var less := WithoutOldEntries(doc);
    assert less.Keys == doc.Keys;
    if HasTable(doc, p) {
      var q :| q in doc && p <= q;
      assert q in less;
    }
    if HasTable(less, p) {
      var q :| q in less && p <= q;
      assert q in doc;
    }
  }

  lemma SameNames(doc: Doc)
    requires CONTEXTS in doc
    ensures ContextNames(WithoutOldEntries(doc)) == ContextNames(doc)
  {
    assert WithoutOldEntries(doc).Keys == doc.Keys;
  }

  lemma SameEntriesSameTargets(a: Doc, b: Doc)
    requires Table(a, []) == Table(b, []) && ContextNames(a) == ContextNames(b)
    requires forall name :: EntryReadable(a, name) == EntryReadable(b, name)
    requires forall name :: EntryReadable(a, name) ==> ParseEntry(a, name) == ParseEntry(b, name)
    ensures Interpret(a, false) == Interpret(b, false)
  {
    if forall name :: name in ContextNames(a) ==> EntryReadable(a, name) {
      assert (map name | name in ContextNames(a) :: ParseEntry(a, name)) == map name | name in ContextNames(b) :: ParseEntry(b, name);
    } else {
      var name :| name in ContextNames(a) && !EntryReadable(a, name);
      assert name in ContextNames(b) && !EntryReadable(b, name);
    }
  }

  /** A plain string under `[contexts]` is what a context once was: strict reading refuses the file, and
      lenient reading gives what the file holds without it. */
  lemma OldEntriesAreDropped(doc: Doc)
    requires CONTEXTS in doc && doc[CONTEXTS] != map[]
    requires "contexts" !in Table(doc, []) && TextOrAbsent(Table(doc, []), "current_context")
    ensures Interpret(doc, true) == Err(OldFormat)
    ensures Interpret(doc, false) == Interpret(WithoutOldEntries(doc), false)
  {
    var less := WithoutOldEntries(doc);
    SameNames(doc);
    forall name
      ensures EntryReadable(doc, name) == EntryReadable(less, name)
      ensures EntryReadable(doc, name) ==> ParseEntry(doc, name) == ParseEntry(less, name)
    {
      SameEntry(doc, name);
    }
    SameEntriesSameTargets(doc, less);
  }

  predicate NamesAreBare(t: TargetsFile) {
    forall n :: n in t.contexts ==> IsBare(n)
  }

  lemma TextLineWellFormed(key: string, value: Option<string>, rest: seq<Stmt>)
    requires IsBare(key) && AllWellFormed(rest)
    ensures AllWellFormed(rest + TextLine(key, value))
  {
  }

  lemma ContextBlocksWellFormed(name: string, e: ContextEntry)
    requires IsBare(name)
    ensures BlocksWellFormed(ContextBlocks(name, e))
  {
    assert forall k :: k in CONTEXTS + [name] ==> IsBare(k);
    assert AllWellFormed(ContextStmts(name, e.url));
    if e.auth.Some? {
      var a := e.auth.value;
      var s0 := [Header(CONTEXTS + [name, "auth"])];
      assert forall k :: k in CONTEXTS + [name, "auth"] ==> IsBare(k);
      assert AllWellFormed(s0);
      TextLineWellFormed("audience", a.audience, s0);
      var s1 := s0 + TextLine("audience", a.audience);
      TextLineWellFormed("client_id", a.clientId, s1);
      var s2 := s1 + TextLine("client_id", a.clientId);
      TextLineWellFormed("issuer", a.issuer, s2);
      assert AllWellFormed(AuthStmts(name, a));
    }
  }

  lemma {:induction false} BlocksAreWellFormed(t: TargetsFile, names: seq<string>)
    requires Listed(t, names) && forall n :: n in names ==> IsBare(n)
    ensures BlocksWellFormed(BlocksOf(t, names))
    decreases |names|
  {
    if names != [] {
      var k := |names| - 1;
      assert names[k] in names;
      BlocksAreWellFormed(t, names[..k]);
      ContextBlocksWellFormed(names[k], t.contexts[names[k]]);
    }
  }

  lemma NameRead(t: TargetsFile, names: seq<string>, name: string)
    requires Listed(t, names)
    ensures name in ContextNames(DocOf(t, names)) <==> name in names
  {
    var doc := DocOf(t, names);
    if name in names {
      TablesOf(t, names, name);
      var p := CONTEXTS + [name];
      assert p in doc && |p| >= 2 && p[0] == "contexts" && p[1] == name;
    }
    if name in ContextNames(doc) {
      var p :| p in doc && |p| >= 2 && p[0] == "contexts" && p[1] == name;
      PathsOf(t, names, p);
    }
  }

  lemma ParsesAuthTable(a: AuthOverrides)
    ensures AuthReadable(AuthTable(a)) && ParseAuth(AuthTable(a)) == a
  {
  }

  lemma AuthTablePresent(t: TargetsFile, names: seq<string>, name: string)
    requires Listed(t, names) && name in names
    ensures HasTable(DocOf(t, names), CONTEXTS + [name, "auth"]) <==> t.contexts[name].auth.Some?
    ensures CONTEXTS + [name, "auth"] in DocOf(t, names) <==> t.contexts[name].auth.Some?
  {
    var doc := DocOf(t, names);
    var p := CONTEXTS + [name, "auth"];
    PathsOf(t, names, p);
    assert p <= p;
    forall q | q in doc && p <= q
      ensures q == p
    {
      PathsOf(t, names, q);
      PrefixAgrees(p, q, 1);
    }
  }

  lemma EntryRead(t: TargetsFile, names: seq<string>, name: string)
    requires Listed(t, names) && name in names
    ensures EntryReadable(DocOf(t, names), name)
    ensures ParseEntry(DocOf(t, names), name) == t.contexts[name]
  {
    TablesOf(t, names, name);
    AuthTablePresent(t, names, name);
    if t.contexts[name].auth.Some? { ParsesAuthTable(t.contexts[name].auth.value); }
  }

  /** A document whose parts mean the parts of `t` means `t`. */
  lemma MeansParts(doc: Doc, t: TargetsFile, strict: bool)
    requires Table(doc, []) == Field("current_context", TextOf(t.currentContext)) && Table(doc, CONTEXTS) == map[]
    requires ContextNames(doc) == t.contexts.Keys
    requires forall name :: name in t.contexts ==> EntryReadable(doc, name) && ParseEntry(doc, name) == t.contexts[name]
    ensures Interpret(doc, strict) == Ok(t)
  {
    assert (map name | name in ContextNames(doc) :: ParseEntry(doc, name)) == t.contexts;
    assert OptText(Table(doc, []), "current_context") == t.currentContext;
  }

  /** The parsed document means the value that was written, in strict and in lenient reading. */
  lemma InterpretsBack(t: TargetsFile, names: seq<string>, strict: bool)
    requires Listed(t, names) && forall n :: n in t.contexts ==> n in names
    ensures Interpret(DocOf(t, names), strict) == Ok(t)
  {
    var doc := DocOf(t, names);
    TopOf(t, names);
    PathsOf(t, names, CONTEXTS);
    forall name
      ensures name in ContextNames(doc) <==> name in t.contexts
    {
      NameRead(t, names, name);
    }
    forall name | name in t.contexts
      ensures EntryReadable(doc, name) && ParseEntry(doc, name) == t.contexts[name]
    {
      EntryRead(t, names, name);
    }
    MeansParts(doc, t, strict);
  }

  // ----- the round trip -----

  lemma BareNamesRoundTrip(t: TargetsFile, names: seq<string>, strict: bool)
    requires Listed(t, names) && (forall n :: n in t.contexts ==> n in names) && NamesAreBare(t)
    ensures ReadTargets(Render(t, names), strict) == Ok(t)
  {
    BlocksAreWellFormed(t, names);
    ReadsBlocks(BlocksOf(t, names), START);
    ExecFile(t, names);
    InterpretsBack(t, names, strict);
  }

}
