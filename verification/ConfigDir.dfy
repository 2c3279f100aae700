/** The `targets.toml` of one configuration directory: `write_targets` and `load_targets` on it. */
module ConfigDir {
  import opened Optional
  import opened Toml
  import opened Targets
  import opened TargetsRoundTrip
  import opened PrintedNames

  // ----- the order of `sorted` -----

  /** Python's order on strings: by code point, a proper prefix first. */
  predicate Less(a: string, b: string) {
    b != "" && (a == "" || a[0] < b[0] || (a[0] == b[0] && Less(a[1..], b[1..])))
  }

  /** The order is decided where two names first differ, by code point, a shorter name coming first. */
  lemma {:induction false} FirstDifferenceDecides(a: string, b: string, k: nat)
    requires k <= |a| && k <= |b| && a[..k] == b[..k]
    requires k < |a| && k < |b| ==> a[k] != b[k]
    ensures Less(a, b) <==> if k < |a| && k < |b| then a[k] < b[k] else |a| < |b|
    decreases k
  {
    if k > 0 {
      assert a[0] == a[..k][0] && b[0] == b[..k][0];
      assert a[1..][..k - 1] == a[..k][1..] && b[1..][..k - 1] == b[..k][1..];
      FirstDifferenceDecides(a[1..], b[1..], k - 1);
    }
  }

  lemma {:induction false} LessIsTransitive(a: string, b: string, c: string)
    requires Less(a, b) && Less(b, c)
    ensures Less(a, c)
    decreases |a|
  {
    if a != "" && a[0] == b[0] && b[0] == c[0] {
      LessIsTransitive(a[1..], b[1..], c[1..]);
    }
  }

  lemma {:induction false} LessIsTotal(a: string, b: string)
    ensures Less(a, b) || a == b || Less(b, a)
    ensures !(Less(a, b) && Less(b, a)) && !Less(a, a)
    decreases |a|
  {
    if a != "" {
      LessIsTotal(a[1..], a[1..]);
      if b != "" && a[0] == b[0] {
        LessIsTotal(a[1..], b[1..]);
        assert [a[0]] + a[1..] == a && [b[0]] + b[1..] == b;
      }
    }
  }

  predicate Sorted(names: seq<string>) {
    forall i, j :: 0 <= i < j < |names| ==> Less(names[i], names[j])
  }

  ghost predicate IsSortingOf(names: seq<string>, keys: set<string>) {
    Sorted(names) && forall n :: n in names <==> n in keys
  }

  lemma SameEmptiness(a: seq<string>, b: seq<string>, keys: set<string>)
    requires IsSortingOf(a, keys) && IsSortingOf(b, keys)
    ensures a == [] <==> b == []
  {
    EmptyOrFirst(a);
    EmptyOrFirst(b);
  }

  lemma EmptyOrFirst(names: seq<string>)
    ensures names == [] || names[0] in names
  {
  }

  /** There is one sorting of a set, so the written text depends on the value alone. */
  lemma {:induction false} SortingIsUnique(a: seq<string>, b: seq<string>, keys: set<string>)
    requires IsSortingOf(a, keys) && IsSortingOf(b, keys)
    ensures a == b
    decreases |a|
  {
    if a != [] && b != [] {
      assert a[0] in a && b[0] in b;
      var i :| 0 <= i < |b| && b[i] == a[0];
      var j :| 0 <= j < |a| && a[j] == b[0];
      LessIsTotal(a[0], b[0]);
      assert a[0] == b[0];
      forall n
        ensures n in a[1..] <==> n in keys - {a[0]}
        ensures n in b[1..] <==> n in keys - {a[0]}
      {
        LessIsTotal(n, n);
        assert n in a <==> n == a[0] || n in a[1..];
        assert n in b <==> n == b[0] || n in b[1..];
      }
      SortingIsUnique(a[1..], b[1..], keys - {a[0]});
      assert a == [a[0]] + a[1..] && b == [b[0]] + b[1..];
    } else {
      SameEmptiness(a, b, keys);
    }
  }

  method SortedNames(keys: set<string>) returns (names: seq<string>)
    ensures IsSortingOf(names, keys)
  {
    names := [];
    var todo := keys;
    while todo != {}
      invariant todo <= keys && IsSortingOf(names, keys - todo)
      decreases todo
    {
      var n :| n in todo;
      var i := 0;
      while i < |names| && Less(names[i], n)
        invariant 0 <= i <= |names|
        invariant forall k :: 0 <= k < i ==> Less(names[k], n)
      {
        i := i + 1;
      }
      InsertKeepsSorted(names, i, n);
      names := names[..i] + [n] + names[i..];
      todo := todo - {n};
    }
  }

  lemma InsertKeepsSorted(names: seq<string>, i: nat, n: string)
    requires Sorted(names) && i <= |names| && n !in names
    requires forall k :: 0 <= k < i ==> Less(names[k], n)
    requires i < |names| ==> !Less(names[i], n)
    ensures Sorted(names[..i] + [n] + names[i..])
    ensures forall m :: m in names[..i] + [n] + names[i..] <==> m == n || m in names
  {
    assert forall m :: m in names <==> m in names[..i] || m in names[i..] by {
      assert names == names[..i] + names[i..];
    }
    forall k | i <= k < |names|
      ensures Less(n, names[k])
    {
      LessIsTotal(names[i], n);
      if k > i { LessIsTransitive(n, names[i], names[k]); }
    }
  }

  function Place(names: seq<string>, n: string): (i: nat)
    ensures i <= |names| && forall k :: 0 <= k < i ==> Less(names[k], n)
    ensures i < |names| ==> !Less(names[i], n)
  {
    if names == [] || !Less(names[0], n) then 0 else 1 + Place(names[1..], n)
  }

  /** `sorted`. */
  ghost function SortedOf(keys: set<string>): (names: seq<string>)
    ensures IsSortingOf(names, keys)
    decreases |keys|
  {
    if keys == {} then []
    else
      var n :| n in keys;
      var rest := SortedOf(keys - {n});
      InsertKeepsSorted(rest, Place(rest, n), n);
      rest[..Place(rest, n)] + [n] + rest[Place(rest, n)..]
  }

  /** The text of a value. */
  ghost function TextFor(t: TargetsFile): string {
    Render(t, SortedOf(t.contexts.Keys))
  }

  /** Reading the text back gives the value exactly when its names are bare. */
  lemma TextReadsBackIffBare(t: TargetsFile, strict: bool)
    ensures ReadTargets(TextFor(t), strict) == Ok(t) <==> NamesAreBare(t)
  {
    SortedIsListed(t, SortedOf(t.contexts.Keys));
    RoundTripIffBareNames(t, SortedOf(t.contexts.Keys), strict);
  }

  // ----- the writer -----

  lemma {:induction false} JoinedLines(lines: seq<string>, more: string)
    requires lines != []
    ensures Join("\n", lines + [more]) == Join("\n", lines) + "\n" + more
    decreases |lines|
  {
    if |lines| == 1 {
      assert (lines + [more])[1..] == [more];
    } else {
      assert (lines + [more])[1..] == lines[1..] + [more];
      JoinedLines(lines[1..], more);
    }
  }

  lemma {:induction false} LinesAppend(a: seq<Stmt>, b: seq<Stmt>)
    ensures Lines(a + b) == Lines(a) + Lines(b)
    decreases |a|
  {
    if a == [] {
      assert a + b == b;
    } else {
      assert (a + b)[1..] == a[1..] + b;
      LinesAppend(a[1..], b);
    }
  }

  method AppendField(lines: seq<string>, ghost stmts: seq<Stmt>, key: string, value: Option<Scalar>)
      returns (more: seq<string>, ghost moreStmts: seq<Stmt>)
    requires lines != [] && Join("\n", lines) + "\n" == Lines(stmts)
    ensures more != [] && Join("\n", more) + "\n" == Lines(moreStmts)
    ensures moreStmts == stmts + if value.Some? then [Set(key, value.value)] else []
  {
    more, moreStmts := lines, stmts;
    if value.Some? {
      var line := key + " = " + FormatScalar(value.value);
      JoinedLines(lines, line);
      more := lines + [line];
      moreStmts := stmts + [Set(key, value.value)];
      LinesAppend(stmts, [Set(key, value.value)]);
      assert Lines([Set(key, value.value)]) == line + "\n";
      Regroup(Join("\n", lines), "\n", line, "\n", "");
    } else {
      assert stmts + [] == stmts;
    }
  }

  /** `_format_auth_table`. */
  method FormatAuthTable(name: string, auth: AuthOverrides) returns (text: string)
    ensures text == Lines(AuthStmts(name, auth))
  {
    var lines := ["[contexts." + name + ".auth]"];
    ghost var stmts := [Header(CONTEXTS + [name, "auth"])];
    HeaderLines(name);
    lines, stmts := AppendField(lines, stmts, "audience", TextOf(auth.audience));
    lines, stmts := AppendField(lines, stmts, "client_id", TextOf(auth.clientId));
    lines, stmts := AppendField(lines, stmts, "issuer", TextOf(auth.issuer));
    lines, stmts := AppendField(lines, stmts, "scopes", TextsOf(auth.scopes));
    assert stmts == AuthStmts(name, auth);
    text := Join("\n", lines) + "\n";
  }

  lemma LinesOfOne(stmt: Stmt)
    ensures Lines([stmt]) == Line(stmt)
  {
    assert [stmt][1..] == [] && Line(stmt) + "" == Line(stmt);
  }

  lemma HeaderLines(name: string)
    ensures Lines([Header(CONTEXTS + [name])]) == "[contexts." + name + "]\n"
    ensures Lines([Header(CONTEXTS + [name, "auth"])]) == "[contexts." + name + ".auth]" + "\n"
  {
    LinesOfOne(Header(CONTEXTS + [name]));
    LinesOfOne(Header(CONTEXTS + [name, "auth"]));
    HeaderSpelled(name);
    LineBreak(name);
  }

  lemma LineBreak(name: string)
    ensures "[contexts." + name + ".auth]\n" == "[contexts." + name + ".auth]" + "\n"
  {
  }

  lemma LinesOfAppend(a: seq<seq<Stmt>>, b: seq<seq<Stmt>>)
    ensures LinesOf(a + b) == LinesOf(a) + LinesOf(b)
  {
  }

  method FormatContext(name: string, entry: ContextEntry) returns (lines: seq<string>)
    ensures lines == LinesOf(ContextBlocks(name, entry))
  {
    ContextLines(name, entry.url);
    lines := [("[contexts." + name + "]\n") + ("url = \"" + EscapeBasicString(entry.url) + "\"\n")];
    if entry.auth.Some? {
      var table := FormatAuthTable(name, entry.auth.value);
      lines := lines + [table];
    }
  }

  method FormatTargets(t: TargetsFile) returns (text: string, ghost names: seq<string>)
    ensures IsSortingOf(names, t.contexts.Keys)
    ensures text == Render(t, names)
  {
    var sorted := SortedNames(t.contexts.Keys);
    names := sorted;
    var lines: seq<string> := [];
    if t.currentContext.Some? {
      CurrentLine(t.currentContext);
      lines := ["current_context = \"" + EscapeBasicString(t.currentContext.value) + "\"\n"];
    }
    assert lines == LinesOf(BlocksOf(t, []));
    for i := 0 to |sorted|
      invariant forall n :: n in sorted[..i] ==> n in t.contexts
      invariant lines == LinesOf(BlocksOf(t, sorted[..i]))
    {
      assert sorted[..i + 1][..i] == sorted[..i];
      LinesOfAppend(BlocksOf(t, sorted[..i]), ContextBlocks(sorted[i], t.contexts[sorted[i]]));
      var more := FormatContext(sorted[i], t.contexts[sorted[i]]);
      lines := lines + more;
    }
    assert sorted[..|sorted|] == sorted;
    text := Join("\n", lines);
  }

  lemma ContextLines(name: string, url: string)
    ensures Lines(ContextStmts(name, url)) ==
      ("[contexts." + name + "]\n") + ("url = \"" + EscapeBasicString(url) + "\"\n")
  {
    HeaderLines(name);
    var set' := [Set("url", Text(url))];
    LinesOfOne(Set("url", Text(url)));
    LinesAppend([Header(CONTEXTS + [name])], set');
    SpellUrl(EscapeBasicString(url));
    assert ContextStmts(name, url) == [Header(CONTEXTS + [name])] + set';
  }

  lemma SpellUrl(escaped: string)
    ensures "url" + " = " + ("\"" + escaped + "\"") + "\n" == "url = \"" + escaped + "\"\n"
  {
  }

  lemma CurrentLine(current: Option<string>)
    requires current.Some?
    ensures Lines(TextLine("current_context", current)) ==
      "current_context = \"" + EscapeBasicString(current.value) + "\"\n"
  {
    LinesOfOne(Set("current_context", Text(current.value)));
    SpellCurrent(EscapeBasicString(current.value));
  }

  lemma SpellCurrent(escaped: string)
    ensures "current_context" + " = " + ("\"" + escaped + "\"") + "\n" == "current_context = \"" + escaped + "\"\n"
  {
  }

  // ----- the file -----

  class Directory {
    var targetsToml: Option<string>

    constructor ()
      ensures targetsToml == None
    {
      targetsToml := None;
    }

    /** What `load_targets` gives: no file, a value, or an error. */
    function Loaded(strict: bool): Option<Result<TargetsFile>>
      reads this
    {
      if targetsToml == None then None else Some(ReadTargets(targetsToml.value, strict))
    }

    /** `write_targets`: every later reading gives the value that was written exactly when its names
        are bare. */
    method WriteTargets(t: TargetsFile)
      modifies this
      ensures targetsToml == Some(TextFor(t))
      ensures forall strict :: Loaded(strict) == Some(Ok(t)) <==> NamesAreBare(t)
    {
      var text;
      ghost var names;
      text, names := FormatTargets(t);
      targetsToml := Some(text);
      SortingIsUnique(names, SortedOf(t.contexts.Keys), t.contexts.Keys);
      TextReadsBackIffBare(t, false);
      TextReadsBackIffBare(t, true);
    }
  }

  lemma SortedIsListed(t: TargetsFile, names: seq<string>)
    requires IsSortingOf(names, t.contexts.Keys)
    ensures Listed(t, names)
  {
    forall i, j | 0 <= i < j < |names|
      ensures names[i] != names[j]
    {
      LessIsTotal(names[i], names[j]);
    }
  }
}
