/** `targets.toml`: the values it holds, how they are written and how they are read back. */
module Targets {
  import opened Optional
  import opened Scan
  import opened Toml

  datatype AuthOverrides = AuthOverrides(
    issuer: Option<string>,
    clientId: Option<string>,
    scopes: Option<seq<string>>,
    audience: Option<string>)

  datatype ContextEntry = ContextEntry(url: string, auth: Option<AuthOverrides>)

  datatype TargetsFile = TargetsFile(currentContext: Option<string>, contexts: map<string, ContextEntry>)

  // ----- reading a document -----

  predicate IsBareChar(c: char) {
    'a' <= c <= 'z' || 'A' <= c <= 'Z' || '0' <= c <= '9' || c == '_' || c == '-'
  }

  /** A bare key (section "Keys"). */
  predicate IsBare(key: string) {
    key != "" && forall c :: c in key ==> IsBareChar(c)
  }

  function BarePrefix(s: string): (k: string)
    ensures |k| <= |s| && s[..|k|] == k
    ensures forall c :: c in k ==> IsBareChar(c)
    ensures |k| < |s| ==> !IsBareChar(s[|k|])
  {
    if s == "" || !IsBareChar(s[0]) then "" else [s[0]] + BarePrefix(s[1..])
  }

  predicate IsQuote(c: char) { c == '"' || c == '\'' }

  /** A bare or a quoted key. */
  function ReadKey(s: string): (r: Parse<string>)
    ensures r.Got? ==> |r.rest| < |s|
  {
    if s != "" && IsQuote(s[0]) then ReadString(s)
    else
      var k := BarePrefix(s);
      if k == "" then Fail else Got(k, s[|k|..])
  }

  /** The dotted path of a table header, after its opening bracket. */
  function ReadPath(s: string): (r: Parse<seq<string>>)
    ensures r.Got? ==> |r.rest| < |s| && r.value != []
    decreases |s|
  {
    match ReadKey(SkipBlanks(s))
    case Fail => Fail
    case Got(k, rest) =>
      var s1 := SkipBlanks(rest);
      if s1 == "" then Fail
      else if s1[0] == ']' then Got([k], s1[1..])
      else if s1[0] == '.' then
        (match ReadPath(s1[1..])
         case Fail => Fail
         case Got(ks, rest) => Got([k] + ks, rest))
      else Fail
  }

  /** Nothing but blanks and a comment up to the end of the line. */
  function ReadLineEnd(s: string): (r: Parse<()>)
    ensures r.Got? ==> |r.rest| <= |s|
  {
    var s0 := SkipBlanks(s);
    var s1 := if s0 != "" && s0[0] == '#' then SkipComment(s0[1..]) else s0;
    if s1 == "" then Got((), "")
    else if s1[0] == '\n' then Got((), s1[1..])
    else Fail
  }

  datatype Stmt = Header(path: seq<string>) | Set(key: string, value: Scalar)

  function ReadHeader(s: string): (r: Parse<Stmt>)
    ensures r.Got? ==> |r.rest| < |s|
  {
    match ReadPath(s)
    case Fail => Fail
    case Got(path, rest) =>
      match ReadLineEnd(rest)
      case Fail => Fail
      case Got(_, rest) => Got(Header(path), rest)
  }

  function ReadEquals(s: string): (r: Parse<()>)
    ensures r.Got? ==> |r.rest| < |s|
  {
    var s1 := SkipBlanks(s);
    if s1 == "" || s1[0] != '=' then Fail else Got((), SkipBlanks(s1[1..]))
  }

  /** What stands on the right of an equals sign, up to the end of the line. */
  function ReadSetting(s: string): (r: Parse<Scalar>)
    ensures r.Got? ==> |r.rest| < |s|
  {
    match ReadValue(s)
    case Fail => Fail
    case Got(v, rest) =>
      match ReadLineEnd(rest)
      case Fail => Fail
      case Got(_, rest) => Got(v, rest)
  }

  function ReadAssignment(s: string): (r: Parse<Stmt>)
    ensures r.Got? ==> |r.rest| < |s|
  {
    match ReadKey(s)
    case Fail => Fail
    case Got(key, rest) =>
      match ReadEquals(rest)
      case Fail => Fail
      case Got(_, rest) =>
        match ReadSetting(rest)
        case Fail => Fail
        case Got(v, rest) => Got(Set(key, v), rest)
  }

  function ReadStmt(s: string): (r: Parse<Stmt>)
    ensures r.Got? ==> |r.rest| < |s|
  {
    if s == "" then Fail else if s[0] == '[' then ReadHeader(s[1..]) else ReadAssignment(s)
  }

  /** All keys are bare. */
  predicate WellFormed(stmt: Stmt) {
    match stmt
    case Header(path) => path != [] && forall k :: k in path ==> IsBare(k)
    case Set(key, _) => IsBare(key)
  }

  /** The tables of a document by path, each with the scalars set in it. A table that is only the
      parent of another one has no entry of its own. */
  type Doc = map<seq<string>, map<string, Scalar>>

  /** A header defines a table once, and not below a key that already holds a value. */
  function Define(doc: Doc, path: seq<string>): Option<Doc> {
    if path in doc then None
    else if exists i :: 0 <= i < |path| && path[..i] in doc && path[i] in doc[path[..i]] then None
    else Some(doc[path := map[]])
  }

  /** A key is set once, and not where a table is. */
  function Assign(doc: Doc, cur: seq<string>, key: string, v: Scalar): Option<Doc> {
    if cur !in doc || key in doc[cur] then None
    else if exists p :: p in doc && cur + [key] <= p then None
    else Some(doc[cur := doc[cur][key := v]])
  }

  datatype Cursor = Cursor(table: seq<string>, doc: Doc)

  function Exec(at: Cursor, stmt: Stmt): Option<Cursor> {
    match stmt
    case Header(path) =>
      (match Define(at.doc, path) case None => None case Some(doc) => Some(Cursor(path, doc)))
    case Set(key, v) =>
      (match Assign(at.doc, at.table, key, v) case None => None case Some(doc) => Some(Cursor(at.table, doc)))
  }

  function ReadDoc(s: string, at: Cursor): Option<Doc>
    decreases |s|
  {
    var s1 := SkipLines(s);
    if s1 == "" then Some(at.doc)
    else
      match ReadStmt(s1)
      case Fail => None
      case Got(stmt, rest) =>
        match Exec(at, stmt)
        case None => None
        case Some(next) => ReadDoc(rest, next)
  }

  const START := Cursor([], map[[] := map[]])

  // ----- load_targets -----

  datatype LoadError = InvalidToml | OldFormat | Malformed

  datatype Result<+T> = Ok(value: T) | Err(error: LoadError)

  predicate HasTable(doc: Doc, p: seq<string>) {
    exists q :: q in doc && p <= q
  }

  function Table(doc: Doc, p: seq<string>): map<string, Scalar> {
    if p in doc then doc[p] else map[]
  }

  predicate TextOrAbsent(table: map<string, Scalar>, key: string) { key in table ==> table[key].Text? }

  predicate TextsOrAbsent(table: map<string, Scalar>, key: string) { key in table ==> table[key].Texts? }

  function OptText(table: map<string, Scalar>, key: string): Option<string>
    requires TextOrAbsent(table, key)
  {
    if key in table then Some(table[key].text) else None
  }

  predicate AuthReadable(table: map<string, Scalar>) {
    TextOrAbsent(table, "issuer") && TextOrAbsent(table, "client_id") && TextsOrAbsent(table, "scopes")
    && TextOrAbsent(table, "audience")
  }

  /** `_parse_auth_overrides`. */
  function ParseAuth(table: map<string, Scalar>): AuthOverrides
    requires AuthReadable(table)
  {
    AuthOverrides(OptText(table, "issuer"), OptText(table, "client_id"),
                  if "scopes" in table then Some(table["scopes"].texts) else None,
                  OptText(table, "audience"))
  }

  const CONTEXTS := ["contexts"]

  function ContextNames(doc: Doc): set<string> {
    set p | p in doc && |p| >= 2 && p[0] == "contexts" :: p[1]
  }

  predicate EntryReadable(doc: Doc, name: string) {
    var table := Table(doc, CONTEXTS + [name]);
    && "url" in table && table["url"].Text?
    && "auth" !in table
    && AuthReadable(Table(doc, CONTEXTS + [name, "auth"]))
  }

  /** `_parse_context_entry` on a table. */
  function ParseEntry(doc: Doc, name: string): ContextEntry
    requires EntryReadable(doc, name)
  {
    ContextEntry(Table(doc, CONTEXTS + [name])["url"].text,
      if HasTable(doc, CONTEXTS + [name, "auth"]) then Some(ParseAuth(Table(doc, CONTEXTS + [name, "auth"])))
      else None)
  }

  /** The rest of `load_targets` on a parsed document. A context that is a plain string is an error
      when `strict`, and is dropped otherwise. */
  function Interpret(doc: Doc, strict: bool): Result<TargetsFile> {
    var top := Table(doc, []);
    if "contexts" in top || !TextOrAbsent(top, "current_context") then Err(Malformed)
    else if strict && Table(doc, CONTEXTS) != map[] then Err(OldFormat)
    else if exists name :: name in ContextNames(doc) && !EntryReadable(doc, name) then Err(Malformed)
    else Ok(TargetsFile(OptText(top, "current_context"),
                        map name | name in ContextNames(doc) :: ParseEntry(doc, name)))
  }

  function ReadTargets(text: string, strict: bool): Result<TargetsFile> {
    match ReadDoc(text, START)
    case None => Err(InvalidToml)
    case Some(doc) => Interpret(doc, strict)
  }

  // ----- write_targets -----

  function Line(stmt: Stmt): string {
    match stmt
    case Header(path) => "[" + Join(".", path) + "]\n"
    case Set(key, v) => key + " = " + FormatScalar(v) + "\n"
  }

  function Lines(stmts: seq<Stmt>): string {
    if stmts == [] then "" else Line(stmts[0]) + Lines(stmts[1..])
  }

  function TextLine(key: string, value: Option<string>): seq<Stmt> {
    if value.Some? then [Set(key, Text(value.value))] else []
  }

  /** `_format_auth_table`: one line per field that is not `None`. */
  function AuthStmts(name: string, auth: AuthOverrides): seq<Stmt> {
    [Header(CONTEXTS + [name, "auth"])]
    + TextLine("audience", auth.audience)
    + TextLine("client_id", auth.clientId)
    + TextLine("issuer", auth.issuer)
    + (if auth.scopes.Some? then [Set("scopes", Texts(auth.scopes.value))] else [])
  }

  function ContextStmts(name: string, url: string): seq<Stmt> {
    [Header(CONTEXTS + [name]), Set("url", Text(url))]
  }

  /** The blocks of the file, which are written with an empty line between them. */
  function ContextBlocks(name: string, e: ContextEntry): seq<seq<Stmt>> {
    [ContextStmts(name, e.url)] + if e.auth.Some? then [AuthStmts(name, e.auth.value)] else []
  }

  function BlocksOf(t: TargetsFile, names: seq<string>): seq<seq<Stmt>>
    requires forall n :: n in names ==> n in t.contexts
  {
    if names == [] then
      (if t.currentContext.Some? then [TextLine("current_context", t.currentContext)] else [])
    else
      var n := |names| - 1;
      BlocksOf(t, names[..n]) + ContextBlocks(names[n], t.contexts[names[n]])
  }

  function LinesOf(blocks: seq<seq<Stmt>>): (r: seq<string>)
    ensures |r| == |blocks| && forall i :: 0 <= i < |r| ==> r[i] == Lines(blocks[i])
  {
    seq(|blocks|, i requires 0 <= i < |blocks| => Lines(blocks[i]))
  }

  /** The text of the file when the contexts are taken in the order of `names`. */
  function Render(t: TargetsFile, names: seq<string>): string
    requires forall n :: n in names ==> n in t.contexts
  {
    Join("\n", LinesOf(BlocksOf(t, names)))
  }
}
