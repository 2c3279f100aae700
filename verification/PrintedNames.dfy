/** Why a context name that is not a bare key does not survive printing: it could only be read from a
    quoted key, whose spelling is longer than the name, and no printed header line has room for one
    as long as the longest such name. */
module PrintedNames {
  import opened Optional
  import opened Scan
  import opened Toml
  import opened Targets
  import opened TargetsRoundTrip

  // ----- what a reader leaves -----

  predicate EndsWith(s: string, r: string) {
    |r| <= |s| && s[|s| - |r|..] == r
  }

  /** `r` is what is left of `s` on the same line or later. */
  predicate LeftOnLine(s: string, r: string) {
    EndsWith(s, r) && '\n' !in s[..|s| - |r|]
  }

  lemma EndsTwice(a: string, b: string, c: string)
    requires EndsWith(a, b) && EndsWith(b, c)
    ensures EndsWith(a, c)
  {
    assert a[|a| - |b|..][|b| - |c|..] == a[|a| - |c|..];
  }

  lemma LeftTwice(a: string, b: string, c: string)
    requires LeftOnLine(a, b) && LeftOnLine(b, c)
    ensures LeftOnLine(a, c)
  {
    EndsTwice(a, b, c);
    assert a[..|a| - |c|] == a[..|a| - |b|] + b[..|b| - |c|];
  }

  lemma LeftAfterOne(s: string, r: string)
    requires s != "" && s[0] != '\n' && LeftOnLine(s[1..], r)
    ensures LeftOnLine(s, r)
  {
    assert s[..1] == [s[0]] && s[|s| - |s[1..]|..] == s[1..];
    LeftTwice(s, s[1..], r);
  }

  lemma {:induction false} BlanksLeave(s: string)
    ensures LeftOnLine(s, SkipBlanks(s))
    decreases |s|
  {
    if s != "" && (s[0] == ' ' || s[0] == '\t') {
      BlanksLeave(s[1..]);
      LeftAfterOne(s, SkipBlanks(s));
    }
  }

  lemma {:induction false} HexHasNoNewline(digits: string, acc: nat)
    requires HexOf(digits, acc).Some?
    ensures '\n' !in digits
    decreases |digits|
  {
    if digits != "" { HexHasNoNewline(digits[1..], acc * 16 + HexValue(digits[0]).value); }
  }

  lemma HexLeaves(s: string, digits: nat)
    ensures ReadHex(s, digits).Got? ==> LeftOnLine(s, ReadHex(s, digits).rest)
  {
    if ReadHex(s, digits).Got? { HexHasNoNewline(s[..digits], 0); }
  }

  lemma CodePointLeaves(s: string, digits: nat)
    ensures ReadCodePoint(s, digits).Got? ==> LeftOnLine(s, ReadCodePoint(s, digits).rest)
  {
    HexLeaves(s, digits);
  }

  lemma ShortEscapeLeaves(s: string)
    requires s != "" && s[0] != 'u' && s[0] != 'U'
    ensures ReadEscape(s).Got? ==> s[0] != '\n' && ReadEscape(s).rest == s[1..]
  {
  }

  lemma EscapeLeaves(s: string)
    ensures ReadEscape(s).Got? ==> LeftOnLine(s, ReadEscape(s).rest)
  {
    if s == "" {
    } else if s[0] == 'u' || s[0] == 'U' {
      var digits := if s[0] == 'u' then 4 else 8;
      CodePointLeaves(s[1..], digits);
      assert ReadEscape(s) == ReadCodePoint(s[1..], digits);
      if ReadEscape(s).Got? { LeftAfterOne(s, ReadEscape(s).rest); }
    } else {
      ShortEscapeLeaves(s);
      if ReadEscape(s).Got? { LeftAfterOne(s, s[1..]); }
    }
  }

  /** What `r` leaves of `s` begins after a closing quotation mark that is at least `n` characters in. */
  predicate Closes(s: string, r: string, n: nat) {
    LeftOnLine(s, r) && |s| - |r| > n && IsQuote(s[|s| - |r| - 1])
  }

  lemma ClosesLater(s: string, mid: string, r: string, n: nat)
    requires LeftOnLine(s, mid) && |mid| < |s| && Closes(mid, r, n)
    ensures Closes(s, r, n + 1)
  {
    LeftTwice(s, mid, r);
    assert s[|s| - |r| - 1] == mid[|mid| - |r| - 1];
  }

  lemma {:induction false} BodyCloses(s: string)
    ensures ReadBody(s).Got? ==> Closes(s, ReadBody(s).rest, |ReadBody(s).value|)
    decreases |s|
  {
    if ReadBody(s).Got? && s[0] != '"' {
      if s[0] == '\\' {
        EscapeLeaves(s[1..]);
        LeftAfterOne(s, ReadEscape(s[1..]).rest);
        BodyCloses(ReadEscape(s[1..]).rest);
        ClosesLater(s, ReadEscape(s[1..]).rest, ReadBody(s).rest, |ReadBody(s).value| - 1);
      } else {
        BodyCloses(s[1..]);
        LeftAfterOne(s, s[1..]);
        ClosesLater(s, s[1..], ReadBody(s).rest, |ReadBody(s).value| - 1);
      }
    }
  }

  lemma {:induction false} LiteralCloses(s: string)
    ensures ReadLiteral(s).Got? ==> Closes(s, ReadLiteral(s).rest, |ReadLiteral(s).value|)
    decreases |s|
  {
    if ReadLiteral(s).Got? && s[0] != '\'' {
      LiteralCloses(s[1..]);
      LeftAfterOne(s, s[1..]);
      ClosesLater(s, s[1..], ReadLiteral(s).rest, |ReadLiteral(s).value| - 1);
    }
  }

  /** A quoted spelling is longer than the value by its two quotation marks. */
  lemma StringCloses(s: string)
    ensures ReadString(s).Got? ==> IsQuote(s[0]) && Closes(s, ReadString(s).rest, |ReadString(s).value| + 1)
  {
    if ReadString(s).Got? {
      if s[0] == '"' { BodyCloses(s[1..]); } else { LiteralCloses(s[1..]); }
      LeftAfterOne(s, s[1..]);
      ClosesLater(s, s[1..], ReadString(s).rest, |ReadString(s).value|);
    }
  }

  lemma KeyLeaves(s: string)
    ensures ReadKey(s).Got? ==> LeftOnLine(s, ReadKey(s).rest)
  {
    if s != "" && IsQuote(s[0]) {
      StringCloses(s);
    } else {
      var k := BarePrefix(s);
      assert forall c :: c in s[..|k|] ==> IsBareChar(c);
      assert s[|s| - |s[|k|..]|..] == s[|k|..];
    }
  }

  // ----- keys on a header line -----

  /** Two quotation marks at least `w` apart on the first line of `y`. */
  predicate Wide(y: string, w: nat) {
    exists i, j :: 0 <= i < j < |y| && i + w <= j && IsQuote(y[i]) && IsQuote(y[j]) && '\n' !in y[..j]
  }

  lemma WideEarlier(s: string, r: string, w: nat)
    requires LeftOnLine(s, r) && Wide(r, w)
    ensures Wide(s, w)
  {
    var i, j :| 0 <= i < j < |r| && i + w <= j && IsQuote(r[i]) && IsQuote(r[j]) && '\n' !in r[..j];
    var d := |s| - |r|;
    assert s[d..] == r && s[d + i] == r[i] && s[d + j] == r[j];
    assert s[..d + j] == s[..d] + r[..j];
  }

  lemma QuotedKeyIsWide(s: string)
    requires ReadKey(s).Got? && !IsBare(ReadKey(s).value)
    ensures Wide(s, |ReadKey(s).value| + 1)
  {
    StringCloses(s);
    var e := |s| - |ReadKey(s).rest| - 1;
    assert s[..e + 1][..e] == s[..e];
    assert 0 <= 0 < e < |s| && IsQuote(s[0]) && IsQuote(s[e]) && '\n' !in s[..e];
  }

  /** The text after the first key of a path and what separates it from the next. */
  function AfterKey(s: string): string
    requires ReadKey(SkipBlanks(s)).Got?
  {
    SkipBlanks(ReadKey(SkipBlanks(s)).rest)
  }

  lemma KeyLeavesPath(s: string)
    requires ReadKey(SkipBlanks(s)).Got?
    ensures LeftOnLine(s, AfterKey(s))
  {
    var s0 := SkipBlanks(s);
    var rest := ReadKey(s0).rest;
    BlanksLeave(s);
    KeyLeaves(s0);
    LeftTwice(s, s0, rest);
    BlanksLeave(rest);
    LeftTwice(s, rest, AfterKey(s));
  }

  lemma FirstKeyIsWide(s: string)
    requires ReadKey(SkipBlanks(s)).Got? && !IsBare(ReadKey(SkipBlanks(s)).value)
    ensures Wide(s, |ReadKey(SkipBlanks(s)).value| + 1)
  {
    BlanksLeave(s);
    QuotedKeyIsWide(SkipBlanks(s));
    WideEarlier(s, SkipBlanks(s), |ReadKey(SkipBlanks(s)).value| + 1);
  }

  lemma WideFurtherOn(s: string, mid: string, w: nat)
    requires LeftOnLine(s, mid) && mid != "" && mid[0] == '.' && Wide(mid[1..], w)
    ensures Wide(s, w)
  {
    LeftAfterOne(mid, mid[1..]);
    WideEarlier(mid, mid[1..], w);
    WideEarlier(s, mid, w);
  }

  lemma {:induction false} PathIsWide(s: string, k: string)
    requires ReadPath(s).Got? && k in ReadPath(s).value && !IsBare(k)
    ensures Wide(s, |k| + 1)
    decreases |s|
  {
    if k == ReadKey(SkipBlanks(s)).value {
      FirstKeyIsWide(s);
    } else {
      var s1 := AfterKey(s);
      KeyLeavesPath(s);
      assert s1[0] == '.';
      PathIsWide(s1[1..], k);
      WideFurtherOn(s, s1, |k| + 1);
    }
  }

  /** If the first line of `s` begins a header, its quotation marks are less than `w` apart. */
  predicate HeadOk(s: string, w: nat) {
    var y := SkipBlanks(s);
    y != "" && y[0] == '[' ==> !Wide(y, w)
  }

  /** So it is on every line of `s`. */
  predicate Tame(s: string, w: nat) {
    HeadOk(s, w) && forall i :: 0 < i <= |s| && s[i - 1] == '\n' ==> HeadOk(s[i..], w)
  }

  lemma TameEnd(s: string, r: string, w: nat)
    requires Tame(s, w) && EndsWith(s, r) && HeadOk(r, w)
    ensures Tame(r, w)
  {
    var d := |s| - |r|;
    forall i | 0 < i <= |r| && r[i - 1] == '\n'
      ensures HeadOk(r[i..], w)
    {
      assert s[d + i - 1] == r[i - 1] && s[d + i..] == r[i..];
    }
  }

  lemma TameNextLine(s: string, r: string, w: nat)
    requires Tame(s, w) && EndsWith(s, r) && (r == "" || (|r| < |s| && s[|s| - |r| - 1] == '\n'))
    ensures Tame(r, w)
  {
    if r != "" { assert s[|s| - |r|..] == r; }
    TameEnd(s, r, w);
  }

  lemma {:induction false} CommentEnds(s: string)
    ensures EndsWith(s, SkipComment(s))
    decreases |s|
  {
    if s != "" && !(IsControl(s[0]) && s[0] != '\t') {
      CommentEnds(s[1..]);
      EndsTwice(s, s[1..], SkipComment(s));
    }
  }

  lemma {:induction false} LinesEnd(s: string)
    ensures EndsWith(s, SkipLines(s))
    decreases |s|
  {
    if s != "" {
      if s[0] == ' ' || s[0] == '\t' || s[0] == '\n' {
        LinesEnd(s[1..]);
        EndsTwice(s, s[1..], SkipLines(s));
      } else if s[0] == '#' {
        CommentEnds(s[1..]);
        EndsTwice(s, s[1..], SkipComment(s[1..]));
        LinesEnd(SkipComment(s[1..]));
        EndsTwice(s, SkipComment(s[1..]), SkipLines(s));
      }
    }
  }

  lemma {:induction false} LinesStayTame(s: string, w: nat)
    requires Tame(s, w)
    ensures Tame(SkipLines(s), w)
    decreases |s|
  {
    if s != "" {
      if s[0] == ' ' || s[0] == '\t' {
        TameEnd(s, s[1..], w);
        LinesStayTame(s[1..], w);
      } else if s[0] == '\n' {
        TameNextLine(s, s[1..], w);
        LinesStayTame(s[1..], w);
      } else if s[0] == '#' {
        var r := SkipComment(s[1..]);
        CommentEnds(s[1..]);
        EndsTwice(s, s[1..], r);
        TameEnd(s, r, w);
        LinesStayTame(r, w);
      }
    }
  }

  // ----- where a statement ends -----

  lemma {:induction false} ElementsEnd(s: string)
    ensures ReadElements(s).Got? ==> EndsWith(s, ReadElements(s).rest)
    decreases |s|
  {
    if ReadElements(s).Got? {
      var s1 := SkipLines(s);
      LinesEnd(s);
      if s1[0] == ']' {
        EndsTwice(s, s1, s1[1..]);
      } else {
        StringCloses(s1);
        var rest := ReadString(s1).rest;
        EndsTwice(s, s1, rest);
        LinesEnd(rest);
        var s2 := SkipLines(rest);
        EndsTwice(s, rest, s2);
        EndsTwice(s, s2, s2[1..]);
        if s2[0] == ',' {
          ElementsEnd(s2[1..]);
          EndsTwice(s, s2[1..], ReadElements(s2[1..]).rest);
        }
      }
    }
  }

  lemma ValueEnds(s: string)
    ensures ReadValue(s).Got? ==> EndsWith(s, ReadValue(s).rest)
  {
    if ReadValue(s).Got? {
      if s[0] == '[' {
        ElementsEnd(s[1..]);
        EndsTwice(s, s[1..], ReadValue(s).rest);
      } else {
        StringCloses(s);
      }
    }
  }

  lemma {:induction false} PathEnds(s: string)
    ensures ReadPath(s).Got? ==> EndsWith(s, ReadPath(s).rest)
    decreases |s|
  {
    if ReadPath(s).Got? {
      var s0 := SkipBlanks(s);
      BlanksLeave(s);
      KeyLeaves(s0);
      var rest := ReadKey(s0).rest;
      EndsTwice(s, s0, rest);
      BlanksLeave(rest);
      var s1 := SkipBlanks(rest);
      EndsTwice(s, rest, s1);
      EndsTwice(s, s1, s1[1..]);
      if s1[0] == '.' {
        PathEnds(s1[1..]);
        EndsTwice(s, s1[1..], ReadPath(s).rest);
      }
    }
  }

  /** `r` is nothing, or a later line of `s`. */
  predicate LaterLine(s: string, r: string) {
    EndsWith(s, r) && (r == "" || (|r| < |s| && s[|s| - |r| - 1] == '\n'))
  }

  lemma LaterStill(a: string, b: string, c: string)
    requires EndsWith(a, b) && LaterLine(b, c)
    ensures LaterLine(a, c)
  {
    EndsTwice(a, b, c);
    assert c != "" ==> a[|a| - |c| - 1] == b[|b| - |c| - 1];
  }

  /** What a line's end is read from: the blanks and the comment are over. */
  function AfterComment(s: string): string {
    var s0 := SkipBlanks(s);
    if s0 != "" && s0[0] == '#' then SkipComment(s0[1..]) else s0
  }

  lemma AfterCommentEnds(s: string)
    ensures EndsWith(s, AfterComment(s))
  {
    var s0 := SkipBlanks(s);
    BlanksLeave(s);
    if s0 != "" && s0[0] == '#' {
      CommentEnds(s0[1..]);
      EndsTwice(s0, s0[1..], SkipComment(s0[1..]));
      EndsTwice(s, s0, SkipComment(s0[1..]));
    }
  }

  lemma NextLineIsLater(s: string)
    requires s != "" && s[0] == '\n'
    ensures LaterLine(s, s[1..])
  {
  }

  lemma LineEnds(s: string)
    ensures ReadLineEnd(s).Got? ==> LaterLine(s, ReadLineEnd(s).rest)
  {
    var s1 := AfterComment(s);
    AfterCommentEnds(s);
    if s1 != "" && s1[0] == '\n' {
      NextLineIsLater(s1);
      LaterStill(s, s1, s1[1..]);
    }
  }

  lemma HeaderEnds(s: string)
    requires s != "" && s[0] == '[' && ReadStmt(s).Got?
    ensures LaterLine(s, ReadStmt(s).rest)
  {
    PathEnds(s[1..]);
    var rest := ReadPath(s[1..]).rest;
    EndsTwice(s, s[1..], rest);
    LineEnds(rest);
    LaterStill(s, rest, ReadStmt(s).rest);
  }

  lemma EqualsEnds(s: string)
    ensures ReadEquals(s).Got? ==> EndsWith(s, ReadEquals(s).rest)
  {
    if ReadEquals(s).Got? {
      var s1 := SkipBlanks(s);
      BlanksLeave(s);
      EndsTwice(s, s1, s1[1..]);
      BlanksLeave(s1[1..]);
      EndsTwice(s, s1[1..], ReadEquals(s).rest);
    }
  }

  lemma SettingEnds(s: string)
    ensures ReadSetting(s).Got? ==> LaterLine(s, ReadSetting(s).rest)
  {
    if ReadSetting(s).Got? {
      ValueEnds(s);
      LineEnds(ReadValue(s).rest);
      LaterStill(s, ReadValue(s).rest, ReadSetting(s).rest);
    }
  }

  lemma AssignmentEnds(s: string)
    requires s != "" && s[0] != '[' && ReadStmt(s).Got?
    ensures LaterLine(s, ReadStmt(s).rest)
  {
    KeyLeaves(s);
    var s0 := ReadKey(s).rest;
    EqualsEnds(s0);
    var s1 := ReadEquals(s0).rest;
    EndsTwice(s, s0, s1);
    SettingEnds(s1);
    LaterStill(s, s1, ReadStmt(s).rest);
  }

  // ----- the keys of what is read -----

  predicate PathsShort(doc: Doc, w: nat) {
    forall p :: p in doc ==> forall k :: k in p ==> IsBare(k) || |k| < w
  }

  lemma HeaderKeysShort(s: string, w: nat)
    requires s != "" && s[0] == '[' && ReadStmt(s).Got? && Tame(s, w)
    ensures ReadStmt(s).value.Header?
    ensures forall k :: k in ReadStmt(s).value.path ==> IsBare(k) || |k| < w
  {
    forall k | k in ReadStmt(s).value.path
      ensures IsBare(k) || |k| < w
    {
      if !IsBare(k) {
        PathIsWide(s[1..], k);
        LeftAfterOne(s, s[1..]);
        WideEarlier(s, s[1..], |k| + 1);
        NotSoWide(s, |k| + 1, w);
      }
    }
  }

  lemma NotSoWide(y: string, v: nat, w: nat)
    requires Wide(y, v) && !Wide(y, w)
    ensures v < w
  {
  }

  predicate StmtShort(stmt: Stmt, w: nat) {
    stmt.Header? ==> forall k :: k in stmt.path ==> IsBare(k) || |k| < w
  }

  lemma StmtIsShort(s: string, w: nat)
    requires Tame(s, w) && ReadStmt(s).Got?
    ensures StmtShort(ReadStmt(s).value, w) && Tame(ReadStmt(s).rest, w)
  {
    if s[0] == '[' {
      HeaderKeysShort(s, w);
      HeaderEnds(s);
    } else {
      AssignmentEnds(s);
    }
    TameNextLine(s, ReadStmt(s).rest, w);
  }

  lemma ExecKeysShort(at: Cursor, stmt: Stmt, w: nat)
    requires PathsShort(at.doc, w) && StmtShort(stmt, w)
    ensures Exec(at, stmt).Some? ==> PathsShort(Exec(at, stmt).value.doc, w)
  {
  }

  /** On tame text every key that a header reads is bare or short. */
  lemma {:induction false} DocKeysShort(s: string, at: Cursor, w: nat)
    requires Tame(s, w) && PathsShort(at.doc, w)
    ensures ReadDoc(s, at).Some? ==> PathsShort(ReadDoc(s, at).value, w)
    decreases |s|
  {
    var s1 := SkipLines(s);
    LinesStayTame(s, w);
    if s1 != "" && ReadStmt(s1).Got? {
      var Got(stmt, rest) := ReadStmt(s1);
      StmtIsShort(s1, w);
      ExecKeysShort(at, stmt, w);
      if Exec(at, stmt).Some? {
        DocKeysShort(rest, Exec(at, stmt).value, w);
      }
    }
  }

  // ----- the printed text -----

  predicate IsLine(x: string) {
    x != "" && x[|x| - 1] == '\n'
  }

  /** No two quotation marks of `x` are `w` apart. */
  predicate Narrow(x: string, w: nat) {
    forall i, j :: 0 <= i < j < |x| && IsQuote(x[i]) && IsQuote(x[j]) ==> j < i + w
  }

  lemma NoNewlineIn(s: string, a: nat, b: nat)
    requires a <= b <= |s| && '\n' !in s[a..b]
    ensures forall k :: a <= k < b ==> s[k] != '\n'
  {
    forall k | a <= k < b
      ensures s[k] != '\n'
    {
      assert s[a..b][k - a] == s[k];
    }
  }

  /** With no newline passed, a position reached from inside a line is inside it. */
  lemma StaysOnLine(x: string, tail: string, at: nat, d: nat, j: nat)
    requires IsLine(x) && at < |x| && at <= d <= d + j < |x + tail|
    requires '\n' !in (x + tail)[at..d] && '\n' !in (x + tail)[d..d + j]
    requires (x + tail)[d + j] != '\n'
    ensures d + j < |x|
  {
    NoNewlineIn(x + tail, at, d);
    NoNewlineIn(x + tail, d, d + j);
    assert (x + tail)[|x| - 1] == '\n';
  }

  lemma NarrowHead(x: string, tail: string, at: nat, w: nat)
    requires IsLine(x) && Narrow(x, w) && at < |x|
    ensures HeadOk((x + tail)[at..], w)
  {
    var s := x + tail;
    var z := s[at..];
    var y := SkipBlanks(z);
    BlanksLeave(z);
    var d := at + |z| - |y|;
    assert y == s[d..] && z[..|z| - |y|] == s[at..d];
    forall i, j | 0 <= i < j < |y| && IsQuote(y[i]) && IsQuote(y[j]) && '\n' !in y[..j]
      ensures j < i + w
    {
      assert y[..j] == s[d..d + j];
      StaysOnLine(x, tail, at, d, j);
      assert x[d + i] == y[i] && x[d + j] == y[j];
    }
  }

  lemma NarrowTame(x: string, tail: string, w: nat)
    requires IsLine(x) && Narrow(x, w) && Tame(tail, w)
    ensures Tame(x + tail, w)
  {
    var s := x + tail;
    NarrowHead(x, tail, 0, w);
    assert s[0..] == s;
    forall i | 0 < i <= |s| && s[i - 1] == '\n'
      ensures HeadOk(s[i..], w)
    {
      if i < |x| {
        NarrowHead(x, tail, i, w);
      } else {
        assert s[i..] == tail[i - |x|..];
        assert i > |x| ==> tail[i - |x| - 1] == '\n';
        assert tail[0..] == tail;
      }
    }
  }

  /** A line that begins no header. */
  lemma PlainLineTame(x: string, tail: string, w: nat)
    requires IsLine(x) && '\n' !in x[..|x| - 1] && x[0] != '[' && x[0] != ' ' && x[0] != '\t' && Tame(tail, w)
    ensures Tame(x + tail, w)
  {
    var s := x + tail;
    assert s[0] == x[0];
    NoNewlineIn(x, 0, |x| - 1);
    assert x[0..|x| - 1] == x[..|x| - 1];
    forall i | 0 < i <= |s| && s[i - 1] == '\n'
      ensures HeadOk(s[i..], w)
    {
      assert i >= |x|;
      assert s[i..] == tail[i - |x|..];
      assert i > |x| ==> tail[i - |x| - 1] == '\n';
      assert tail[0..] == tail;
    }
  }

  lemma BareHasNoQuote(k: string)
    requires IsBare(k)
    ensures forall c :: c in k ==> !IsQuote(c) && c != '\n'
  {
  }

  lemma NoQuoteIn(x: string, part: string, at: nat)
    requires at + |part| <= |x| && x[at..at + |part|] == part && forall c :: c in part ==> !IsQuote(c)
    ensures forall i :: at <= i < at + |part| ==> !IsQuote(x[i])
  {
    forall i | at <= i < at + |part|
      ensures !IsQuote(x[i])
    {
      assert x[i] == part[i - at] && part[i - at] in part;
    }
  }

  lemma HeaderNarrow(name: string, end: string, w: nat)
    requires IsBare(name) || |name| <= w
    requires forall c :: c in end ==> !IsQuote(c)
    ensures Narrow("[contexts." + name + end, w)
  {
    var start := "[contexts.";
    var x := start + name + end;
    NoQuoteIn(x, start, 0);
    NoQuoteIn(x, end, |start| + |name|);
    if IsBare(name) {
      BareHasNoQuote(name);
      NoQuoteIn(x, name, |start|);
    }
    assert forall i :: 0 <= i < |x| && IsQuote(x[i]) ==> |start| <= i < |start| + |name| && !IsBare(name);
  }

  // ----- values are printed on one line -----

  lemma {:induction false} EscapedOnOneLine(value: string)
    ensures '\n' !in EscapeBasicString(value)
  {
    if value != "" {
      EscapedOnOneLine(value[1..]);
      CharOnOneLine(value[0]);
    }
  }

  lemma CharOnOneLine(c: char)
    ensures '\n' !in EscapeChar(c)
  {
    if IsControl(c) { HexOnOneLine(c as int); }
  }

  lemma HexOnOneLine(n: nat)
    requires n < 0x1_0000
    ensures '\n' !in "\\u" + Hex4(n)
  {
    assert forall d: nat :: d < 16 ==> HexDigit(d) != '\n';
  }

  lemma {:induction false} ArrayOnOneLine(values: seq<string>)
    ensures '\n' !in Join(", ", QuotedAll(values))
    decreases |values|
  {
    if values != [] {
      EscapedOnOneLine(values[0]);
      assert QuotedAll(values)[1..] == QuotedAll(values[1..]);
      ArrayOnOneLine(values[1..]);
    }
  }

  lemma ValueOnOneLine(v: Scalar)
    ensures '\n' !in FormatScalar(v)
  {
    match v
    case Text(text) => EscapedOnOneLine(text);
    case Texts(texts) => ArrayOnOneLine(texts);
  }

  // ----- all lines -----

  predicate PrintedHeader(path: seq<string>, name: string, w: nat) {
    (path == CONTEXTS + [name] || path == CONTEXTS + [name, "auth"]) && (IsBare(name) || |name| <= w)
  }

  predicate Printed(stmt: Stmt, w: nat) {
    match stmt
    case Header(path) => |path| >= 2 && PrintedHeader(path, path[1], w)
    case Set(key, _) => IsBare(key)
  }

  lemma HeaderSpelled(name: string)
    ensures Line(Header(CONTEXTS + [name])) == "[contexts." + name + "]\n"
    ensures Line(Header(CONTEXTS + [name, "auth"])) == "[contexts." + name + ".auth]\n"
  {
    JoinTwoOrThree("contexts", name, "auth");
    assert CONTEXTS + [name] == ["contexts", name] && CONTEXTS + [name, "auth"] == ["contexts", name, "auth"];
    Spelled(name);
  }

  lemma JoinTwoOrThree(a: string, b: string, c: string)
    ensures Join(".", [a, b]) == a + "." + b
    ensures Join(".", [a, b, c]) == a + "." + (b + "." + c)
  {
    assert [a, b][1..] == [b];
    assert [a, b, c][1..] == [b, c] && [b, c][1..] == [c];
    assert Join(".", [b, c]) == b + "." + c;
    assert Join(".", [a, b, c]) == a + "." + Join(".", [b, c]);
  }

  lemma Spelled(name: string)
    ensures "[" + ("contexts" + "." + name) + "]\n" == "[contexts." + name + "]\n"
    ensures "[" + ("contexts" + "." + (name + "." + "auth")) + "]\n" == "[contexts." + name + ".auth]\n"
  {
  }

  lemma HeaderLineTame(path: seq<string>, name: string, tail: string, w: nat)
    requires PrintedHeader(path, name, w) && Tame(tail, w)
    ensures Tame(Line(Header(path)) + tail, w)
  {
    HeaderSpelled(name);
    HeaderNarrow(name, "]\n", w);
    HeaderNarrow(name, ".auth]\n", w);
    NarrowTame(Line(Header(path)), tail, w);
  }

  lemma SetLineTame(key: string, v: Scalar, tail: string, w: nat)
    requires IsBare(key) && Tame(tail, w)
    ensures Tame(Line(Set(key, v)) + tail, w)
  {
    var x := Line(Set(key, v));
    BareHasNoQuote(key);
    ValueOnOneLine(v);
    assert x[..|x| - 1] == key + " = " + FormatScalar(v);
    assert key[0] in key && x[0] == key[0];
    PlainLineTame(x, tail, w);
  }

  predicate AllPrinted(stmts: seq<Stmt>, w: nat) {
    forall i :: 0 <= i < |stmts| ==> Printed(stmts[i], w)
  }

  lemma {:induction false} StmtsTame(stmts: seq<Stmt>, tail: string, w: nat)
    requires AllPrinted(stmts, w) && Tame(tail, w)
    ensures Tame(Lines(stmts) + tail, w)
    decreases |stmts|
  {
    if stmts == [] {
      assert Lines(stmts) + tail == tail;
    } else {
      var rest := Lines(stmts[1..]) + tail;
      StmtsTame(stmts[1..], tail, w);
      assert Lines(stmts) + tail == Line(stmts[0]) + rest;
      assert Printed(stmts[0], w);
      match stmts[0]
      case Header(path) =>
        HeaderLineTame(path, path[1], rest, w);
      case Set(key, v) => SetLineTame(key, v, rest, w);
    }
  }

  lemma EmptyLineTame(tail: string, w: nat)
    requires Tame(tail, w)
    ensures Tame("\n" + tail, w)
  {
    PlainLineTame("\n", tail, w);
  }

  predicate BlocksPrinted(blocks: seq<seq<Stmt>>, w: nat) {
    forall i :: 0 <= i < |blocks| ==> AllPrinted(blocks[i], w)
  }

  lemma {:induction false} BlocksTame(blocks: seq<seq<Stmt>>, w: nat)
    requires BlocksPrinted(blocks, w)
    ensures Tame(Join("\n", LinesOf(blocks)), w)
    decreases |blocks|
  {
    if blocks != [] {
      assert LinesOf(blocks)[1..] == LinesOf(blocks[1..]);
      BlocksTame(blocks[1..], w);
      if |blocks| == 1 {
        StmtsTame(blocks[0], "", w);
        assert Lines(blocks[0]) + "" == Lines(blocks[0]);
      } else {
        var tail := Join("\n", LinesOf(blocks[1..]));
        EmptyLineTame(tail, w);
        StmtsTame(blocks[0], "\n" + tail, w);
        Regroup(Lines(blocks[0]), "\n", tail, "", "");
      }
    }
  }

  predicate NamesFit(names: seq<string>, w: nat) {
    forall n :: n in names ==> IsBare(n) || |n| <= w
  }

  lemma ContextPrinted(name: string, e: ContextEntry, w: nat)
    requires IsBare(name) || |name| <= w
    ensures BlocksPrinted(ContextBlocks(name, e), w)
  {
    assert PrintedHeader(CONTEXTS + [name], name, w);
    assert PrintedHeader(CONTEXTS + [name, "auth"], name, w);
    assert AllPrinted(ContextStmts(name, e.url), w);
    if e.auth.Some? { FieldsPrinted(name, e.auth.value, w); }
  }

  lemma TextLinePrinted(key: string, value: Option<string>, stmts: seq<Stmt>, w: nat)
    requires IsBare(key) && AllPrinted(stmts, w)
    ensures AllPrinted(stmts + TextLine(key, value), w)
  {
  }

  lemma FieldsPrinted(name: string, a: AuthOverrides, w: nat)
    requires PrintedHeader(CONTEXTS + [name, "auth"], name, w)
    ensures AllPrinted(AuthStmts(name, a), w)
  {
    var s0 := [Header(CONTEXTS + [name, "auth"])];
    assert AllPrinted(s0, w);
    var s1 := s0 + TextLine("audience", a.audience);
    TextLinePrinted("audience", a.audience, s0, w);
    var s2 := s1 + TextLine("client_id", a.clientId);
    TextLinePrinted("client_id", a.clientId, s1, w);
    var s3 := s2 + TextLine("issuer", a.issuer);
    TextLinePrinted("issuer", a.issuer, s2, w);
    ScopesPrinted(s3, a.scopes, w);
  }

  lemma ScopesPrinted(stmts: seq<Stmt>, scopes: Option<seq<string>>, w: nat)
    requires AllPrinted(stmts, w)
    ensures AllPrinted(stmts + (if scopes.Some? then [Set("scopes", Texts(scopes.value))] else []), w)
  {
  }

  lemma CurrentPrinted(t: TargetsFile, w: nat)
    ensures BlocksPrinted(BlocksOf(t, []), w)
  {
  }

  lemma PrintedAppend(a: seq<seq<Stmt>>, b: seq<seq<Stmt>>, w: nat)
    requires BlocksPrinted(a, w) && BlocksPrinted(b, w)
    ensures BlocksPrinted(a + b, w)
  {
  }

  lemma {:induction false} FilePrinted(t: TargetsFile, names: seq<string>, w: nat)
    requires (forall n :: n in names ==> n in t.contexts) && NamesFit(names, w)
    ensures BlocksPrinted(BlocksOf(t, names), w)
    decreases |names|
  {
    if names == [] {
      CurrentPrinted(t, w);
    } else {
      var k := |names| - 1;
      assert names[k] in names;
      FilePrinted(t, names[..k], w);
      ContextPrinted(names[k], t.contexts[names[k]], w);
      PrintedAppend(BlocksOf(t, names[..k]), ContextBlocks(names[k], t.contexts[names[k]]), w);
    }
  }

  // ----- the only-if half -----

  lemma {:induction false} LongestNotBare(names: seq<string>) returns (longest: string)
    requires exists n :: n in names && !IsBare(n)
    ensures longest in names && !IsBare(longest) && NamesFit(names, |longest|)
    decreases |names|
  {
    var k := |names| - 1;
    var front := names[..k];
    assert forall n :: n in names <==> n in front || n == names[k];
    if exists n :: n in front && !IsBare(n) {
      longest := LongestNotBare(front);
      if !IsBare(names[k]) && |names[k]| > |longest| { longest := names[k]; }
    } else {
      longest := names[k];
    }
  }

  lemma ReadNamesFit(text: string, strict: bool, t: TargetsFile, w: nat)
    requires Tame(text, w) && ReadTargets(text, strict) == Ok(t)
    ensures forall n :: n in t.contexts ==> IsBare(n) || |n| < w
  {
    DocKeysShort(text, START, w);
    var doc := ReadDoc(text, START).value;
    forall n | n in t.contexts
      ensures IsBare(n) || |n| < w
    {
      assert n in ContextNames(doc);
      var p :| p in doc && |p| >= 2 && p[0] == "contexts" && p[1] == n;
      assert p[1] in p;
    }
  }

  lemma LostName(t: TargetsFile, names: seq<string>, strict: bool)
    requires Listed(t, names) && (forall n :: n in t.contexts ==> n in names) && !NamesAreBare(t)
    ensures ReadTargets(Render(t, names), strict) != Ok(t)
  {
    var longest := LongestNotBare(names);
    FilePrinted(t, names, |longest|);
    BlocksTame(BlocksOf(t, names), |longest|);
    if ReadTargets(Render(t, names), strict) == Ok(t) {
      ReadNamesFit(Render(t, names), strict, t, |longest|);
      assert false;
    }
  }

  /** Reading back gives the written value exactly when every context name is a bare key, whatever
      order the contexts are written in: `None` apart from an empty string, no scopes apart from
      empty scopes, a missing auth table apart from one that sets nothing. */
  lemma RoundTripIffBareNames(t: TargetsFile, names: seq<string>, strict: bool)
    requires Listed(t, names) && (forall n :: n in t.contexts ==> n in names)
    ensures ReadTargets(Render(t, names), strict) == Ok(t) <==> NamesAreBare(t)
  {
    if NamesAreBare(t) { BareNamesRoundTrip(t, names, strict); } else { LostName(t, names, strict); }
  }
}
