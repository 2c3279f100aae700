/** What holds over every run of commands: which stored refresh token is still good, and which entry
    of the targets file a stored bundle was obtained for. */
module SessionTheorems {
  import opened Optional
  import opened Targets
  import opened Credentials
  import opened CredentialStore
  import opened ConfigHandlers
  import opened OidcProvider
  import opened QuotedNames
  import opened Session

  // ----- rotation -----

  /** Context `c` made the last grant under `key`, and kept it. */
  predicate HoldsGrant(w: World, c: string, key: Key) {
    c in w.storedUnder && w.storedUnder[c] == key && key in w.last && w.last[key] == Some(c)
  }

  ghost predicate ExactAt(w: World, c: string, token: string) {
    token in w.issued && forall key :: IsCurrent(w, key, token) <==> HoldsGrant(w, c, key)
  }

  ghost predicate Exact(w: World) {
    AllIssued(w) && forall c :: TokenOf(w.entries, c).Some? ==> ExactAt(w, c, TokenOf(w.entries, c).value)
  }

  lemma CurrentAfterGrant(w: World, site: Site, at: Key, secret: string, stored: bool, s: Parties, key: Key, token: string)
    requires s.provider.current == ProviderAt(w, at.issuer).current[at.client := secret]
    ensures IsCurrent(Settle(w, site, at, secret, stored, s), key, token) <==>
      if key == at then token == secret else IsCurrent(w, key, token)
  {
  }

  lemma GrantKeepsIssued(w: World, site: Site, at: Key, secret: string, stored: bool, s: Parties)
    requires AllIssued(w)
    requires s.provider.current == ProviderAt(w, at.issuer).current[at.client := secret]
    ensures AllIssued(Settle(w, site, at, secret, stored, s))
  {
    var v := Settle(w, site, at, secret, stored, s);
    forall key: Key, token | IsCurrent(v, key, token)
      ensures token in v.issued
    {
      CurrentAfterGrant(w, site, at, secret, stored, s, key, token);
    }
  }

  /** A grant to a context takes the key from whoever held it. */
  lemma GrantKeepsExactAt(w: World, site: Site, at: Key, secret: string, stored: bool, s: Parties, c: string, token: string)
    requires AllIssued(w) && secret !in w.issued
    requires s.provider.current == ProviderAt(w, at.issuer).current[at.client := secret]
    requires if stored && c == site.context then token == secret else ExactAt(w, c, token)
    ensures ExactAt(Settle(w, site, at, secret, stored, s), c, token)
  {
    var v := Settle(w, site, at, secret, stored, s);
    forall key
      ensures IsCurrent(v, key, token) <==> HoldsGrant(v, c, key)
    {
      CurrentAfterGrant(w, site, at, secret, stored, s, key, token);
      assert key != at && IsCurrent(w, key, token) ==> token in w.issued;
    }
  }

  lemma GrantKeepsExact(w: World, site: Site, at: Key, secret: string, stored: bool, s: Parties)
    requires Exact(w) && secret !in w.issued
    requires s.provider.current == ProviderAt(w, at.issuer).current[at.client := secret]
    requires s.entries == if stored then w.entries[site.context := Encode(TokenBundle(Some(secret), at.issuer))] else w.entries
    ensures Exact(Settle(w, site, at, secret, stored, s))
  {
    var v := Settle(w, site, at, secret, stored, s);
    GrantKeepsIssued(w, site, at, secret, stored, s);
    forall c | TokenOf(v.entries, c).Some?
      ensures ExactAt(v, c, TokenOf(v.entries, c).value)
    {
      TokenLaws(w.entries, site.context, secret, at.issuer, c);
      GrantKeepsExactAt(w, site, at, secret, stored, s, c, TokenOf(v.entries, c).value);
    }
  }

  /** Deleting a bundle, or rewriting the file, takes no grant from anyone. */
  lemma DeletionKeepsExact(w: World, v: World, context: string)
    requires Exact(w)
    requires v.providers == w.providers && v.issued == w.issued && v.storedUnder == w.storedUnder && v.last == w.last
    requires v.entries == w.entries || v.entries == w.entries[context := ""]
    ensures Exact(v)
  {
    assert forall key, token :: IsCurrent(v, key, token) == IsCurrent(w, key, token);
    forall c | TokenOf(v.entries, c).Some?
      ensures ExactAt(v, c, TokenOf(v.entries, c).value)
    {
      TokenLaws(w.entries, context, "", "", c);
      var token := TokenOf(v.entries, c).value;
      assert ExactAt(w, c, token);
      forall key
        ensures IsCurrent(v, key, token) <==> HoldsGrant(v, c, key)
      {
        assert IsCurrent(v, key, token) == IsCurrent(w, key, token);
      }
    }
  }

  /** A login nobody approved adds a pending flow and nothing else. */
  lemma NoGrantKeepsExact(w: World, issuer: string, client: string, code: string)
    requires Exact(w)
    ensures Exact(w.(providers := w.providers[issuer := Authorize(ProviderAt(w, issuer), AuthorizeForm(client), code)]))
  {
    var v := w.(providers := w.providers[issuer := Authorize(ProviderAt(w, issuer), AuthorizeForm(client), code)]);
    SameCurrentKeepsExact(w, v);
  }

  lemma SameCurrentKeepsExact(w: World, v: World)
    requires Exact(w) && v == w.(providers := v.providers)
    requires forall issuer :: ProviderAt(v, issuer).current == ProviderAt(w, issuer).current
    ensures Exact(v)
  {
    assert forall key, token :: IsCurrent(v, key, token) == IsCurrent(w, key, token);
    forall c | TokenOf(v.entries, c).Some?
      ensures ExactAt(v, c, TokenOf(v.entries, c).value)
    {
      assert ExactAt(w, c, TokenOf(w.entries, c).value);
    }
  }

  lemma LoginKeepsExact(w: World, site: Site, at: Key, code: string, secret: string, exchange: Exchange)
    requires Exact(w) && secret !in w.issued
    ensures Exact(StepLogin(w, site, at, code, secret, exchange))
  {
    var s := Parties(w.entries, ProviderAt(w, at.issuer));
    LoginGrants(s, site.context, at, code, secret, exchange);
    if exchange == NoGrant {
      NoGrantKeepsExact(w, at.issuer, at.client, code);
    } else {
      GrantKeepsExact(w, site, at, secret, exchange == Completes, LoggedIn(s, site.context, at, code, secret, exchange));
    }
  }

  lemma RefreshKeepsExact(w: World, site: Site, token: string, at: Key, secret: string, exchange: Exchange)
    requires Exact(w) && secret !in w.issued
    ensures Exact(StepRefresh(w, site, token, at, secret, exchange))
  {
    var s := Parties(w.entries, ProviderAt(w, at.issuer));
    RefreshGrants(s, site.context, token, at, secret, exchange);
    if exchange != NoGrant && IsCurrent(w, at, token) {
      GrantKeepsExact(w, site, at, secret, exchange == Completes,
                      Session.Refreshed(s, site.context, token, at, secret, exchange));
    }
  }

  lemma AuthStepKeepsExact(w: World, c: Command, valid: string -> bool, site: Site)
    requires Exact(w) && Enabled(w, c) && (c.Login? || c.Refresh? || c.Logout?)
    requires Target(w, c.inv, valid) == Some(site)
    ensures Exact(Step(w, c, valid))
  {
    match c
    case Login(_, discover, code, secret, exchange) =>
      LoginKeepsExact(w, site, At(site, discover), code, secret, exchange);
    case Refresh(_, discover, secret, exchange) =>
      if TokenOf(w.entries, site.context).Some? {
        RefreshKeepsExact(w, site, TokenOf(w.entries, site.context).value, At(site, discover), secret, exchange);
      }
    case Logout(_, _) => DeletionKeepsExact(w, Step(w, c, valid), site.context);
  }

  lemma FileStepTouches(w: World, c: Command, valid: string -> bool)
    requires c.SetContext? || c.UseContext?
    ensures var v := Step(w, c, valid);
      && v == w.(file := v.file, entries := v.entries)
      && (v.entries == w.entries || v.entries == w.entries[c.name := ""])
  {
  }

  lemma FileStepKeepsExact(w: World, c: Command, valid: string -> bool)
    requires Exact(w) && (c.SetContext? || c.UseContext?)
    ensures Exact(Step(w, c, valid))
  {
    FileStepTouches(w, c, valid);
    DeletionKeepsExact(w, Step(w, c, valid), c.name);
  }

  lemma StepKeepsExact(w: World, c: Command, valid: string -> bool)
    requires Exact(w) && Enabled(w, c)
    ensures Exact(Step(w, c, valid))
  {
    if c.SetContext? || c.UseContext? {
      FileStepKeepsExact(w, c, valid);
    } else {
      match Target(w, c.inv, valid)
      case Some(site) => AuthStepKeepsExact(w, c, valid, site);
      case None => WithoutTargetStays(w, c, valid);
    }
  }

  lemma {:induction false} RunKeepsExact(w: World, run: seq<Command>, valid: string -> bool)
    requires Exact(w) && IsRun(w, run, valid)
    ensures Exact(After(w, run, valid))
    decreases |run|
  {
    if run != [] {
      StepKeepsExact(w, run[0], valid);
      RunKeepsExact(Step(w, run[0], valid), run[1..], valid);
    }
  }

  /** Over every run, with lost answers, failed writes and shared clients: a refresh with the stored
      token is answered with tokens exactly when the context's bundle was stored under that key and
      no later grant of that key went to another context or was lost. */
  lemma RefreshAcceptedExactly(w: World, run: seq<Command>, valid: string -> bool, c: string, key: Key, secret: string)
    requires Initial(w) && IsRun(w, run, valid)
    requires TokenOf(After(w, run, valid).entries, c).Some?
    ensures var v := After(w, run, valid);
      TokenRequest(ProviderAt(v, key.issuer), RefreshForm(key.client, TokenOf(v.entries, c).value), secret).1.Tokens?
      <==> HoldsGrant(v, c, key)
  {
    assert forall c' :: TokenOf(w.entries, c') == None;
    RunKeepsExact(w, run, valid);
    var v := After(w, run, valid);
    assert ExactAt(v, c, TokenOf(v.entries, c).value);
    OnlyCurrentTokenRefreshes(ProviderAt(v, key.issuer), key.client, TokenOf(v.entries, c).value, secret);
  }

  // ----- one context with a client of its own -----

  /** The command leaves `key` to `owner`, `owner` uses no other key, and what `owner` is granted
      reaches the store. */
  predicate Exclusive(w: World, c: Command, valid: string -> bool, owner: string, key: Key) {
    (c.Login? || c.Refresh?) && Target(w, c.inv, valid).Some? ==>
      var site := Target(w, c.inv, valid).value;
      && (site.context == owner <==> At(site, c.discover) == key)
      && (site.context == owner ==> c.exchange == NoGrant || c.exchange == Completes)
  }

  ghost predicate ExclusiveRun(w: World, run: seq<Command>, valid: string -> bool, owner: string, key: Key)
    decreases |run|
  {
    run == [] || (Exclusive(w, run[0], valid, owner, key) && ExclusiveRun(Step(w, run[0], valid), run[1..], valid, owner, key))
  }

  predicate KeepsItsGrant(w: World, owner: string, key: Key) {
    TokenOf(w.entries, owner).Some? ==> HoldsGrant(w, owner, key)
  }

  lemma SettleKeepsGrant(w: World, site: Site, at: Key, secret: string, stored: bool, s: Parties, owner: string, key: Key)
    requires KeepsItsGrant(w, owner, key)
    requires (site.context == owner <==> at == key) && (at == key ==> stored)
    requires s.entries == if stored then w.entries[site.context := Encode(TokenBundle(Some(secret), at.issuer))] else w.entries
    ensures KeepsItsGrant(Settle(w, site, at, secret, stored, s), owner, key)
  {
    TokenLaws(w.entries, site.context, secret, at.issuer, owner);
  }

  lemma LoginKeepsGrant(w: World, site: Site, at: Key, code: string, secret: string, exchange: Exchange, owner: string, key: Key)
    requires KeepsItsGrant(w, owner, key) && (site.context == owner <==> at == key)
    requires at == key ==> exchange == NoGrant || exchange == Completes
    ensures KeepsItsGrant(StepLogin(w, site, at, code, secret, exchange), owner, key)
  {
    var s := Parties(w.entries, ProviderAt(w, at.issuer));
    LoginGrants(s, site.context, at, code, secret, exchange);
    if exchange != NoGrant {
      SettleKeepsGrant(w, site, at, secret, exchange == Completes,
                       LoggedIn(s, site.context, at, code, secret, exchange), owner, key);
    }
  }

  lemma RefreshKeepsGrant(w: World, site: Site, token: string, at: Key, secret: string, exchange: Exchange, owner: string, key: Key)
    requires KeepsItsGrant(w, owner, key) && (site.context == owner <==> at == key)
    requires at == key ==> exchange == NoGrant || exchange == Completes
    ensures KeepsItsGrant(StepRefresh(w, site, token, at, secret, exchange), owner, key)
  {
    var s := Parties(w.entries, ProviderAt(w, at.issuer));
    RefreshGrants(s, site.context, token, at, secret, exchange);
    if exchange != NoGrant && IsCurrent(w, at, token) {
      SettleKeepsGrant(w, site, at, secret, exchange == Completes,
                       Session.Refreshed(s, site.context, token, at, secret, exchange), owner, key);
    }
  }

  lemma StepKeepsGrant(w: World, c: Command, valid: string -> bool, owner: string, key: Key)
    requires KeepsItsGrant(w, owner, key) && Exclusive(w, c, valid, owner, key)
    ensures KeepsItsGrant(Step(w, c, valid), owner, key)
  {
    match c
    case SetContext(name, _, _, _) => TokenLaws(w.entries, name, "", "", owner);
    case UseContext(_) =>
    case Login(inv, discover, code, secret, exchange) =>
      if Target(w, inv, valid).Some? {
        var site := Target(w, inv, valid).value;
        LoginKeepsGrant(w, site, At(site, discover), code, secret, exchange, owner, key);
      }
    case Refresh(inv, discover, secret, exchange) =>
      if Target(w, inv, valid).Some? {
        var site := Target(w, inv, valid).value;
        if TokenOf(w.entries, site.context).Some? {
          RefreshKeepsGrant(w, site, TokenOf(w.entries, site.context).value, At(site, discover), secret, exchange, owner, key);
        }
      }
    case Logout(inv, _) =>
      if Target(w, inv, valid).Some? {
        TokenLaws(w.entries, Target(w, inv, valid).value.context, "", "", owner);
      }
  }

  lemma {:induction false} RunKeepsGrant(w: World, run: seq<Command>, valid: string -> bool, owner: string, key: Key)
    requires KeepsItsGrant(w, owner, key) && ExclusiveRun(w, run, valid, owner, key)
    ensures KeepsItsGrant(After(w, run, valid), owner, key)
    decreases |run|
  {
    if run != [] {
      StepKeepsGrant(w, run[0], valid, owner, key);
      RunKeepsGrant(Step(w, run[0], valid), run[1..], valid, owner, key);
    }
  }

  /** A context with a client of its own whose grants all reach the store always stores the
      provider's current token, so no refresh of it is answered `invalid_grant`. */
  lemma StoredTokenIsCurrent(w: World, run: seq<Command>, valid: string -> bool, owner: string, key: Key, secret: string)
    requires Initial(w) && IsRun(w, run, valid) && ExclusiveRun(w, run, valid, owner, key)
    ensures var v := After(w, run, valid);
      TokenOf(v.entries, owner).Some? ==>
        && IsCurrent(v, key, TokenOf(v.entries, owner).value)
        && TokenRequest(ProviderAt(v, key.issuer), RefreshForm(key.client, TokenOf(v.entries, owner).value), secret).1
             == Tokens("test-subject", secret, EXPIRES_IN)
  {
    assert TokenOf(w.entries, owner) == None;
    RunKeepsGrant(w, run, valid, owner, key);
    var v := After(w, run, valid);
    if TokenOf(v.entries, owner).Some? {
      RefreshAcceptedExactly(w, run, valid, owner, key, secret);
      OnlyCurrentTokenRefreshes(ProviderAt(v, key.issuer), key.client, TokenOf(v.entries, owner).value, secret);
    }
  }

  // ----- credentials follow the URL -----

  predicate IsStored(entries: Entries, c: string) { Content(entries, c).Stored? }

  predicate Matches(w: World, c: string) {
    c in Contexts(w.file) && IsStored(w.entries, c) ==> c in w.mintedFor && w.mintedFor[c] == Contexts(w.file)[c]
  }

  /** Every bundle stored for a context in the file was obtained with the URL and the overrides that
      are recorded for it now. */
  ghost predicate AllMatch(w: World) {
    forall c :: Matches(w, c)
  }

  /** The branch in which `set-context` leaves a foreign bundle behind is not taken. */
  predicate LeavesNoForeignBundle(w: World, c: Command) {
    c.SetContext? && !w.file.Unreadable? && !c.deleteWorks && IsStored(w.entries, c.name) ==>
      c.name in w.mintedFor && w.mintedFor[c.name] == EntryToWrite(w.file, c.name, c.url, c.flags)
  }

  lemma StoredLaws(entries: Entries, context: string, token: string, issuer: string, other: string)
    ensures !IsStored(entries[context := ""], context)
    ensures other != context ==>
      && IsStored(entries[context := Encode(TokenBundle(Some(token), issuer))], other) == IsStored(entries, other)
      && IsStored(entries[context := ""], other) == IsStored(entries, other)
  {
    StoreLaws(entries, context, TokenBundle(Some(token), issuer), other);
  }

  lemma SetContextMatches(w: World, c: Command, valid: string -> bool, other: string)
    requires c.SetContext? && IsBare(c.name) && NamesBare(w.file) && AllMatch(w)
    ensures other != c.name ==> Matches(Step(w, c, valid), other)
    ensures Matches(Step(w, c, valid), c.name) <==> LeavesNoForeignBundle(w, c)
  {
    assert Matches(w, other) && Matches(w, c.name);
    BareFileIsKept(w.file, c.name, c.url, c.flags);
    StoredLaws(w.entries, c.name, "", "", other);
  }

  /** On a file of bare names, `set-context` keeps the match exactly when it deletes the old bundle,
      or there is none, or it was obtained with the very entry now written. */
  lemma SetContextKeepsMatchExactly(w: World, c: Command, valid: string -> bool)
    requires c.SetContext? && Enabled(w, c) && NamesBare(w.file) && AllMatch(w)
    ensures AllMatch(Step(w, c, valid)) <==> LeavesNoForeignBundle(w, c)
  {
    SetContextMatches(w, c, valid, c.name);
    forall other
      ensures other != c.name ==> Matches(Step(w, c, valid), other)
    {
      SetContextMatches(w, c, valid, other);
    }
  }

  /** What a command with a context contacts is what the file records for it. */
  lemma SiteIsRecorded(w: World, inv: Invocation, valid: string -> bool)
    ensures Target(w, inv, valid).Some? ==>
      var site := Target(w, inv, valid).value;
      site.context in Contexts(w.file) && site.against == Contexts(w.file)[site.context]
  {
    ContextComesWithItsUrl(w.file, inv, valid);
  }

  lemma SettleMatches(w: World, site: Site, at: Key, secret: string, stored: bool, s: Parties)
    requires AllMatch(w) && site.context in Contexts(w.file) && site.against == Contexts(w.file)[site.context]
    requires s.entries == if stored then w.entries[site.context := Encode(TokenBundle(Some(secret), at.issuer))] else w.entries
    ensures AllMatch(Settle(w, site, at, secret, stored, s))
  {
    var v := Settle(w, site, at, secret, stored, s);
    forall c
      ensures Matches(v, c)
    {
      assert Matches(w, c);
      StoredLaws(w.entries, site.context, secret, at.issuer, c);
    }
  }

  lemma DeletionMatches(w: World, context: string)
    requires AllMatch(w)
    ensures AllMatch(w.(entries := w.entries[context := ""]))
  {
    var v := w.(entries := w.entries[context := ""]);
    forall c
      ensures Matches(v, c)
    {
      assert Matches(w, c);
      StoredLaws(w.entries, context, "", "", c);
    }
  }

  lemma SameStoreMatches(w: World, v: World)
    requires AllMatch(w)
    requires Contexts(v.file) == Contexts(w.file) && v.entries == w.entries && v.mintedFor == w.mintedFor
    ensures AllMatch(v)
  {
    forall c
      ensures Matches(v, c)
    {
      assert Matches(w, c);
    }
  }

  lemma LoginMatches(w: World, site: Site, at: Key, code: string, secret: string, exchange: Exchange)
    requires AllMatch(w) && site.context in Contexts(w.file) && site.against == Contexts(w.file)[site.context]
    ensures AllMatch(StepLogin(w, site, at, code, secret, exchange))
  {
    var s := Parties(w.entries, ProviderAt(w, at.issuer));
    LoginGrants(s, site.context, at, code, secret, exchange);
    if exchange == NoGrant {
      SameStoreMatches(w, StepLogin(w, site, at, code, secret, exchange));
    } else {
      SettleMatches(w, site, at, secret, exchange == Completes, LoggedIn(s, site.context, at, code, secret, exchange));
    }
  }

  lemma RefreshMatches(w: World, site: Site, token: string, at: Key, secret: string, exchange: Exchange)
    requires AllMatch(w) && site.context in Contexts(w.file) && site.against == Contexts(w.file)[site.context]
    ensures AllMatch(StepRefresh(w, site, token, at, secret, exchange))
  {
    var s := Parties(w.entries, ProviderAt(w, at.issuer));
    RefreshGrants(s, site.context, token, at, secret, exchange);
    if exchange != NoGrant && IsCurrent(w, at, token) {
      SettleMatches(w, site, at, secret, exchange == Completes,
                    Session.Refreshed(s, site.context, token, at, secret, exchange));
    }
  }

  lemma AuthStepMatches(w: World, c: Command, valid: string -> bool)
    requires AllMatch(w) && (c.Login? || c.Refresh? || c.Logout?)
    ensures AllMatch(Step(w, c, valid))
  {
    SiteIsRecorded(w, c.inv, valid);
    if Target(w, c.inv, valid).Some? {
      var site := Target(w, c.inv, valid).value;
      match c
      case Login(_, discover, code, secret, exchange) =>
        LoginMatches(w, site, At(site, discover), code, secret, exchange);
      case Refresh(_, discover, secret, exchange) =>
        if TokenOf(w.entries, site.context).Some? {
          RefreshMatches(w, site, TokenOf(w.entries, site.context).value, At(site, discover), secret, exchange);
        }
      case Logout(_, deleteWorks) =>
        if deleteWorks { DeletionMatches(w, site.context); }
    }
  }

  lemma StepMatches(w: World, c: Command, valid: string -> bool)
    requires AllMatch(w) && NamesBare(w.file) && Enabled(w, c) && LeavesNoForeignBundle(w, c)
    ensures AllMatch(Step(w, c, valid)) && NamesBare(Step(w, c, valid).file)
  {
    if c.SetContext? {
      SetContextKeepsMatchExactly(w, c, valid);
      BareFileIsKept(w.file, c.name, c.url, c.flags);
    } else if c.UseContext? {
      UseContextIsKept(w.file, c.name);
      SameStoreMatches(w, Step(w, c, valid));
    } else {
      AuthStepMatches(w, c, valid);
    }
  }

  lemma UseContextIsKept(f: File, name: string)
    requires NamesBare(f)
    ensures Contexts(AfterUseContext(f, name)) == Contexts(f)
  {
    if Selects(f, name) { BareFileIsKept(f, name, "", NO_OVERRIDES); }
  }

  lemma SelectionIsTarget(w: World, t: TargetsFile, c: string, merged: Option<string>, valid: string -> bool)
    requires w.file == Readable(t, false) && t.currentContext == Some(c) && c in t.contexts && valid(t.contexts[c].url)
    ensures Target(w, Invocation(None, None, merged), valid) == Some(Site(c, t.contexts[c]))
  {
  }

  lemma UseContextWrites(w: World, name: string, valid: string -> bool)
    requires NamesBare(w.file) && Selects(w.file, name)
    ensures Step(w, UseContext(name), valid).file == Readable(TargetsFile(Some(name), Contexts(w.file)), false)
  {
    BareFileIsKept(w.file, name, "", NO_OVERRIDES);
  }

  lemma SetContextWrites(w: World, name: string, url: string, flags: AuthOverrides, deleteWorks: bool, valid: string -> bool)
    requires NamesBare(w.file) && IsBare(name) && !w.file.Unreadable?
    ensures Step(w, SetContext(name, url, flags, deleteWorks), valid).file ==
      Readable(WithContext(w.file, name, url, flags), false)
  {
    BareFileIsKept(w.file, name, url, flags);
  }

  /** What `use-context` selects is what a command runs with that names nothing itself. */
  lemma SelectedIsTarget(w: World, name: string, merged: Option<string>, valid: string -> bool)
    requires NamesBare(w.file) && Selects(w.file, name) && valid(Contexts(w.file)[name].url)
    ensures Target(Step(w, UseContext(name), valid), Invocation(None, None, merged), valid)
      == Some(Site(name, Contexts(w.file)[name]))
  {
    UseContextWrites(w, name, valid);
    SelectionIsTarget(Step(w, UseContext(name), valid), TargetsFile(Some(name), Contexts(w.file)), name, merged, valid);
  }

  /** It stays selected through `set-context`, whichever context that sets. */
  lemma SelectionStays(w: World, t: TargetsFile, c: string, name: string, url: string, flags: AuthOverrides,
                       deleteWorks: bool, merged: Option<string>, valid: string -> bool)
    requires w.file == Readable(t, false) && t.currentContext == Some(c) && c in t.contexts
    requires NamesBare(w.file) && IsBare(name) && valid(url) && valid(t.contexts[c].url)
    ensures var site := Target(Step(w, SetContext(name, url, flags, deleteWorks), valid), Invocation(None, None, merged), valid);
      && site.Some? && site.value.context == c
      && (if name != c then site.value.against == t.contexts[c] else site.value.against.url == url)
  {
    SetContextWrites(w, name, url, flags, deleteWorks, valid);
    SelectionIsTarget(Step(w, SetContext(name, url, flags, deleteWorks), valid), WithContext(w.file, name, url, flags), c,
                      merged, valid);
  }

  ghost predicate NeverLeavesForeignBundle(w: World, run: seq<Command>, valid: string -> bool)
    decreases |run|
  {
    run == [] || (LeavesNoForeignBundle(w, run[0]) && NeverLeavesForeignBundle(Step(w, run[0], valid), run[1..], valid))
  }

  lemma {:induction false} RunMatches(w: World, run: seq<Command>, valid: string -> bool)
    requires AllMatch(w) && NamesBare(w.file) && IsRun(w, run, valid) && NeverLeavesForeignBundle(w, run, valid)
    ensures AllMatch(After(w, run, valid))
    decreases |run|
  {
    if run != [] {
      StepMatches(w, run[0], valid);
      RunMatches(Step(w, run[0], valid), run[1..], valid);
    }
  }

  lemma {:induction false} DeletingRunsLeaveNothing(w: World, run: seq<Command>, valid: string -> bool)
    requires forall c :: c in run && c.SetContext? ==> c.deleteWorks
    ensures NeverLeavesForeignBundle(w, run, valid)
    decreases |run|
  {
    if run != [] {
      assert run[0] in run;
      DeletingRunsLeaveNothing(Step(w, run[0], valid), run[1..], valid);
    }
  }

  /** Over every run in which `set-context` gets to delete, with every other failure allowed, each
      bundle stored for a context in the file was obtained with the URL and the overrides recorded
      for it. */
  lemma CredentialsFollowTheUrl(w: World, run: seq<Command>, valid: string -> bool, c: string)
    requires Initial(w) && NamesBare(w.file) && IsRun(w, run, valid)
    requires forall x :: x in run && x.SetContext? ==> x.deleteWorks
    ensures var v := After(w, run, valid);
      c in Contexts(v.file) && Content(v.entries, c).Stored? ==>
        c in v.mintedFor && v.mintedFor[c] == Contexts(v.file)[c]
  {
    assert AllMatch(w) by {
      forall x
        ensures Matches(w, x)
      {
        assert !IsStored(w.entries, x);
      }
    }
    DeletingRunsLeaveNothing(w, run, valid);
    RunMatches(w, run, valid);
    assert Matches(After(w, run, valid), c);
  }

  lemma FirstContext(w: World, valid: string -> bool, name: string, url: string)
    requires w.file.Missing? && IsBare(name) && valid(url)
    ensures var v := Step(w, SetContext(name, url, NO_OVERRIDES, true), valid);
      && v.file == Readable(TargetsFile(None, map[name := ContextEntry(url, None)]), false)
      && Target(v, Invocation(Some(name), None, None), valid) == Some(Site(name, ContextEntry(url, None)))
  {
    BareFileIsKept(w.file, name, url, NO_OVERRIDES);
    assert WithContext(w.file, name, url, NO_OVERRIDES) == TargetsFile(None, map[name := ContextEntry(url, None)]);
  }

  lemma LoginStores(w: World, site: Site, at: Key, code: string, secret: string)
    ensures var v := StepLogin(w, site, at, code, secret, Completes);
      && v.file == w.file && v.mintedFor == w.mintedFor[site.context := site.against]
      && Content(v.entries, site.context) == Stored(TokenBundle(Some(secret), at.issuer))
  {
    LoginGrants(Parties(w.entries, ProviderAt(w, at.issuer)), site.context, at, code, secret, Completes);
    StoreLaws(w.entries, site.context, TokenBundle(Some(secret), at.issuer), site.context);
  }

  lemma LoginStepStores(w: World, c: Command, valid: string -> bool, site: Site)
    requires c.Login? && c.exchange == Completes && Target(w, c.inv, valid) == Some(site)
    ensures var v := Step(w, c, valid);
      && v.file == w.file && v.mintedFor == w.mintedFor[site.context := site.against]
      && Content(v.entries, site.context) == Stored(TokenBundle(Some(c.secret), At(site, c.discover).issuer))
  {
    LoginGoesTo(w, c.inv, c.discover, c.code, c.secret, Completes, valid, site);
    LoginStores(w, site, At(site, c.discover), c.code, c.secret);
  }

  lemma SecondContext(w: World, valid: string -> bool, name: string, url: string)
    requires w.file.Readable? && NamesBare(w.file) && IsBare(name)
    ensures var v := Step(w, SetContext(name, url, NO_OVERRIDES, false), valid);
      && name in Contexts(v.file) && Contexts(v.file)[name].url == url
      && v.entries == w.entries && v.mintedFor == w.mintedFor
  {
    BareFileIsKept(w.file, name, url, NO_OVERRIDES);
  }

  /** Without the deletion it fails: the bundle of the first URL stays under a name that now means
      the second. */
  lemma FailedDeletionLeavesForeignBundle(w: World, valid: string -> bool, name: string, first: string, second: string,
                                          discover: Discovery, code: string, secret: string)
    requires w.file.Missing? && IsBare(name) && first != second && valid(first)
    ensures var run := [SetContext(name, first, NO_OVERRIDES, true),
                        Login(Invocation(Some(name), None, None), discover, code, secret, Completes),
                        SetContext(name, second, NO_OVERRIDES, false)];
      var v := After(w, run, valid);
      && name in Contexts(v.file) && Contexts(v.file)[name].url == second
      && Content(v.entries, name) == Stored(TokenBundle(Some(secret), discover(first, None).issuer))
      && name in v.mintedFor && v.mintedFor[name].url == first
  {
    var a := SetContext(name, first, NO_OVERRIDES, true);
    var b := Login(Invocation(Some(name), None, None), discover, code, secret, Completes);
    var c := SetContext(name, second, NO_OVERRIDES, false);
    ThreeSteps(w, a, b, c, valid);
    FirstContext(w, valid, name, first);
    LoginStepStores(Step(w, a, valid), b, valid, Site(name, ContextEntry(first, None)));
    SecondContext(Step(Step(w, a, valid), b, valid), valid, name, second);
  }

  lemma SelectingBesideDotted(f: File, current: Option<string>, a: string, u: string, v: string)
    requires IsBare(a)
    requires f == Readable(TargetsFile(current, map[a := ContextEntry(u, None), a + ".auth" := ContextEntry(v, None)]), false)
    ensures Contexts(f)[a] == ContextEntry(u, None)
    ensures AfterUseContext(f, a) == Readable(TargetsFile(Some(a), map[a := ContextEntry(u, Some(NO_OVERRIDES))]), false)
  {
    assert a != a + ".auth";
    DottedNameBecomesOverrides(Some(a), a, u, v);
  }

  lemma SelectingLosesMatch(w: World, valid: string -> bool, current: Option<string>, a: string, u: string, v: string)
    requires IsBare(a)
    requires w.file ==
      Readable(TargetsFile(current, map[a := ContextEntry(u, None), a + ".auth" := ContextEntry(v, None)]), false)
    requires IsStored(w.entries, a) && a in w.mintedFor && w.mintedFor[a] == ContextEntry(u, None)
    ensures Matches(w, a) && !Matches(Step(w, UseContext(a), valid), a)
  {
    SelectingBesideDotted(w.file, current, a, u, v);
  }

  lemma ContextIsTarget(w: World, valid: string -> bool, a: string)
    requires Loads(w.file) && a in Contexts(w.file) && valid(Contexts(w.file)[a].url)
    ensures Target(w, Invocation(Some(a), None, None), valid) == Some(Site(a, Contexts(w.file)[a]))
  {
  }

  /** Nor does it hold on a file with other names. Log in to `a` beside a context called `a.auth`, and
      all is well; select `a`, and it gets overrides that its bundle was not obtained with. */
  lemma RewritingOtherNamesBreaksTheMatch(w: World, valid: string -> bool, current: Option<string>, a: string, u: string, v: string,
                                          discover: Discovery, code: string, secret: string)
    requires Initial(w) && IsBare(a) && valid(u) && secret !in w.issued
    requires w.file ==
      Readable(TargetsFile(current, map[a := ContextEntry(u, None), a + ".auth" := ContextEntry(v, None)]), false)
    ensures var run := [Login(Invocation(Some(a), None, None), discover, code, secret, Completes), UseContext(a)];
      && IsRun(w, run, valid)
      && Matches(After(w, run[..1], valid), a) && !Matches(After(w, run, valid), a)
  {
    var login := Login(Invocation(Some(a), None, None), discover, code, secret, Completes);
    assert a != a + ".auth";
    ContextIsTarget(w, valid, a);
    LoginStepStores(w, login, valid, Site(a, ContextEntry(u, None)));
    SelectingLosesMatch(Step(w, login, valid), valid, current, a, u, v);
    TwoSteps(w, login, UseContext(a), valid);
  }

  lemma TwoSteps(w: World, a: Command, b: Command, valid: string -> bool)
    ensures After(w, [a, b][..1], valid) == Step(w, a, valid)
    ensures After(w, [a, b], valid) == Step(Step(w, a, valid), b, valid)
    ensures Enabled(w, a) && Enabled(Step(w, a, valid), b) ==> IsRun(w, [a, b], valid)
  {
    var w1 := Step(w, a, valid);
    assert [a, b][..1] == [a] && [a][1..] == [] && [a, b][1..] == [b] && [b][1..] == [];
    assert After(w1, [], valid) == w1 && IsRun(Step(w1, b, valid), [], valid);
    assert After(w1, [b], valid) == After(Step(w1, b, valid), [], valid);
    assert Enabled(w1, b) ==> IsRun(w1, [b], valid);
  }

  lemma ThreeSteps(w: World, a: Command, b: Command, c: Command, valid: string -> bool)
    ensures After(w, [a, b, c], valid) == Step(Step(Step(w, a, valid), b, valid), c, valid)
  {
    var w1 := Step(w, a, valid);
    var w2 := Step(w1, b, valid);
    assert [a, b, c][1..] == [b, c] && [b, c][1..] == [c] && [c][1..] == [];
    assert After(w2, [c], valid) == After(Step(w2, c, valid), [], valid);
    assert After(w1, [b, c], valid) == After(w2, [c], valid);
  }
}
