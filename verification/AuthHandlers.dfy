/** `auth_handlers.py` and the dispatch of all five commands: what they do to the directory, the store
    and the provider is a step of the command machine. */
module AuthHandlers {
  import opened Optional
  import opened Targets
  import opened ConfigDir
  import opened ConfigHandlers
  import opened CredentialStore
  import opened OidcProvider
  import opened Session
  import DeviceFlow

  /** The objects hold what the machine's state says, for the provider at `issuer`. */
  ghost predicate Represents(w: World, dir: Directory, store: Store, provider: MockOidcProvider, issuer: string)
    reads dir, store, provider
  {
    && w.file == FileOf(dir.targetsToml)
    && w.entries == store.entries
    && ProviderAt(w, issuer) == provider.View()
  }

  datatype AuthOutcome =
    | LoggedIn | NoContext | NotGranted | NotLoggedIn | NotUsable | CannotVerify | StoreUnavailable | CorruptEntry | LoggedOut

  /** `handle_auth_login`, up to the user approving and the poll that then succeeds. The provider is
      the one that discovery names at the service URL of `config`. */
  method HandleAuthLogin(contextName: Option<string>, config: Config, auth: Option<AuthOverrides>, discover: Discovery,
                         store: Store, provider: MockOidcProvider, code: string, secret: string, exchange: Exchange)
      returns (r: AuthOutcome)
    requires store as object != provider
    modifies store, provider
    ensures r.NoContext? <==> contextName == None
    ensures contextName.Some? ==>
      match exchange
      case NoGrant => r == NotGranted
      case AnswerLost => r == NotGranted
      case WriteFails => r == StoreUnavailable
      case Completes => r == LoggedIn
    ensures Parties(store.entries, provider.View()) ==
      if contextName.Some?
      then Session.LoggedIn(old(Parties(store.entries, provider.View())), contextName.value,
                            discover(config.serviceUrl, auth), code, secret, exchange)
      else old(Parties(store.entries, provider.View()))
  {
    if contextName == None { return NoContext; }
    var at := discover(config.serviceUrl, auth);
    ghost var before := Parties(store.entries, provider.View());
    LoginGrants(before, contextName.value, at, code, secret, exchange);
    provider.HandleDeviceAuthorizationRequest(AuthorizeForm(at.client), code);
    if exchange == NoGrant { return NotGranted; }
    provider.SetStatus(code, Status.Approved, "test-subject");
    assert provider.View() == AfterApproval(before.provider, at.client, code);
    assert Field(PollForm(at.client, code), "device_code") == code;
    var reply := provider.HandleTokenRequest(PollForm(at.client, code), secret);
    if exchange == AnswerLost || reply.Error? { return NotGranted; }
    var response := DeviceFlow.TokenResponse(reply.sub, Some(reply.refreshToken), reply.expiresIn);
    var ok := store.SetTokens(contextName.value, DeviceFlow.BundleFromResponse(response, at.issuer), exchange == Completes);
    r := if ok then LoggedIn else StoreUnavailable;
  }

  /** `handle_auth_logout`. */
  method HandleAuthLogout(contextName: Option<string>, store: Store, deleteWorks: bool) returns (r: AuthOutcome)
    modifies store
    ensures r == if contextName == None then NoContext else if deleteWorks then LoggedOut else StoreUnavailable
    ensures store.entries == if r.LoggedOut? then old(store.entries)[contextName.value := ""] else old(store.entries)
  {
    if contextName == None { return NoContext; }
    var ok := store.DeleteTokens(contextName.value, deleteWorks);
    r := if ok then LoggedOut else StoreUnavailable;
  }

  /** What answers the refresh request of one command. */
  method AskForRefresh(at: Key, token: string, provider: MockOidcProvider, secret: string, exchange: Exchange)
      returns (answer: DeviceFlow.RefreshAnswer)
    modifies provider
    ensures provider.View() == Session.Refreshed(Parties(map[], old(provider.View())), "", token, at, secret, exchange).provider
    ensures answer.Renewed? <==>
      (exchange == WriteFails || exchange == Completes) && Accepts(old(provider.View()), at.client, token)
    ensures answer.Renewed? ==> answer.token.refreshToken == Some(secret)
    ensures answer.Rejected? <==> exchange != NoGrant && !Accepts(old(provider.View()), at.client, token)
    ensures answer.Renewed? || answer.Rejected? || answer.Unreachable?
  {
    OnlyCurrentTokenRefreshes(provider.View(), at.client, token, secret);
    if exchange == NoGrant { return DeviceFlow.Unreachable; }
    var reply := provider.HandleTokenRequest(RefreshForm(at.client, token), secret);
    match reply {
      case Error(_) => answer := DeviceFlow.Rejected;
      case Tokens(sub, refreshToken, expiresIn) =>
        answer := if exchange == AnswerLost then DeviceFlow.Unreachable
                  else DeviceFlow.Renewed(DeviceFlow.TokenResponse(sub, Some(refreshToken), expiresIn));
    }
  }

  /** Faults that keep a read from getting through count as an exchange that is never made. */
  function Effective(first: seq<Option<Fault>>, second: seq<Option<Fault>>, exchange: Exchange): Exchange {
    if None in first && None in second then exchange else NoGrant
  }

  /** `ensure_valid_access_token` of one command whose store entry holds `token`. */
  method ObtainAccess(context: string, token: string, at: Key, store: Store, provider: MockOidcProvider,
                      second: seq<Option<Fault>>, now: int, later: int, secret: string, exchange: Exchange)
      returns (r: AuthOutcome)
    requires store as object != provider && |second| == READ_ATTEMPTS
    requires TokenOf(store.entries, context) == Some(token)
    requires exchange != NoGrant ==> None in second
    modifies store, provider
    ensures r.LoggedIn? <==> exchange == Completes && Accepts(old(provider.View()), at.client, token)
    ensures Parties(store.entries, provider.View()) ==
      Session.Refreshed(old(Parties(store.entries, provider.View())), context, token, at, secret, exchange)
    ensures None !in second ==> r == if second[READ_ATTEMPTS - 1] == Some(BackendError) then StoreUnavailable else NotUsable
    ensures None in second ==>
      if exchange != NoGrant && !Accepts(old(provider.View()), at.client, token) then r == NotUsable
      else match exchange
        case NoGrant => r == CannotVerify
        case AnswerLost => r == CannotVerify
        case WriteFails => r == StoreUnavailable
        case Completes => r == LoggedIn
  {
    RefreshGrants(Parties(store.entries, provider.View()), context, token, at, secret, exchange);
    RefreshGrants(Parties(map[], provider.View()), "", token, at, secret, exchange);
    var answer := AskForRefresh(at, token, provider, secret, exchange);
    var cache := new DeviceFlow.AccessTokenCache();
    var outcome := DeviceFlow.EnsureValidAccessToken(context, store, cache,
      DeviceFlow.Surroundings(now, second, Some(at.issuer), true, answer, exchange == Completes, later));
    r := match outcome
      case Access(_) => LoggedIn
      case NoCredentials => NotUsable
      case RefreshFailed => NotUsable
      case CannotVerify => CannotVerify
      case StoreFailed => StoreUnavailable
      case Unreadable => CorruptEntry;
  }

  /** `handle_auth_status`: the entry is read, and then read again by the refresh. */
  method HandleAuthStatus(contextName: Option<string>, config: Config, auth: Option<AuthOverrides>, discover: Discovery,
                          store: Store, provider: MockOidcProvider, first: seq<Option<Fault>>,
                          second: seq<Option<Fault>>, now: int, later: int, secret: string, exchange: Exchange)
      returns (r: AuthOutcome)
    requires store as object != provider && |first| == |second| == READ_ATTEMPTS
    modifies store, provider
    ensures r.NoContext? <==> contextName == None
    ensures r.LoggedIn? <==>
      && contextName.Some? && Effective(first, second, exchange) == Completes
      && TokenOf(old(store.entries), contextName.value).Some?
      && Accepts(old(provider.View()), discover(config.serviceUrl, auth).client, TokenOf(old(store.entries), contextName.value).value)
    ensures Parties(store.entries, provider.View()) ==
      if contextName.Some? && TokenOf(old(store.entries), contextName.value).Some?
      then Session.Refreshed(old(Parties(store.entries, provider.View())), contextName.value,
                             TokenOf(old(store.entries), contextName.value).value, discover(config.serviceUrl, auth),
                             secret, Effective(first, second, exchange))
      else old(Parties(store.entries, provider.View()))
    ensures contextName.Some? ==>
      match ReadOf(old(store.entries), contextName.value, first)
      case Nothing => r == NotLoggedIn
      case StoreError => r == StoreUnavailable
      case BadEntry => r == CorruptEntry
      case Stored(bundle) =>
        && (bundle.refreshToken == None ==> r == NotUsable)
        && (bundle.refreshToken.Some? && None in second ==>
              if exchange != NoGrant && !Accepts(old(provider.View()), discover(config.serviceUrl, auth).client, bundle.refreshToken.value)
              then r == NotUsable
              else match exchange
                case NoGrant => r == CannotVerify
                case AnswerLost => r == CannotVerify
                case WriteFails => r == StoreUnavailable
                case Completes => r == LoggedIn)
  {
    if contextName == None { return NoContext; }
    var read := store.GetTokens(contextName.value, first);
    match read {
      case Nothing => return NotLoggedIn;
      case StoreError => return StoreUnavailable;
      case BadEntry => return CorruptEntry;
      case Stored(bundle) =>
        if bundle.refreshToken == None { return NotUsable; }
        r := ObtainAccess(contextName.value, bundle.refreshToken.value, discover(config.serviceUrl, auth), store,
                          provider, second, now, later, secret,
                          Effective(first, second, exchange));
    }
  }

  // ----- dispatch -----

  method DispatchSetContext(ghost w: World, dir: Directory, store: Store, ghost provider: MockOidcProvider,
                            name: string, url: string, flags: AuthOverrides, deleteWorks: bool,
                            ghost issuer: string, ghost valid: string -> bool)
    requires IsBare(name) && dir as object != store && dir as object != provider && store as object != provider
    requires Represents(w, dir, store, provider, issuer)
    modifies dir, store
    ensures Represents(Step(w, SetContext(name, url, flags, deleteWorks), valid), dir, store, provider, issuer)
  {
    var _ := HandleConfigSetContext(dir, store, name, url, flags, deleteWorks);
  }

  method DispatchUseContext(ghost w: World, dir: Directory, ghost store: Store, ghost provider: MockOidcProvider,
                            name: string, ghost issuer: string, ghost valid: string -> bool)
    requires dir as object != store && dir as object != provider
    requires Represents(w, dir, store, provider, issuer)
    modifies dir
    ensures Represents(Step(w, UseContext(name), valid), dir, store, provider, issuer)
  {
    var _ := HandleConfigUseContext(dir, name);
  }

  /** The provider at `issuer` is the one that discovery names for whatever the command contacts. */
  ghost predicate Reaches(dir: Directory, inv: Invocation, valid: string -> bool, discover: Discovery, issuer: string)
    reads dir
  {
    var config := Resolve(FileOf(dir.targetsToml), inv, valid);
    config.Some? ==>
      discover(config.value.serviceUrl, AuthOverride(FileOf(dir.targetsToml), config.value)).issuer == issuer
  }

  method DispatchAuthLogin(ghost w: World, dir: Directory, store: Store, provider: MockOidcProvider, inv: Invocation,
                           valid: string -> bool, discover: Discovery, ghost issuer: string,
                           code: string, secret: string, exchange: Exchange)
    requires dir as object != store && dir as object != provider && store as object != provider
    requires Reaches(dir, inv, valid, discover, issuer) && Represents(w, dir, store, provider, issuer)
    modifies store, provider
    ensures Represents(Step(w, Login(inv, discover, code, secret, exchange), valid), dir, store, provider, issuer)
  {
    var config := LoadConfig(dir, inv, valid);
    if config.Some? {
      ContextComesWithItsUrl(FileOf(dir.targetsToml), inv, valid);
      var _, auth := ResolveAuthOverride(dir, config.value);
      var _ := HandleAuthLogin(config.value.contextName, config.value, auth, discover, store, provider, code, secret, exchange);
    }
  }

  lemma StepRefreshEffect(w: World, site: Site, token: string, at: Key, secret: string, exchange: Exchange)
    ensures var v := StepRefresh(w, site, token, at, secret, exchange);
      var s := Parties(w.entries, ProviderAt(w, at.issuer));
      && v.file == w.file
      && Parties(v.entries, ProviderAt(v, at.issuer)) == Session.Refreshed(s, site.context, token, at, secret, exchange)
  {
    RefreshGrants(Parties(w.entries, ProviderAt(w, at.issuer)), site.context, token, at, secret, exchange);
  }

  lemma RefreshStepEffect(w: World, inv: Invocation, valid: string -> bool, site: Site, discover: Discovery,
                          secret: string, exchange: Exchange)
    requires Target(w, inv, valid) == Some(site)
    ensures var v := Step(w, Refresh(inv, discover, secret, exchange), valid);
      var at := At(site, discover);
      && v.file == w.file
      && Parties(v.entries, ProviderAt(v, at.issuer)) ==
           if TokenOf(w.entries, site.context).Some?
           then Session.Refreshed(Parties(w.entries, ProviderAt(w, at.issuer)), site.context,
                                  TokenOf(w.entries, site.context).value, at, secret, exchange)
           else Parties(w.entries, ProviderAt(w, at.issuer))
  {
    RefreshGoesTo(w, inv, valid, site, discover, secret, exchange);
    if TokenOf(w.entries, site.context).Some? {
      StepRefreshEffect(w, site, TokenOf(w.entries, site.context).value, At(site, discover), secret, exchange);
    }
  }

  method DispatchAuthStatus(ghost w: World, dir: Directory, store: Store, provider: MockOidcProvider, inv: Invocation,
                            valid: string -> bool, discover: Discovery, ghost issuer: string,
                            first: seq<Option<Fault>>, second: seq<Option<Fault>>,
                            now: int, later: int, secret: string, exchange: Exchange)
    requires dir as object != store && dir as object != provider && store as object != provider
    requires |first| == |second| == READ_ATTEMPTS
    requires Reaches(dir, inv, valid, discover, issuer) && Represents(w, dir, store, provider, issuer)
    modifies store, provider
    ensures Represents(Step(w, Refresh(inv, discover, secret, Effective(first, second, exchange)), valid),
                       dir, store, provider, issuer)
  {
    var config := LoadConfig(dir, inv, valid);
    if config.Some? {
      ContextComesWithItsUrl(FileOf(dir.targetsToml), inv, valid);
      var _, auth := ResolveAuthOverride(dir, config.value);
      if config.value.contextName.Some? {
        RefreshStepEffect(w, inv, valid, Site(config.value.contextName.value, ContextEntry(config.value.serviceUrl, auth)),
                          discover, secret, Effective(first, second, exchange));
      } else {
        WithoutTargetStays(w, Refresh(inv, discover, secret, Effective(first, second, exchange)), valid);
      }
      var _ := HandleAuthStatus(config.value.contextName, config.value, auth, discover, store, provider, first, second,
                                now, later, secret, exchange);
    }
  }

  method DispatchAuthLogout(ghost w: World, dir: Directory, store: Store, ghost provider: MockOidcProvider, inv: Invocation,
                            valid: string -> bool, deleteWorks: bool, ghost issuer: string)
    requires dir as object != store && store as object != provider
    requires Represents(w, dir, store, provider, issuer)
    modifies store
    ensures Represents(Step(w, Logout(inv, deleteWorks), valid), dir, store, provider, issuer)
  {
    var config := LoadConfig(dir, inv, valid);
    LogoutGoesTo(w, inv, deleteWorks, valid, if config.Some? then config.value.contextName else None);
    if config.Some? {
      var _ := HandleAuthLogout(config.value.contextName, store, deleteWorks);
    }
  }
}
