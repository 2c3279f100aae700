/** Runs of CLI commands that do not overlap, against providers with rotating refresh tokens: whose
    token is still good, and which URL a stored token was obtained for. */
module Session {
  import opened Optional
  import opened Targets
  import opened Credentials
  import opened CredentialStore
  import opened ConfigHandlers
  import opened OidcProvider

  // ----- one exchange with a provider -----

  /** A provider holds one refresh token per client. */
  datatype Key = Key(issuer: string, client: string)

  /** How far an exchange gets: no grant is made; the grant is made and its answer lost; the answer
      arrives and the store refuses it; everything goes through. */
  datatype Exchange = NoGrant | AnswerLost | WriteFails | Completes

  function Approve(p: Provider, code: string): Provider
    requires code in p.flows
  {
    p.(flows := p.flows[code := p.flows[code].(status := Status.Approved, sub := "test-subject")])
  }

  function AuthorizeForm(client: string): Form { map["client_id" := client] }

  /** The provider after the user approved a device-flow login and the client fetched its tokens. */
  function AfterApproval(p: Provider, client: string, code: string): Provider {
    Approve(Authorize(p, AuthorizeForm(client), code), code)
  }

  datatype Parties = Parties(entries: Entries, provider: Provider)

  /** `auth login` for a context. */
  function LoggedIn(s: Parties, context: string, at: Key, code: string, secret: string, exchange: Exchange): Parties {
    if exchange == NoGrant then s.(provider := Authorize(s.provider, AuthorizeForm(at.client), code))
    else
      var (q, reply) := TokenRequest(AfterApproval(s.provider, at.client, code), PollForm(at.client, code), secret);
      if exchange == Completes && reply.Tokens?
      then Parties(s.entries[context := Encode(TokenBundle(Some(reply.refreshToken), at.issuer))], q)
      else s.(provider := q)
  }

  /** The refresh token stored for a context. */
  function TokenOf(entries: Entries, context: string): Option<string> {
    match Content(entries, context)
    case Stored(b) => b.refreshToken
    case _ => None
  }

  /** A refresh for a context that presents its stored `token`. */
  function Refreshed(s: Parties, context: string, token: string, at: Key, secret: string, exchange: Exchange): Parties {
    if exchange == NoGrant then s
    else
      var (q, reply) := TokenRequest(s.provider, RefreshForm(at.client, token), secret);
      if exchange == Completes && reply.Tokens?
      then Parties(s.entries[context := Encode(TokenBundle(Some(reply.refreshToken), at.issuer))], q)
      else s.(provider := q)
  }

  predicate Accepts(p: Provider, client: string, token: string) {
    client in p.current && p.current[client] == token
  }

  lemma LoginGrants(s: Parties, context: string, at: Key, code: string, secret: string, exchange: Exchange)
    ensures var r := LoggedIn(s, context, at, code, secret, exchange);
      && r.provider.current == (if exchange == NoGrant then s.provider.current else s.provider.current[at.client := secret])
      && r.entries == (if exchange == Completes
                       then s.entries[context := Encode(TokenBundle(Some(secret), at.issuer))] else s.entries)
  {
    var p := AfterApproval(s.provider, at.client, code);
    assert p.flows[code].status == Status.Approved && p.flows[code].clientId == at.client && !p.flows[code].slowDownOnce;
    assert Field(PollForm(at.client, code), "device_code") == code;
  }

  lemma RefreshGrants(s: Parties, context: string, token: string, at: Key, secret: string, exchange: Exchange)
    ensures var r := Refreshed(s, context, token, at, secret, exchange);
      if exchange != NoGrant && Accepts(s.provider, at.client, token)
      then && r.provider.current == s.provider.current[at.client := secret]
           && r.entries == (if exchange == Completes
                            then s.entries[context := Encode(TokenBundle(Some(secret), at.issuer))] else s.entries)
      else r == s
  {
    OnlyCurrentTokenRefreshes(s.provider, at.client, token, secret);
  }

  // ----- commands -----

  /** What discovery at a service URL answers, under a context's overrides. */
  type Discovery = (string, Option<AuthOverrides>) -> Key

  /** `secret` is the token the provider would draw. */
  datatype Command =
    | SetContext(name: string, url: string, flags: AuthOverrides, deleteWorks: bool)
    | UseContext(name: string)
    | Login(inv: Invocation, discover: Discovery, code: string, secret: string, exchange: Exchange)
    | Refresh(inv: Invocation, discover: Discovery, secret: string, exchange: Exchange)
    | Logout(inv: Invocation, deleteWorks: bool)

  /** The last three fields are history: the URL and overrides a context's bundle was obtained with,
      the key it was stored under, and who last got a grant from a key (nobody who could keep it, if
      the grant was lost). */
  datatype World = World(
    file: File,
    entries: Entries,
    providers: map<string, Provider>,
    issued: set<string>,
    mintedFor: map<string, ContextEntry>,
    storedUnder: map<string, Key>,
    last: map<Key, Option<string>>)

  function ProviderAt(w: World, issuer: string): Provider {
    if issuer in w.providers then w.providers[issuer] else Provider(map[], map[])
  }

  predicate IsCurrent(w: World, key: Key, token: string) {
    Accepts(ProviderAt(w, key.issuer), key.client, token)
  }

  /** What a command runs with: its context, and the URL and overrides it contacts. */
  datatype Site = Site(context: string, against: ContextEntry)

  function SiteOf(f: File, config: Config): Option<Site> {
    if config.contextName == None then None
    else Some(Site(config.contextName.value, ContextEntry(config.serviceUrl, AuthOverride(f, config))))
  }

  function Target(w: World, inv: Invocation, valid: string -> bool): Option<Site> {
    match Resolve(w.file, inv, valid)
    case Some(config) => SiteOf(w.file, config)
    case None => None
  }

  function At(site: Site, discover: Discovery): Key {
    discover(site.against.url, site.against.auth)
  }

  function Settle(w: World, site: Site, at: Key, secret: string, stored: bool, s: Parties): World {
    w.(entries := s.entries,
       providers := w.providers[at.issuer := s.provider],
       issued := w.issued + {secret},
       mintedFor := if stored then w.mintedFor[site.context := site.against] else w.mintedFor,
       storedUnder := if stored then w.storedUnder[site.context := at] else w.storedUnder,
       last := w.last[at := if stored then Some(site.context) else None])
  }

  function StepLogin(w: World, site: Site, at: Key, code: string, secret: string, exchange: Exchange): World {
    var s := LoggedIn(Parties(w.entries, ProviderAt(w, at.issuer)), site.context, at, code, secret, exchange);
    if exchange == NoGrant then w.(providers := w.providers[at.issuer := s.provider])
    else Settle(w, site, at, secret, exchange == Completes, s)
  }

  function StepRefresh(w: World, site: Site, token: string, at: Key, secret: string, exchange: Exchange): World {
    var s := Refreshed(Parties(w.entries, ProviderAt(w, at.issuer)), site.context, token, at, secret, exchange);
    if exchange == NoGrant || !IsCurrent(w, at, token) then w
    else Settle(w, site, at, secret, exchange == Completes, s)
  }

  ghost function Step(w: World, c: Command, valid: string -> bool): World {
    match c
    case SetContext(name, url, flags, deleteWorks) =>
      if w.file.Unreadable? then w
      else w.(file := AfterSetContext(w.file, name, url, flags),
              entries := if deleteWorks then w.entries[name := ""] else w.entries)
    case UseContext(name) => w.(file := AfterUseContext(w.file, name))
    case Login(inv, discover, code, secret, exchange) =>
      (match Target(w, inv, valid)
       case None => w
       case Some(site) => StepLogin(w, site, At(site, discover), code, secret, exchange))
    case Refresh(inv, discover, secret, exchange) =>
      (match Target(w, inv, valid)
       case None => w
       case Some(site) =>
         match TokenOf(w.entries, site.context)
         case None => w
         case Some(token) => StepRefresh(w, site, token, At(site, discover), secret, exchange))
    case Logout(inv, deleteWorks) =>
      (match Target(w, inv, valid)
       case None => w
       case Some(site) => if deleteWorks then w.(entries := w.entries[site.context := ""]) else w)
  }

  lemma WithoutTargetStays(w: World, c: Command, valid: string -> bool)
    requires (c.Login? || c.Refresh? || c.Logout?) && Target(w, c.inv, valid) == None
    ensures Step(w, c, valid) == w
  {
  }

  lemma LogoutGoesTo(w: World, inv: Invocation, deleteWorks: bool, valid: string -> bool, context: Option<string>)
    requires context == match Resolve(w.file, inv, valid) case Some(config) => config.contextName case None => None
    ensures Step(w, Logout(inv, deleteWorks), valid) ==
      if context.Some? && deleteWorks then w.(entries := w.entries[context.value := ""]) else w
  {
  }

  lemma LoginGoesTo(w: World, inv: Invocation, discover: Discovery, code: string, secret: string, exchange: Exchange,
                    valid: string -> bool, site: Site)
    requires Target(w, inv, valid) == Some(site)
    ensures Step(w, Login(inv, discover, code, secret, exchange), valid) ==
      StepLogin(w, site, At(site, discover), code, secret, exchange)
  {
  }

  lemma RefreshGoesTo(w: World, inv: Invocation, valid: string -> bool, site: Site, discover: Discovery,
                      secret: string, exchange: Exchange)
    requires Target(w, inv, valid) == Some(site)
    ensures Step(w, Refresh(inv, discover, secret, exchange), valid) ==
      match TokenOf(w.entries, site.context)
      case Some(token) => StepRefresh(w, site, token, At(site, discover), secret, exchange)
      case None => w
  {
  }

  /** A provider never draws a token twice, and the parser lets only bare names through. */
  predicate Enabled(w: World, c: Command) {
    && (c.Login? || c.Refresh? ==> c.secret !in w.issued)
    && (c.SetContext? ==> IsBare(c.name))
  }

  ghost predicate IsRun(w: World, run: seq<Command>, valid: string -> bool)
    decreases |run|
  {
    run == [] || (Enabled(w, run[0]) && IsRun(Step(w, run[0], valid), run[1..], valid))
  }

  ghost function After(w: World, run: seq<Command>, valid: string -> bool): World
    decreases |run|
  {
    if run == [] then w else After(Step(w, run[0], valid), run[1..], valid)
  }

  /** Whatever the file and the providers hold, nothing is stored yet. */
  ghost predicate Initial(w: World) {
    && w.entries == map[] && w.mintedFor == map[] && w.storedUnder == map[] && w.last == map[]
    && AllIssued(w)
  }

  ghost predicate AllIssued(w: World) {
    forall key: Key, token: string :: IsCurrent(w, key, token) ==> token in w.issued
  }

  lemma TokenLaws(entries: Entries, context: string, token: string, issuer: string, other: string)
    ensures TokenOf(entries[context := Encode(TokenBundle(Some(token), issuer))], context) == Some(token)
    ensures TokenOf(entries[context := ""], context) == None
    ensures other != context ==>
      && TokenOf(entries[context := Encode(TokenBundle(Some(token), issuer))], other) == TokenOf(entries, other)
      && TokenOf(entries[context := ""], other) == TokenOf(entries, other)
  {
    StoreLaws(entries, context, TokenBundle(Some(token), issuer), other);
  }
}
