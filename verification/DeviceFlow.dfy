/** `device_flow.py`: polling for a token, and turning the stored refresh token into an access token
    that one invocation caches. */
module DeviceFlow {
  import opened Optional
  import opened Credentials
  import CredentialStore

  datatype TokenResponse = TokenResponse(accessToken: string, refreshToken: Option<string>, expiresIn: int)

  // ----- polling -----

  /** One answer of the token endpoint: a success body that parsed or did not, or an error code. */
  datatype Answer = Success(body: Option<TokenResponse>) | Error(code: string)

  datatype PollOutcome = Token(token: TokenResponse) | BadBody | Refused(code: string) | StillPolling

  const SLOW_DOWN_INCREMENT := 5

  predicate KeepsPolling(a: Answer) {
    a == Error("authorization_pending") || a == Error("slow_down")
  }

  function SlowDowns(answers: seq<Answer>): nat {
    if answers == [] then 0
    else SlowDowns(answers[..|answers| - 1]) + if answers[|answers| - 1] == Error("slow_down") then 1 else 0
  }

  /** How many answers come before the first that ends the polling. */
  function Undecided(answers: seq<Answer>): (n: nat)
    ensures n <= |answers|
    ensures forall i :: 0 <= i < n ==> KeepsPolling(answers[i])
    ensures n < |answers| ==> !KeepsPolling(answers[n])
  {
    if answers == [] || !KeepsPolling(answers[0]) then 0 else 1 + Undecided(answers[1..])
  }

  lemma {:induction false} UndecidedIsUnique(answers: seq<Answer>, n: nat)
    requires n <= |answers|
    requires forall i :: 0 <= i < n ==> KeepsPolling(answers[i])
    requires n == |answers| || !KeepsPolling(answers[n])
    ensures n == Undecided(answers)
    decreases n
  {
    if n > 0 {
      assert KeepsPolling(answers[0]);
      UndecidedIsUnique(answers[1..], n - 1);
    }
  }

  /** `poll_for_token` against the answers the endpoint gives (RFC 8628 section 3.5): the first answer
      that is neither pending nor slow_down decides, and the wait after answer `k` is the initial
      interval plus 5 seconds for every slow_down up to and including it. */
  method PollForToken(interval: int, answers: seq<Answer>) returns (outcome: PollOutcome, sleeps: seq<int>)
    ensures |sleeps| == Undecided(answers)
    ensures forall k :: 0 <= k < |sleeps| ==> sleeps[k] == interval + SLOW_DOWN_INCREMENT * SlowDowns(answers[..k + 1])
    ensures forall k :: 0 <= k < |sleeps| ==>
      answers[k] == Error("authorization_pending") || answers[k] == Error("slow_down")
    ensures |sleeps| == |answers| ==> outcome == StillPolling
    ensures |sleeps| < |answers| ==>
      match answers[|sleeps|]
      case Success(Some(token)) => outcome == Token(token)
      case Success(None) => outcome == BadBody
      case Error(code) => outcome == Refused(code) && code != "authorization_pending" && code != "slow_down"
  {
    var wait := interval;
    sleeps := [];
    for i := 0 to |answers|
      invariant |sleeps| == i
      invariant forall k :: 0 <= k < i ==> KeepsPolling(answers[k])
      invariant wait == interval + SLOW_DOWN_INCREMENT * SlowDowns(answers[..i])
      invariant forall k :: 0 <= k < i ==> sleeps[k] == interval + SLOW_DOWN_INCREMENT * SlowDowns(answers[..k + 1])
    {
      assert answers[..i + 1][..i] == answers[..i];
      match answers[i] {
        case Success(body) =>
          UndecidedIsUnique(answers, i);
          return if body.Some? then Token(body.value) else BadBody, sleeps;
        case Error(code) =>
          if code == "authorization_pending" {
            sleeps := sleeps + [wait];
          } else if code == "slow_down" {
            wait := wait + SLOW_DOWN_INCREMENT;
            sleeps := sleeps + [wait];
          } else {
            UndecidedIsUnique(answers, i);
            return Refused(code), sleeps;
          }
      }
    }
    UndecidedIsUnique(answers, |answers|);
    outcome := StillPolling;
  }

  /** `token_bundle_from_response`. */
  function BundleFromResponse(response: TokenResponse, issuer: string): TokenBundle {
    TokenBundle(response.refreshToken, issuer)
  }

  // ----- the access-token cache -----

  const EXPIRY_LEEWAY := 30

  datatype Cache = Cache(token: Option<string>, expiresAt: Option<int>)

  predicate IsStale(c: Cache, now: int) {
    c.expiresAt == None || c.expiresAt.value <= now + EXPIRY_LEEWAY
  }

  predicate Serves(c: Cache, now: int) {
    c.token.Some? && !IsStale(c, now)
  }

  class AccessTokenCache {
    var token: Option<string>
    var expiresAt: Option<int>

    constructor ()
      ensures View() == Cache(None, None)
    {
      token, expiresAt := None, None;
    }

    function View(): Cache
      reads this
    {
      Cache(token, expiresAt)
    }
  }

  /** What the refresh request came to. */
  datatype RefreshAnswer = Unreachable | ServerError | Rejected | Garbled | Renewed(token: TokenResponse)

  datatype AccessOutcome = Access(token: string) | NoCredentials | RefreshFailed | CannotVerify | StoreFailed | Unreadable

  /** The refresh token to keep: the rotated one, else the one that was presented. */
  function Kept(presented: string, answer: TokenResponse): string {
    if answer.refreshToken.Some? then answer.refreshToken.value else presented
  }

  /** The outside world as one call sees it: two clock readings, the store's faults, discovery (the
      issuer, or why it failed), the answer to the refresh and whether the write back works. */
  datatype Surroundings = Surroundings(
    now: int,
    faults: seq<Option<CredentialStore.Fault>>,
    issuer: Option<string>,
    discoveryReached: bool,
    answer: RefreshAnswer,
    writeWorks: bool,
    later: int)

  /** The cache and store that a successful refresh leaves. */
  ghost predicate Refreshed(presented: string, context: string, w: Surroundings,
                            before: CredentialStore.Entries, after: CredentialStore.Entries, cache: Cache, token: string) {
    && w.issuer.Some? && w.answer.Renewed?
    && token == w.answer.token.accessToken
    && cache == Cache(Some(token), Some(w.later + w.answer.token.expiresIn))
    && after == before[context := Encode(TokenBundle(Some(Kept(presented, w.answer.token)), w.issuer.value))]
  }

  predicate CanRefresh(entries: CredentialStore.Entries, context: string, w: Surroundings) {
    && None in w.faults
    && CredentialStore.Content(entries, context).Stored? && CredentialStore.Content(entries, context).bundle.refreshToken.Some?
    && w.issuer.Some? && w.answer.Renewed? && w.writeWorks
  }

  /** The end of `ensure_valid_access_token`: the refresh token goes to the store first, the access
      token to the cache only after that. */
  method KeepTokens(context: string, bundle: TokenBundle, token: TokenResponse, store: CredentialStore.Store,
                    cache: AccessTokenCache, w: Surroundings)
      returns (ok: bool)
    requires store as object != cache
    modifies store, cache
    ensures ok == w.writeWorks
    ensures ok ==> store.entries == old(store.entries)[context := Encode(bundle)]
    ensures ok ==> cache.token == Some(token.accessToken) && cache.expiresAt == Some(w.later + token.expiresIn)
    ensures !ok ==> cache.View() == old(cache.View()) && store.entries == old(store.entries)
  {
    ok := store.SetTokens(context, bundle, w.writeWorks);
    if ok {
      cache.token := Some(token.accessToken);
      cache.expiresAt := Some(w.later + token.expiresIn);
    }
  }

  /** The part of `ensure_valid_access_token` that follows discovery. */
  method RefreshTokens(context: string, presented: string, issuer: string, store: CredentialStore.Store,
                       cache: AccessTokenCache, w: Surroundings)
      returns (r: AccessOutcome)
    requires store as object != cache && w.issuer == Some(issuer)
    modifies store, cache
    ensures r.Access? ==>
      Refreshed(presented, context, w, old(store.entries), store.entries, cache.View(), r.token)
    ensures !r.Access? ==> cache.View() == old(cache.View()) && store.entries == old(store.entries)
    ensures r == match w.answer
      case Unreachable => CannotVerify
      case ServerError => CannotVerify
      case Rejected => RefreshFailed
      case Garbled => RefreshFailed
      case Renewed(token) => if w.writeWorks then Access(token.accessToken) else StoreFailed
  {
    match w.answer {
      case Unreachable => r := CannotVerify;
      case ServerError => r := CannotVerify;
      case Rejected => r := RefreshFailed;
      case Garbled => r := RefreshFailed;
      case Renewed(token) =>
        var ok := KeepTokens(context, TokenBundle(Some(Kept(presented, token)), issuer), token, store, cache, w);
        r := if ok then Access(token.accessToken) else StoreFailed;
    }
  }

  /** `ensure_valid_access_token`. A served cache touches nothing; every failure leaves cache and
      store as they were; a success has stored the kept refresh token before it returns. A token from
      the cache has more than 30 seconds left, a fresh one exactly when it was issued for more. */
  method EnsureValidAccessToken(context: string, store: CredentialStore.Store, cache: AccessTokenCache, w: Surroundings)
      returns (r: AccessOutcome)
    requires |w.faults| == CredentialStore.READ_ATTEMPTS
    requires store as object != cache
    modifies store, cache
    ensures Serves(old(cache.View()), w.now) ==>
      r == Access(old(cache.token).value) && cache.View() == old(cache.View()) && store.entries == old(store.entries)
    ensures !r.Access? ==> cache.View() == old(cache.View()) && store.entries == old(store.entries)
    ensures r.Access? && !Serves(old(cache.View()), w.now) ==>
      var found := CredentialStore.Content(old(store.entries), context);
      && found.Stored? && found.bundle.refreshToken.Some?
      && Refreshed(found.bundle.refreshToken.value, context, w, old(store.entries), store.entries, cache.View(), r.token)
    ensures r.Access? <==> Serves(old(cache.View()), w.now) || CanRefresh(old(store.entries), context, w)
    ensures r.Access? ==> cache.expiresAt.Some?
    ensures r.Access? && Serves(old(cache.View()), w.now) ==> w.now + EXPIRY_LEEWAY < cache.expiresAt.value
    ensures r.Access? && !Serves(old(cache.View()), w.now) ==>
      (w.later + EXPIRY_LEEWAY < cache.expiresAt.value <==> EXPIRY_LEEWAY < w.answer.token.expiresIn)
    ensures !Serves(old(cache.View()), w.now) ==>
      match CredentialStore.ReadOf(old(store.entries), context, w.faults)
      case Nothing => r == NoCredentials
      case StoreError => r == StoreFailed
      case BadEntry => r == Unreadable
      case Stored(bundle) =>
        if bundle.refreshToken == None then r == RefreshFailed
        else if w.issuer == None then r == if w.discoveryReached then RefreshFailed else CannotVerify
        else
          && (w.answer.Unreachable? || w.answer.ServerError? ==> r == CannotVerify)
          && (w.answer.Rejected? || w.answer.Garbled? ==> r == RefreshFailed)
          && (w.answer.Renewed? && !w.writeWorks ==> r == StoreFailed)
  {
    if cache.token.Some? && !IsStale(cache.View(), w.now) {
      return Access(cache.token.value);
    }
    var read := store.GetTokens(context, w.faults);
    match read {
      case Nothing => return NoCredentials;
      case StoreError => return StoreFailed;
      case BadEntry => return Unreadable;
      case Stored(bundle) =>
        if bundle.refreshToken == None { return RefreshFailed; }
        if w.issuer == None { return if w.discoveryReached then RefreshFailed else CannotVerify; }
        r := RefreshTokens(context, bundle.refreshToken.value, w.issuer.value, store, cache, w);
    }
  }

  // ----- how often one invocation refreshes -----

  /** A try at refreshing, and the tokens it got, if it got any. */
  datatype Attempt = Attempt(start: int, end: int, got: Option<TokenResponse>) {
    function RunsOut(): int
      requires got.Some?
    {
      end + got.value.expiresIn
    }
  }

  function Tried(outcome: AccessOutcome, w: Surroundings): Attempt {
    Attempt(w.now, w.later, if outcome.Access? && w.answer.Renewed? then Some(w.answer.token) else None)
  }

  function LastSuccess(attempts: seq<Attempt>): (r: Option<Attempt>)
    ensures r.Some? ==> r.value in attempts && r.value.got.Some?
  {
    if attempts == [] then None
    else
      var last := attempts[|attempts| - 1];
      if last.got.Some? then Some(last) else LastSuccess(attempts[..|attempts| - 1])
  }

  /** The last token got has more than 30 seconds left. */
  predicate Lasts(attempts: seq<Attempt>, now: int) {
    LastSuccess(attempts).Some? && now + EXPIRY_LEEWAY < LastSuccess(attempts).value.RunsOut()
  }

  /** The cache holds what the last successful try got, and nothing if there was none. */
  predicate Remembers(cache: Cache, attempts: seq<Attempt>) {
    match LastSuccess(attempts)
    case None => cache == Cache(None, None)
    case Some(a) => cache == Cache(Some(a.got.value.accessToken), Some(a.RunsOut()))
  }

  /** No try starts earlier than 30 seconds before a token got earlier runs out. */
  predicate Spaced(attempts: seq<Attempt>) {
    forall i, j :: 0 <= i < j < |attempts| && attempts[i].got.Some? ==>
      attempts[i].RunsOut() - EXPIRY_LEEWAY <= attempts[j].start
  }

  predicate StartedBy(attempts: seq<Attempt>, clock: int) {
    forall i :: 0 <= i < |attempts| ==> attempts[i].start <= clock
  }

  lemma {:induction false} EarlierTokensAreOver(attempts: seq<Attempt>, now: int, k: nat)
    requires !Lasts(attempts, now) && Spaced(attempts) && StartedBy(attempts, now)
    requires k < |attempts| && attempts[k].got.Some?
    ensures attempts[k].RunsOut() - EXPIRY_LEEWAY <= now
    decreases |attempts|
  {
    var last := |attempts| - 1;
    if attempts[last].got == None {
      EarlierTokensAreOver(attempts[..last], now, k);
    } else if k < last {
      assert attempts[last].start <= now;
    }
  }

  lemma OneMoreAttempt(attempts: seq<Attempt>, a: Attempt)
    requires !Lasts(attempts, a.start) && Spaced(attempts) && StartedBy(attempts, a.start)
    ensures Spaced(attempts + [a]) && StartedBy(attempts + [a], a.start)
    ensures LastSuccess(attempts + [a]) == if a.got.Some? then Some(a) else LastSuccess(attempts)
  {
    forall k | 0 <= k < |attempts| && attempts[k].got.Some?
      ensures attempts[k].RunsOut() - EXPIRY_LEEWAY <= a.start
    {
      EarlierTokensAreOver(attempts, a.start, k);
    }
    assert (attempts + [a])[..|attempts|] == attempts;
  }

  /** The calls of one invocation, in order on a clock that does not go back. */
  predicate OnTime(ws: seq<Surroundings>) {
    && (forall i :: 0 <= i < |ws| ==> |ws[i].faults| == CredentialStore.READ_ATTEMPTS && ws[i].now <= ws[i].later)
    && (forall i, j :: 0 <= i < j < |ws| ==> ws[i].later <= ws[j].now)
  }

  /** The tries of the calls that were not served, in order. */
  function Tries(outcomes: seq<AccessOutcome>, served: seq<bool>, ws: seq<Surroundings>): seq<Attempt>
    requires |outcomes| == |served| <= |ws|
    decreases |served|
  {
    if served == [] then []
    else
      var n := |served| - 1;
      Tries(outcomes[..n], served[..n], ws) + if served[n] then [] else [Tried(outcomes[n], ws[n])]
  }

  /** One call after the tries of the earlier ones. It is served exactly while the last token got
      lasts, with that token and without the store; otherwise it goes to the provider, whatever became
      of the calls before it. */
  ghost predicate Answers(context: string, attempts: seq<Attempt>, w: Surroundings, before: CredentialStore.Entries,
                          outcome: AccessOutcome, served: bool, after: CredentialStore.Entries) {
    && (served <==> Lasts(attempts, w.now))
    && (served ==> outcome == Access(LastSuccess(attempts).value.got.value.accessToken))
    && (!served ==> (outcome.Access? <==> CanRefresh(before, context, w)))
    && (!served && outcome.Access? ==> outcome.token == w.answer.token.accessToken)
    && after ==
         if served || !outcome.Access? then before
         else before[context := Encode(TokenBundle(
           Some(Kept(CredentialStore.Content(before, context).bundle.refreshToken.value, w.answer.token)), w.issuer.value))]
  }

  lemma LastsWhileServed(cache: Cache, attempts: seq<Attempt>, now: int)
    requires Remembers(cache, attempts)
    ensures Lasts(attempts, now) <==> Serves(cache, now)
    ensures Serves(cache, now) ==> cache.token == Some(LastSuccess(attempts).value.got.value.accessToken)
  {
  }

  lemma OneMoreRemembered(before: Cache, after: Cache, attempts: seq<Attempt>, a: Attempt)
    requires Remembers(before, attempts) && !Lasts(attempts, a.start) && Spaced(attempts) && StartedBy(attempts, a.start)
    requires after == if a.got.Some? then Cache(Some(a.got.value.accessToken), Some(a.RunsOut())) else before
    ensures Remembers(after, attempts + [a]) && Spaced(attempts + [a]) && StartedBy(attempts + [a], a.start)
  {
    OneMoreAttempt(attempts, a);
  }

  /** A call that is not served, as a try. */
  method TryOnce(context: string, store: CredentialStore.Store, cache: AccessTokenCache, w: Surroundings)
      returns (outcome: AccessOutcome)
    requires |w.faults| == CredentialStore.READ_ATTEMPTS && store as object != cache && !Serves(cache.View(), w.now)
    modifies store, cache
    ensures outcome.Access? <==> CanRefresh(old(store.entries), context, w)
    ensures outcome.Access? ==> outcome.token == w.answer.token.accessToken
    ensures store.entries ==
      if outcome.Access?
      then old(store.entries)[context := Encode(TokenBundle(
        Some(Kept(CredentialStore.Content(old(store.entries), context).bundle.refreshToken.value, w.answer.token)),
        w.issuer.value))]
      else old(store.entries)
    ensures var a := Tried(outcome, w);
      cache.View() == if a.got.Some? then Cache(Some(a.got.value.accessToken), Some(a.RunsOut())) else old(cache.View())
  {
    outcome := EnsureValidAccessToken(context, store, cache, w);
  }

  method AskOnce(context: string, store: CredentialStore.Store, cache: AccessTokenCache, ghost attempts: seq<Attempt>,
                 w: Surroundings)
      returns (outcome: AccessOutcome, served: bool)
    requires |w.faults| == CredentialStore.READ_ATTEMPTS && store as object != cache
    requires Remembers(cache.View(), attempts) && Spaced(attempts) && StartedBy(attempts, w.now)
    modifies store, cache
    ensures Answers(context, attempts, w, old(store.entries), outcome, served, store.entries)
    ensures var next := attempts + if served then [] else [Tried(outcome, w)];
      Remembers(cache.View(), next) && Spaced(next) && StartedBy(next, w.now)
  {
    ghost var before := cache.View();
    LastsWhileServed(before, attempts, w.now);
    served := Serves(cache.View(), w.now);
    if served {
      outcome := EnsureValidAccessToken(context, store, cache, w);
      assert attempts + [] == attempts;
    } else {
      outcome := TryOnce(context, store, cache, w);
      OneMoreRemembered(before, cache.View(), attempts, Tried(outcome, w));
    }
  }

  /** The `i`-th call answers as it should after the calls before it. */
  ghost predicate AnswersAt(context: string, outcomes: seq<AccessOutcome>, served: seq<bool>,
                            stores: seq<CredentialStore.Entries>, ws: seq<Surroundings>, i: nat)
    requires i < |outcomes| == |served| <= |ws| && |stores| == |served| + 1
  {
    Answers(context, Tries(outcomes[..i], served[..i], ws), ws[i], stores[i], outcomes[i], served[i], stores[i + 1])
  }

  ghost predicate AllAnswer(context: string, outcomes: seq<AccessOutcome>, served: seq<bool>,
                            stores: seq<CredentialStore.Entries>, ws: seq<Surroundings>)
    requires |outcomes| == |served| <= |ws| && |stores| == |served| + 1
  {
    forall i :: 0 <= i < |served| ==> AnswersAt(context, outcomes, served, stores, ws, i)
  }

  lemma AnswerStays(context: string, outcomes: seq<AccessOutcome>, served: seq<bool>, stores: seq<CredentialStore.Entries>,
                    ws: seq<Surroundings>, o: AccessOutcome, f: bool, e: CredentialStore.Entries, i: nat)
    requires i < |outcomes| == |served| < |ws| && |stores| == |served| + 1
    requires AnswersAt(context, outcomes, served, stores, ws, i)
    ensures AnswersAt(context, outcomes + [o], served + [f], stores + [e], ws, i)
  {
    assert (outcomes + [o])[..i] == outcomes[..i] && (served + [f])[..i] == served[..i];
  }

  lemma OneMoreAnswer(context: string, outcomes: seq<AccessOutcome>, served: seq<bool>, stores: seq<CredentialStore.Entries>,
                      ws: seq<Surroundings>, o: AccessOutcome, f: bool, e: CredentialStore.Entries)
    requires |outcomes| == |served| < |ws| && |stores| == |served| + 1
    requires AllAnswer(context, outcomes, served, stores, ws)
    requires Answers(context, Tries(outcomes, served, ws), ws[|served|], stores[|served|], o, f, e)
    ensures AllAnswer(context, outcomes + [o], served + [f], stores + [e], ws)
  {
    var n := |served|;
    forall i | 0 <= i <= n
      ensures AnswersAt(context, outcomes + [o], served + [f], stores + [e], ws, i)
    {
      if i < n {
        AnswerStays(context, outcomes, served, stores, ws, o, f, e, i);
      } else {
        assert (outcomes + [o])[..n] == outcomes && (served + [f])[..n] == served;
      }
    }
  }

  lemma OneMoreTry(outcomes: seq<AccessOutcome>, served: seq<bool>, ws: seq<Surroundings>, o: AccessOutcome, f: bool)
    requires |outcomes| == |served| < |ws|
    ensures Tries(outcomes + [o], served + [f], ws) ==
      Tries(outcomes, served, ws) + if f then [] else [Tried(o, ws[|served|])]
  {
    var n := |served|;
    assert (outcomes + [o])[..n] == outcomes && (served + [f])[..n] == served;
  }

  /** One invocation that asks for a token again and again, from an empty cache: every call answers as
      `Answers` says, and so a refresh is tried no earlier than `expires_in` minus 30 seconds after any
      that succeeded, failed tries in between or not. */
  method AskRepeatedly(context: string, store: CredentialStore.Store, cache: AccessTokenCache, ws: seq<Surroundings>)
      returns (outcomes: seq<AccessOutcome>, served: seq<bool>, ghost stores: seq<CredentialStore.Entries>)
    requires OnTime(ws) && cache.View() == Cache(None, None) && store as object != cache
    modifies store, cache
    ensures |outcomes| == |served| == |ws| && |stores| == |ws| + 1
    ensures stores[0] == old(store.entries) && stores[|ws|] == store.entries
    ensures AllAnswer(context, outcomes, served, stores, ws)
    ensures Spaced(Tries(outcomes, served, ws)) && Remembers(cache.View(), Tries(outcomes, served, ws))
  {
    outcomes, served, stores := [], [], [store.entries];
    for i := 0 to |ws|
      invariant |outcomes| == |served| == i && |stores| == i + 1
      invariant stores[0] == old(store.entries) && stores[i] == store.entries
      invariant AllAnswer(context, outcomes, served, stores, ws)
      invariant Spaced(Tries(outcomes, served, ws)) && Remembers(cache.View(), Tries(outcomes, served, ws))
      invariant i > 0 ==> StartedBy(Tries(outcomes, served, ws), ws[i - 1].now)
    {
      assert i > 0 ==> ws[i - 1].now <= ws[i].now;
      var outcome, fromCache := AskOnce(context, store, cache, Tries(outcomes, served, ws), ws[i]);
      OneMoreTry(outcomes, served, ws, outcome, fromCache);
      OneMoreAnswer(context, outcomes, served, stores, ws, outcome, fromCache, store.entries);
      outcomes, served, stores := outcomes + [outcome], served + [fromCache], stores + [store.entries];
    }
  }

  /** A freshly refreshed token is handed out whatever its lifetime, though the leeway is promised. */
  method HandOutShortToken(context: string, stored: TokenBundle, w: Surroundings)
      returns (r: AccessOutcome, cache: AccessTokenCache)
    requires stored.refreshToken.Some? && |w.faults| == CredentialStore.READ_ATTEMPTS && None in w.faults
    requires w.issuer.Some? && w.answer.Renewed? && w.writeWorks && w.answer.token.expiresIn <= EXPIRY_LEEWAY
    ensures r == Access(w.answer.token.accessToken)
    ensures cache.expiresAt.Some? && cache.expiresAt.value <= w.later + EXPIRY_LEEWAY
  {
    var store := new CredentialStore.Store();
    var ok := store.SetTokens(context, stored, true);
    CredentialStore.StoreLaws(map[], context, stored, context);
    cache := new AccessTokenCache();
    r := EnsureValidAccessToken(context, store, cache, w);
  }
}
