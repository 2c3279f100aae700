/** `MockOidcProvider`: device-authorization grants and one current refresh token per client. */
module OidcProvider {
  import opened Optional

  datatype Status = Pending | Approved | Expired | Denied

  datatype Flow = Flow(
    clientId: string,
    audience: Option<string>,
    scope: Option<string>,
    status: Status,
    sub: string,
    slowDownOnce: bool)

  /** `current` is `_issued_refresh_tokens`. */
  datatype Provider = Provider(flows: map<string, Flow>, current: map<string, string>)

  type Form = map<string, string>

  function Field(form: Form, key: string): string {
    if key in form then form[key] else ""
  }

  function Optionally(form: Form, key: string): Option<string> {
    if key in form then Some(form[key]) else None
  }

  datatype Reply = Tokens(sub: string, refreshToken: string, expiresIn: int) | Error(code: string)

  const DEVICE_CODE_GRANT := "urn:ietf:params:oauth:grant-type:device_code"
  const EXPIRES_IN := 3600

  /** `handle_device_authorization_request`, answering with the random `code`. */
  function Authorize(p: Provider, form: Form, code: string): Provider {
    p.(flows := p.flows[code :=
      Flow(Field(form, "client_id"), Optionally(form, "audience"), Optionally(form, "scope"), Pending, "test-subject", false)])
  }

  /** `_handle_device_code_grant`; `secret` is the random refresh token a success would issue. */
  function DeviceCodeGrant(p: Provider, form: Form, secret: string): (Provider, Reply) {
    var code := Field(form, "device_code");
    if code !in p.flows then (p, Error("expired_token"))
    else
      var flow := p.flows[code];
      if flow.slowDownOnce then (p.(flows := p.flows[code := flow.(slowDownOnce := false)]), Error("slow_down"))
      else
        match flow.status
        case Pending => (p, Error("authorization_pending"))
        case Expired => (p, Error("expired_token"))
        case Denied => (p, Error("access_denied"))
        case Approved => (p.(current := p.current[flow.clientId := secret]), Tokens(flow.sub, secret, EXPIRES_IN))
  }

  /** `_handle_refresh_token_grant`. */
  function RefreshGrant(p: Provider, form: Form, secret: string): (Provider, Reply) {
    var client := Field(form, "client_id");
    if client !in p.current || p.current[client] != Field(form, "refresh_token") then (p, Error("invalid_grant"))
    else (p.(current := p.current[client := secret]), Tokens("test-subject", secret, EXPIRES_IN))
  }

  /** `handle_token_request`. */
  function TokenRequest(p: Provider, form: Form, secret: string): (Provider, Reply) {
    if Optionally(form, "grant_type") == Some(DEVICE_CODE_GRANT) then DeviceCodeGrant(p, form, secret)
    else if Optionally(form, "grant_type") == Some("refresh_token") then RefreshGrant(p, form, secret)
    else (p, Error("unsupported_grant_type"))
  }

  function RefreshForm(client: string, token: string): Form {
    map["grant_type" := "refresh_token", "refresh_token" := token, "client_id" := client]
  }

  function PollForm(client: string, code: string): Form {
    map["grant_type" := DEVICE_CODE_GRANT, "device_code" := code, "client_id" := client]
  }

  predicate IsDeviceGrant(form: Form) { Optionally(form, "grant_type") == Some(DEVICE_CODE_GRANT) }

  /** The client that a successful request is made for. */
  function Grantee(p: Provider, form: Form): string {
    var code := Field(form, "device_code");
    if IsDeviceGrant(form) && code in p.flows then p.flows[code].clientId else Field(form, "client_id")
  }

  /** A refresh succeeds for the client's current token and for no other. */
  lemma OnlyCurrentTokenRefreshes(p: Provider, client: string, token: string, secret: string)
    ensures TokenRequest(p, RefreshForm(client, token), secret) ==
      if client in p.current && p.current[client] == token
      then (p.(current := p.current[client := secret]), Tokens("test-subject", secret, EXPIRES_IN))
      else (p, Error("invalid_grant"))
  {
    assert !IsDeviceGrant(RefreshForm(client, token));
  }

  /** Rotation: whoever gets tokens, by either grant, holds the one current token of that client from
      then on: it can be refreshed, and every other token of the client is refused. A request that
      gets none changes no token. */
  lemma TokensRotate(p: Provider, form: Form, secret: string, token: string, next: string)
    ensures var (q, reply) := TokenRequest(p, form, secret);
      && (reply.Tokens? ==>
            && q.current == p.current[Grantee(p, form) := secret] && reply.refreshToken == secret
            && (TokenRequest(q, RefreshForm(Grantee(p, form), token), next).1.Tokens? <==> token == secret))
      && (!reply.Tokens? ==> q.current == p.current)
  {
    OnlyCurrentTokenRefreshes(TokenRequest(p, form, secret).0, Grantee(p, form), token, next);
  }

  /** The flow of a device code in a given status. */
  function WithStatus(p: Provider, code: string, status: Status, slowDownOnce: bool): Provider
    requires code in p.flows
  {
    p.(flows := p.flows[code := p.flows[code].(status := status, slowDownOnce := slowDownOnce)])
  }

  /** What polling for a device code is told, from its authorization to the user's decision: to go on
      while nothing is decided, the refusal or the expiry, or tokens; to slow down once when that is
      asked for, and after that what it would have been told. An unknown code counts as expired. */
  lemma PollsAreTold(p: Provider, client: string, code: string, other: string, secret: string)
    requires code !in p.flows && other !in p.flows && code != other
    ensures var q := Authorize(p, map["client_id" := client], code);
      var form := PollForm(client, code);
      && q.flows[code] == Flow(client, None, None, Pending, "test-subject", false)
      && TokenRequest(q, form, secret) == (q, Error("authorization_pending"))
      && TokenRequest(WithStatus(q, code, Denied, false), form, secret).1 == Error("access_denied")
      && TokenRequest(WithStatus(q, code, Expired, false), form, secret).1 == Error("expired_token")
      && TokenRequest(WithStatus(q, code, Approved, false), form, secret).1 == Tokens("test-subject", secret, 3600)
      && TokenRequest(q, PollForm(client, other), secret) == (q, Error("expired_token"))
      && forall status :: TokenRequest(WithStatus(q, code, status, true), form, secret)
           == (WithStatus(q, code, status, false), Error("slow_down"))
  {
    var q := Authorize(p, map["client_id" := client], code);
    assert IsDeviceGrant(PollForm(client, code)) && Field(PollForm(client, code), "device_code") == code;
    assert Field(PollForm(client, other), "device_code") == other;
    forall status
      ensures WithStatus(WithStatus(q, code, status, true), code, status, false) == WithStatus(q, code, status, false)
    {
    }
  }

  class MockOidcProvider {
    var deviceFlowStates: map<string, Flow>
    var issuedRefreshTokens: map<string, string>

    constructor ()
      ensures View() == Provider(map[], map[])
    {
      deviceFlowStates, issuedRefreshTokens := map[], map[];
    }

    function View(): Provider
      reads this
    {
      Provider(deviceFlowStates, issuedRefreshTokens)
    }

    method HandleDeviceAuthorizationRequest(form: Form, code: string)
      modifies this`deviceFlowStates
      ensures View() == Authorize(old(View()), form, code)
    {
      deviceFlowStates := deviceFlowStates[code :=
        Flow(Field(form, "client_id"), Optionally(form, "audience"), Optionally(form, "scope"), Pending, "test-subject", false)];
    }

    method HandleTokenRequest(form: Form, secret: string) returns (reply: Reply)
      modifies this
      ensures (View(), reply) == TokenRequest(old(View()), form, secret)
    {
      var grant := Optionally(form, "grant_type");
      if grant == Some(DEVICE_CODE_GRANT) {
        reply := HandleDeviceCodeGrant(form, secret);
      } else if grant == Some("refresh_token") {
        reply := HandleRefreshTokenGrant(form, secret);
      } else {
        reply := Error("unsupported_grant_type");
      }
    }

    method HandleDeviceCodeGrant(form: Form, secret: string) returns (reply: Reply)
      modifies this
      ensures (View(), reply) == DeviceCodeGrant(old(View()), form, secret)
    {
      var code := Field(form, "device_code");
      if code !in deviceFlowStates {
        return Error("expired_token");
      }
      var flow := deviceFlowStates[code];
      if flow.slowDownOnce {
        deviceFlowStates := deviceFlowStates[code := flow.(slowDownOnce := false)];
        return Error("slow_down");
      }
      match flow.status {
        case Pending => return Error("authorization_pending");
        case Expired => return Error("expired_token");
        case Denied => return Error("access_denied");
        case Approved =>
          issuedRefreshTokens := issuedRefreshTokens[flow.clientId := secret];
          return Tokens(flow.sub, secret, EXPIRES_IN);
      }
    }

    method HandleRefreshTokenGrant(form: Form, secret: string) returns (reply: Reply)
      modifies this`issuedRefreshTokens
      ensures (View(), reply) == RefreshGrant(old(View()), form, secret)
    {
      var client := Field(form, "client_id");
      if client !in issuedRefreshTokens || Field(form, "refresh_token") != issuedRefreshTokens[client] {
        return Error("invalid_grant");
      }
      issuedRefreshTokens := issuedRefreshTokens[client := secret];
      return Tokens("test-subject", secret, EXPIRES_IN);
    }

    /** `complete_device_flow`, `expire_device_code` and `deny_device_code`. */
    method SetStatus(code: string, status: Status, sub: string)
      requires code in deviceFlowStates
      modifies this`deviceFlowStates
      ensures deviceFlowStates == old(deviceFlowStates)[code := old(deviceFlowStates)[code].(status := status,
        sub := if status == Approved then sub else old(deviceFlowStates)[code].sub)]
    {
      var flow := deviceFlowStates[code];
      deviceFlowStates := deviceFlowStates[code :=
        flow.(status := status, sub := if status == Approved then sub else flow.sub)];
    }

    method SimulateSlowDownOnce(code: string)
      requires code in deviceFlowStates
      modifies this`deviceFlowStates
      ensures deviceFlowStates == old(deviceFlowStates)[code := old(deviceFlowStates)[code].(slowDownOnce := true)]
    {
      deviceFlowStates := deviceFlowStates[code := deviceFlowStates[code].(slowDownOnce := true)];
    }
  }
}
