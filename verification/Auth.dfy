/** Principals, scopes, and how the HTTP and gRPC fronts bind a header to a principal. */
module Auth {
  import opened MigTypes
  import opened GoStrings

  predicate HasAnyScope(p: Principal, required: seq<string>) {
    !p.authenticated || required == [] || exists s | s in required :: s in p.scopes
  }

  const ANONYMOUS := Principal("anonymous", "", {}, false)

  // ----- token claims -----

  datatype Claim = CStr(s: string) | CList(items: seq<Claim>) | CStrs(strs: seq<string>) | COther

  type Claims = map<string, Claim>

  function StringClaim(claims: Claims, key: string, fallback: string): string {
    if key in claims && claims[key].CStr? then TrimSpace(claims[key].s) else fallback
  }

  /** The tenant a token speaks for: `tenant_id`, or `tenant` when that is missing or blank. */
  function TokenTenant(claims: Claims): string {
    var t := StringClaim(claims, "tenant_id", "");
    if t == "" then StringClaim(claims, "tenant", "") else t
  }

  /** The scopes a token grants: the words of `scope`, and the trimmed strings of `scopes`. */
  function TokenScopes(claims: Claims): set<string> {
    (if "scope" in claims then ScopeWords(claims["scope"]) else {})
    + (if "scopes" in claims then ListedScopes(claims["scopes"]) else {})
  }

  function ScopeWords(c: Claim): set<string> {
    if c.CStr? then set w | w in Fields(c.s) else {}
  }

  function ListedScopes(c: Claim): set<string> {
    match c
    case CList(items) => set i | i in items && i.CStr? :: TrimSpace(i.s)
    case CStrs(strs) => set s | s in strs :: TrimSpace(s)
    case _ => {}
  }

  method ScopesFromClaims(claims: Claims) returns (out: set<string>)
    ensures out == TokenScopes(claims)
  {
    out := {};
    if "scope" in claims {
      out := CollectWords(claims["scope"]);
    }
    if "scopes" in claims {
      var listed := CollectListed(claims["scopes"]);
      out := out + listed;
    }
  }

  method CollectWords(c: Claim) returns (out: set<string>)
    ensures out == ScopeWords(c)
  {
    out := {};
    if c.CStr? {
      var words := Fields(c.s);
      for i := 0 to |words|
        invariant out == set w | w in words[..i]
      {
        out := out + {words[i]};
      }
    }
  }

  method CollectListed(c: Claim) returns (out: set<string>)
    ensures out == ListedScopes(c)
  {
    out := {};
    if c.CList? {
      for i := 0 to |c.items|
        invariant out == ListedScopes(CList(c.items[..i]))
      {
        assert c.items[..i + 1] == c.items[..i] + [c.items[i]];
        if c.items[i].CStr? {
          out := out + {TrimSpace(c.items[i].s)};
        }
      }
      assert c.items[..|c.items|] == c.items;
    } else if c.CStrs? {
      for i := 0 to |c.strs|
        invariant out == ListedScopes(CStrs(c.strs[..i]))
      {
        assert c.strs[..i + 1] == c.strs[..i] + [c.strs[i]];
        out := out + {TrimSpace(c.strs[i])};
      }
      assert c.strs[..|c.strs|] == c.strs;
    }
  }

  // ----- what a token says, read off its claims -----

  /** The claim holds a string that is not blank. */
  predicate HoldsText(claims: Claims, key: string) {
    key in claims && claims[key].CStr? && TrimSpace(claims[key].s) != ""
  }

  /** The tenant is the trimmed `tenant_id`, or the trimmed `tenant` if `tenant_id` holds no text. */
  predicate NamesTenant(claims: Claims, tenant: string) {
    if HoldsText(claims, "tenant_id") then tenant == TrimSpace(claims["tenant_id"].s)
    else HoldsText(claims, "tenant") && tenant == TrimSpace(claims["tenant"].s)
  }

  /** The subject is the trimmed `sub`, or "unknown" if `sub` is no string. */
  predicate NamesSubject(claims: Claims, subject: string) {
    if "sub" in claims && claims["sub"].CStr? then subject == TrimSpace(claims["sub"].s) else subject == "unknown"
  }

  /** The scope is a word of `scope`, or a string of `scopes` once trimmed. */
  predicate GrantsScope(claims: Claims, scope: string) {
    || ("scope" in claims && claims["scope"].CStr? && scope in Fields(claims["scope"].s))
    || ("scopes" in claims && claims["scopes"].CList?
        && exists i | i in claims["scopes"].items :: i.CStr? && TrimSpace(i.s) == scope)
    || ("scopes" in claims && claims["scopes"].CStrs?
        && exists s | s in claims["scopes"].strs :: TrimSpace(s) == scope)
  }

  lemma TokenLaws(claims: Claims)
    ensures TokenTenant(claims) != "" <==> HoldsText(claims, "tenant_id") || HoldsText(claims, "tenant")
    ensures TokenTenant(claims) != "" ==> NamesTenant(claims, TokenTenant(claims))
    ensures NamesSubject(claims, StringClaim(claims, "sub", UNKNOWN))
    ensures forall w :: w in TokenScopes(claims) <==> GrantsScope(claims, w)
  {
  }

  // ----- request authentication -----

  datatype AuthMode = NoAuth | Jwt | OtherMode(name: string)

  datatype AuthConfig = AuthConfig(mode: AuthMode, requireTenant: bool)

  /** The texts of denials, each named once. */
  datatype Denial =
    | TokenMissing
    | TokenInvalid
    | TenantUnclaimed
    | TenantHeaderRequired
    | TenantHeaderMismatch
    | ModeUnsupported

  datatype AuthResult = Granted(principal: Principal) | Denied(why: Denial)

  const BEARER := "Bearer "

  /** `verify` stands for the JWT library: the claims of a token with a valid HS256 signature. */
  function Authenticate(authorization: string, tenantHeader: string, cfg: AuthConfig, verify: string -> Option<Claims>)
    : AuthResult
  {
    var headerTenant := TrimSpace(tenantHeader);
    match cfg.mode
    case NoAuth =>
      if cfg.requireTenant && headerTenant == "" then Denied(TenantHeaderRequired)
      else Granted(ANONYMOUS.(tenantID := headerTenant))
    case Jwt =>
      var bearer := TrimSpace(authorization);
      if !(BEARER <= bearer) then Denied(TokenMissing)
      else (match verify(TrimSpace(bearer[|BEARER|..]))
        case None => Denied(TokenInvalid)
        case Some(claims) =>
          var tenant := TokenTenant(claims);
          if tenant == "" then Denied(TenantUnclaimed)
          else if cfg.requireTenant && headerTenant == "" then Denied(TenantHeaderRequired)
          else if headerTenant != "" && headerTenant != tenant then Denied(TenantHeaderMismatch)
          else Granted(Principal(StringClaim(claims, "sub", UNKNOWN), tenant, TokenScopes(claims), true)))
    case OtherMode(_) => Denied(ModeUnsupported)
  }

  /** The claims of the request's own bearer token, if it has one that verifies. */
  function BearerClaims(authorization: string, verify: string -> Option<Claims>): Option<Claims> {
    var bearer := TrimSpace(authorization);
    if BEARER <= bearer then verify(TrimSpace(bearer[|BEARER|..])) else None
  }

  /** The token is what stands after the word "Bearer". */
  lemma BearerLaws(token: string, verify: string -> Option<Claims>)
    requires Trimmed(token) && token != ""
    ensures BearerClaims("Bearer " + token, verify) == verify(token)
  {
    var header := "Bearer " + token;
    assert header[|header| - 1] == token[|token| - 1] && Trimmed(header);
    assert header[|BEARER|..] == token;
  }

  /** The principal is filled in field by field. In JWT mode a request is let in exactly if its own bearer token
      verifies and names a tenant, and the tenant header, where present or required, names the same one. */
  method PrincipalFromAuthHeaders(authorization: string, tenantHeader: string, cfg: AuthConfig,
                                  verify: string -> Option<Claims>)
    returns (r: AuthResult)
    ensures r == Authenticate(authorization, tenantHeader, cfg, verify)
    ensures cfg.mode == Jwt ==> (r.Granted? <==> Admissible(authorization, tenantHeader, cfg, verify))
    ensures cfg.mode == Jwt && r.Granted? ==> SpeaksFor(r.principal, BearerClaims(authorization, verify))
    ensures cfg.mode == NoAuth ==> (r.Denied? <==> cfg.requireTenant && TrimSpace(tenantHeader) == "")
    ensures cfg.mode == NoAuth && r.Granted? ==>
      r.principal == Principal("anonymous", TrimSpace(tenantHeader), {}, false)
    ensures cfg.mode.OtherMode? ==> r == Denied(ModeUnsupported)
    ensures r.Denied? && cfg.mode == Jwt ==>
      AuthCode(r.why) == if BearerClaims(authorization, verify).Some? then Forbidden else Unauthorized
  {
    hide TokenScopes;
    if cfg.mode == Jwt { JwtGrantedIff(authorization, tenantHeader, cfg, verify); }
    var principal := ANONYMOUS;
    var headerTenant := TrimSpace(tenantHeader);
    if cfg.mode == NoAuth {
      principal := principal.(tenantID := headerTenant);
      if cfg.requireTenant && principal.tenantID == "" {
        return Denied(TenantHeaderRequired);
      }
      return Granted(principal);
    }
    if cfg.mode != Jwt {
      return Denied(ModeUnsupported);
    }
    var bearer := TrimSpace(authorization);
    if !(BEARER <= bearer) {
      return Denied(TokenMissing);
    }
    var token := verify(TrimSpace(bearer[|BEARER|..]));
    if token.None? {
      return Denied(TokenInvalid);
    }
    principal := principal.(authenticated := true, subject := StringClaim(token.value, "sub", UNKNOWN));
    principal := principal.(tenantID := StringClaim(token.value, "tenant_id", ""));
    if principal.tenantID == "" {
      principal := principal.(tenantID := StringClaim(token.value, "tenant", ""));
    }
    if principal.tenantID == "" {
      return Denied(TenantUnclaimed);
    }
    var scopes := ScopesFromClaims(token.value);
    principal := principal.(scopes := scopes);
    if cfg.requireTenant && headerTenant == "" {
      return Denied(TenantHeaderRequired);
    }
    if headerTenant != "" && headerTenant != principal.tenantID {
      return Denied(TenantHeaderMismatch);
    }
    r := Granted(principal);
  }

  /** `migCodeForAuthErr`: forbidden if the text mentions the tenant. */
  function AuthCode(why: Denial): ErrorCode {
    if why in {TenantUnclaimed, TenantHeaderRequired, TenantHeaderMismatch} then Forbidden else Unauthorized
  }

  /** In JWT mode a denial is "forbidden" exactly if the token was good, so that the tenant was at fault, and otherwise
      "unauthorized". */
  lemma AuthCodeIff(authorization: string, tenantHeader: string, cfg: AuthConfig, verify: string -> Option<Claims>)
    requires cfg.mode == Jwt && Authenticate(authorization, tenantHeader, cfg, verify).Denied?
    ensures AuthCode(Authenticate(authorization, tenantHeader, cfg, verify).why)
         == if BearerClaims(authorization, verify).Some? then Forbidden else Unauthorized
  {
    hide TokenTenant, TokenScopes, StringClaim;
  }

  // ----- binding a header to a principal -----

  const UNKNOWN := "unknown"

  function TenantFromRequest(tenantHeader: string): string {
    if tenantHeader != "" then TrimSpace(tenantHeader) else UNKNOWN
  }

  /** The two meta entries that both fronts add; the scope list is sorted, so the set determines it. */
  function Stamp(head: MessageHeader, p: Principal, scopeList: seq<string>): MessageHeader {
    head.(meta := head.meta["idg.principal_subject" := JStr(p.subject)]
      ["idg.principal_scopes" := JArr(seq(|scopeList|, i requires 0 <= i < |scopeList| => JStr(scopeList[i])))])
  }

  datatype Bound = Bound(head: MessageHeader, error: Option<MigError>)

  /** `applyPrincipalHeader`: the header is updated even when the call is refused. */
  function BindHttp(head: MessageHeader, p: Principal, scopeList: seq<string>, tenantHeader: string): Bound {
    var stamped := Stamp(head, p, scopeList);
    var h :=
      if stamped.tenantID != "" then stamped
      else if p.tenantID != "" then stamped.(tenantID := p.tenantID)
      else stamped.(tenantID := TenantFromRequest(tenantHeader));
    if p.tenantID != "" && h.tenantID != p.tenantID then Bound(h, Some(MigError(Forbidden, TenantMismatch, false)))
    else if h.tenantID == UNKNOWN then Bound(h, Some(Invalid(TenantRequired)))
    else Bound(h, None)
  }

  /** `applyPrincipalHeaderFromPrincipal`. */
  function BindGrpc(head: MessageHeader, p: Principal, scopeList: seq<string>): Bound {
    var stamped := Stamp(head, p, scopeList);
    var h := if stamped.tenantID == "" && p.tenantID != "" then stamped.(tenantID := p.tenantID) else stamped;
    if p.tenantID != "" && h.tenantID != p.tenantID then Bound(h, Some(MigError(Forbidden, TenantMismatch, false)))
    else if h.tenantID == "" then Bound(h, Some(Invalid(TenantRequired)))
    else Bound(h, None)
  }

  method ApplyPrincipalHeader(head: MessageHeader, p: Principal, scopeList: seq<string>, tenantHeader: string)
    returns (b: Bound)
    ensures b == BindHttp(head, p, scopeList, tenantHeader)
  {
    var h := Stamp(head, p, scopeList);
    if h.tenantID == "" {
      if p.tenantID != "" {
        h := h.(tenantID := p.tenantID);
      } else {
        h := h.(tenantID := TenantFromRequest(tenantHeader));
      }
    }
    if p.tenantID != "" && h.tenantID != p.tenantID {
      return Bound(h, Some(MigError(Forbidden, TenantMismatch, false)));
    }
    if h.tenantID == UNKNOWN {
      return Bound(h, Some(Invalid(TenantRequired)));
    }
    b := Bound(h, None);
  }

  method ApplyPrincipalHeaderFromPrincipal(head: MessageHeader, p: Principal, scopeList: seq<string>) returns (b: Bound)
    ensures b == BindGrpc(head, p, scopeList)
  {
    var h := Stamp(head, p, scopeList);
    if h.tenantID == "" && p.tenantID != "" {
      h := h.(tenantID := p.tenantID);
    }
    if p.tenantID != "" && h.tenantID != p.tenantID {
      return Bound(h, Some(MigError(Forbidden, TenantMismatch, false)));
    }
    if h.tenantID == "" {
      return Bound(h, Some(Invalid(TenantRequired)));
    }
    b := Bound(h, None);
  }

  /** The header after a check: the tenant filled in, and the principal's subject and scopes in the meta data. */
  predicate Stamped(h: MessageHeader, given: MessageHeader, tenant: string, p: Principal, scopeList: seq<string>) {
    && h == given.(tenantID := tenant, meta := h.meta)
    && h.meta.Keys == given.meta.Keys + {"idg.principal_subject", "idg.principal_scopes"}
    && h.meta["idg.principal_subject"] == JStr(p.subject)
    && h.meta["idg.principal_scopes"].JArr? && |h.meta["idg.principal_scopes"].items| == |scopeList|
    && (forall i | 0 <= i < |scopeList| :: h.meta["idg.principal_scopes"].items[i] == JStr(scopeList[i]))
    && forall k | k in given.meta && k !in {"idg.principal_subject", "idg.principal_scopes"} ::
      h.meta[k] == given.meta[k]
  }

  /** The tenant of a request: its own, else the principal's, else on HTTP that of the tenant header. A tenant other
      than the principal's is forbidden; on HTTP the tenant "unknown" and on gRPC a missing one is invalid. */
  lemma BindLaws(head: MessageHeader, p: Principal, scopeList: seq<string>, tenantHeader: string)
    ensures var http, grpc := BindHttp(head, p, scopeList, tenantHeader), BindGrpc(head, p, scopeList);
      var own := if head.tenantID != "" then head.tenantID else p.tenantID;
      var tenant := if own != "" then own else if tenantHeader != "" then TrimSpace(tenantHeader) else "unknown";
      && Stamped(http.head, head, tenant, p, scopeList) && Stamped(grpc.head, head, own, p, scopeList)
      && http.error == (
        if p.tenantID !in {"", tenant} then Some(MigError(Forbidden, TenantMismatch, false))
        else if tenant == "unknown" then Some(MigError(InvalidRequest, TenantRequired, false)) else None)
      && grpc.error == (
        if p.tenantID !in {"", own} then Some(MigError(Forbidden, TenantMismatch, false))
        else if own == "" then Some(MigError(InvalidRequest, TenantRequired, false)) else None)
  {
    hide TrimSpace;
  }

  /** The two header checks give the same verdict, and the same header on success, exactly in these cases. */
  lemma BindingsAgreeIff(head: MessageHeader, p: Principal, scopeList: seq<string>, tenantHeader: string)
    ensures var http, grpc := BindHttp(head, p, scopeList, tenantHeader), BindGrpc(head, p, scopeList);
      (http.error == grpc.error && (http.error.None? ==> http == grpc)) <==>
      || p.tenantID !in {"", UNKNOWN}
      || head.tenantID !in {"", UNKNOWN}
      || (p.tenantID == "" && head.tenantID == "" && TenantFromRequest(tenantHeader) == UNKNOWN)
  {
  }

  /** The request's own bearer token verifies and names a tenant, and the tenant header, where present or required,
      names the same one. */
  predicate Admissible(authorization: string, tenantHeader: string, cfg: AuthConfig, verify: string -> Option<Claims>) {
    var token, header := BearerClaims(authorization, verify), TrimSpace(tenantHeader);
    && token.Some? && (HoldsText(token.value, "tenant_id") || HoldsText(token.value, "tenant"))
    && if header == "" then !cfg.requireTenant else NamesTenant(token.value, header)
  }

  /** The principal has the tenant, the subject and exactly the scopes that the token's claims name. */
  ghost predicate SpeaksFor(p: Principal, token: Option<Claims>) {
    && token.Some? && p.authenticated && p.tenantID != ""
    && NamesTenant(token.value, p.tenantID) && NamesSubject(token.value, p.subject)
    && forall w :: w in p.scopes <==> GrantsScope(token.value, w)
  }

  /** In JWT mode a request is let in exactly if it is admissible; the principal is then the token's. */
  lemma JwtGrantedIff(authorization: string, tenantHeader: string, cfg: AuthConfig, verify: string -> Option<Claims>)
    requires cfg.mode == Jwt
    ensures var r := Authenticate(authorization, tenantHeader, cfg, verify);
      && (r.Granted? <==> Admissible(authorization, tenantHeader, cfg, verify))
      && (r.Granted? ==> SpeaksFor(r.principal, BearerClaims(authorization, verify)))
  {
    hide TokenTenant, TokenScopes, StringClaim, GrantsScope, NamesSubject;
    var token := BearerClaims(authorization, verify);
    if token.Some? { TokenLaws(token.value); }
  }

  /** A call that got past authentication and a header check in JWT mode carries the tenant of its own token. */
  lemma JwtBindsTenant(authorization: string, tenantHeader: string, cfg: AuthConfig, verify: string -> Option<Claims>,
                       head: MessageHeader, scopeList: seq<string>)
    requires cfg.mode == Jwt
    requires Authenticate(authorization, tenantHeader, cfg, verify).Granted?
    ensures var p := Authenticate(authorization, tenantHeader, cfg, verify).principal;
      var http, grpc := BindHttp(head, p, scopeList, tenantHeader), BindGrpc(head, p, scopeList);
      && SpeaksFor(p, BearerClaims(authorization, verify))
      && (http.error.None? ==> http.head.tenantID == p.tenantID)
      && (grpc.error.None? ==> grpc.head.tenantID == p.tenantID)
  {
    hide Stamp;
    JwtGrantedIff(authorization, tenantHeader, cfg, verify);
  }
}
