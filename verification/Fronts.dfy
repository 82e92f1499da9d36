/** How requests reach Invoke: over HTTP, WebSocket and gRPC through authentication and the header check, over NATS
    through neither. */
module Fronts {
  import opened MigTypes
  import opened GoStrings
  import opened Auth
  import opened Subjects
  import opened Ledgers
  import opened Invocation
  import opened InvocationLaws
  import opened Decisions
  import opened Services

  datatype Front = HTTP | WebSocket | GRPC

  /** A request as it arrives: credentials, tenant header, capability from path or frame, body. */
  datatype Wire = Wire(
    authorization: string,
    tenantHeader: string,
    capability: string,
    request: InvokeRequest,
    actorHeader: string,
    scopeList: seq<string>,
    freshID: FreshId,
    now: string)

  function Actor(front: Front, p: Principal, actorHeader: string): string {
    if p.subject != "" then p.subject
    else if front.HTTP? && actorHeader != "" then actorHeader
    else "anonymous"
  }

  function Bind(front: Front, head: MessageHeader, p: Principal, scopeList: seq<string>, tenantHeader: string): Bound {
    if front.GRPC? then BindGrpc(head, p, scopeList) else BindHttp(head, p, scopeList, tenantHeader)
  }

  /** The Invoke call a front makes for a request, if authentication and the header check let it through. */
  function Enter(front: Front, cfg: AuthConfig, verify: string -> Option<Claims>, w: Wire): Option<InvokeCall> {
    match Authenticate(w.authorization, w.tenantHeader, cfg, verify)
    case Denied(_) => None
    case Granted(p) =>
      var bound := Bind(front, w.request.header, p, w.scopeList, w.tenantHeader);
      if bound.error.Some? then None
      else
        var request := w.request.(header := bound.head);
        Some(InvokeCall(w.capability, request, Actor(front, p, w.actorHeader), p, w.freshID, w.now))
  }

  /** A call that got in is the request as sent, with the header that the check of its front leaves, in the name of the
      principal, else on HTTP of the actor header, else of nobody. */
  lemma EnterDescribes(front: Front, cfg: AuthConfig, verify: string -> Option<Claims>, w: Wire)
    ensures var auth := Authenticate(w.authorization, w.tenantHeader, cfg, verify);
      && (auth.Denied? ==> Enter(front, cfg, verify, w) == None)
      && (auth.Granted? ==>
        var p := auth.principal;
        var bound := if front.GRPC? then BindGrpc(w.request.header, p, w.scopeList)
                     else BindHttp(w.request.header, p, w.scopeList, w.tenantHeader);
        var actor := if p.subject != "" then p.subject
                     else if front == HTTP && w.actorHeader != "" then w.actorHeader else "anonymous";
        Enter(front, cfg, verify, w) == (
          if bound.error.Some? then None
          else
            var request := InvokeRequest(bound.head, w.request.capability, w.request.payload);
            Some(InvokeCall(w.capability, request, actor, p, w.freshID, w.now))))
  {
    hide Authenticate, BindHttp, BindGrpc;
  }

  /** In JWT mode a call that got in acts for its own token, under the token's tenant. */
  lemma EntersAsItsToken(front: Front, cfg: AuthConfig, verify: string -> Option<Claims>, w: Wire)
    requires cfg.mode == Jwt && Enter(front, cfg, verify, w).Some?
    ensures var call := Enter(front, cfg, verify, w).value;
      && SpeaksFor(call.principal, BearerClaims(w.authorization, verify))
      && call.request.header.tenantID == call.principal.tenantID
      && (call.principal.subject != "" ==> call.actor == call.principal.subject)
      && call.request.header.messageID == w.request.header.messageID
  {
    hide Authenticate, SpeaksFor;
    JwtBindsTenant(w.authorization, w.tenantHeader, cfg, verify, w.request.header, w.scopeList);
  }

  datatype Reply =
    | Unauthenticated(why: Denial)
    | Rejected(error: MigError)
    | Replied(result: Result<InvokeResponse>)

  /** The reason a request was not let in: the failed authentication, or else the failed header check. */
  predicate Turned(reply: Reply, front: Front, cfg: AuthConfig, verify: string -> Option<Claims>, w: Wire) {
    match Authenticate(w.authorization, w.tenantHeader, cfg, verify)
    case Denied(why) => reply == Unauthenticated(why)
    case Granted(p) =>
      var error := if front.GRPC? then BindGrpc(w.request.header, p, w.scopeList).error
                   else BindHttp(w.request.header, p, w.scopeList, w.tenantHeader).error;
      error.Some? && reply == Rejected(error.value)
  }

  /** The unary handlers. A request that does not get in leaves the service alone; one that does is a run of the
      protocol, and in JWT mode only a request whose own token is good can be one. */
  method HandleInvoke(svc: Service, front: Front, cfg: AuthConfig, verify: string -> Option<Claims>, w: Wire,
                      own: nat, gap: Gap)
    returns (reply: Reply)
    requires svc.Valid() && own !in svc.inflight && AllForeign(gap.others, own)
    modifies svc
    ensures svc.Valid() && own !in svc.inflight
    ensures match Enter(front, cfg, verify, w)
      case None => !reply.Replied? && svc.View() == old(svc.View()) && Turned(reply, front, cfg, verify, w)
      case Some(call) =>
        && reply == Replied(CallResult(old(svc.View()), call, gap))
        && svc.View() == Run(old(svc.View()), CallSteps(old(svc.View()), own, call, gap))
        && Settled(old(svc.View()), own, call, gap, svc.View(), reply.result)
    ensures cfg.mode == Jwt && reply.Replied? ==> Admissible(w.authorization, w.tenantHeader, cfg, verify)
  {
    hide Authenticate, Sound, CallSteps, CallResult, Admissible, Run, Settled;
    var auth := PrincipalFromAuthHeaders(w.authorization, w.tenantHeader, cfg, verify);
    if auth.Denied? {
      return Unauthenticated(auth.why);
    }
    var p := auth.principal;
    var bound;
    if front.GRPC? {
      bound := ApplyPrincipalHeaderFromPrincipal(w.request.header, p, w.scopeList);
    } else {
      bound := ApplyPrincipalHeader(w.request.header, p, w.scopeList, w.tenantHeader);
    }
    if bound.error.Some? {
      return Rejected(bound.error.value);
    }
    var actor := p.subject;
    if actor == "" {
      if front.HTTP? {
        actor := w.actorHeader;
      }
      if actor == "" {
        actor := "anonymous";
      }
    }
    var call := InvokeCall(w.capability, w.request.(header := bound.head), actor, p, w.freshID, w.now);
    var r := svc.Invoke(own, call, gap);
    reply := Replied(r);
  }

  // ----- NATS -----

  const NATS_ACTOR := "nats-client"

  /** What the invoke handler passes on: blanks are filled from the subject, and the principal is not an authenticated
      one. */
  function NatsCall(subject: string, request: InvokeRequest, freshID: FreshId, now: string): InvokeCall
    requires Matches(INVOKE_PATTERN, Tokens(subject))
  {
    MatchIsLongEnough(INVOKE_PATTERN, Tokens(subject));
    var given := request.header;
    var head := if given.tenantID == "" then given.(tenantID := Token(subject, 2)) else given;
    var capability := if request.capability == "" then Join(Tokens(subject)[4..], '.') else request.capability;
    var principal := Principal("", head.tenantID, {}, false);
    InvokeCall(capability, request.(header := head, capability := capability), NATS_ACTOR, principal, freshID, now)
  }

  /** Over NATS the request is the message's, with tenant and capability from the subject where it leaves them out:
      the third token, and those from the fifth on. Nobody has authenticated. */
  lemma NatsCallDescribes(subject: string, request: InvokeRequest, freshID: FreshId, now: string)
    requires Matches(INVOKE_PATTERN, Tokens(subject))
    ensures var call, tokens := NatsCall(subject, request, freshID, now), Split(subject, '.');
      && |tokens| >= 5
      && call.request.header == request.header.(tenantID := call.principal.tenantID)
      && call.principal.tenantID == (if request.header.tenantID != "" then request.header.tenantID else tokens[2])
      && call.pathCapability == call.request.capability
      && call.request.capability == (if request.capability != "" then request.capability else Join(tokens[4..], '.'))
      && call.request.payload == request.payload && call.actor == "nats-client" && !call.principal.authenticated
      && call.freshID == freshID && call.now == now
  {
    hide Fits, Split, Join;
    MatchIsLongEnough(INVOKE_PATTERN, Tokens(subject));
  }

  /** The NATS invoke handler. Every message on a matching subject is a run of the protocol, with no token asked for. */
  method HandleNatsInvoke(svc: Service, subject: string, request: InvokeRequest, freshID: FreshId, now: string,
                          own: nat, gap: Gap)
    returns (r: Result<InvokeResponse>)
    requires Matches(INVOKE_PATTERN, Tokens(subject))
    requires svc.Valid() && own !in svc.inflight && AllForeign(gap.others, own)
    modifies svc
    ensures svc.Valid() && own !in svc.inflight
    ensures var call := NatsCall(subject, request, freshID, now);
      && r == CallResult(old(svc.View()), call, gap)
      && svc.View() == Run(old(svc.View()), CallSteps(old(svc.View()), own, call, gap))
      && Settled(old(svc.View()), own, call, gap, svc.View(), r)
  {
    hide Sound, CallSteps, CallResult, Run, Settled;
    HandlersSliceInRange(subject);
    var tenant, capability := Token(subject, 2), Join(Tokens(subject)[4..], '.');
    var req := request;
    if req.header.tenantID == "" {
      req := req.(header := req.header.(tenantID := tenant));
    }
    if req.capability == "" {
      req := req.(capability := capability);
    }
    var principal := Principal("", req.header.tenantID, {}, false);
    r := svc.Invoke(own, InvokeCall(req.capability, req, NATS_ACTOR, principal, freshID, now), gap);
  }

  // ----- all ways in -----

  /** A request and the way it came. */
  datatype Arrival =
    | Over(front: Front, wire: Wire)
    | OverNats(subject: string, request: InvokeRequest, freshID: FreshId, now: string)

  /** The Invoke call that an arrival leads to, if any. */
  function Leads(a: Arrival, cfg: AuthConfig, verify: string -> Option<Claims>): Option<InvokeCall> {
    match a
    case Over(front, w) => Enter(front, cfg, verify, w)
    case OverNats(subject, request, freshID, now) =>
      if Matches(INVOKE_PATTERN, Tokens(subject)) then Some(NatsCall(subject, request, freshID, now)) else None
  }
}
