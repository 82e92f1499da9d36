/** What the operations on the ledger decide and do, read off their arguments: when Invoke refuses, answers from the
    cache or admits, what a commit leaves behind, how the answer of a whole Invoke goes with what it did, and that
    administration is last writer wins. */
module Decisions {
  import opened MigTypes
  import opened Headers
  import opened Ledgers
  import opened Invocation

  // ----- admission -----

  /** The capability named by path or body, path first. */
  function Wanted(c: InvokeCall): string {
    if c.pathCapability != "" then c.pathCapability else c.request.capability
  }

  function MessageID(c: InvokeCall): string {
    if c.request.header.messageID != "" then c.request.header.messageID else c.freshID
  }

  function CacheKey(c: InvokeCall): string {
    c.request.header.tenantID + ":" + Wanted(c) + ":" + c.request.header.idempotencyKey
  }

  predicate WellFormed(c: InvokeCall) {
    Acceptable(c.request.header) && Wanted(c) != ""
  }

  predicate Known(l: Ledger, c: InvokeCall) {
    WellFormed(c) && Wanted(c) in l.capabilities
  }

  /** The caller did not authenticate, or the capability asks for no scope, or the caller has one that it asks for. */
  predicate Allowed(l: Ledger, c: InvokeCall) {
    && Known(l, c)
    && var scopes := l.capabilities[Wanted(c)].authScopes;
       !c.principal.authenticated || scopes == [] || exists sc | sc in scopes :: sc in c.principal.scopes
  }

  predicate Alive(l: Ledger, c: InvokeCall) {
    Allowed(l, c) && MessageID(c) !in l.cancelled
  }

  predicate Cached(l: Ledger, c: InvokeCall) {
    Alive(l, c) && c.request.header.idempotencyKey != "" && CacheKey(c) in l.idempotency
  }

  predicate UsedUp(l: Ledger, tenant: string) {
    && tenant in l.quotas
    && (if tenant in l.tenantInvocations then l.tenantInvocations[tenant] else 0) >= l.quotas[tenant]
  }

  predicate Refused(d: Decision, code: ErrorCode) {
    d.Refuse? && d.error.code == code
  }

  /** The admitted call is the caller's, with the header completed and the descriptor of that moment. */
  predicate IsCall(a: Admitted, l: Ledger, c: InvokeCall)
    requires Known(l, c)
  {
    && a.prep.capability == Wanted(c) && a.prep.payload == c.request.payload
    && a.prep.actor == c.actor && a.prep.principal == c.principal
    && Completes(a.prep.head, c.request.header, c.freshID, c.now)
    && a.desc == l.capabilities[Wanted(c)]
  }

  /** The cached answer under the caller's header. */
  predicate Repeats(r: InvokeResponse, cached: InvokeResponse, c: InvokeCall) {
    && r == cached.(header := r.header)
    && Completes(r.header, c.request.header, c.freshID, c.now)
  }

  /** Each outcome of admission exactly when the arguments and the ledger call for it. In particular a cached key is
      answered also when the quota is used up, and a tenant without quota is never rate limited. */
  lemma JudgeIff(l: Ledger, c: InvokeCall)
    ensures var d := Judge(l, c);
      && (Refused(d, InvalidRequest) <==> !WellFormed(c))
      && (Refused(d, UnsupportedCapability) <==> WellFormed(c) && !Known(l, c))
      && (Refused(d, Forbidden) <==> Known(l, c) && !Allowed(l, c))
      && (Refused(d, Timeout) <==> Allowed(l, c) && !Alive(l, c))
      && (d.Answered? <==> Cached(l, c))
      && (Refused(d, RateLimited) <==> Alive(l, c) && !Cached(l, c) && UsedUp(l, c.request.header.tenantID))
      && (d.Admit? <==> Alive(l, c) && !Cached(l, c) && !UsedUp(l, c.request.header.tenantID))
  {
    hide Completes;
    AcceptLaws(c.request.header, c.freshID, c.now, c.freshID, c.now);
    if Acceptable(c.request.header) { AcceptedFields(c); }
  }

  lemma AcceptedFields(c: InvokeCall)
    requires Acceptable(c.request.header)
    ensures var h := Accept(c.request.header, c.freshID, c.now).value;
      && h.messageID == MessageID(c) && h.tenantID == c.request.header.tenantID
      && h.idempotencyKey == c.request.header.idempotencyKey
  {
  }

  /** The text and the advice that go with each refusal. */
  predicate Explains(e: MigError, l: Ledger, c: InvokeCall) {
    match e.code
    case InvalidRequest =>
      e == MigError(InvalidRequest,
        if c.request.header.migVersion !in {"", "0.1"} then UnsupportedVersion
        else if c.request.header.tenantID == "" then TenantRequired else CapabilityRequired, false)
    case UnsupportedCapability => e == MigError(UnsupportedCapability, CapabilityNotFound, false)
    case Forbidden => e == MigError(Forbidden, InsufficientScope, false)
    case Timeout =>
      MessageID(c) in l.cancelled && e == MigError(Timeout, InvocationCancelled(l.cancelled[MessageID(c)]), true)
    case RateLimited => e == MigError(RateLimited, TenantQuotaExceeded, true)
    case NotFound => false
    case Unauthorized => false
  }

  /** What comes with each outcome. */
  lemma JudgeDetails(l: Ledger, c: InvokeCall)
    ensures var d := Judge(l, c);
      && (d.Admit? ==> Known(l, c) && IsCall(d.call, l, c))
      && (d.Answered? ==> CacheKey(c) in l.idempotency && Repeats(d.response, l.idempotency[CacheKey(c)], c))
      && (d.Refuse? ==> Explains(d.error, l, c))
  {
    hide Completes;
    JudgeIff(l, c);
    AcceptLaws(c.request.header, c.freshID, c.now, c.freshID, c.now);
    if Acceptable(c.request.header) { AcceptedFields(c); }
  }

  // ----- what a commit leaves behind -----

  /** A response to the caller with header `head` that carries what call `a` was asked and found at admission. */
  predicate Conveys(r: InvokeResponse, head: MessageHeader, a: Admitted) {
    && r.header == head && r.capability == a.prep.capability && r.resultSchemaURI == a.desc.outputSchemaURI
    && r.payload.JObj? && r.payload.fields.Keys == {"result", "echo", "capability", "delivery_qos"}
    && r.payload.fields["result"] == JStr("ok") && r.payload.fields["echo"] == a.prep.payload
    && r.payload.fields["capability"] == JStr(a.prep.capability)
    && r.payload.fields["delivery_qos"] == JStr(a.desc.deliverySemantics)
  }

  lemma AnswerConveys(a: Admitted, head: MessageHeader)
    ensures Conveys(Answer(a).(header := head), head, a)
    ensures Conveys(Answer(a), a.prep.head, a)
  {
  }

  predicate Bumped(m: map<string, int>, m': map<string, int>, k: string) {
    m' == m[k := (if k in m then m[k] else 0) + 1]
  }

  /** `l'` is `l` with the call written down: one audit record, both counters one higher, and its answer cached if it
      has an idempotency key. */
  predicate WrittenDown(l: Ledger, l': Ledger, a: Admitted, stamp: string) {
    var h, capability := a.prep.head, a.prep.capability;
    && l'.audit == l.audit + [AuditRecord(a.prep.actor, h.tenantID, capability, "success", stamp, h.messageID)]
    && Bumped(l.tenantInvocations, l'.tenantInvocations, h.tenantID)
    && Bumped(l.capabilityInvocations, l'.capabilityInvocations, capability)
    && l'.capabilities == l.capabilities && l'.cancelled == l.cancelled && l'.quotas == l.quotas
    && (h.idempotencyKey == "" ==> l'.idempotency == l.idempotency)
    && (h.idempotencyKey != "" ==>
      var key := h.tenantID + ":" + capability + ":" + h.idempotencyKey;
      && key in l'.idempotency && Conveys(l'.idempotency[key], h, a)
      && l'.idempotency == l.idempotency[key := l'.idempotency[key]])
  }

  lemma CommitWritesDown(l: Ledger, a: Admitted, stamp: string)
    ensures WrittenDown(l, Commit(l, a, stamp), a, stamp)
  {
    hide Conveys;
    AnswerConveys(a, a.prep.head);
  }

  // ----- the answer of a whole Invoke -----

  /** The answer `r` goes with what the call did between `s` and `s'`. A refusal or a cache hit leaves everything as
      it was. An admitted call is answered with its result exactly if it has been written down on top of what others
      did, and with a timeout exactly if it has left nothing. */
  predicate Settled(s: Sys, own: nat, c: InvokeCall, gap: Gap, s': Sys, r: Result<InvokeResponse>) {
    match Judge(s.ledger, c)
    case Refuse(e) => r == Err(e) && s' == s
    case Answered(response) => r == Ok(response) && s' == s
    case Admit(a) =>
      var mid := Run(s, [Begin(own, c)] + gap.others);
      && own in mid.inflight && mid.inflight[own] == a && s'.inflight == mid.inflight - {own}
      && (r.Ok? <==> !gap.expired)
      && (r.Ok? <==> WrittenDown(mid.ledger, s'.ledger, a, gap.stamp))
      && (r.Ok? ==> Conveys(r.value, a.prep.head, a))
      && (r.Err? <==> s'.ledger == mid.ledger)
      && (r.Err? ==> r.error == MigError(Timeout, DeadlineExceeded, true))
  }

  lemma InvokeSettles(s: Sys, own: nat, c: InvokeCall, gap: Gap)
    requires own !in s.inflight && AllForeign(gap.others, own)
    ensures Settled(s, own, c, gap, Run(s, CallSteps(s, own, c, gap)), CallResult(s, c, gap))
  {
    hide Apply, Judge, Run, WrittenDown, Conveys, AllForeign;
    var first := [Begin(own, c)];
    OneStep(s, Begin(own, c));
    BeginStep(s, own, c);
    var d := Judge(s.ledger, c);
    if d.Admit? {
      var a, began := d.call, Run(s, first);
      RunAppend(s, first, gap.others);
      ForeignStepsSpare(began, gap.others, own);
      var mid := Run(s, first + gap.others);
      RunSnoc(s, first + gap.others, LastStep(own, gap));
      LastStepSettles(mid, own, gap);
      AnswerConveys(a, a.prep.head);
    }
  }

  lemma LastStepSettles(mid: Sys, own: nat, gap: Gap)
    requires own in mid.inflight
    ensures var s', a := Apply(mid, LastStep(own, gap)), mid.inflight[own];
      && s'.inflight == mid.inflight - {own}
      && (WrittenDown(mid.ledger, s'.ledger, a, gap.stamp) <==> !gap.expired)
      && (s'.ledger == mid.ledger <==> gap.expired)
  {
    hide Conveys;
    CommitWritesDown(mid.ledger, mid.inflight[own], gap.stamp);
    NotBoth(mid.ledger, mid.inflight[own], gap.stamp);
  }

  lemma NotBoth(l: Ledger, a: Admitted, stamp: string)
    ensures !WrittenDown(l, l, a, stamp)
  {
    hide Conveys;
    assert |l.audit + [Record(a, stamp)]| == |l.audit| + 1;
  }

  // ----- administration: the last writer wins -----

  /** The value of the last step of the run that writes one. */
  function Latest<T>(t: seq<Step>, f: Step -> Option<T>): Option<T> {
    if t == [] then None
    else if f(t[|t| - 1]).Some? then f(t[|t| - 1]) else Latest(t[..|t| - 1], f)
  }

  /** An accepted quota for the tenant. */
  function Quota(tenant: string): Step -> Option<int> {
    (step: Step) =>
      if step.SetQuota? && step.tenant == tenant && tenant != "" && step.max > 0 then Some(step.max) else None
  }

  /** An accepted descriptor with the ID. */
  function Description(id: string): Step -> Option<CapabilityDescriptor> {
    (step: Step) =>
      if step.AddCapability? && step.desc.id == id && "" !in [id, step.desc.version, step.desc.inputSchemaURI,
        step.desc.outputSchemaURI] then Some(step.desc) else None
  }

  /** The reason of an accepted cancel of the message: path first, then body. */
  function Cancelling(messageID: string): Step -> Option<string> {
    (step: Step) =>
      if step.Cancel? && Acceptable(step.request.header) && messageID != ""
        && messageID == (if step.messageID != "" then step.messageID else step.request.targetMessageID)
      then Some(step.request.reason) else None
  }

  /** What a map holds under a key. */
  function At<T>(m: map<string, T>, k: string): Option<T> {
    if k in m then Some(m[k]) else None
  }

  function Or<T>(a: Option<T>, b: Option<T>): Option<T> {
    if a.Some? then a else b
  }

  /** After any run a quota, a capability and a cancel reason are those of the last accepted step that set them, whole
      and unchanged, or else what they were before. */
  lemma {:induction false} LastWriterWins(s: Sys, t: seq<Step>, k: string)
    ensures At(Run(s, t).ledger.quotas, k) == Or(Latest(t, Quota(k)), At(s.ledger.quotas, k))
    ensures At(Run(s, t).ledger.capabilities, k) == Or(Latest(t, Description(k)), At(s.ledger.capabilities, k))
    ensures At(Run(s, t).ledger.cancelled, k) == Or(Latest(t, Cancelling(k)), At(s.ledger.cancelled, k))
    decreases t
  {
    hide Apply, Run, Quota, Description, Cancelling;
    if t == [] {
      NoSteps(s);
    } else {
      var n := |t| - 1;
      assert t == t[..n] + [t[n]];
      LastWriterWins(s, t[..n], k);
      RunSnoc(s, t[..n], t[n]);
      OneWriter(Run(s, t[..n]), t[n], k);
    }
  }

  lemma OneWriter(s: Sys, step: Step, k: string)
    ensures At(Apply(s, step).ledger.quotas, k) == Or(Quota(k)(step), At(s.ledger.quotas, k))
    ensures At(Apply(s, step).ledger.capabilities, k) == Or(Description(k)(step), At(s.ledger.capabilities, k))
    ensures At(Apply(s, step).ledger.cancelled, k) == Or(Cancelling(k)(step), At(s.ledger.cancelled, k))
  {
    hide Judge, Commit, Completes;
    if step.Cancel? { AcceptLaws(step.request.header, step.freshID, step.now, step.freshID, step.now); }
    if step.Finish? && step.id in s.inflight { CommitWritesDown(s.ledger, s.inflight[step.id], step.stamp); }
  }

  /** The answer to a cancel. */
  lemma CancelIff(l: Ledger, req: CancelRequest, messageID: string, freshID: FreshId, now: string)
    ensures var r := CancelMessage(l, req, messageID, freshID, now).result;
      var target := if messageID != "" then messageID else req.targetMessageID;
      && (r.Ok? <==> Acceptable(req.header) && target != "")
      && (r.Ok? ==> r.value == CancelAck(r.value.header, target, true, "cancelled"))
      && (r.Ok? ==> Completes(r.value.header, req.header, freshID, now))
      && (r.Err? ==> r.error == MigError(InvalidRequest,
        if req.header.migVersion !in {"", "0.1"} then UnsupportedVersion
        else if req.header.tenantID == "" then TenantRequired else TargetRequired, false))
  {
    hide Completes;
    AcceptLaws(req.header, freshID, now, freshID, now);
  }
}
