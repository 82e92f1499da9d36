/** What Invoke reads and writes under the service lock, as functions on values: the admission decision of the
    read-locked section, the effect of the write-locked section, and the other operations on the same fields. */
module Ledgers {
  import opened MigTypes
  import opened Headers
  import opened Auth
  import opened Counting

  datatype Ledger = Ledger(
    capabilities: map<string, CapabilityDescriptor>,
    idempotency: map<string, InvokeResponse>,
    cancelled: map<string, string>,
    quotas: map<string, int>,
    tenantInvocations: map<string, int>,
    capabilityInvocations: map<string, int>,
    audit: seq<AuditRecord>)

  const DEFAULT_CAPABILITY := "observatory.models.infer"

  const DEFAULT_DESCRIPTOR := CapabilityDescriptor(
    DEFAULT_CAPABILITY, "1.0.0", ["unary", "server_stream"],
    "schema://observatory/models/infer-input/v1", "schema://observatory/models/infer-output/v1",
    ["observatory.inference.completed"], ["capability:infer"], "at_least_once")

  /** The fields as `NewService` leaves them. */
  const BOOT_LEDGER := Ledger(map[DEFAULT_CAPABILITY := DEFAULT_DESCRIPTOR], map[], map[], map[], map[], map[], [])

  // ----- INVOKE -----

  /** The arguments of Invoke, with the generated message ID and the clock reading it would draw. */
  datatype InvokeCall = InvokeCall(
    pathCapability: string,
    request: InvokeRequest,
    actor: string,
    principal: Principal,
    freshID: FreshId,
    now: string)

  datatype Prepared = Prepared(
    capability: string,
    head: MessageHeader,
    payload: Json,
    actor: string,
    principal: Principal)

  /** A call past admission: it keeps the descriptor it read. */
  datatype Admitted = Admitted(prep: Prepared, desc: CapabilityDescriptor)

  datatype Decision = Refuse(error: MigError) | Answered(response: InvokeResponse) | Admit(call: Admitted)

  function Prepare(c: InvokeCall): Result<Prepared> {
    match Accept(c.request.header, c.freshID, c.now)
    case Err(e) => Err(e)
    case Ok(head) =>
      var capability := if c.pathCapability == "" then c.request.capability else c.pathCapability;
      if capability == "" then Err(Invalid(CapabilityRequired))
      else Ok(Prepared(capability, head, c.request.payload, c.actor, c.principal))
  }

  function PrintKey(tenant: string, capability: string, key: string): string {
    tenant + ":" + capability + ":" + key
  }

  function KeyOf(p: Prepared): string {
    PrintKey(p.head.tenantID, p.capability, p.head.idempotencyKey)
  }

  /** The read-locked section together with the quota test on its snapshot. */
  function Decide(l: Ledger, p: Prepared): Decision {
    if p.capability !in l.capabilities then Refuse(MigError(UnsupportedCapability, CapabilityNotFound, false))
    else
      var desc := l.capabilities[p.capability];
      if !HasAnyScope(p.principal, desc.authScopes) then Refuse(MigError(Forbidden, InsufficientScope, false))
      else if p.head.messageID in l.cancelled then
        Refuse(MigError(Timeout, InvocationCancelled(l.cancelled[p.head.messageID]), true))
      else if p.head.idempotencyKey != "" && KeyOf(p) in l.idempotency then
        Answered(l.idempotency[KeyOf(p)].(header := p.head))
      else if p.head.tenantID in l.quotas && Get(l.tenantInvocations, p.head.tenantID) >= l.quotas[p.head.tenantID] then
        Refuse(MigError(RateLimited, TenantQuotaExceeded, true))
      else Admit(Admitted(p, desc))
  }

  function Judge(l: Ledger, c: InvokeCall): Decision {
    match Prepare(c)
    case Err(e) => Refuse(e)
    case Ok(p) => Decide(l, p)
  }

  function Answer(a: Admitted): InvokeResponse {
    InvokeResponse(a.prep.head, a.prep.capability,
      JObj(map["result" := JStr("ok"), "echo" := a.prep.payload, "capability" := JStr(a.prep.capability),
               "delivery_qos" := JStr(a.desc.deliverySemantics)]),
      a.desc.outputSchemaURI)
  }

  function Record(a: Admitted, stamp: string): AuditRecord {
    AuditRecord(a.prep.actor, a.prep.head.tenantID, a.prep.capability, "success", stamp, a.prep.head.messageID)
  }

  /** The write-locked section. */
  function Commit(l: Ledger, a: Admitted, stamp: string): Ledger {
    l.(idempotency := if a.prep.head.idempotencyKey == "" then l.idempotency
                      else l.idempotency[KeyOf(a.prep) := Answer(a)],
       tenantInvocations := Increment(l.tenantInvocations, a.prep.head.tenantID),
       capabilityInvocations := Increment(l.capabilityInvocations, a.prep.capability),
       audit := l.audit + [Record(a, stamp)])
  }

  // ----- CANCEL, quotas, capabilities -----

  datatype Outcome<+T> = Outcome(ledger: Ledger, result: Result<T>)

  function CancelMessage(l: Ledger, req: CancelRequest, messageID: string, freshID: FreshId, now: string)
    : Outcome<CancelAck>
  {
    match Accept(req.header, freshID, now)
    case Err(e) => Outcome(l, Err(e))
    case Ok(head) =>
      var target := if messageID == "" then req.targetMessageID else messageID;
      if target == "" then Outcome(l, Err(Invalid(TargetRequired)))
      else Outcome(l.(cancelled := l.cancelled[target := req.reason]), Ok(CancelAck(head, target, true, "cancelled")))
  }

  function PutQuota(l: Ledger, tenant: string, max: int): Outcome<int> {
    if tenant == "" then Outcome(l, Err(Invalid(TenantRequired)))
    else if max <= 0 then Outcome(l, Err(Invalid(QuotaNotPositive)))
    else Outcome(l.(quotas := l.quotas[tenant := max]), Ok(max))
  }

  function PutCapability(l: Ledger, d: CapabilityDescriptor): Outcome<()> {
    if d.id == "" || d.version == "" then Outcome(l, Err(Invalid(DescriptorIncomplete)))
    else if d.inputSchemaURI == "" || d.outputSchemaURI == "" then Outcome(l, Err(Invalid(SchemaURIsRequired)))
    else Outcome(l.(capabilities := l.capabilities[d.id := d]), Ok(()))
  }
}
