/** The records that travel through the gateway. JSON values are immutable here, so the aliasing of
    Go maps between caller, cache and log is not visible. */
module MigTypes {

  datatype Option<+T> = None | Some(value: T)

  datatype ErrorCode =
    | InvalidRequest
    | Unauthorized
    | Forbidden
    | NotFound
    | UnsupportedCapability
    | Timeout
    | RateLimited

  /** The message texts, each named once. */
  datatype Reason =
    | UnsupportedVersion
    | TenantRequired
    | CapabilityRequired
    | CapabilityNotFound
    | InsufficientScope
    | InvocationCancelled(why: string)
    | TenantQuotaExceeded
    | DeadlineExceeded
    | TargetRequired
    | TenantMismatch
    | TopicRequired
    | TopicNotNamespaced
    | BadResumeCursor
    | QuotaNotPositive
    | DescriptorIncomplete
    | SchemaURIsRequired
    | NameRequired
    | NameAndOrgRequired
    | OrgNotFound
    | GatewayFieldsRequired
    | TenantNotFound
    | UnsupportedControlAction
    | BadFrameKind

  datatype MigError = MigError(code: ErrorCode, message: Reason, retryable: bool)

  datatype Result<+T> = Ok(value: T) | Err(error: MigError)

  const MIG_VERSION := "0.1"

  function Invalid(message: Reason): MigError {
    MigError(InvalidRequest, message, false)
  }

  /** A generated identifier: never the empty string. */
  type FreshId = s: string | s != "" witness "0"

  datatype Json =
    | JNull
    | JBool(b: bool)
    | JNum(n: real)
    | JStr(s: string)
    | JArr(items: seq<Json>)
    | JObj(fields: map<string, Json>)

  datatype MessageHeader = MessageHeader(
    migVersion: string,
    messageID: string,
    timestamp: string,
    tenantID: string,
    sessionID: string,
    traceparent: string,
    idempotencyKey: string,
    deadlineMS: int,
    meta: map<string, Json>)

  datatype Principal = Principal(subject: string, tenantID: string, scopes: set<string>, authenticated: bool)

  datatype CapabilityDescriptor = CapabilityDescriptor(
    id: string,
    version: string,
    modes: seq<string>,
    inputSchemaURI: string,
    outputSchemaURI: string,
    eventTopics: seq<string>,
    authScopes: seq<string>,
    deliverySemantics: string)

  datatype InvokeRequest = InvokeRequest(header: MessageHeader, capability: string, payload: Json)

  datatype InvokeResponse = InvokeResponse(
    header: MessageHeader,
    capability: string,
    payload: Json,
    resultSchemaURI: string)

  datatype CancelRequest = CancelRequest(header: MessageHeader, targetMessageID: string, reason: string)

  datatype CancelAck = CancelAck(header: MessageHeader, targetMessageID: string, accepted: bool, status: string)

  datatype AuditRecord = AuditRecord(
    actor: string,
    tenantID: string,
    capability: string,
    outcome: string,
    timestamp: string,
    messageID: string)

  datatype EventMessage = EventMessage(
    header: MessageHeader,
    topic: string,
    eventID: string,
    sequence: int,
    payload: Json,
    publishedAt: string,
    replay: bool)

  datatype PublishRequest = PublishRequest(header: MessageHeader, topic: string, payload: Json)

  datatype PublishAck = PublishAck(header: MessageHeader, topic: string, eventID: string, sequence: int, accepted: bool)

  datatype StreamFrame = StreamFrame(
    header: MessageHeader,
    streamID: string,
    capability: string,
    kind: string,
    payload: Json,
    endStream: bool,
    error: Option<MigError>)
}
