/** Header defaulting and validation, and what becomes of a deadline on its way to a timer. */
module Headers {
  import opened MigTypes

  const DEFAULT_DEADLINE_MS := 30000

  /** The header an operation works with: the caller's header is copied, so this is a new value. */
  function Normalize(h: MessageHeader, freshID: FreshId, now: string): Result<MessageHeader> {
    var version := if h.migVersion == "" then MIG_VERSION else h.migVersion;
    if version != MIG_VERSION then Err(Invalid(UnsupportedVersion))
    else if h.tenantID == "" then Err(Invalid(TenantRequired))
    else Ok(h.(
      migVersion := version,
      messageID := if h.messageID == "" then freshID else h.messageID,
      timestamp := if h.timestamp == "" then now else h.timestamp,
      deadlineMS := if h.deadlineMS <= 0 then DEFAULT_DEADLINE_MS else h.deadlineMS))
  }

  function AddIDGMeta(h: MessageHeader): MessageHeader {
    h.(meta := h.meta["idg.product_tier" := JStr("core")]["idg.meter_key" := JStr("invocations_capability_tier")])
  }

  /** Normalize followed by AddIDGMeta, as every operation starts. */
  function Accept(h: MessageHeader, freshID: FreshId, now: string): Result<MessageHeader> {
    match Normalize(h, freshID, now)
    case Err(e) => Err(e)
    case Ok(head) => Ok(AddIDGMeta(head))
  }

  /** A header an operation can proceed with. */
  predicate Complete(h: MessageHeader) {
    && h.migVersion == MIG_VERSION
    && h.messageID != ""
    && h.tenantID != ""
    && h.deadlineMS > 0
  }

  /** `h` is what an operation makes of the caller's header: every field as given where the caller filled it in,
      defaults for version, message ID, timestamp and deadline, and the two product entries in the meta data. */
  predicate Completes(h: MessageHeader, given: MessageHeader, freshID: string, now: string) {
    && h.migVersion == "0.1"
    && h.messageID == (if given.messageID != "" then given.messageID else freshID)
    && h.timestamp == (if given.timestamp != "" then given.timestamp else now)
    && h.tenantID == given.tenantID && h.sessionID == given.sessionID && h.traceparent == given.traceparent
    && h.idempotencyKey == given.idempotencyKey
    && h.deadlineMS == (if given.deadlineMS > 0 then given.deadlineMS else 30000)
    && h.meta.Keys == given.meta.Keys + {"idg.product_tier", "idg.meter_key"}
    && h.meta["idg.product_tier"] == JStr("core")
    && h.meta["idg.meter_key"] == JStr("invocations_capability_tier")
    && forall k | k in given.meta && k !in {"idg.product_tier", "idg.meter_key"} :: h.meta[k] == given.meta[k]
  }

  /** The version is this one or left out, and there is a tenant. */
  predicate Acceptable(h: MessageHeader) {
    h.migVersion in {"", "0.1"} && h.tenantID != ""
  }

  /** Acceptance depends on version and tenant alone; an accepted header is completed, and is accepted again unchanged
      whatever fresh values are offered. */
  lemma AcceptLaws(h: MessageHeader, freshID: FreshId, now: string, freshID': FreshId, now': string)
    ensures var r := Accept(h, freshID, now);
      && (r.Ok? <==> Acceptable(h))
      && (r.Ok? ==> Complete(r.value) && Completes(r.value, h, freshID, now))
      && (r.Ok? && now != "" ==> Accept(r.value, freshID', now') == r)
      && (r.Err? ==> r.error == MigError(InvalidRequest,
        if h.migVersion in {"", "0.1"} then TenantRequired else UnsupportedVersion, false))
  {
    var r := Accept(h, freshID, now);
    if r.Ok? {
      var again := Accept(r.value, freshID', now');
      assert again.value.meta == r.value.meta;
    }
  }

  /** `MessageHeader.Normalize` on the operation's own copy: refused for a foreign version or a missing tenant alone,
      and otherwise completed. */
  method NormalizeHeader(h: MessageHeader, freshID: FreshId, now: string) returns (r: Result<MessageHeader>)
    ensures r == Normalize(h, freshID, now)
    ensures r.Ok? <==> Acceptable(h)
    ensures r.Ok? ==> Complete(r.value) && r.value.tenantID == h.tenantID
  {
    var head := h;
    if head.migVersion == "" {
      head := head.(migVersion := MIG_VERSION);
    }
    if head.migVersion != MIG_VERSION {
      return Err(Invalid(UnsupportedVersion));
    }
    if head.messageID == "" {
      head := head.(messageID := freshID);
    }
    if head.timestamp == "" {
      head := head.(timestamp := now);
    }
    if head.tenantID == "" {
      return Err(Invalid(TenantRequired));
    }
    if head.deadlineMS <= 0 {
      head := head.(deadlineMS := DEFAULT_DEADLINE_MS);
    }
    r := Ok(head);
  }

  /** How every operation starts. */
  method AcceptHeader(h: MessageHeader, freshID: FreshId, now: string) returns (r: Result<MessageHeader>)
    ensures r == Accept(h, freshID, now)
    ensures r.Ok? <==> Acceptable(h)
    ensures r.Ok? ==> Complete(r.value) && Completes(r.value, h, freshID, now)
  {
    r := NormalizeHeader(h, freshID, now);
    if r.Ok? {
      var meta := r.value.meta;
      meta := meta["idg.product_tier" := JStr("core")];
      meta := meta["idg.meter_key" := JStr("invocations_capability_tier")];
      r := Ok(r.value.(meta := meta));
    }
  }

  // ----- deadlines -----

  const TWO_32 := 0x1_0000_0000
  const TWO_63 := 0x8000_0000_0000_0000
  const TWO_64 := 0x1_0000_0000_0000_0000
  const NANOS_PER_MS := 1_000_000

  predicate IsInt64(x: int) { -TWO_63 <= x < TWO_63 }

  /** Two's complement wrap-around of a 64-bit product. */
  function Wrap64(x: int): int {
    (x + TWO_63) % TWO_64 - TWO_63
  }

  /** `time.Duration(ms) * time.Millisecond`. */
  function DeadlineNanos(ms: int): int {
    Wrap64(ms * NANOS_PER_MS)
  }

  /** `uint32(ms)`. */
  function DeadlineToWire(ms: int): int {
    ms % TWO_32
  }

  const MAX_EXACT_DEADLINE_MS := 9223372036854

  /** A deadline accepted from JSON gets its exact nanosecond count precisely up to the stated bound. */
  lemma DeadlineExactIff(h: MessageHeader, freshID: FreshId, now: string)
    requires IsInt64(h.deadlineMS) && Accept(h, freshID, now).Ok?
    ensures var ms := Accept(h, freshID, now).value.deadlineMS;
      (DeadlineNanos(ms) == ms * NANOS_PER_MS) <==> ms <= MAX_EXACT_DEADLINE_MS
  {
    var ms := Accept(h, freshID, now).value.deadlineMS;
    WrapIdentity(ms * NANOS_PER_MS);
    assert ms <= MAX_EXACT_DEADLINE_MS <==> ms * NANOS_PER_MS < TWO_63;
  }

  lemma WrapIdentity(x: int)
    ensures Wrap64(x) == x <==> IsInt64(x)
  {
  }

  /** One millisecond past the bound the timer is already in the past when it is armed. */
  lemma DeadlinePastBoundIsNegative()
    ensures DeadlineNanos(MAX_EXACT_DEADLINE_MS + 1) < 0
  {
  }

  /** Every uint32 from the gRPC wire yields a positive exact timer and goes back unchanged, 0 as the default. */
  lemma DeadlineFromWire(h: MessageHeader, freshID: FreshId, now: string)
    requires 0 <= h.deadlineMS < TWO_32 && Accept(h, freshID, now).Ok?
    ensures var ms := Accept(h, freshID, now).value.deadlineMS;
      && DeadlineNanos(ms) == ms * NANOS_PER_MS > 0
      && IsInt64(ms * NANOS_PER_MS)
      && DeadlineToWire(ms) == if h.deadlineMS == 0 then DEFAULT_DEADLINE_MS else h.deadlineMS
  {
    var ms := Accept(h, freshID, now).value.deadlineMS;
    WrapIdentity(ms * NANOS_PER_MS);
  }
}
