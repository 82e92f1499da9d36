/** The invocation half of the service as it runs: one class with the shared maps, whose methods update them in place.
    Each method body is one critical section, except Invoke, which lets other goroutines in between its two. */
module Services {
  import opened MigTypes
  import opened GoStrings
  import opened Headers
  import opened Auth
  import opened Ledgers
  import opened Invocation
  import opened InvocationLaws
  import opened Decisions
  import opened Counting
  import opened Sorting

  /** The descriptors Discover may list. */
  predicate Visible(d: CapabilityDescriptor, query: string, p: Principal) {
    (query == "" || Contains(d.id, query)) && HasAnyScope(p, d.authScopes)
  }

  /** The query occurs in the ID, and the caller may invoke the capability. */
  ghost predicate Seen(d: CapabilityDescriptor, query: string, p: Principal) {
    && (query == "" || exists i :: 0 <= i <= |d.id| && query <= d.id[i..])
    && (!p.authenticated || d.authScopes == [] || exists sc | sc in d.authScopes :: sc in p.scopes)
  }

  lemma VisibleIff(d: CapabilityDescriptor, query: string, p: Principal)
    ensures Visible(d, query, p) <==> Seen(d, query, p)
  {
    hide Contains;
    ContainsIff(d.id, query);
  }

  datatype Usage = Usage(tenantInvocations: map<string, int>, capabilityInvocations: map<string, int>, total: int)

  class Service {
    var capabilities: map<string, CapabilityDescriptor>
    var idempotency: map<string, InvokeResponse>
    var cancelled: map<string, string>
    var quotas: map<string, int>
    var tenantInvocations: map<string, int>
    var capabilityInvocations: map<string, int>
    var audit: seq<AuditRecord>
    /** The calls between their two sections. In Go each of them lives on the stack of its goroutine. */
    var inflight: map<nat, Admitted>

    ghost function View(): Sys
      reads this
    {
      Sys(Ledger(capabilities, idempotency, cancelled, quotas, tenantInvocations, capabilityInvocations, audit),
          inflight)
    }

    ghost predicate Valid()
      reads this
    {
      Sound(View())
    }

    constructor ()
      ensures Valid() && View() == BOOTED
    {
      capabilities := map[DEFAULT_CAPABILITY := DEFAULT_DESCRIPTOR];
      idempotency, cancelled, quotas := map[], map[], map[];
      tenantInvocations, capabilityInvocations, audit := map[], map[], [];
      inflight := map[];
      new;
      BootedIsSound();
    }

    // ----- INVOKE -----

    /** Validation, the read-locked section, and the quota test on what it read. */
    method Consider(call: InvokeCall) returns (d: Decision)
      ensures d == Judge(View().ledger, call)
    {
      var accepted := AcceptHeader(call.request.header, call.freshID, call.now);
      if accepted.Err? {
        return Refuse(accepted.error);
      }
      var head := accepted.value;
      var capability := call.pathCapability;
      if capability == "" {
        capability := call.request.capability;
      }
      if capability == "" {
        return Refuse(Invalid(CapabilityRequired));
      }
      var prep := Prepared(capability, head, call.request.payload, call.actor, call.principal);
      if capability !in capabilities {
        return Refuse(MigError(UnsupportedCapability, CapabilityNotFound, false));
      }
      var desc := capabilities[capability];
      if !HasAnyScope(call.principal, desc.authScopes) {
        return Refuse(MigError(Forbidden, InsufficientScope, false));
      }
      if head.messageID in cancelled {
        return Refuse(MigError(Timeout, InvocationCancelled(cancelled[head.messageID]), true));
      }
      if head.idempotencyKey != "" {
        var key := PrintKey(head.tenantID, capability, head.idempotencyKey);
        if key in idempotency {
          return Answered(idempotency[key].(header := head));
        }
      }
      var used := if head.tenantID in tenantInvocations then tenantInvocations[head.tenantID] else 0;
      if head.tenantID in quotas && used >= quotas[head.tenantID] {
        return Refuse(MigError(RateLimited, TenantQuotaExceeded, true));
      }
      d := Admit(Admitted(prep, desc));
    }

    /** The first half of Invoke: an admitted call goes on under its name. */
    method Begin(own: nat, call: InvokeCall) returns (d: Decision)
      requires Valid()
      modifies this`inflight
      ensures Valid() && View() == Apply(old(View()), Invocation.Begin(own, call))
      ensures d == Judge(old(View()).ledger, call)
    {
      hide Judge, Sound;
      StepKeepsSound(View(), Invocation.Begin(own, call));
      d := Consider(call);
      if d.Admit? && own !in inflight {
        inflight := inflight[own := d.call];
      }
    }

    /** The write-locked section. */
    method Finish(own: nat, stamp: string) returns (response: InvokeResponse)
      requires Valid() && own in inflight
      modifies this`idempotency, this`tenantInvocations, this`capabilityInvocations, this`audit, this`inflight
      ensures Valid() && View() == Apply(old(View()), Invocation.Finish(own, stamp))
      ensures response == Answer(old(inflight)[own])
    {
      hide Sound;
      StepKeepsSound(View(), Invocation.Finish(own, stamp));
      var a := inflight[own];
      response := Answer(a);
      if a.prep.head.idempotencyKey != "" {
        idempotency := idempotency[KeyOf(a.prep) := response];
      }
      tenantInvocations := Increment(tenantInvocations, a.prep.head.tenantID);
      capabilityInvocations := Increment(capabilityInvocations, a.prep.capability);
      audit := audit + [Record(a, stamp)];
      inflight := inflight - {own};
    }

    /** The deadline has won: the call goes away without a trace. */
    method Expire(own: nat)
      requires Valid()
      modifies this`inflight
      ensures Valid() && View() == Apply(old(View()), Invocation.Expire(own))
    {
      hide Sound;
      StepKeepsSound(View(), Invocation.Expire(own));
      inflight := inflight - {own};
    }

    /** The whole call, with others at work between its two sections: a run of the protocol, answered as its first
        section and the race with the deadline decide. */
    method Invoke(own: nat, call: InvokeCall, gap: Gap) returns (r: Result<InvokeResponse>)
      requires Valid() && own !in inflight && AllForeign(gap.others, own)
      modifies this
      ensures Valid() && own !in inflight
      ensures View() == Run(old(View()), CallSteps(old(View()), own, call, gap))
      ensures r == CallResult(old(View()), call, gap)
      ensures Settled(old(View()), own, call, gap, View(), r)
    {
      hide Apply, Judge, Sound, Run, Settled;
      ghost var was := View();
      InvokeSettles(was, own, call, gap);
      CallStepsEnd(was, own, call, gap);
      OneStep(was, Invocation.Begin(own, call));
      BeginStep(was, own, call);
      var d := Begin(own, call);
      match d {
        case Refuse(e) => r := Err(e);
        case Answered(response) => r := Ok(response);
        case Admit(a) =>
          RunAppend(was, [Invocation.Begin(own, call)], gap.others);
          RunSnoc(was, [Invocation.Begin(own, call)] + gap.others, LastStep(own, gap));
          ForeignStepsSpare(View(), gap.others, own);
          Perform(gap.others);
          if gap.expired {
            Expire(own);
            r := Err(MigError(Timeout, DeadlineExceeded, true));
          } else {
            var response := Finish(own, gap.stamp);
            r := Ok(response);
          }
      }
    }

    /** Any steps of other goroutines. */
    method Perform(steps: seq<Step>)
      requires Valid()
      modifies this
      ensures Valid() && View() == Run(old(View()), steps)
    {
      hide Sound, Apply, Run;
      ghost var was := View();
      NoSteps(was);
      for i := 0 to |steps|
        invariant Valid() && View() == Run(was, steps[..i])
      {
        assert steps[..i + 1] == steps[..i] + [steps[i]];
        RunSnoc(was, steps[..i], steps[i]);
        PerformOne(steps[i]);
      }
      assert steps[..|steps|] == steps;
    }

    method PerformOne(step: Step)
      requires Valid()
      modifies this
      ensures Valid() && View() == Apply(old(View()), step)
    {
      hide Sound, Judge, CancelMessage, PutQuota, PutCapability;
      match step {
        case Begin(id, call) => var _ := Begin(id, call);
        case Finish(id, stamp) => if id in inflight { var _ := Finish(id, stamp); }
        case Expire(id) => Expire(id);
        case Cancel(req, messageID, freshID, now) => var _ := Cancel(req, messageID, freshID, now);
        case SetQuota(tenant, max) => var _ := SetQuota(tenant, max);
        case AddCapability(desc) => var _ := AddCapability(desc);
      }
    }

    // ----- CANCEL and administration -----

    method Cancel(req: CancelRequest, messageID: string, freshID: FreshId, now: string) returns (ack: Result<CancelAck>)
      requires Valid()
      modifies this`cancelled
      ensures Valid()
      ensures Outcome(View().ledger, ack) == CancelMessage(old(View()).ledger, req, messageID, freshID, now)
      ensures View() == Apply(old(View()), Invocation.Cancel(req, messageID, freshID, now))
      ensures var target := if messageID != "" then messageID else req.targetMessageID;
        && (ack.Ok? <==> Acceptable(req.header) && target != "")
        && cancelled == if ack.Ok? then old(cancelled)[target := req.reason] else old(cancelled)
    {
      var accepted := AcceptHeader(req.header, freshID, now);
      if accepted.Err? {
        return Err(accepted.error);
      }
      var target := messageID;
      if target == "" {
        target := req.targetMessageID;
      }
      if target == "" {
        return Err(Invalid(TargetRequired));
      }
      cancelled := cancelled[target := req.reason];
      ack := Ok(CancelAck(accepted.value, target, true, "cancelled"));
    }

    method SetQuota(tenant: string, max: int) returns (r: Result<int>)
      requires Valid()
      modifies this`quotas
      ensures Valid()
      ensures Outcome(View().ledger, r) == PutQuota(old(View()).ledger, tenant, max)
      ensures View() == Apply(old(View()), Invocation.SetQuota(tenant, max))
      ensures r == if tenant == "" then Err(MigError(InvalidRequest, TenantRequired, false))
        else if max <= 0 then Err(MigError(InvalidRequest, QuotaNotPositive, false)) else Ok(max)
      ensures quotas == if r.Ok? then old(quotas)[tenant := max] else old(quotas)
    {
      if tenant == "" {
        return Err(Invalid(TenantRequired));
      }
      if max <= 0 {
        return Err(Invalid(QuotaNotPositive));
      }
      quotas := quotas[tenant := max];
      r := Ok(max);
    }

    method AddCapability(desc: CapabilityDescriptor) returns (r: Result<()>)
      requires Valid()
      modifies this`capabilities
      ensures Valid()
      ensures Outcome(View().ledger, r) == PutCapability(old(View()).ledger, desc)
      ensures View() == Apply(old(View()), Invocation.AddCapability(desc))
      ensures r == if "" in [desc.id, desc.version] then Err(MigError(InvalidRequest, DescriptorIncomplete, false))
        else if "" in [desc.inputSchemaURI, desc.outputSchemaURI]
        then Err(MigError(InvalidRequest, SchemaURIsRequired, false)) else Ok(())
      ensures capabilities == if r.Ok? then old(capabilities)[desc.id := desc] else old(capabilities)
    {
      if desc.id == "" || desc.version == "" {
        return Err(Invalid(DescriptorIncomplete));
      }
      if desc.inputSchemaURI == "" || desc.outputSchemaURI == "" {
        return Err(Invalid(SchemaURIsRequired));
      }
      capabilities := capabilities[desc.id := desc];
      r := Ok(());
    }

    // ----- views -----

    /** Collects, in whatever order the map yields them, the descriptors that pass; then sorts. */
    method Listed(keep: CapabilityDescriptor -> bool) returns (out: seq<CapabilityDescriptor>)
      requires Valid()
      ensures StrictlyByID(out)
      ensures forall d :: d in out <==> d.id in capabilities && capabilities[d.id] == d && keep(d)
    {
      hide Balanced, CacheKeyed;
      var found: seq<CapabilityDescriptor> := [];
      var todo := capabilities.Keys;
      while todo != {}
        invariant todo <= capabilities.Keys
        invariant forall d :: d in found <==> d.id in capabilities.Keys - todo && capabilities[d.id] == d && keep(d)
        invariant forall i, j | 0 <= i < j < |found| :: found[i].id != found[j].id
        decreases |todo|
      {
        var k :| k in todo;
        if keep(capabilities[k]) {
          found := found + [capabilities[k]];
        }
        todo := todo - {k};
      }
      ByIDIsOrder();
      out := SortBy(found, ByID());
      DistinctSortsStrictly(found, out);
      assert forall d :: d in out <==> d in multiset(out);
    }

    method ListCapabilities() returns (out: seq<CapabilityDescriptor>)
      requires Valid()
      ensures StrictlyByID(out)
      ensures forall d :: d in out <==> d.id in capabilities && capabilities[d.id] == d
    {
      out := Listed((d: CapabilityDescriptor) => true);
    }

    method Discover(header: MessageHeader, query: string, p: Principal, freshID: FreshId, now: string)
      returns (r: Result<(MessageHeader, seq<CapabilityDescriptor>)>)
      requires Valid()
      ensures match Accept(header, freshID, now)
        case Err(e) => r == Err(e)
        case Ok(head) =>
          && r.Ok? && r.value.0 == head && StrictlyByID(r.value.1)
          && (forall d :: d in r.value.1 <==> d.id in capabilities && capabilities[d.id] == d && Visible(d, query, p))
          && (forall d :: d in r.value.1 <==> d.id in capabilities && capabilities[d.id] == d && Seen(d, query, p))
    {
      hide Visible, Seen, Balanced, CacheKeyed;
      var accepted := AcceptHeader(header, freshID, now);
      if accepted.Err? {
        return Err(accepted.error);
      }
      var out := Listed((d: CapabilityDescriptor) => Visible(d, query, p));
      forall d ensures Visible(d, query, p) <==> Seen(d, query, p) { VisibleIff(d, query, p); }
      r := Ok((accepted.value, out));
    }

    method AuditExport(tenant: string) returns (out: seq<AuditRecord>)
      ensures out == if tenant == "" then audit else Filter(audit, ByTenant(tenant))
    {
      if tenant == "" {
        return audit;
      }
      out := [];
      for i := 0 to |audit|
        invariant out == Filter(audit[..i], ByTenant(tenant))
      {
        FilterSnoc(audit[..i], audit[i], ByTenant(tenant));
        assert audit[..i + 1] == audit[..i] + [audit[i]];
        if audit[i].tenantID == tenant {
          out := out + [audit[i]];
        }
      }
      assert audit[..|audit|] == audit;
    }

    /** Copies of both counter maps, and a total that equals the length of the audit log whatever order the map is
        visited in. */
    method UsageSnapshot() returns (u: Usage)
      requires Valid()
      ensures u == Usage(tenantInvocations, capabilityInvocations, |audit|)
    {
      var tenants, _ := CopyCounts(tenantInvocations);
      var caps, total := CopyCounts(capabilityInvocations);
      u := Usage(tenants, caps, total);
    }

    method CopyCounts(counts: map<string, int>) returns (copy: map<string, int>, total: int)
      ensures copy == counts && total == Sum(counts)
    {
      hide Sum;
      SumEmpty();
      copy, total := map[], 0;
      ghost var left := counts;
      var todo := counts.Keys;
      while todo != {}
        invariant todo == left.Keys && todo <= counts.Keys
        invariant copy.Keys == counts.Keys - todo
        invariant forall k | k in copy :: copy[k] == counts[k]
        invariant forall k | k in left :: left[k] == counts[k]
        invariant total + Sum(left) == Sum(counts)
        decreases |todo|
      {
        var k :| k in todo;
        copy := copy[k := counts[k]];
        total := total + counts[k];
        SumRemove(left, k);
        left := left - {k};
        todo := todo - {k};
      }
    }
  }

  lemma SumEmpty()
    ensures Sum<string>(map[]) == 0
  {
  }

  // ----- what the views mean -----

  /** Whatever order the map is visited in, and whatever the sort does: two listings of the same kind are equal, and a
      Discover listing is the ListCapabilities listing with the invisible descriptors left out. */
  lemma DiscoverIsFilteredList(l: Ledger, all: seq<CapabilityDescriptor>, out: seq<CapabilityDescriptor>,
                               query: string, p: Principal)
    requires StrictlyByID(all) && forall d :: d in all <==> d.id in l.capabilities && l.capabilities[d.id] == d
    requires StrictlyByID(out)
    requires forall d :: d in out <==> d.id in l.capabilities && l.capabilities[d.id] == d && Visible(d, query, p)
    ensures out == Filter(all, d => Visible(d, query, p))
  {
    var keep := (d: CapabilityDescriptor) => Visible(d, query, p);
    FilterStrictlyByID(all, keep);
    StrictlyByIDUnique(out, Filter(all, keep));
  }

  /** With an empty query a capability is listed for a principal exactly when an Invoke of it by that principal is
      neither unsupported nor forbidden. */
  lemma DiscoverAgreesWithInvoke(l: Ledger, out: seq<CapabilityDescriptor>, prep: Prepared)
    requires KeyedByID(l.capabilities)
    requires forall d ::
      d in out <==> d.id in l.capabilities && l.capabilities[d.id] == d && Visible(d, "", prep.principal)
    ensures (exists d | d in out :: d.id == prep.capability) <==>
      var decision := Decide(l, prep);
      decision.Refuse? ==> decision.error.code !in {UnsupportedCapability, Forbidden}
  {
    if prep.capability in l.capabilities && HasAnyScope(prep.principal, l.capabilities[prep.capability].authScopes) {
      assert l.capabilities[prep.capability] in out;
    }
  }

  /** Per-tenant exports partition the audit log in commit order: the record at `i` stands in its own tenant's export,
      after exactly that tenant's earlier records, and in no other; and an export is as long as the tenant's counter. */
  lemma ExportsPartitionAudit(l: Ledger, i: nat, tenant: string)
    requires Balanced(l) && i < |l.audit|
    ensures var r := l.audit[i];
      var place := Count(l.audit[..i], ByTenant(r.tenantID));
      && r.tenantID != ""
      && place < |Filter(l.audit, ByTenant(r.tenantID))| && Filter(l.audit, ByTenant(r.tenantID))[place] == r
      && (r in Filter(l.audit, ByTenant(tenant)) <==> tenant == r.tenantID)
      && |Filter(l.audit, ByTenant(tenant))| == Get(l.tenantInvocations, tenant)
      && Sum(l.tenantInvocations) == |l.audit|
  {
    hide Sum;
    var r := l.audit[i];
    FilterPlace(l.audit, i, ByTenant(r.tenantID));
    FilterMembers(l.audit, ByTenant(tenant));
  }

  lemma {:induction false} FilterPlace<T>(xs: seq<T>, i: nat, p: T -> bool)
    requires i < |xs| && p(xs[i])
    ensures Count(xs[..i], p) < |Filter(xs, p)| && Filter(xs, p)[Count(xs[..i], p)] == xs[i]
    decreases xs
  {
    if i > 0 {
      FilterPlace(xs[1..], i - 1, p);
      assert xs[1..][..i - 1] == xs[..i][1..];
    }
  }

  lemma {:induction false} FilterMembers<T>(xs: seq<T>, p: T -> bool)
    ensures forall x :: x in Filter(xs, p) <==> x in xs && p(x)
  {
    if xs != [] {
      FilterMembers(xs[1..], p);
      assert forall x :: x in xs <==> x == xs[0] || x in xs[1..];
    }
  }
}
