/** What every run of the INVOKE protocol keeps: books that balance, quota overshoot, at-most-so-many executions per
    idempotency key, and a bounded leak past a cancel. */
module InvocationLaws {
  import opened MigTypes
  import opened Headers
  import opened Auth
  import opened Ledgers
  import opened Invocation
  import opened Counting

  // ----- books -----

  function ByTenant(tenant: string): AuditRecord -> bool {
    (r: AuditRecord) => r.tenantID == tenant
  }

  function ByCapability(capability: string): AuditRecord -> bool {
    (r: AuditRecord) => r.capability == capability
  }

  /** A counter map that says how often each key occurs in the audit log, and nothing else. */
  ghost predicate Tallies(counts: map<string, int>, audit: seq<AuditRecord>, sel: string -> AuditRecord -> bool) {
    && (forall k :: Get(counts, k) == Count(audit, sel(k)))
    && (forall k :: k in counts <==> Count(audit, sel(k)) > 0)
    && Sum(counts) == |audit|
  }

  ghost predicate Balanced(l: Ledger) {
    && Tallies(l.tenantInvocations, l.audit, ByTenant)
    && Tallies(l.capabilityInvocations, l.audit, ByCapability)
    && forall r | r in l.audit :: r.outcome == "success" && r.tenantID != "" && r.capability != ""
  }

  lemma TallyOne(counts: map<string, int>, audit: seq<AuditRecord>, sel: string -> AuditRecord -> bool, k: string,
                 r: AuditRecord)
    requires Tallies(counts, audit, sel)
    requires forall j :: sel(j)(r) <==> j == k
    ensures Tallies(Increment(counts, k), audit + [r], sel)
  {
    SumIncrement(counts, k);
    forall j ensures Count(audit + [r], sel(j)) == Count(audit, sel(j)) + if j == k then 1 else 0 {
      CountAppend(audit, [r], sel(j));
      assert [r][1..] == [];
    }
  }

  /** An admitted call: a complete header, a capability whose scopes the caller met when it was admitted. */
  predicate Entitled(a: Admitted) {
    && Complete(a.prep.head)
    && a.prep.capability != ""
    && a.desc.id == a.prep.capability
    && HasAnyScope(a.prep.principal, a.desc.authScopes)
  }

  predicate KeyedByID(capabilities: map<string, CapabilityDescriptor>) {
    forall k | k in capabilities :: capabilities[k].id == k
  }

  predicate CacheKeyed(cache: map<string, InvokeResponse>) {
    forall k | k in cache ::
      && cache[k].header.idempotencyKey != ""
      && k == PrintKey(cache[k].header.tenantID, cache[k].capability, cache[k].header.idempotencyKey)
  }

  predicate Orderly(s: Sys) {
    && KeyedByID(s.ledger.capabilities)
    && (forall t | t in s.ledger.quotas :: s.ledger.quotas[t] > 0)
    && (forall id | id in s.inflight :: Entitled(s.inflight[id]))
  }

  ghost predicate Sound(s: Sys) {
    Orderly(s) && Balanced(s.ledger) && CacheKeyed(s.ledger.idempotency)
  }

  lemma BootedIsSound()
    ensures Sound(BOOTED)
  {
  }

  lemma CommitKeepsBalance(l: Ledger, a: Admitted, stamp: string)
    requires Balanced(l) && Entitled(a)
    ensures Balanced(Commit(l, a, stamp))
  {
    TallyOne(l.tenantInvocations, l.audit, ByTenant, a.prep.head.tenantID, Record(a, stamp));
    TallyOne(l.capabilityInvocations, l.audit, ByCapability, a.prep.capability, Record(a, stamp));
  }

  lemma AdmittedIsEntitled(l: Ledger, c: InvokeCall)
    requires KeyedByID(l.capabilities) && Judge(l, c).Admit?
    ensures Entitled(Judge(l, c).call)
  {
  }

  lemma CommitKeepsSound(s: Sys, id: nat, stamp: string)
    requires Sound(s) && id in s.inflight
    ensures Sound(Sys(Commit(s.ledger, s.inflight[id], stamp), s.inflight - {id}))
  {
    var a := s.inflight[id];
    CommitKeepsBalance(s.ledger, a, stamp);
    var cache := Commit(s.ledger, a, stamp).idempotency;
    assert CacheKeyed(cache);
  }

  lemma StepKeepsSound(s: Sys, step: Step)
    requires Sound(s)
    ensures Sound(Apply(s, step))
  {
    var s' := Apply(s, step);
    if step.Finish? && step.id in s.inflight {
      CommitKeepsSound(s, step.id, step.stamp);
    } else {
      StepWrites(s, step);
      StepKeepsOrder(s, step);
      assert Balanced(s'.ledger);
    }
  }

  lemma StepKeepsOrder(s: Sys, step: Step)
    requires Orderly(s)
    ensures Orderly(Apply(s, step))
  {
    if Admits(s, step) != [] {
      AdmittedIsEntitled(s.ledger, step.call);
    }
  }

  /** In every reachable state the counters are the audit log counted, both maps add up to its length, capabilities and
      cached answers sit under their own keys, and every call in flight was entitled to its capability. */
  lemma {:induction false} RunKeepsSound(s: Sys, t: seq<Step>)
    requires Sound(s)
    ensures Sound(Run(s, t))
    decreases t
  {
    hide Apply, Judge;
    if t != [] {
      StepKeepsSound(s, t[0]);
      RunKeepsSound(Apply(s, t[0]), t[1..]);
    }
  }

  /** Only a commit writes cache, counters and audit log; a cancel is never taken back. */
  lemma StepWrites(s: Sys, step: Step)
    ensures var l, l' := s.ledger, Apply(s, step).ledger;
      if Commits(s, step) == [] then
        && l'.audit == l.audit && l'.idempotency == l.idempotency
        && l'.tenantInvocations == l.tenantInvocations && l'.capabilityInvocations == l.capabilityInvocations
      else
        && Commits(s, step) == [s.inflight[step.id]]
        && l' == Commit(l, s.inflight[step.id], step.stamp)
    ensures s.ledger.cancelled.Keys <= Apply(s, step).ledger.cancelled.Keys
  {
    match step {
      case Begin(_, _) =>
      case Cancel(_, _, _, _) =>
      case _ =>
    }
  }

  /** `r` tells who did what for whom: the call's actor, tenant, capability and message ID. */
  predicate Records(r: AuditRecord, a: Admitted) {
    && r.actor == a.prep.actor && r.tenantID == a.prep.head.tenantID
    && r.capability == a.prep.capability && r.messageID == a.prep.head.messageID
    && r.outcome == "success"
  }

  /** The audit log is append-only and gains exactly one record per commit, in commit order. */
  lemma {:induction false} AuditIsCommitments(s: Sys, t: seq<Step>)
    ensures var was, now, done := s.ledger.audit, Run(s, t).ledger.audit, Commitments(s, t);
      && was <= now && |now| == |was| + |done|
      && forall i | 0 <= i < |done| :: Records(now[|was| + i], done[i])
    decreases t
  {
    hide Apply, Judge;
    if t != [] {
      var s' := Apply(s, t[0]);
      StepWrites(s, t[0]);
      AuditIsCommitments(s', t[1..]);
      var done, rest := Commitments(s, t), Commitments(s', t[1..]);
      var was, now := s.ledger.audit, Run(s, t).ledger.audit;
      forall i | 0 <= i < |done| ensures Records(now[|was| + i], done[i]) {
        if |Commits(s, t[0])| == 0 {
          assert done[i] == rest[i];
        } else if i > 0 {
          assert done[i] == rest[i - 1];
        } else {
          assert now[|was|] == s'.ledger.audit[|was|];
        }
      }
    }
  }

  function Used(l: Ledger, tenant: string): int {
    Get(l.tenantInvocations, tenant)
  }

  /** A tenant is charged for its commits and for nothing else. */
  lemma {:induction false} ChargedPerCommit(s: Sys, t: seq<Step>, tenant: string)
    ensures Used(Run(s, t).ledger, tenant) == Used(s.ledger, tenant) + Count(Commitments(s, t), OfTenant(tenant))
    decreases t
  {
    hide Apply, Judge;
    if t != [] {
      var s' := Apply(s, t[0]);
      StepWrites(s, t[0]);
      ChargedPerCommit(s', t[1..], tenant);
      CountAppend(Commits(s, t[0]), Commitments(s', t[1..]), OfTenant(tenant));
    }
  }

  /** Refused, cached and expired calls leave cache, counters and audit log alone: a run that commits nothing changes
      none. */
  lemma {:induction false} NothingCommittedNothingWritten(s: Sys, t: seq<Step>)
    requires Commitments(s, t) == []
    ensures var l, l' := s.ledger, Run(s, t).ledger;
      && l'.audit == l.audit && l'.idempotency == l.idempotency
      && l'.tenantInvocations == l.tenantInvocations && l'.capabilityInvocations == l.capabilityInvocations
    decreases t
  {
    hide Apply, Judge;
    if t != [] {
      StepWrites(s, t[0]);
      NothingCommittedNothingWritten(Apply(s, t[0]), t[1..]);
    }
  }

  // ----- quota -----

  /** At most `n` calls of a class are in flight at any point of the run. */
  ghost predicate Overlap(s: Sys, t: seq<Step>, c: Admitted -> bool, n: nat)
    decreases t
  {
    InFlight(s, c) <= n && (t != [] ==> Overlap(Apply(s, t[0]), t[1..], c, n))
  }

  /** The tenant has a quota of at most `q` at any point of the run. */
  ghost predicate QuotaAtMost(s: Sys, t: seq<Step>, tenant: string, q: int)
    decreases t
  {
    && tenant in s.ledger.quotas && s.ledger.quotas[tenant] <= q
    && (t != [] ==> QuotaAtMost(Apply(s, t[0]), t[1..], tenant, q))
  }

  lemma AdmissionNeedsRoom(s: Sys, step: Step, tenant: string)
    requires tenant in s.ledger.quotas && Count(Admits(s, step), OfTenant(tenant)) > 0
    ensures Used(s.ledger, tenant) < s.ledger.quotas[tenant]
  {
  }

  /** What is used and what is in flight together stay below any bound that covers quota + overlap - 1, from whatever
      state the run starts. */
  lemma {:induction false} QuotaBound(s: Sys, t: seq<Step>, tenant: string, q: int, n: nat, bound: int)
    requires QuotaAtMost(s, t, tenant, q) && Overlap(s, t, OfTenant(tenant), n)
    requires Used(s.ledger, tenant) + InFlight(s, OfTenant(tenant)) <= bound && q + n - 1 <= bound
    ensures Used(Run(s, t).ledger, tenant) + InFlight(Run(s, t), OfTenant(tenant)) <= bound
    decreases t
  {
    hide Apply, Judge;
    if t != [] {
      var c, s' := OfTenant(tenant), Apply(s, t[0]);
      OneStepConserved(s, t[0], c);
      StepWrites(s, t[0]);
      if Count(Admits(s, t[0]), c) > 0 { AdmissionNeedsRoom(s, t[0], tenant); }
      assert Overlap(s', t[1..], c, n);
      QuotaBound(s', t[1..], tenant, q, n, bound);
    }
  }

  // ----- idempotency -----

  lemma CachedKeyRefused(s: Sys, step: Step, key: string)
    requires key in s.ledger.idempotency
    ensures Count(Admits(s, step), OfKey(key)) == 0
  {
  }

  /** Once an answer is cached under a key, no call with that key is admitted, in any continuation. */
  lemma {:induction false} CachedKeyAdmitsNone(s: Sys, t: seq<Step>, key: string)
    requires key in s.ledger.idempotency
    ensures Count(Admissions(s, t), OfKey(key)) == 0
    ensures key in Run(s, t).ledger.idempotency
    decreases t
  {
    hide Apply, Judge;
    if t != [] {
      var s' := Apply(s, t[0]);
      StepWrites(s, t[0]);
      CachedKeyRefused(s, t[0], key);
      CachedKeyAdmitsNone(s', t[1..], key);
      CountAppend(Admits(s, t[0]), Admissions(s', t[1..]), OfKey(key));
    }
  }

  /** So the executions still to come are exactly the calls then in flight on the key, less those that expire or
      remain. */
  lemma ExecutionsAfterFirstAnswer(s: Sys, t: seq<Step>, key: string)
    requires key in s.ledger.idempotency
    ensures Count(Commitments(s, t), OfKey(key))
         == InFlight(s, OfKey(key)) - Count(Expiries(s, t), OfKey(key)) - InFlight(Run(s, t), OfKey(key))
  {
    CachedKeyAdmitsNone(s, t, key);
    CallsConserved(s, t, OfKey(key));
  }

  /** The cached answer never changes again once no call on its key is in flight. */
  lemma {:induction false} AnswerIsFinal(s: Sys, t: seq<Step>, key: string)
    requires key in s.ledger.idempotency && InFlight(s, OfKey(key)) == 0
    ensures key in Run(s, t).ledger.idempotency
    ensures Run(s, t).ledger.idempotency[key] == s.ledger.idempotency[key]
    decreases t
  {
    hide Apply, Judge;
    if t != [] {
      var s' := Apply(s, t[0]);
      StepWrites(s, t[0]);
      CachedKeyRefused(s, t[0], key);
      OneStepConserved(s, t[0], OfKey(key));
      assert forall id :: id !in Members(s.inflight, OfKey(key));
      AnswerIsFinal(s', t[1..], key);
    }
  }

  /** Starting uncached, a key is executed at most as often as its calls overlap, and at least once exactly when its
      answer ends up cached; so exactly once if its calls do not overlap and one of them succeeds. */
  lemma {:induction false} ExecutionsBoundedByOverlap(s: Sys, t: seq<Step>, key: string, n: nat)
    requires key !in s.ledger.idempotency && Overlap(s, t, OfKey(key), n)
    ensures Count(Commitments(s, t), OfKey(key)) <= n
    ensures Count(Commitments(s, t), OfKey(key)) > 0 <==> key in Run(s, t).ledger.idempotency
    ensures n <= 1 ==> (Count(Commitments(s, t), OfKey(key)) == 1 <==> key in Run(s, t).ledger.idempotency)
    decreases t
  {
    hide Apply, Judge;
    if t != [] {
      var c, s' := OfKey(key), Apply(s, t[0]);
      StepWrites(s, t[0]);
      CountAppend(Commits(s, t[0]), Commitments(s', t[1..]), c);
      if key in s'.ledger.idempotency {
        OneStepConserved(s, t[0], c);
        ExecutionsAfterFirstAnswer(s', t[1..], key);
        CachedKeyAdmitsNone(s', t[1..], key);
      } else {
        ExecutionsBoundedByOverlap(s', t[1..], key, n);
      }
    }
  }

  // ----- cancellation -----

  lemma CancelledRefused(s: Sys, step: Step, messageID: string)
    requires messageID in s.ledger.cancelled
    ensures Count(Admits(s, step), OfMessage(messageID)) == 0
  {
  }

  /** After a cancel of a message ID no call with that ID is admitted, in any continuation. */
  lemma {:induction false} CancelledAdmitsNone(s: Sys, t: seq<Step>, messageID: string)
    requires messageID in s.ledger.cancelled
    ensures Count(Admissions(s, t), OfMessage(messageID)) == 0
    ensures messageID in Run(s, t).ledger.cancelled
    decreases t
  {
    hide Apply, Judge;
    if t != [] {
      var s' := Apply(s, t[0]);
      StepWrites(s, t[0]);
      CancelledRefused(s, t[0], messageID);
      CancelledAdmitsNone(s', t[1..], messageID);
      CountAppend(Admits(s, t[0]), Admissions(s', t[1..]), OfMessage(messageID));
    }
  }

  function CancelAnswer(s: Sys, cancel: Step): Result<CancelAck>
    requires cancel.Cancel?
  {
    CancelMessage(s.ledger, cancel.request, cancel.messageID, cancel.freshID, cancel.now).result
  }

  /** The commits that slip past an acknowledged cancel are exactly the calls in flight at that moment, less those that
      expire or remain. */
  lemma CancelLeak(s: Sys, cancel: Step, t: seq<Step>)
    requires cancel.Cancel? && CancelAnswer(s, cancel).Ok?
    ensures var target := CancelAnswer(s, cancel).value.targetMessageID;
      var c, s' := OfMessage(target), Apply(s, cancel);
      && Count(Admissions(s', t), c) == 0
      && Count(Commitments(s', t), c) == InFlight(s, c) - Count(Expiries(s', t), c) - InFlight(Run(s', t), c)
  {
    var target := CancelAnswer(s, cancel).value.targetMessageID;
    var s' := Apply(s, cancel);
    CancelledAdmitsNone(s', t, target);
    CallsConserved(s', t, OfMessage(target));
  }
}
