/** The bounds of InvocationLaws are reached, so the unconditional promises ("a quota is never exceeded", "one
    execution per key") hold exactly for calls that do not overlap. */
module InvocationTightness {
  import opened MigTypes
  import opened Auth
  import opened Ledgers
  import opened Invocation
  import opened InvocationLaws
  import opened Counting

  // ----- runs to measure with -----

  /** `n` calls admitted one after the other before the first of them commits. */
  function Burst(base: nat, n: nat, call: InvokeCall): seq<Step>
    decreases n
  {
    if n == 0 then [] else [Begin(base, call)] + Burst(base + 1, n - 1, call) + [Finish(base, "")]
  }

  /** `n` calls, each committed before the next begins. */
  function Series(n: nat, call: InvokeCall): seq<Step> {
    if n == 0 then [] else Burst(0, 1, call) + Series(n - 1, call)
  }

  lemma {:induction false} OverlapAppend(s: Sys, t: seq<Step>, u: seq<Step>, c: Admitted -> bool, n: nat)
    requires Overlap(s, t, c, n) && Overlap(Run(s, t), u, c, n)
    ensures Overlap(s, t + u, c, n)
    decreases t
  {
    if t == [] {
      assert t + u == u;
    } else {
      assert (t + u)[1..] == t[1..] + u;
      OverlapAppend(Apply(s, t[0]), t[1..], u, c, n);
    }
  }

  lemma {:induction false} OverlapWeaken(s: Sys, t: seq<Step>, c: Admitted -> bool, n: nat, m: nat)
    requires Overlap(s, t, c, n) && n <= m
    ensures Overlap(s, t, c, m)
    decreases t
  {
    if t != [] { OverlapWeaken(Apply(s, t[0]), t[1..], c, n, m); }
  }

  /** What calls alone, without cancels or administration, leave as it was. */
  predicate SameRules(l: Ledger, l': Ledger) {
    l'.capabilities == l.capabilities && l'.cancelled == l.cancelled && l'.quotas == l.quotas
  }

  predicate OnlyCalls(t: seq<Step>) {
    forall i | 0 <= i < |t| :: t[i].Begin? || t[i].Finish? || t[i].Expire?
  }

  lemma {:induction false} CallsKeepRules(s: Sys, t: seq<Step>)
    requires OnlyCalls(t)
    ensures SameRules(s.ledger, Run(s, t).ledger)
    ensures forall tenant | tenant in s.ledger.quotas :: QuotaAtMost(s, t, tenant, s.ledger.quotas[tenant])
    decreases t
  {
    if t != [] {
      assert SameRules(s.ledger, Apply(s, t[0]).ledger);
      CallsKeepRules(Apply(s, t[0]), t[1..]);
    }
  }

  lemma {:induction false} BurstIsCalls(base: nat, n: nat, call: InvokeCall)
    ensures OnlyCalls(Burst(base, n, call))
    decreases n
  {
    if n > 0 { BurstIsCalls(base + 1, n - 1, call); }
  }

  lemma {:induction false} SeriesIsCalls(n: nat, call: InvokeCall)
    ensures OnlyCalls(Series(n, call))
  {
    if n > 0 {
      BurstIsCalls(0, 1, call);
      SeriesIsCalls(n - 1, call);
    }
  }

  /** A run that leaves the calls in flight as it found them, commits `n` calls of a class and never has more than
      `n` additional ones in flight. */
  ghost predicate Plays(s: Sys, t: seq<Step>, c: Admitted -> bool, n: nat) {
    && Run(s, t).inflight == s.inflight
    && Count(Commitments(s, t), c) == n
    && Overlap(s, t, c, InFlight(s, c) + n)
  }

  /** Every call of a burst is admitted and committed. */
  lemma {:induction false} BurstCommitsAll(s: Sys, base: nat, n: nat, call: InvokeCall, c: Admitted -> bool)
    requires Judge(s.ledger, call).Admit? && c(Judge(s.ledger, call).call)
    requires forall id | id in s.inflight :: id < base
    ensures Plays(s, Burst(base, n, call), c, n)
    decreases n
  {
    hide Apply, Judge;
    if n > 0 {
      var s1 := Sys(s.ledger, s.inflight[base := Judge(s.ledger, call).call]);
      BurstCommitsAll(s1, base + 1, n - 1, call, c);
      Enclose(s, base, n, call, Burst(base + 1, n - 1, call), c);
    }
  }

  /** Putting the begin and the finish of one more call around a run. */
  lemma Enclose(s: Sys, base: nat, n: nat, call: InvokeCall, mid: seq<Step>, c: Admitted -> bool)
    requires Judge(s.ledger, call).Admit? && c(Judge(s.ledger, call).call) && base !in s.inflight && n > 0
    requires Plays(Sys(s.ledger, s.inflight[base := Judge(s.ledger, call).call]), mid, c, n - 1)
    ensures Plays(s, [Begin(base, call)] + mid + [Finish(base, "")], c, n)
  {
    hide Apply, Judge, Run, Commitments, Overlap, Count;
    BeginStep(s, base, call);
    var a, rest := Judge(s.ledger, call).call, mid + [Finish(base, "")];
    var s1 := Sys(s.ledger, s.inflight[base := a]);
    InFlightAdd(s.inflight, base, a, c);
    ThenFinish(s1, base, mid, n - 1, c);
    Unroll(s, Begin(base, call), rest, c, InFlight(s, c) + n);
    assert [Begin(base, call)] + mid + [Finish(base, "")] == [Begin(base, call)] + rest;
    assert [] + Commitments(s1, rest) == Commitments(s1, rest);
    assert s1.inflight - {base} == s.inflight;
  }

  lemma ThenFinish(s: Sys, base: nat, mid: seq<Step>, n: nat, c: Admitted -> bool)
    requires base in s.inflight && c(s.inflight[base]) && Plays(s, mid, c, n)
    ensures var t := mid + [Finish(base, "")];
      && Run(s, t).inflight == s.inflight - {base}
      && Count(Commitments(s, t), c) == n + 1
      && Overlap(s, t, c, InFlight(s, c) + n)
  {
    hide Apply, Run, Commitments, Overlap, Count;
    var s', last, m := Run(s, mid), [Finish(base, "")], InFlight(s, c) + n;
    LastOfBurst(s', base, c, m);
    RunAppend(s, mid, last);
    CommitmentsAppend(s, mid, last);
    CountAppend(Commitments(s, mid), Commitments(s', last), c);
    OverlapAppend(s, mid, last, c, m);
  }

  lemma Unroll(s: Sys, step: Step, rest: seq<Step>, c: Admitted -> bool, n: nat)
    ensures var t, s' := [step] + rest, Apply(s, step);
      && Run(s, t) == Run(s', rest)
      && Commitments(s, t) == Commits(s, step) + Commitments(s', rest)
      && (Overlap(s, t, c, n) <==> InFlight(s, c) <= n && Overlap(s', rest, c, n))
  {
    assert ([step] + rest)[1..] == rest;
  }

  lemma LastOfBurst(s: Sys, base: nat, c: Admitted -> bool, n: nat)
    requires base in s.inflight && c(s.inflight[base]) && InFlight(s, c) <= n
    ensures var t := [Finish(base, "")];
      && Run(s, t).inflight == s.inflight - {base}
      && Count(Commitments(s, t), c) == 1
      && Overlap(s, t, c, n)
  {
    var step := Finish(base, "");
    Unroll(s, step, [], c, n);
    assert [step] + [] == [step];
    InFlightRemove(s.inflight, base, c);
    CountAppend(Commits(s, step), [], c);
  }

  // ----- quota -----

  /** A call without idempotency key that everything but the quota lets pass. */
  predicate Welcome(l: Ledger, call: InvokeCall, tenant: string) {
    match Prepare(call)
    case Err(_) => false
    case Ok(p) =>
      && p.head.tenantID == tenant && p.head.idempotencyKey == ""
      && p.capability in l.capabilities && HasAnyScope(p.principal, l.capabilities[p.capability].authScopes)
      && p.head.messageID !in l.cancelled
  }

  lemma WelcomeIsAdmitted(l: Ledger, call: InvokeCall, tenant: string)
    requires Welcome(l, call, tenant) && tenant in l.quotas && Used(l, tenant) < l.quotas[tenant]
    ensures Judge(l, call).Admit? && OfTenant(tenant)(Judge(l, call).call)
  {
  }

  lemma OneMore(s: Sys, call: InvokeCall, tenant: string)
    requires Welcome(s.ledger, call, tenant) && s.inflight == map[]
    requires tenant in s.ledger.quotas && Used(s.ledger, tenant) < s.ledger.quotas[tenant]
    ensures var t := Burst(0, 1, call);
      && Run(s, t).inflight == map[]
      && SameRules(s.ledger, Run(s, t).ledger)
      && Welcome(Run(s, t).ledger, call, tenant)
      && Used(Run(s, t).ledger, tenant) == Used(s.ledger, tenant) + 1
      && Overlap(s, t, OfTenant(tenant), 1)
  {
    hide Apply, Judge;
    var t, c := Burst(0, 1, call), OfTenant(tenant);
    assert Members(s.inflight, c) == {};
    WelcomeIsAdmitted(s.ledger, call, tenant);
    BurstCommitsAll(s, 0, 1, call, c);
    ChargedPerCommit(s, t, tenant);
    BurstIsCalls(0, 1, call);
    CallsKeepRules(s, t);
  }

  lemma {:induction false} SeriesCommitsAll(s: Sys, n: nat, call: InvokeCall, tenant: string)
    requires Welcome(s.ledger, call, tenant) && s.inflight == map[]
    requires tenant in s.ledger.quotas && Used(s.ledger, tenant) + n <= s.ledger.quotas[tenant]
    ensures var t := Series(n, call);
      && Run(s, t).inflight == map[]
      && SameRules(s.ledger, Run(s, t).ledger)
      && Used(Run(s, t).ledger, tenant) == Used(s.ledger, tenant) + n
      && Overlap(s, t, OfTenant(tenant), 1)
    decreases n
  {
    hide Apply, Judge;
    var c := OfTenant(tenant);
    assert Members(s.inflight, c) == {};
    if n > 0 {
      var one, rest := Burst(0, 1, call), Series(n - 1, call);
      OneMore(s, call, tenant);
      SeriesCommitsAll(Run(s, one), n - 1, call, tenant);
      RunAppend(s, one, rest);
      OverlapAppend(s, one, rest, c, 1);
    }
  }

  /** Calls up to the last free slot, then `n` calls at once. */
  function OvershootRun(q: nat, n: nat, call: InvokeCall): seq<Step>
    requires q >= 1
  {
    Series(q - 1, call) + Burst(0, n, call)
  }

  /** For every quota and every overlap there is a run that ends exactly `n - 1` above the quota. */
  lemma OvershootReached(s: Sys, tenant: string, q: nat, n: nat, call: InvokeCall)
    requires q >= 1 && n >= 1
    requires s.inflight == map[] && Welcome(s.ledger, call, tenant)
    requires tenant in s.ledger.quotas && s.ledger.quotas[tenant] == q && Used(s.ledger, tenant) == 0
    ensures var t := OvershootRun(q, n, call);
      && QuotaAtMost(s, t, tenant, q)
      && Overlap(s, t, OfTenant(tenant), n)
      && Used(Run(s, t).ledger, tenant) == q + n - 1
  {
    hide Apply, Judge, Commitments, Burst, Series;
    var c, series, burst := OfTenant(tenant), Series(q - 1, call), Burst(0, n, call);
    SeriesCommitsAll(s, q - 1, call, tenant);
    var s1 := Run(s, series);
    assert Welcome(s1.ledger, call, tenant);
    WelcomeIsAdmitted(s1.ledger, call, tenant);
    BurstCommitsAll(s1, 0, n, call, c);
    assert Members(s1.inflight, c) == {};
    ChargedPerCommit(s1, burst, tenant);
    RunAppend(s, series, burst);
    OverlapWeaken(s, series, c, 1, n);
    OverlapAppend(s, series, burst, c, n);
    SeriesIsCalls(q - 1, call);
    BurstIsCalls(0, n, call);
    CallsKeepRules(s, series + burst);
  }

  /** Among runs with at most `n` overlapping calls of the tenant, the quota is never exceeded if and only if `n <=
      1`. */
  lemma QuotaRespectedIffSerial(s: Sys, tenant: string, q: nat, n: nat, call: InvokeCall)
    requires q >= 1
    requires s.inflight == map[] && Welcome(s.ledger, call, tenant)
    requires tenant in s.ledger.quotas && s.ledger.quotas[tenant] == q && Used(s.ledger, tenant) == 0
    ensures (forall t | QuotaAtMost(s, t, tenant, q) && Overlap(s, t, OfTenant(tenant), n) ::
        Used(Run(s, t).ledger, tenant) <= q)
      <==> n <= 1
  {
    var c := OfTenant(tenant);
    assert Members(s.inflight, c) == {};
    if n <= 1 {
      forall t | QuotaAtMost(s, t, tenant, q) && Overlap(s, t, c, n) ensures Used(Run(s, t).ledger, tenant) <= q {
        QuotaBound(s, t, tenant, q, n, q);
      }
    } else {
      OvershootReached(s, tenant, q, n, call);
      assert QuotaAtMost(s, OvershootRun(q, n, call), tenant, q);
    }
  }

  // ----- idempotency -----

  /** Among runs with at most `n` overlapping calls on an uncached key that is open for admission, the key is executed
      at most once if and only if `n <= 1`. */
  lemma OncePerKeyIffSerial(s: Sys, key: string, n: nat, call: InvokeCall)
    requires s.inflight == map[] && key !in s.ledger.idempotency
    requires Judge(s.ledger, call).Admit? && OfKey(key)(Judge(s.ledger, call).call)
    ensures (forall t | Overlap(s, t, OfKey(key), n) :: Count(Commitments(s, t), OfKey(key)) <= 1) <==> n <= 1
  {
    hide Apply, Judge;
    var c := OfKey(key);
    assert Members(s.inflight, c) == {};
    if n <= 1 {
      forall t | Overlap(s, t, c, n) ensures Count(Commitments(s, t), c) <= 1 {
        ExecutionsBoundedByOverlap(s, t, key, n);
      }
    } else {
      var t := Burst(0, n, call);
      BurstCommitsAll(s, 0, n, call, c);
      assert Overlap(s, t, c, n) && Count(Commitments(s, t), c) == n;
    }
  }

  // ----- cancellation -----

  /** An acknowledged cancel stops its message, whatever happens afterwards, if and only if no call of that message is
      in flight when it is acknowledged. */
  lemma CancelStopsIffNoneInFlight(s: Sys, cancel: Step)
    requires cancel.Cancel? && CancelAnswer(s, cancel).Ok?
    ensures var c := OfMessage(CancelAnswer(s, cancel).value.targetMessageID);
      (forall t :: Count(Commitments(Apply(s, cancel), t), c) == 0) <==> InFlight(s, c) == 0
  {
    hide Commitments, Run, Count;
    var c, s' := OfMessage(CancelAnswer(s, cancel).value.targetMessageID), Apply(s, cancel);
    if InFlight(s, c) == 0 {
      forall t ensures Count(Commitments(s', t), c) == 0 {
        CancelLeak(s, cancel, t);
      }
    } else {
      var id :| id in Members(s.inflight, c);
      LastOfBurst(s', id, c, InFlight(s', c));
      assert Count(Commitments(s', [Finish(id, "")]), c) == 1;
    }
  }

  // ----- the freshly booted gateway meets the assumptions above -----

  /** A client's call under a message ID of its own choosing. */
  function PlainCall(tenant: string, capability: string, key: string, payload: Json): InvokeCall {
    var head := MessageHeader(MIG_VERSION, "m", "", tenant, "", "", key, 0, map[]);
    InvokeCall(capability, InvokeRequest(head, "", payload), "anonymous", ANONYMOUS, "0", "")
  }

  lemma BootedGatewayOvershoots(tenant: string, q: nat, n: nat)
    requires tenant != "" && q >= 1
    ensures var s := Apply(BOOTED, SetQuota(tenant, q));
      (forall t | QuotaAtMost(s, t, tenant, q) && Overlap(s, t, OfTenant(tenant), n) ::
        Used(Run(s, t).ledger, tenant) <= q)
      <==> n <= 1
  {
    var s := Apply(BOOTED, SetQuota(tenant, q));
    QuotaRespectedIffSerial(s, tenant, q, n, PlainCall(tenant, DEFAULT_CAPABILITY, "", JNull));
  }

  lemma BootedGatewayRepeats(tenant: string, key: string, n: nat)
    requires tenant != "" && key != ""
    ensures var k := PrintKey(tenant, DEFAULT_CAPABILITY, key);
      (forall t | Overlap(BOOTED, t, OfKey(k), n) :: Count(Commitments(BOOTED, t), OfKey(k)) <= 1) <==> n <= 1
  {
    var call := PlainCall(tenant, DEFAULT_CAPABILITY, key, JNull);
    OncePerKeyIffSerial(BOOTED, PrintKey(tenant, DEFAULT_CAPABILITY, key), n, call);
  }

  function PlainCancel(tenant: string): Step {
    Cancel(CancelRequest(PlainCall(tenant, "", "", JNull).request.header, "m", "stop"), "m", "0", "")
  }

  /** On the booted service, for any tenant: a call is begun, its cancel is acknowledged, and the call is committed. */
  lemma CommitAfterCancel(tenant: string)
    requires tenant != ""
    ensures var s := Apply(BOOTED, Begin(0, PlainCall(tenant, DEFAULT_CAPABILITY, "", JNull)));
      var cancel := PlainCancel(tenant);
      && CancelAnswer(s, cancel).Ok? && CancelAnswer(s, cancel).value.targetMessageID == "m"
      && Count(Commitments(Apply(s, cancel), [Finish(0, "")]), OfMessage("m")) == 1
  {
    hide Commitments, Run, Count;
    var call, cancel := PlainCall(tenant, DEFAULT_CAPABILITY, "", JNull), PlainCancel(tenant);
    var s := Apply(BOOTED, Begin(0, call));
    assert 0 in s.inflight && OfMessage("m")(s.inflight[0]);
    LastOfBurst(Apply(s, cancel), 0, OfMessage("m"), InFlight(Apply(s, cancel), OfMessage("m")));
  }
}
