/** Runs of the two-phase INVOKE protocol. A call is admitted by one atomic step and later committed or expired by
    another; any number of steps of other calls, cancels, quota changes and capability upserts may come between.
    Every sequence of steps is a run: a step that is not possible (finishing a call that is not in flight, reusing the
    name of one that is) changes nothing. */
module Invocation {
  import opened MigTypes
  import opened Ledgers
  import opened Counting

  /** The shared ledger and the admitted calls that are neither committed nor expired. */
  datatype Sys = Sys(ledger: Ledger, inflight: map<nat, Admitted>)

  const BOOTED := Sys(BOOT_LEDGER, map[])

  datatype Step =
    | Begin(id: nat, call: InvokeCall)
    | Finish(id: nat, stamp: string)
    | Expire(id: nat)
    | Cancel(request: CancelRequest, messageID: string, freshID: FreshId, now: string)
    | SetQuota(tenant: string, max: int)
    | AddCapability(desc: CapabilityDescriptor)

  function Apply(s: Sys, step: Step): Sys {
    match step
    case Begin(id, call) =>
      var d := Judge(s.ledger, call);
      if d.Admit? && id !in s.inflight then s.(inflight := s.inflight[id := d.call]) else s
    case Finish(id, stamp) =>
      if id in s.inflight then Sys(Ledgers.Commit(s.ledger, s.inflight[id], stamp), s.inflight - {id}) else s
    case Expire(id) => s.(inflight := s.inflight - {id})
    case Cancel(req, messageID, freshID, now) =>
      s.(ledger := CancelMessage(s.ledger, req, messageID, freshID, now).ledger)
    case SetQuota(tenant, max) => s.(ledger := PutQuota(s.ledger, tenant, max).ledger)
    case AddCapability(desc) => s.(ledger := PutCapability(s.ledger, desc).ledger)
  }

  function Run(s: Sys, t: seq<Step>): Sys
    decreases t
  {
    if t == [] then s else Run(Apply(s, t[0]), t[1..])
  }

  lemma {:induction false} RunAppend(s: Sys, t: seq<Step>, u: seq<Step>)
    ensures Run(s, t + u) == Run(Run(s, t), u)
    decreases t
  {
    if t == [] {
      assert t + u == u;
    } else {
      assert (t + u)[1..] == t[1..] + u;
      RunAppend(Apply(s, t[0]), t[1..], u);
    }
  }

  lemma RunSnoc(s: Sys, t: seq<Step>, step: Step)
    ensures Run(s, t + [step]) == Apply(Run(s, t), step)
  {
    hide Apply;
    RunAppend(s, t, [step]);
    assert [step][1..] == [];
  }

  lemma NoSteps(s: Sys)
    ensures Run(s, []) == s
  {
  }

  lemma OneStep(s: Sys, step: Step)
    ensures Run(s, [step]) == Apply(s, step)
  {
    hide Apply;
    assert [step][1..] == [];
  }

  lemma {:induction false} CancelsStay(s: Sys, t: seq<Step>)
    ensures s.ledger.cancelled.Keys <= Run(s, t).ledger.cancelled.Keys
    decreases t
  {
    hide Apply;
    if t != [] {
      CancelStays(s, t[0]);
      CancelsStay(Apply(s, t[0]), t[1..]);
    }
  }

  lemma CancelStays(s: Sys, step: Step)
    ensures s.ledger.cancelled.Keys <= Apply(s, step).ledger.cancelled.Keys
  {
    hide Judge, Ledgers.Commit;
    if step.Finish? && step.id in s.inflight { CommitKeepsCancels(s.ledger, s.inflight[step.id], step.stamp); }
  }

  lemma CommitKeepsCancels(l: Ledger, a: Admitted, stamp: string)
    ensures Ledgers.Commit(l, a, stamp).cancelled == l.cancelled
  {
  }

  // ----- calls by name -----

  /** The step is not one of the call named `own`. */
  predicate Foreign(step: Step, own: nat) {
    step.Begin? || step.Finish? || step.Expire? ==> step.id != own
  }

  predicate AllForeign(t: seq<Step>, own: nat) {
    forall i | 0 <= i < |t| :: Foreign(t[i], own)
  }

  /** Other goroutines neither finish a call nor start one in its name. */
  lemma {:induction false} ForeignStepsSpare(s: Sys, t: seq<Step>, own: nat)
    requires AllForeign(t, own)
    ensures own in Run(s, t).inflight <==> own in s.inflight
    ensures own in s.inflight ==> Run(s, t).inflight[own] == s.inflight[own]
    decreases t
  {
    hide Judge;
    if t != [] {
      assert Foreign(t[0], own);
      ForeignStepsSpare(Apply(s, t[0]), t[1..], own);
    }
  }

  /** What happens between the two sections of a call: the steps of others, and who wins the race with the deadline. */
  datatype Gap = Gap(others: seq<Step>, expired: bool, stamp: string)

  /** The steps of one whole Invoke, from its first section on. */
  function CallSteps(s: Sys, own: nat, call: InvokeCall, gap: Gap): seq<Step> {
    if Judge(s.ledger, call).Admit?
    then [Begin(own, call)] + gap.others + [LastStep(own, gap)]
    else [Begin(own, call)]
  }

  function LastStep(own: nat, gap: Gap): Step {
    if gap.expired then Expire(own) else Finish(own, gap.stamp)
  }

  /** What Invoke returns to a caller whose first section meets the state `s`. */
  function CallResult(s: Sys, call: InvokeCall, gap: Gap): Result<InvokeResponse> {
    match Judge(s.ledger, call)
    case Refuse(e) => Err(e)
    case Answered(response) => Ok(response)
    case Admit(a) => if gap.expired then Err(MigError(Timeout, DeadlineExceeded, true)) else Ok(Answer(a))
  }

  /** A call that is over leaves nothing in flight under its name. */
  lemma CallStepsEnd(s: Sys, own: nat, call: InvokeCall, gap: Gap)
    requires own !in s.inflight && AllForeign(gap.others, own)
    ensures own !in Run(s, CallSteps(s, own, call, gap)).inflight
  {
    hide Apply, Judge;
    var first := [Begin(own, call)];
    RunSnoc(s, [], Begin(own, call));
    assert [] + first == first;
    BeginStep(s, own, call);
    if Judge(s.ledger, call).Admit? {
      RunSnoc(s, first + gap.others, LastStep(own, gap));
      LastStepEnds(Run(s, first + gap.others), own, gap);
    }
  }

  lemma BeginStep(s: Sys, own: nat, call: InvokeCall)
    requires own !in s.inflight
    ensures Apply(s, Begin(own, call)) ==
      if Judge(s.ledger, call).Admit? then Sys(s.ledger, s.inflight[own := Judge(s.ledger, call).call]) else s
  {
  }

  lemma LastStepEnds(s: Sys, own: nat, gap: Gap)
    ensures own !in Apply(s, LastStep(own, gap)).inflight
  {
  }

  // ----- what happens along a run -----

  function Admits(s: Sys, step: Step): seq<Admitted> {
    if step.Begin? && step.id !in s.inflight && Judge(s.ledger, step.call).Admit?
    then [Judge(s.ledger, step.call).call] else []
  }

  function Commits(s: Sys, step: Step): seq<Admitted> {
    if step.Finish? && step.id in s.inflight then [s.inflight[step.id]] else []
  }

  function Expires(s: Sys, step: Step): seq<Admitted> {
    if step.Expire? && step.id in s.inflight then [s.inflight[step.id]] else []
  }

  /** The calls admitted, committed and expired along a run, in order. */
  function Admissions(s: Sys, t: seq<Step>): seq<Admitted>
    decreases t
  {
    if t == [] then [] else Admits(s, t[0]) + Admissions(Apply(s, t[0]), t[1..])
  }

  function Commitments(s: Sys, t: seq<Step>): seq<Admitted>
    decreases t
  {
    if t == [] then [] else Commits(s, t[0]) + Commitments(Apply(s, t[0]), t[1..])
  }

  function Expiries(s: Sys, t: seq<Step>): seq<Admitted>
    decreases t
  {
    if t == [] then [] else Expires(s, t[0]) + Expiries(Apply(s, t[0]), t[1..])
  }

  lemma {:induction false} CommitmentsAppend(s: Sys, t: seq<Step>, u: seq<Step>)
    ensures Commitments(s, t + u) == Commitments(s, t) + Commitments(Run(s, t), u)
    decreases t
  {
    if t == [] {
      assert t + u == u;
    } else {
      assert (t + u)[1..] == t[1..] + u;
      CommitmentsAppend(Apply(s, t[0]), t[1..], u);
    }
  }

  // ----- classes of calls -----

  function OfTenant(tenant: string): Admitted -> bool {
    (a: Admitted) => a.prep.head.tenantID == tenant
  }

  function OfKey(key: string): Admitted -> bool {
    (a: Admitted) => a.prep.head.idempotencyKey != "" && KeyOf(a.prep) == key
  }

  function OfMessage(messageID: string): Admitted -> bool {
    (a: Admitted) => a.prep.head.messageID == messageID
  }

  function Members(m: map<nat, Admitted>, c: Admitted -> bool): set<nat> {
    set id | id in m && c(m[id])
  }

  /** How many calls of a class are in flight. */
  function InFlight(s: Sys, c: Admitted -> bool): nat {
    |Members(s.inflight, c)|
  }

  lemma InFlightAdd(m: map<nat, Admitted>, id: nat, a: Admitted, c: Admitted -> bool)
    requires id !in m
    ensures |Members(m[id := a], c)| == |Members(m, c)| + if c(a) then 1 else 0
  {
    assert Members(m[id := a], c) == Members(m, c) + if c(a) then {id} else {};
  }

  lemma InFlightRemove(m: map<nat, Admitted>, id: nat, c: Admitted -> bool)
    requires id in m
    ensures |Members(m - {id}, c)| == |Members(m, c)| - if c(m[id]) then 1 else 0
  {
    assert Members(m - {id}, c) == Members(m, c) - {id};
  }

  /** Conservation of calls, for every class of calls and every run: what was in flight or was admitted has been
      committed, has expired, or is still in flight. */
  lemma {:induction false} CallsConserved(s: Sys, t: seq<Step>, c: Admitted -> bool)
    ensures InFlight(s, c) + Count(Admissions(s, t), c)
         == Count(Commitments(s, t), c) + Count(Expiries(s, t), c) + InFlight(Run(s, t), c)
    decreases t
  {
    if t != [] {
      var step, s' := t[0], Apply(s, t[0]);
      CallsConserved(s', t[1..], c);
      CountAppend(Admits(s, step), Admissions(s', t[1..]), c);
      CountAppend(Commits(s, step), Commitments(s', t[1..]), c);
      CountAppend(Expires(s, step), Expiries(s', t[1..]), c);
      OneStepConserved(s, step, c);
    }
  }

  lemma OneStepConserved(s: Sys, step: Step, c: Admitted -> bool)
    ensures InFlight(s, c) + Count(Admits(s, step), c)
         == Count(Commits(s, step), c) + Count(Expires(s, step), c) + InFlight(Apply(s, step), c)
  {
    if Admits(s, step) != [] {
      InFlightAdd(s.inflight, step.id, Admits(s, step)[0], c);
    } else if step.Expire? && step.id !in s.inflight {
      assert s.inflight - {step.id} == s.inflight;
    } else if (step.Finish? || step.Expire?) && step.id in s.inflight {
      InFlightRemove(s.inflight, step.id, c);
    }
  }
}
