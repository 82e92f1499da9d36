/** Where committed calls come from: which call a cached answer belongs to, and which token an audit record speaks
    for. */
module Provenance {
  import opened MigTypes
  import opened GoStrings
  import opened Auth
  import opened Fronts
  import opened Subjects
  import opened Ledgers
  import opened Invocation
  import opened InvocationLaws
  import opened Decisions
  import opened InvocationTightness

  // ----- every commit goes back to a begin of its own -----

  /** Step `j` of the run admitted the call `a`. */
  predicate AdmittedAt(s: Sys, t: seq<Step>, j: nat, a: Admitted) {
    j < |t| && t[j].Begin? && Judge(Run(s, t[..j]).ledger, t[j].call) == Admit(a)
  }

  predicate Distinct(js: seq<nat>) {
    forall i, k | 0 <= i < k < |js| :: js[i] != js[k]
  }

  /** `origin` says which steps admitted the committed calls, `open` which steps admitted those in flight. No step
      admitted two of them. */
  predicate Traces(s: Sys, t: seq<Step>, open: map<nat, nat>, origin: seq<nat>) {
    var s', done := Run(s, t), Commitments(s, t);
    && open.Keys == s'.inflight.Keys && |origin| == |done|
    && (forall id | id in open :: AdmittedAt(s, t, open[id], s'.inflight[id]))
    && (forall i | 0 <= i < |origin| :: AdmittedAt(s, t, origin[i], done[i]))
    && Distinct(origin)
    && (forall id, other | id in open && other in open && id != other :: open[id] != open[other])
    && (forall id | id in open :: open[id] !in origin)
  }

  /** Every commit of a run that started with nothing in flight goes back to the one step that admitted it. */
  lemma {:induction false} EachCommitHasItsBegin(s: Sys, t: seq<Step>) returns (open: map<nat, nat>, origin: seq<nat>)
    requires s.inflight == map[]
    ensures Traces(s, t, open, origin)
    decreases t
  {
    hide Apply, Judge, AdmittedAt, Run, Commitments;
    if t == [] {
      open, origin := map[], [];
      NothingToTrace(s);
    } else {
      var n := |t| - 1;
      var open', origin' := EachCommitHasItsBegin(s, t[..n]);
      assert t == t[..n] + [t[n]];
      open, origin := TraceStep(s, t[..n], t[n], open', origin');
    }
  }

  lemma NothingToTrace(s: Sys)
    requires s.inflight == map[]
    ensures Traces(s, [], map[], [])
  {
  }

  /** The calls in flight after a step. */
  function Flight(s: Sys, step: Step): map<nat, Admitted> {
    if step.Begin? && step.id !in s.inflight && Judge(s.ledger, step.call).Admit?
    then s.inflight[step.id := Judge(s.ledger, step.call).call]
    else if step.Finish? || step.Expire? then s.inflight - {step.id}
    else s.inflight
  }

  lemma StepMoves(s: Sys, t: seq<Step>, step: Step)
    ensures Commitments(s, t + [step]) == Commitments(s, t) + Commits(Run(s, t), step)
    ensures Run(s, t + [step]).inflight == Flight(Run(s, t), step)
  {
    hide Judge;
    RunSnoc(s, t, step);
    CommitmentsAppend(s, t, [step]);
    assert [step][1..] == [];
    assert Commits(Run(s, t), step) + [] == Commits(Run(s, t), step);
    assert step.Finish? && step.id !in Run(s, t).inflight ==> Run(s, t).inflight - {step.id} == Run(s, t).inflight;
  }

  lemma StillAdmittedAt(s: Sys, t: seq<Step>, step: Step, j: nat, a: Admitted)
    requires AdmittedAt(s, t, j, a)
    ensures AdmittedAt(s, t + [step], j, a)
  {
    assert (t + [step])[..j] == t[..j];
  }

  lemma JustAdmitted(s: Sys, t: seq<Step>, step: Step)
    requires step.Begin? && Judge(Run(s, t).ledger, step.call).Admit?
    ensures AdmittedAt(s, t + [step], |t|, Judge(Run(s, t).ledger, step.call).call)
  {
    assert (t + [step])[..|t|] == t;
  }

  lemma AdmittedBefore(s: Sys, t: seq<Step>, j: nat, a: Admitted)
    requires AdmittedAt(s, t, j, a)
    ensures j < |t|
  {
  }

  lemma TraceStep(s: Sys, t: seq<Step>, step: Step, open: map<nat, nat>, origin: seq<nat>)
    returns (open': map<nat, nat>, origin': seq<nat>)
    requires Traces(s, t, open, origin)
    ensures Traces(s, t + [step], open', origin')
  {
    hide Judge, AdmittedAt, Run, Commitments;
    StepMoves(s, t, step);
    var m, done := Run(s, t).inflight, Commitments(s, t);
    forall id | id in open ensures AdmittedAt(s, t + [step], open[id], m[id]) && open[id] < |t| {
      StillAdmittedAt(s, t, step, open[id], m[id]);
      AdmittedBefore(s, t, open[id], m[id]);
    }
    forall i | 0 <= i < |origin| ensures AdmittedAt(s, t + [step], origin[i], done[i]) && origin[i] < |t| {
      StillAdmittedAt(s, t, step, origin[i], done[i]);
      AdmittedBefore(s, t, origin[i], done[i]);
    }
    open', origin' := open, origin;
    if step.Begin? && step.id !in m && Judge(Run(s, t).ledger, step.call).Admit? {
      JustAdmitted(s, t, step);
      open' := open[step.id := |t|];
    } else if step.Finish? && step.id in m {
      open', origin' := open - {step.id}, origin + [open[step.id]];
    } else if step.Expire? || step.Finish? {
      open' := open - {step.id};
    }
  }

  // ----- the printed idempotency key -----

  lemma SplitKey(tenant: string, capability: string, key: string)
    ensures Split(PrintKey(tenant, capability, key), ':')
         == Split(tenant, ':') + Split(capability, ':') + Split(key, ':')
  {
    assert PrintKey(tenant, capability, key) == (tenant + [':'] + capability) + [':'] + key;
    SplitAppend(tenant + [':'] + capability, key, ':');
    SplitAppend(tenant, capability, ':');
  }

  /** Tenants and capabilities without a colon: equal keys mean equal triples, whatever the client's key contains. */
  lemma PrintKeyInjective(t1: string, c1: string, k1: string, t2: string, c2: string, k2: string)
    requires ':' !in t1 && ':' !in c1 && ':' !in t2 && ':' !in c2
    requires PrintKey(t1, c1, k1) == PrintKey(t2, c2, k2)
    ensures t1 == t2 && c1 == c2 && k1 == k2
  {
    SplitKey(t1, c1, k1);
    SplitKey(t2, c2, k2);
    SplitWhole(t1, ':');
    SplitWhole(c1, ':');
    SplitWhole(t2, ':');
    SplitWhole(c2, ':');
    var parts := Split(PrintKey(t1, c1, k1), ':');
    assert parts[0] == t1 == t2 && parts[1] == c1 == c2;
    assert parts[2..] == Split(k1, ':') == Split(k2, ':');
    JoinSplit(k1, ':');
    JoinSplit(k2, ':');
  }

  /** Whose key it is: a tenant calling a capability. */
  datatype Owner = Owner(tenant: string, capability: string)

  function OwnerOf(p: Prepared): Owner {
    Owner(p.head.tenantID, p.capability)
  }

  /** Invoke refuses requests without tenant or capability. */
  predicate Receivable(o: Owner) {
    o.tenant != "" && o.capability != ""
  }

  function KeyFor(o: Owner, key: string): string {
    PrintKey(o.tenant, o.capability, key)
  }

  /** What the owner contributes to a printed key. */
  function Lead(o: Owner): string {
    o.tenant + ":" + o.capability + ":"
  }

  /** One owner's lead begins with the other's. */
  predicate Clash(x: Owner, y: Owner) {
    Lead(x) <= Lead(y) || Lead(y) <= Lead(x)
  }

  lemma KeyAfterLead(o: Owner, key: string)
    ensures KeyFor(o, key) == Lead(o) + key
  {
  }

  /** Two owners can print the same key, with keys that the cache takes, if and only if their leads clash. */
  lemma KeysMeetIff(x: Owner, y: Owner)
    ensures (exists k, k' :: k != "" && k' != "" && KeyFor(x, k) == KeyFor(y, k')) <==> Clash(x, y)
  {
    hide KeyFor, Lead;
    if k, k' :| k != "" && k' != "" && KeyFor(x, k) == KeyFor(y, k') {
      KeyAfterLead(x, k);
      KeyAfterLead(y, k');
      PrefixesOfOne(Lead(x), k, Lead(y), k');
    }
    if Clash(x, y) {
      var k, k' := MeetingKeys(x, y);
    }
  }

  lemma PrefixesOfOne(a: string, b: string, c: string, d: string)
    requires a + b == c + d
    ensures a <= c || c <= a
  {
    var whole := a + b;
    assert whole[..|a|] == a && whole[..|c|] == c;
  }

  lemma MeetingKeys(x: Owner, y: Owner) returns (k: string, k': string)
    requires Clash(x, y)
    ensures k != "" && k' != "" && KeyFor(x, k) == KeyFor(y, k')
  {
    hide KeyFor, Lead;
    if Lead(x) <= Lead(y) {
      k, k' := Lead(y)[|Lead(x)|..] + "k", "k";
    } else {
      k, k' := "k", Lead(x)[|Lead(y)|..] + "k";
    }
    KeyAfterLead(x, k);
    KeyAfterLead(y, k');
  }

  /** No two different owners that are served clash. */
  ghost predicate NoClash(served: Owner -> bool) {
    forall x, y | served(x) && served(y) && Receivable(x) && Receivable(y) && x != y :: !Clash(x, y)
  }

  /** Tenants and capabilities without colons never clash. */
  lemma ColonFreeNeverClash(served: Owner -> bool)
    requires forall o | served(o) :: ':' !in o.tenant && ':' !in o.capability
    ensures NoClash(served)
  {
    forall x, y | served(x) && served(y) && x != y ensures !Clash(x, y) {
      if Clash(x, y) {
        var k, k' := MeetingKeys(x, y);
        PrintKeyInjective(x.tenant, x.capability, k, y.tenant, y.capability, k');
      }
    }
  }

  // ----- cache hits -----

  ghost predicate AnswersFor(r: InvokeResponse, done: seq<Admitted>, key: string) {
    exists i :: 0 <= i < |done| && OfKey(key)(done[i]) && r == Answer(done[i])
  }

  /** A cached answer is the answer of a committed call with that key. */
  lemma CachedFromCommit(s: Sys, t: seq<Step>, key: string)
    requires key in Run(s, t).ledger.idempotency && key !in s.ledger.idempotency
    ensures AnswersFor(Run(s, t).ledger.idempotency[key], Commitments(s, t), key)
  {
    CachedOrKept(s, t, key);
  }

  lemma {:induction false} CachedOrKept(s: Sys, t: seq<Step>, key: string)
    requires key in Run(s, t).ledger.idempotency
    ensures
      || (key in s.ledger.idempotency && Run(s, t).ledger.idempotency[key] == s.ledger.idempotency[key])
      || AnswersFor(Run(s, t).ledger.idempotency[key], Commitments(s, t), key)
    decreases t
  {
    hide Apply, Judge;
    if t != [] {
      var s' := Apply(s, t[0]);
      var r, done, rest := Run(s, t).ledger.idempotency[key], Commitments(s, t), Commitments(s', t[1..]);
      StepWrites(s, t[0]);
      CachedOrKept(s', t[1..], key);
      if AnswersFor(r, rest, key) {
        var i :| 0 <= i < |rest| && OfKey(key)(rest[i]) && r == Answer(rest[i]);
        assert done[i + |Commits(s, t[0])|] == rest[i];
      } else if Commits(s, t[0]) != [] && OfKey(key)(done[0]) {
        assert r == Answer(done[0]);
      }
    }
  }

  /** The call comes from an owner that is served. */
  predicate Serves(served: Owner -> bool, call: InvokeCall) {
    Prepare(call).Ok? ==> served(OwnerOf(Prepare(call).value))
  }

  predicate AllServed(served: Owner -> bool, t: seq<Step>) {
    forall i | 0 <= i < |t| :: t[i].Begin? ==> Serves(served, t[i].call)
  }

  /** `call`, arriving after the run `t` of a booted gateway, is answered from the cache. */
  predicate Hits(t: seq<Step>, call: InvokeCall) {
    Judge(Run(BOOTED, t).ledger, call).Answered?
  }

  /** The hit repeats, under the caller's own header, the answer of a committed call of the same tenant, capability and
      idempotency key. */
  ghost predicate OwnAnswer(t: seq<Step>, call: InvokeCall)
    requires Hits(t, call)
  {
    var p := Prepare(call).value;
    exists a | a in Commitments(BOOTED, t) ::
      && OwnerOf(a.prep) == OwnerOf(p) && a.prep.head.idempotencyKey == p.head.idempotencyKey
      && Conveys(Judge(Run(BOOTED, t).ledger, call).response, p.head, a)
  }

  /** A committed call of a served run was made by a served owner. */
  lemma CommittedIsServed(t: seq<Step>, served: Owner -> bool, i: nat)
    requires AllServed(served, t) && i < |Commitments(BOOTED, t)|
    ensures var o := OwnerOf(Commitments(BOOTED, t)[i].prep);
      served(o) && Receivable(o)
  {
    hide Apply, Run, Commitments;
    var open, origin := EachCommitHasItsBegin(BOOTED, t);
    assert AdmittedAt(BOOTED, t, origin[i], Commitments(BOOTED, t)[i]);
    assert Serves(served, t[origin[i]].call);
  }

  lemma HitIsCached(l: Ledger, call: InvokeCall)
    requires Judge(l, call).Answered?
    ensures Prepare(call).Ok?
    ensures var p := Prepare(call).value;
      && p.head.idempotencyKey != "" && KeyOf(p) in l.idempotency && Receivable(OwnerOf(p))
      && Judge(l, call).response == l.idempotency[KeyOf(p)].(header := p.head)
  {
  }

  lemma HitIsTheSameCall(t: seq<Step>, call: InvokeCall, served: Owner -> bool)
    requires NoClash(served) && AllServed(served, t) && Serves(served, call) && Hits(t, call)
    ensures OwnAnswer(t, call)
  {
    hide Answer, Conveys, Judge, Run, Commitments, Prepare, AllServed, Clash;
    var l, done := Run(BOOTED, t).ledger, Commitments(BOOTED, t);
    HitIsCached(l, call);
    var p := Prepare(call).value;
    CachedFromCommit(BOOTED, t, KeyOf(p));
    var i :| 0 <= i < |done| && OfKey(KeyOf(p))(done[i]) && l.idempotency[KeyOf(p)] == Answer(done[i]);
    var a := done[i];
    CommittedIsServed(t, served, i);
    AnswerConveys(a, p.head);
    KeysMeetIff(OwnerOf(a.prep), OwnerOf(p));
    assert KeyFor(OwnerOf(a.prep), a.prep.head.idempotencyKey) == KeyFor(OwnerOf(p), p.head.idempotencyKey);
    assert OwnerOf(a.prep) == OwnerOf(p);
    KeyAfterLead(OwnerOf(p), a.prep.head.idempotencyKey);
    KeyAfterLead(OwnerOf(p), p.head.idempotencyKey);
    SameTail(Lead(OwnerOf(p)), a.prep.head.idempotencyKey, p.head.idempotencyKey);
    assert a in done;
  }

  lemma SameTail(a: string, b: string, c: string)
    requires a + b == a + c
    ensures b == c
  {
    assert (a + b)[|a|..] == b && (a + c)[|a|..] == c;
  }

  // ----- a hit on somebody else's answer -----

  function Descriptor(capability: string): CapabilityDescriptor {
    CapabilityDescriptor(capability, "1", [], "in", "out", [], [], "at_least_once")
  }

  function OwnersCall(o: Owner, key: string, payload: Json): InvokeCall {
    PlainCall(o.tenant, o.capability, key, payload)
  }

  /** Two capabilities are registered, and `x` makes a call that is committed. */
  function CrossRun(x: Owner, y: Owner, key: string, payload: Json): seq<Step> {
    [AddCapability(Descriptor(x.capability)), AddCapability(Descriptor(y.capability)),
     Begin(0, OwnersCall(x, key, payload)), Finish(0, "")]
  }

  /** If keys of two owners print alike, one gets the other's answer, payload included. */
  lemma CrossHit(x: Owner, y: Owner, k: string, k': string, payload: Json, other: Json)
    requires Receivable(x) && Receivable(y) && k != "" && k' != "" && KeyFor(x, k) == KeyFor(y, k')
    ensures var t, call := CrossRun(x, y, k, payload), OwnersCall(y, k', other);
      && Hits(t, call) && Prepare(call).Ok? && OwnerOf(Prepare(call).value) == y
      && var r := Judge(Run(BOOTED, t).ledger, call).response;
      && r.capability == x.capability && r.payload.JObj? && "echo" in r.payload.fields
      && r.payload.fields["echo"] == payload
      && |Commitments(BOOTED, t)| == 1 && OwnerOf(Commitments(BOOTED, t)[0].prep) == x
  {
    hide Run, Commitments, Judge, Commit;
    var t, call, first := CrossRun(x, y, k, payload), OwnersCall(y, k', other), OwnersCall(x, k, payload);
    var l := BothRegistered(x, y);
    var a := Admitted(Prepare(first).value, Descriptor(x.capability));
    CrossAdmits(x, y, k, payload);
    FourSteps(BOOTED, t, Sys(l, map[]), Sys(l, map[0 := a]), Sys(Commit(l, a, ""), map[]), a);
    CrossAnswers(l, a, y, k', other);
  }

  /** The booted ledger with both capabilities. */
  function BothRegistered(x: Owner, y: Owner): Ledger {
    BOOT_LEDGER.(capabilities := BOOT_LEDGER.capabilities
      [x.capability := Descriptor(x.capability)][y.capability := Descriptor(y.capability)])
  }

  lemma CrossAdmits(x: Owner, y: Owner, k: string, payload: Json)
    requires Receivable(x) && Receivable(y)
    ensures var call := OwnersCall(x, k, payload);
      && Prepare(call).Ok?
      && Judge(BothRegistered(x, y), call) == Admit(Admitted(Prepare(call).value, Descriptor(x.capability)))
  {
  }

  lemma CrossAnswers(l: Ledger, a: Admitted, y: Owner, k': string, other: Json)
    requires Receivable(y) && k' != ""
    requires y.capability in l.capabilities && l.capabilities[y.capability].authScopes == []
    requires l.cancelled == map[] && a.prep.head.idempotencyKey != "" && KeyOf(a.prep) == KeyFor(y, k')
    ensures Judge(Commit(l, a, ""), OwnersCall(y, k', other))
         == Answered(Answer(a).(header := Prepare(OwnersCall(y, k', other)).value.head))
  {
    hide Answer;
    assert KeyOf(Prepare(OwnersCall(y, k', other)).value) == KeyOf(a.prep);
  }

  lemma FourSteps(s: Sys, t: seq<Step>, two: Sys, three: Sys, four: Sys, a: Admitted)
    requires |t| == 4
    requires Apply(Apply(s, t[0]), t[1]) == two && Apply(two, t[2]) == three && Apply(three, t[3]) == four
    requires Commits(s, t[0]) == [] && Commits(Apply(s, t[0]), t[1]) == [] && Commits(two, t[2]) == []
    requires Commits(three, t[3]) == [a]
    ensures Run(s, t) == four && Commitments(s, t) == [a]
  {
    hide Apply, Commits;
    var one := Apply(s, t[0]);
    assert t[1..][1..] == t[2..] && t[2..][1..] == t[3..] && t[3..][1..] == [];
    assert Run(s, t) == Run(one, t[1..]) == Run(two, t[2..]) == Run(three, t[3..]) == Run(four, []);
    assert Commitments(three, t[3..]) == Commits(three, t[3]) + Commitments(four, []);
    assert Commitments(two, t[2..]) == Commits(two, t[2]) + Commitments(three, t[3..]);
    assert Commitments(one, t[1..]) == Commits(one, t[1]) + Commitments(two, t[2..]);
  }

  /** Tenant "a:b" reads tenant "a"'s answer. */
  lemma CrossTenantHit(payload: Json, other: Json)
    ensures var x, y := Owner("a", "b:c"), Owner("a:b", "c");
      var t, call := CrossRun(x, y, "k", payload), OwnersCall(y, "k", other);
      && Hits(t, call)
      && Judge(Run(BOOTED, t).ledger, call).response.payload.JObj?
      && "echo" in Judge(Run(BOOTED, t).ledger, call).response.payload.fields
      && Judge(Run(BOOTED, t).ledger, call).response.payload.fields["echo"] == payload
  {
    hide Run, Judge;
    var x, y := Owner("a", "b:c"), Owner("a:b", "c");
    assert KeyFor(x, "k") == "a:b:c:k" == KeyFor(y, "k");
    CrossHit(x, y, "k", "k", payload, other);
  }

  lemma ClashCrosses(x: Owner, y: Owner, served: Owner -> bool) returns (t: seq<Step>, call: InvokeCall)
    requires served(x) && served(y) && Receivable(x) && Receivable(y) && x != y && Clash(x, y)
    ensures AllServed(served, t) && Serves(served, call) && Hits(t, call) && !OwnAnswer(t, call)
  {
    hide Run, Judge, Commitments, Clash, KeyFor, Conveys;
    var k, k' := MeetingKeys(x, y);
    t, call := CrossRun(x, y, k, JNull), OwnersCall(y, k', JNull);
    CrossHit(x, y, k, k', JNull, JNull);
    assert OwnerOf(Prepare(OwnersCall(x, k, JNull)).value) == x;
  }

  /** For any set of tenants and capabilities that are served: every cache hit of every run is the caller's own answer
      if and only if no two of them clash. */
  lemma HitsAreOwnIffNoClash(served: Owner -> bool)
    ensures (forall t, call | AllServed(served, t) && Serves(served, call) && Hits(t, call) :: OwnAnswer(t, call))
      <==> NoClash(served)
  {
    hide AllServed, Serves, Hits, OwnAnswer, Clash, Receivable;
    if NoClash(served) {
      forall t, call | AllServed(served, t) && Serves(served, call) && Hits(t, call) ensures OwnAnswer(t, call) {
        HitIsTheSameCall(t, call, served);
      }
    } else {
      var x, y :| served(x) && served(y) && Receivable(x) && Receivable(y) && x != y && Clash(x, y);
      var t, call := ClashCrosses(x, y, served);
    }
  }

  // ----- attribution -----

  /** An audit record made for the request `w`, admitted when the ledger was `l`: the request's own bearer token
      verifies and names the record's tenant and actor, and unless the capability asked for no scope then, the token
      has one. */
  predicate Attributed(r: AuditRecord, w: Wire, l: Ledger, verify: string -> Option<Claims>) {
    var token := BearerClaims(w.authorization, verify);
    && token.Some? && r.tenantID != "" && NamesTenant(token.value, r.tenantID)
    && (NamesSubject(token.value, r.actor) || NamesSubject(token.value, ""))
    && (w.request.header.messageID != "" ==> r.messageID == w.request.header.messageID)
    && r.capability == (if w.capability != "" then w.capability else w.request.capability)
    && r.capability in l.capabilities
    && var scopes := l.capabilities[r.capability].authScopes;
       scopes == [] || exists sc | sc in scopes :: GrantsScope(token.value, sc)
  }

  /** What admission of a call means for the record that its commit will write. */
  lemma AdmissionAttributes(front: Front, cfg: AuthConfig, verify: string -> Option<Claims>, w: Wire, l: Ledger,
                            a: Admitted, r: AuditRecord)
    requires cfg.mode == Jwt && Enter(front, cfg, verify, w).Some?
    requires Judge(l, Enter(front, cfg, verify, w).value) == Admit(a) && Records(r, a)
    ensures Attributed(r, w, l, verify) && a.prep.principal.tenantID == r.tenantID
  {
    hide Authenticate, BearerClaims, NamesTenant, NamesSubject, GrantsScope;
    EntersAsItsToken(front, cfg, verify, w);
    EnterKeepsRequest(front, cfg, verify, w);
  }

  lemma EnterKeepsRequest(front: Front, cfg: AuthConfig, verify: string -> Option<Claims>, w: Wire)
    requires Enter(front, cfg, verify, w).Some?
    ensures var call := Enter(front, cfg, verify, w).value;
      call.pathCapability == w.capability && call.request.capability == w.request.capability
  {
  }

  /** An audit record made for a message on the NATS subject: it names whatever tenant the body, or else the subject,
      says, and shows where it came from. */
  predicate FromNats(r: AuditRecord, subject: string, request: InvokeRequest) {
    && r.actor == NATS_ACTOR
    && r.tenantID == (if request.header.tenantID != "" then request.header.tenantID else Token(subject, 2))
  }

  lemma NatsAttributes(subject: string, request: InvokeRequest, freshID: FreshId, now: string, l: Ledger, a: Admitted,
                       r: AuditRecord)
    requires Matches(INVOKE_PATTERN, Tokens(subject))
    requires Judge(l, NatsCall(subject, request, freshID, now)) == Admit(a) && Records(r, a)
    ensures FromNats(r, subject, request) && a.prep.principal.tenantID == r.tenantID
  {
    hide Matches, Token, Split;
  }

  /** What an audit record owes to the way its request came. */
  predicate Sourced(r: AuditRecord, arrival: Arrival, l: Ledger, verify: string -> Option<Claims>) {
    match arrival
    case Over(_, w) => Attributed(r, w, l, verify)
    case OverNats(subject, request, _, _) => FromNats(r, subject, request)
  }

  lemma AdmissionSources(arrival: Arrival, cfg: AuthConfig, verify: string -> Option<Claims>, l: Ledger, a: Admitted,
                         r: AuditRecord)
    requires cfg.mode == Jwt && Leads(arrival, cfg, verify).Some?
    requires Judge(l, Leads(arrival, cfg, verify).value) == Admit(a) && Records(r, a)
    ensures Sourced(r, arrival, l, verify) && a.prep.principal.tenantID == r.tenantID
  {
    hide Judge, Attributed, FromNats, Records, Enter, NatsCall, Matches;
    match arrival {
      case Over(front, w) => AdmissionAttributes(front, cfg, verify, w, l, a, r);
      case OverNats(subject, request, freshID, now) => NatsAttributes(subject, request, freshID, now, l, a, r);
    }
  }

  /** Where it is known how the call of a Begin step came in, it led to that call. */
  predicate CameIn(t: seq<Step>, arrivals: seq<Option<Arrival>>, cfg: AuthConfig, verify: string -> Option<Claims>) {
    && |arrivals| == |t|
    && forall j | 0 <= j < |t| :: t[j].Begin? && arrivals[j].Some? ==>
      Leads(arrivals[j].value, cfg, verify) == Some(t[j].call)
  }

  /** In JWT mode, over any run, whatever else is in it: each new audit record belongs to one request, no two to the
      same. If that request came over HTTP, WebSocket or gRPC the record is attributed by the request's own token; if
      it came over NATS the record says so. */
  lemma AuditAttribution(s: Sys, t: seq<Step>, arrivals: seq<Option<Arrival>>, cfg: AuthConfig,
                         verify: string -> Option<Claims>)
    returns (origin: seq<nat>)
    requires cfg.mode == Jwt && s.inflight == map[] && CameIn(t, arrivals, cfg, verify)
    ensures var was, now, done := s.ledger.audit, Run(s, t).ledger.audit, Commitments(s, t);
      && was <= now && |now| == |was| + |origin| && |done| == |origin| && Distinct(origin)
      && forall i | 0 <= i < |origin| ::
        && AdmittedAt(s, t, origin[i], done[i])
        && (arrivals[origin[i]].Some? ==>
          && now[|was| + i].tenantID == done[i].prep.principal.tenantID
          && Sourced(now[|was| + i], arrivals[origin[i]].value, Run(s, t[..origin[i]]).ledger, verify))
  {
    hide Apply, Judge, Run, Commitments, Leads, Sourced, Records;
    var open;
    open, origin := EachCommitHasItsBegin(s, t);
    AuditIsCommitments(s, t);
    var was, now, done := s.ledger.audit, Run(s, t).ledger.audit, Commitments(s, t);
    forall i | 0 <= i < |origin|
      ensures AdmittedAt(s, t, origin[i], done[i])
      ensures arrivals[origin[i]].Some? ==>
        && now[|was| + i].tenantID == done[i].prep.principal.tenantID
        && Sourced(now[|was| + i], arrivals[origin[i]].value, Run(s, t[..origin[i]]).ledger, verify)
    {
      var j, r := origin[i], now[|was| + i];
      assert AdmittedAt(s, t, j, done[i]) && Records(r, done[i]);
      if arrivals[j].Some? {
        AdmissionSources(arrivals[j].value, cfg, verify, Run(s, t[..j]).ledger, done[i], r);
      }
    }
  }

  // ----- which gateways ask every caller for a token -----

  /** A run of a gateway: it is known how each call came in, and none came over NATS unless the binding is on. */
  predicate Gateway(t: seq<Step>, arrivals: seq<Option<Arrival>>, cfg: AuthConfig, verify: string -> Option<Claims>,
                    binding: bool)
  {
    && CameIn(t, arrivals, cfg, verify)
    && forall j | 0 <= j < |t| :: t[j].Begin? ==> arrivals[j].Some? && (arrivals[j].value.OverNats? ==> binding)
  }

  /** Record number `i` of a run from boot was admitted for a request whose own token attributes it. */
  ghost predicate TokenBacked(t: seq<Step>, arrivals: seq<Option<Arrival>>, verify: string -> Option<Claims>, i: nat)
    requires |arrivals| == |t| && i < |Commitments(BOOTED, t)|
    requires i < |Run(BOOTED, t).ledger.audit|
  {
    exists j: nat ::
      && AdmittedAt(BOOTED, t, j, Commitments(BOOTED, t)[i])
      && arrivals[j].Some? && arrivals[j].value.Over?
      && Attributed(Run(BOOTED, t).ledger.audit[i], arrivals[j].value.wire, Run(BOOTED, t[..j]).ledger, verify)
  }

  ghost predicate AllTokenBacked(t: seq<Step>, arrivals: seq<Option<Arrival>>, verify: string -> Option<Claims>)
    requires |arrivals| == |t|
  {
    AuditIsCommitments(BOOTED, t);
    forall i | 0 <= i < |Commitments(BOOTED, t)| :: TokenBacked(t, arrivals, verify, i)
  }

  lemma WithoutBindingAllBacked(t: seq<Step>, arrivals: seq<Option<Arrival>>, cfg: AuthConfig,
                                verify: string -> Option<Claims>)
    requires cfg.mode == Jwt && Gateway(t, arrivals, cfg, verify, false)
    ensures AllTokenBacked(t, arrivals, verify)
  {
    hide Apply, Judge, Run, Commitments, Leads, Attributed;
    var origin := AuditAttribution(BOOTED, t, arrivals, cfg, verify);
    AuditIsCommitments(BOOTED, t);
    forall i | 0 <= i < |Commitments(BOOTED, t)| ensures TokenBacked(t, arrivals, verify, i) {
      assert AdmittedAt(BOOTED, t, origin[i], Commitments(BOOTED, t)[i]);
    }
  }

  const NATS_SUBJECT := PREFIX + "x" + "." + "invoke" + "." + "y"

  lemma SubjectIsServed()
    ensures Matches(INVOKE_PATTERN, Tokens(NATS_SUBJECT))
  {
    hide Fits, Tokens;
    SubjectTokens("x", "invoke", "y");
    SplitWhole("x", '.');
    SplitWhole("y", '.');
    FitsVerb("invoke", Tokens(NATS_SUBJECT));
  }

  function NatsRequest(tenant: string): InvokeRequest {
    InvokeRequest(MessageHeader(MIG_VERSION, "m", "", tenant, "", "", "", 0, map[]), DEFAULT_CAPABILITY, JNull)
  }

  /** Over NATS a booted gateway commits a call of the default capability, which asks for a scope, for any tenant that
      the message names. */
  lemma NatsNeedsNoToken(tenant: string) returns (t: seq<Step>, arrivals: seq<Option<Arrival>>)
    requires tenant != ""
    ensures |Commitments(BOOTED, t)| == |Run(BOOTED, t).ledger.audit| == 1
    ensures Run(BOOTED, t).ledger.audit[0].tenantID == tenant
    ensures DEFAULT_DESCRIPTOR.authScopes != []
    ensures |arrivals| == |t| && forall cfg, verify :: Gateway(t, arrivals, cfg, verify, true)
    ensures forall j | 0 <= j < |t| :: arrivals[j].Some? ==> arrivals[j].value.OverNats?
  {
    hide Matches, Tokens, Run, Commitments, Judge;
    SubjectIsServed();
    var call := NatsCall(NATS_SUBJECT, NatsRequest(tenant), "0", "");
    t := [Begin(0, call), Finish(0, "")];
    arrivals := [Some(OverNats(NATS_SUBJECT, NatsRequest(tenant), "0", "")), None];
    NatsCallIsAdmitted(tenant);
    BeginThenFinish(BOOTED, call);
  }

  lemma BeginThenFinish(s: Sys, call: InvokeCall)
    requires s.inflight == map[] && Judge(s.ledger, call).Admit?
    ensures var t, a := [Begin(0, call), Finish(0, "")], Judge(s.ledger, call).call;
      Run(s, t).ledger == Commit(s.ledger, a, "") && Commitments(s, t) == [a]
  {
    hide Judge, Commit;
    var t, a := [Begin(0, call), Finish(0, "")], Judge(s.ledger, call).call;
    var mid := Sys(s.ledger, map[0 := a]);
    assert Apply(s, t[0]) == mid && Apply(mid, t[1]).ledger == Commit(s.ledger, a, "");
    assert t[1..] == [t[1]] && t[1..][1..] == [];
    assert Run(s, t) == Run(mid, t[1..]) == Run(Apply(mid, t[1]), []);
    assert Commitments(mid, t[1..]) == [a] + Commitments(Apply(mid, t[1]), []);
    assert Commitments(s, t) == [] + Commitments(mid, t[1..]);
  }

  lemma NatsCallIsAdmitted(tenant: string)
    requires tenant != "" && Matches(INVOKE_PATTERN, Tokens(NATS_SUBJECT))
    ensures var d := Judge(BOOTED.ledger, NatsCall(NATS_SUBJECT, NatsRequest(tenant), "0", ""));
      d.Admit? && d.call.prep.head.tenantID == tenant
  {
    hide Matches, Tokens;
  }

  /** In JWT mode every audit record of every run is backed by its request's token if and only if the NATS binding is
      off. */
  lemma TokenBackedIffNoBinding(cfg: AuthConfig, verify: string -> Option<Claims>, binding: bool)
    requires cfg.mode == Jwt
    ensures (forall t, arrivals | Gateway(t, arrivals, cfg, verify, binding) :: AllTokenBacked(t, arrivals, verify))
      <==> !binding
  {
    hide Leads, AllTokenBacked, Commitments, Run;
    if !binding {
      forall t, arrivals | Gateway(t, arrivals, cfg, verify, binding) ensures AllTokenBacked(t, arrivals, verify) {
        WithoutBindingAllBacked(t, arrivals, cfg, verify);
      }
    } else {
      var t, arrivals := NatsNeedsNoToken("x");
      assert Gateway(t, arrivals, cfg, verify, binding);
      NatsIsNotBacked(t, arrivals, verify);
    }
  }

  lemma NatsIsNotBacked(t: seq<Step>, arrivals: seq<Option<Arrival>>, verify: string -> Option<Claims>)
    requires |arrivals| == |t| && |Commitments(BOOTED, t)| >= 1
    requires forall j | 0 <= j < |t| :: arrivals[j].Some? ==> arrivals[j].value.OverNats?
    ensures !AllTokenBacked(t, arrivals, verify)
  {
    hide Apply, Judge, Run, Commitments, Attributed;
    AuditIsCommitments(BOOTED, t);
    assert !TokenBacked(t, arrivals, verify, 0);
  }
}
