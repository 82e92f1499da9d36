/** Whose audit records a stream makes: each call it begins is the one that its own frame, sent with the credentials
    that the connection was opened with, leads to. */
module StreamRecords {
  import opened MigTypes
  import opened Auth
  import opened Fronts
  import opened Ledgers
  import opened Invocation
  import opened Provenance
  import opened Streams

  /** A request frame as a request with the credentials that the connection was opened with. */
  function WireOf(authorization: string, peer: Peer, frame: StreamFrame, turn: Turn): Wire {
    Wire(authorization, peer.tenantHeader, frame.capability,
         InvokeRequest(frame.header, frame.capability, frame.payload), "", peer.scopeList, turn.freshID, turn.now)
  }

  /** The connection was opened with these credentials. */
  predicate Opened(authorization: string, cfg: AuthConfig, verify: string -> Option<Claims>, peer: Peer) {
    Authenticate(authorization, peer.tenantHeader, cfg, verify) == Granted(peer.principal)
  }

  lemma FrameEnters(authorization: string, cfg: AuthConfig, verify: string -> Option<Claims>, peer: Peer,
                    frame: StreamFrame, turn: Turn)
    requires Opened(authorization, cfg, verify, peer) && PleaOf(peer, frame) == Ask
    ensures Enter(peer.front, cfg, verify, WireOf(authorization, peer, frame, turn))
         == Some(CallOf(peer, Given(peer, frame), turn))
  {
    hide Authenticate, BindHttp, BindGrpc;
  }

  function Nothing(n: nat): seq<Option<Arrival>> {
    seq(n, _ => None)
  }

  /** How the call of a frame came in, beside the steps that the frame takes. */
  function FrameArrivals(authorization: string, s: Sys, peer: Peer, frame: StreamFrame, turn: Turn)
    : seq<Option<Arrival>>
  {
    var n := |FrameSteps(s, peer, frame, turn)|;
    if PleaOf(peer, frame) == Ask && n > 0
    then [Some(Over(peer.front, WireOf(authorization, peer, frame, turn)))] + Nothing(n - 1)
    else Nothing(n)
  }

  /** The same for the run of a whole stream. */
  function StreamArrivals(authorization: string, s: Sys, peer: Peer, frames: seq<StreamFrame>, turns: seq<Turn>, n: nat)
    : seq<Option<Arrival>>
    requires n <= |frames| == |turns|
  {
    if n == 0 then [] else
      var t := StreamRun(s, peer, frames, turns, n - 1) + turns[n - 1].before;
      StreamArrivals(authorization, s, peer, frames, turns, n - 1) + Nothing(|turns[n - 1].before|)
      + FrameArrivals(authorization, Run(s, t), peer, frames[n - 1], turns[n - 1])
  }

  /** Every call that the connection begins in `t` came in with its credentials. */
  predicate OwnCallsEnter(authorization: string, cfg: AuthConfig, verify: string -> Option<Claims>, own: nat,
                          t: seq<Step>, arrivals: seq<Option<Arrival>>)
  {
    && CameIn(t, arrivals, cfg, verify)
    && forall j | 0 <= j < |t| :: t[j].Begin? && t[j].id == own ==>
      arrivals[j].Some? && arrivals[j].value.Over? && arrivals[j].value.wire.authorization == authorization
  }

  lemma EnterAppend(authorization: string, cfg: AuthConfig, verify: string -> Option<Claims>, own: nat,
                    t: seq<Step>, a: seq<Option<Arrival>>, u: seq<Step>, b: seq<Option<Arrival>>)
    requires OwnCallsEnter(authorization, cfg, verify, own, t, a)
    requires OwnCallsEnter(authorization, cfg, verify, own, u, b)
    ensures OwnCallsEnter(authorization, cfg, verify, own, t + u, a + b)
  {
    hide Leads;
    assert forall j | |t| <= j < |t| + |u| :: (t + u)[j] == u[j - |t|] && (a + b)[j] == b[j - |t|];
  }

  lemma OthersEnterNothing(authorization: string, cfg: AuthConfig, verify: string -> Option<Claims>, own: nat,
                           t: seq<Step>)
    requires AllForeign(t, own)
    ensures OwnCallsEnter(authorization, cfg, verify, own, t, Nothing(|t|))
  {
    assert forall j | 0 <= j < |t| :: Foreign(t[j], own);
  }

  lemma FrameStepsEnter(authorization: string, cfg: AuthConfig, verify: string -> Option<Claims>, s: Sys, peer: Peer,
                        frame: StreamFrame, turn: Turn)
    requires Opened(authorization, cfg, verify, peer) && AllForeign(turn.gap.others, peer.own)
    ensures OwnCallsEnter(authorization, cfg, verify, peer.own, FrameSteps(s, peer, frame, turn),
                          FrameArrivals(authorization, s, peer, frame, turn))
  {
    hide Leads, Judge, PleaOf, CallOf, WireOf, Opened, CancelStep;
    var steps := FrameSteps(s, peer, frame, turn);
    match PleaOf(peer, frame) {
      case Ask =>
        var call := CallOf(peer, Given(peer, frame), turn);
        var wire := WireOf(authorization, peer, frame, turn);
        FrameEnters(authorization, cfg, verify, peer, frame, turn);
        var first, a := [Begin(peer.own, call)], [Some(Over(peer.front, wire))];
        assert Leads(a[0].value, cfg, verify) == Some(call) && wire.authorization == authorization by {
          LeadsByEnter(authorization, cfg, verify, peer, frame, turn);
        }
        assert OwnCallsEnter(authorization, cfg, verify, peer.own, first, a);
        assert steps == first + steps[1..];
        RestIsQuiet(authorization, cfg, verify, s, peer.own, call, turn.gap);
        EnterAppend(authorization, cfg, verify, peer.own, first, a, steps[1..], Nothing(|steps| - 1));
      case Stop =>
        assert steps == [CancelStep(peer, Given(peer, frame), turn)];
        CancelBeginsNothing(peer, Given(peer, frame), turn);
        OthersEnterNothing(authorization, cfg, verify, peer.own, steps);
      case _ =>
        OthersEnterNothing(authorization, cfg, verify, peer.own, steps);
    }
  }

  lemma LeadsByEnter(authorization: string, cfg: AuthConfig, verify: string -> Option<Claims>, peer: Peer,
                     frame: StreamFrame, turn: Turn)
    ensures var wire := WireOf(authorization, peer, frame, turn);
      wire.authorization == authorization
      && Leads(Over(peer.front, wire), cfg, verify) == Enter(peer.front, cfg, verify, wire)
  {
    hide Enter;
  }

  lemma CancelBeginsNothing(peer: Peer, frame: StreamFrame, turn: Turn)
    ensures Foreign(CancelStep(peer, frame, turn), peer.own)
  {
  }

  /** After its first step a call begins nothing in its name. */
  lemma RestIsQuiet(authorization: string, cfg: AuthConfig, verify: string -> Option<Claims>, s: Sys, own: nat,
                    call: InvokeCall, gap: Gap)
    requires AllForeign(gap.others, own)
    ensures var rest := CallSteps(s, own, call, gap)[1..];
      OwnCallsEnter(authorization, cfg, verify, own, rest, Nothing(|rest|))
  {
    hide Leads, Judge;
    var rest := CallSteps(s, own, call, gap)[1..];
    forall j | 0 <= j < |rest| ensures rest[j].Begin? ==> rest[j].id != own {
      if j < |gap.others| {
        assert Judge(s.ledger, call).Admit? && rest[j] == gap.others[j];
        assert Foreign(gap.others[j], own);
      }
    }
  }

  /** Each call that a stream begins is the one that its own frame, sent with the connection's credentials, leads to. */
  lemma {:induction false} StreamBeginsEnter(authorization: string, cfg: AuthConfig, verify: string -> Option<Claims>,
                                             s: Sys, peer: Peer, frames: seq<StreamFrame>, turns: seq<Turn>, n: nat)
    requires n <= |frames| == |turns| && Apart(peer, turns) && Opened(authorization, cfg, verify, peer)
    ensures OwnCallsEnter(authorization, cfg, verify, peer.own, StreamRun(s, peer, frames, turns, n),
                          StreamArrivals(authorization, s, peer, frames, turns, n))
  {
    hide OwnCallsEnter, Opened, FrameSteps, FrameArrivals, Run, AllForeign;
    if n == 0 {
      NothingEnters(authorization, cfg, verify, peer.own);
    } else {
      var t := StreamRun(s, peer, frames, turns, n - 1);
      var a := StreamArrivals(authorization, s, peer, frames, turns, n - 1);
      var before, quiet := turns[n - 1].before, Nothing(|turns[n - 1].before|);
      var met := Run(s, t + before);
      StreamBeginsEnter(authorization, cfg, verify, s, peer, frames, turns, n - 1);
      OthersEnterNothing(authorization, cfg, verify, peer.own, before);
      EnterAppend(authorization, cfg, verify, peer.own, t, a, before, quiet);
      FrameStepsEnter(authorization, cfg, verify, met, peer, frames[n - 1], turns[n - 1]);
      EnterAppend(authorization, cfg, verify, peer.own, t + before, a + quiet,
        FrameSteps(met, peer, frames[n - 1], turns[n - 1]),
        FrameArrivals(authorization, met, peer, frames[n - 1], turns[n - 1]));
    }
  }

  lemma NothingEnters(authorization: string, cfg: AuthConfig, verify: string -> Option<Claims>, own: nat)
    ensures OwnCallsEnter(authorization, cfg, verify, own, [], [])
  {
  }

  /** In JWT mode, after any run and with anything else going on: every audit record of a call that a stream begins is
      attributed by the bearer token that the stream was opened with. */
  lemma StreamRecordsAttributed(authorization: string, cfg: AuthConfig, verify: string -> Option<Claims>, s: Sys,
                                earlier: seq<Step>, peer: Peer, frames: seq<StreamFrame>, turns: seq<Turn>)
    returns (origin: seq<nat>, wires: seq<Option<Wire>>)
    requires cfg.mode == Jwt && s.inflight == map[]
    requires |frames| == |turns| && Apart(peer, turns) && Opened(authorization, cfg, verify, peer)
    ensures var t := earlier + StreamRun(Run(s, earlier), peer, frames, turns, |frames|);
      var was, now, done := s.ledger.audit, Run(s, t).ledger.audit, Commitments(s, t);
      && was <= now && |now| == |was| + |origin| && |done| == |origin| == |wires| && Distinct(origin)
      && forall i | 0 <= i < |origin| ::
        && AdmittedAt(s, t, origin[i], done[i])
        && (origin[i] >= |earlier| && t[origin[i]].id == peer.own ==>
          && wires[i].Some? && wires[i].value.authorization == authorization
          && now[|was| + i].tenantID == done[i].prep.principal.tenantID
          && Attributed(now[|was| + i], wires[i].value, Run(s, t[..origin[i]]).ledger, verify))
  {
    hide Run, Commitments, StreamRun, StreamArrivals, Attributed, Leads, Opened, Judge;
    var met := Run(s, earlier);
    var u, b := StreamRun(met, peer, frames, turns, |frames|),
      StreamArrivals(authorization, met, peer, frames, turns, |frames|);
    var t, arrivals := earlier + u, Nothing(|earlier|) + b;
    StreamBeginsEnter(authorization, cfg, verify, met, peer, frames, turns, |frames|);
    AfterEarlier(authorization, cfg, verify, peer.own, earlier, u, b);
    origin := AuditAttribution(s, t, arrivals, cfg, verify);
    wires := seq(|origin|, i requires 0 <= i < |origin| => WireAt(arrivals, origin[i]));
    var was, now, done := s.ledger.audit, Run(s, t).ledger.audit, Commitments(s, t);
    forall i | 0 <= i < |origin| && origin[i] >= |earlier|
      ensures AdmittedAt(s, t, origin[i], done[i])
      ensures t[origin[i]].id == peer.own ==>
        && wires[i].Some? && wires[i].value.authorization == authorization
        && now[|was| + i].tenantID == done[i].prep.principal.tenantID
        && Attributed(now[|was| + i], wires[i].value, Run(s, t[..origin[i]]).ledger, verify)
    {
      assert AdmittedAt(s, t, origin[i], done[i]);
    }
  }

  /** The request of an arrival that came through header authentication. */
  function WireAt(arrivals: seq<Option<Arrival>>, j: nat): Option<Wire> {
    if j < |arrivals| && arrivals[j].Some? && arrivals[j].value.Over? then Some(arrivals[j].value.wire) else None
  }

  lemma AfterEarlier(authorization: string, cfg: AuthConfig, verify: string -> Option<Claims>, own: nat,
                     earlier: seq<Step>, u: seq<Step>, b: seq<Option<Arrival>>)
    requires OwnCallsEnter(authorization, cfg, verify, own, u, b)
    ensures var t, arrivals := earlier + u, Nothing(|earlier|) + b;
      && CameIn(t, arrivals, cfg, verify)
      && forall j | |earlier| <= j < |t| :: t[j].Begin? && t[j].id == own ==>
        arrivals[j].Some? && arrivals[j].value.Over? && arrivals[j].value.wire.authorization == authorization
  {
    hide Leads;
    var t, arrivals := earlier + u, Nothing(|earlier|) + b;
    assert forall j | |earlier| <= j < |t| :: t[j] == u[j - |earlier|] && arrivals[j] == b[j - |earlier|];
  }
}
