/** The WebSocket and gRPC stream loops: one answer frame per input frame, while other goroutines work on the same
    service between frames and inside every Invoke. Writes are taken to succeed. */
module Streams {
  import opened MigTypes
  import opened GoStrings
  import opened Headers
  import opened Auth
  import opened Fronts
  import opened Ledgers
  import opened Invocation
  import opened InvocationLaws
  import opened Decisions
  import opened Services

  const REQUEST := "request"
  const RESPONSE := "response"
  const CONTROL := "control"
  const ERROR := "error"

  /** What surrounds one frame: other goroutines before it and in the gap of its Invoke, fresh values. */
  datatype Turn = Turn(before: seq<Step>, gap: Gap, freshID: FreshId, now: string)

  /** A connection: its front, its principal, what the header check needs, and the name its calls go under. A stream has
      one call at a time, so one name is enough. */
  datatype Peer = Peer(front: Front, principal: Principal, scopeList: seq<string>, tenantHeader: string, own: nat)

  /** The turns are those of other goroutines. */
  predicate Apart(peer: Peer, turns: seq<Turn>) {
    forall i | 0 <= i < |turns| :: AllForeign(turns[i].before, peer.own) && AllForeign(turns[i].gap.others, peer.own)
  }

  // ----- answers, as functions of the state that the frame meets -----

  function CallOf(peer: Peer, frame: StreamFrame, turn: Turn): InvokeCall {
    var request := InvokeRequest(frame.header, frame.capability, frame.payload);
    InvokeCall(frame.capability, request, Actor(peer.front, peer.principal, ""), peer.principal, turn.freshID, turn.now)
  }

  /** The control action named in a frame's payload. */
  function ControlAction(payload: Json): string {
    if payload.JObj? && "action" in payload.fields && payload.fields["action"].JStr?
    then Lowered(TrimSpace(payload.fields["action"].s)) else ""
  }

  /** The frame that every answer starts from. */
  function BaseFrame(frame: StreamFrame, kind: string): StreamFrame {
    StreamFrame(frame.header, frame.streamID, frame.capability, kind, JNull, true, None)
  }

  function ErrorFrame(base: StreamFrame, e: MigError): StreamFrame {
    base.(kind := ERROR, error := Some(e))
  }

  function RequestReply(s: Sys, peer: Peer, frame: StreamFrame, turn: Turn): StreamFrame {
    var base := BaseFrame(frame, RESPONSE);
    match CallResult(s, CallOf(peer, frame, turn), turn.gap)
    case Err(e) => ErrorFrame(base, e)
    case Ok(r) => base.(payload := r.payload)
  }

  /** The frame's own message ID is the target. */
  function CancelStep(peer: Peer, frame: StreamFrame, turn: Turn): Step {
    var target := frame.header.messageID;
    Cancel(CancelRequest(frame.header, target, CancelReason(peer.front)), target, turn.freshID, turn.now)
  }

  function CancelReason(front: Front): string {
    if front.GRPC? then "grpc stream control cancel" else "websocket control cancel"
  }

  function CancelOutcome(l: Ledger, peer: Peer, frame: StreamFrame, turn: Turn): Outcome<CancelAck> {
    var step := CancelStep(peer, frame, turn);
    CancelMessage(l, step.request, step.messageID, step.freshID, step.now)
  }

  function CancelReply(l: Ledger, peer: Peer, frame: StreamFrame, turn: Turn): StreamFrame {
    var base := BaseFrame(frame, CONTROL);
    match CancelOutcome(l, peer, frame, turn).result
    case Err(e) => ErrorFrame(base, e)
    case Ok(ack) => base.(payload := JObj(map["accepted" := JBool(ack.accepted), "status" := JStr(ack.status)]))
  }

  /** On WebSocket an empty stream ID is filled in from the message ID; on gRPC it stays empty. */
  function StreamIDOf(front: Front, frame: StreamFrame): string {
    if !front.GRPC? && frame.streamID == "" then "stream-" + frame.header.messageID else frame.streamID
  }

  function BindFrame(peer: Peer, frame: StreamFrame): Bound {
    Bind(peer.front, frame.header, peer.principal, peer.scopeList, peer.tenantHeader)
  }

  /** The frame with its stream ID and its checked header. */
  function Given(peer: Peer, received: StreamFrame): StreamFrame {
    received.(streamID := StreamIDOf(peer.front, received), header := BindFrame(peer, received).head)
  }

  datatype Plea = Unbound | Ask | Stop | Unsupported | Unknown

  /** What a frame comes to. On gRPC every control frame is a cancel, on WebSocket its payload must say so. */
  function PleaOf(peer: Peer, received: StreamFrame): Plea {
    if BindFrame(peer, received).error.Some? then Unbound
    else if received.kind == REQUEST then Ask
    else if received.kind == CONTROL then
      if peer.front.GRPC? || ControlAction(received.payload) == "cancel" then Stop else Unsupported
    else Unknown
  }

  function FrameReply(s: Sys, peer: Peer, received: StreamFrame, turn: Turn): StreamFrame {
    var frame := Given(peer, received);
    match PleaOf(peer, received)
    case Unbound => ErrorFrame(BaseFrame(frame, ERROR), BindFrame(peer, received).error.value)
    case Ask => RequestReply(s, peer, frame, turn)
    case Stop => Unaddressed(peer.front, CancelReply(s.ledger, peer, frame, turn))
    case Unsupported => Unaddressed(peer.front, ErrorFrame(BaseFrame(frame, ERROR), Invalid(UnsupportedControlAction)))
    case Unknown => ErrorFrame(BaseFrame(frame, ERROR), Invalid(BadFrameKind))
  }

  /** WebSocket answers to control frames leave the capability out. */
  function Unaddressed(front: Front, out: StreamFrame): StreamFrame {
    if front.GRPC? then out else out.(capability := "")
  }

  /** The steps that answering the frame takes. */
  function FrameSteps(s: Sys, peer: Peer, received: StreamFrame, turn: Turn): seq<Step> {
    match PleaOf(peer, received)
    case Ask => CallSteps(s, peer.own, CallOf(peer, Given(peer, received), turn), turn.gap)
    case Stop => [CancelStep(peer, Given(peer, received), turn)]
    case _ => []
  }

  // ----- what an answer promises -----

  /** The shape of an answer: it echoes stream and message ID, ends the stream, carries an error exactly when its kind
      says so, and is a response only to a request and a control acknowledgement only to a control frame. */
  predicate Answers(frame: StreamFrame, streamID: string, out: StreamFrame) {
    && out.streamID == streamID
    && out.header.messageID == frame.header.messageID
    && out.endStream
    && (out.error.Some? <==> out.kind == ERROR)
    && (out.kind != ERROR ==> out.kind == if frame.kind == REQUEST then RESPONSE else CONTROL)
    && (out.kind != ERROR ==> frame.kind in {REQUEST, CONTROL})
  }

  /** A request whose message ID is already cancelled gets an error. */
  predicate Heeds(frame: StreamFrame, out: StreamFrame, cancelled: set<string>) {
    frame.kind == REQUEST && frame.header.messageID != "" && frame.header.messageID in cancelled ==> out.kind == ERROR
  }

  /** Nothing is uncancelled, and an acknowledged cancel is on record. */
  predicate Registers(frame: StreamFrame, out: StreamFrame, before: set<string>, after: set<string>) {
    before <= after && (out.kind == CONTROL ==> frame.header.messageID != "" && frame.header.messageID in after)
  }

  lemma CancelledIsRefused(l: Ledger, call: InvokeCall)
    requires call.request.header.messageID != "" && call.request.header.messageID in l.cancelled
    ensures Judge(l, call).Refuse?
  {
  }

  lemma RequestLaws(s: Sys, peer: Peer, frame: StreamFrame, turn: Turn)
    ensures var out := RequestReply(s, peer, frame, turn);
      && Heeds(frame, out, s.ledger.cancelled.Keys)
      && (frame.kind == REQUEST ==> Answers(frame, frame.streamID, out) && out.kind != CONTROL)
      && out.header == frame.header && out.capability == frame.capability
  {
    hide Judge;
    if frame.header.messageID != "" && frame.header.messageID in s.ledger.cancelled {
      CancelledIsRefused(s.ledger, CallOf(peer, frame, turn));
    }
  }

  lemma CancelLaws(s: Sys, peer: Peer, frame: StreamFrame, turn: Turn)
    ensures var out := CancelReply(s.ledger, peer, frame, turn);
      && Registers(frame, out, s.ledger.cancelled.Keys, Run(s, [CancelStep(peer, frame, turn)]).ledger.cancelled.Keys)
      && (frame.kind == CONTROL ==> Answers(frame, frame.streamID, out))
      && out.header == frame.header && out.capability == frame.capability
  {
    OneStep(s, CancelStep(peer, frame, turn));
  }

  /** The shape of every answer; a cancelled request fails; a cancel is recorded. */
  lemma ReplyLaws(s: Sys, peer: Peer, frame: StreamFrame, turn: Turn)
    ensures var out, s' := FrameReply(s, peer, frame, turn), Run(s, FrameSteps(s, peer, frame, turn));
      var bound := BindFrame(peer, frame);
      && out.header == bound.head
      && out.capability == (
        if bound.error.None? && frame.kind == CONTROL && !peer.front.GRPC? then "" else frame.capability)
      && (bound.error.Some? ==> out.error == bound.error)
      && Answers(frame, StreamIDOf(peer.front, frame), out)
      && Heeds(frame, out, s.ledger.cancelled.Keys)
      && Registers(frame, out, s.ledger.cancelled.Keys, s'.ledger.cancelled.Keys)
  {
    hide RequestReply, CancelReply, CancelStep, CallSteps, Run, ControlAction;
    BindKeepsMessageID(peer, frame);
    RequestLaws(s, peer, Given(peer, frame), turn);
    CancelLaws(s, peer, Given(peer, frame), turn);
    CancelsStay(s, FrameSteps(s, peer, frame, turn));
  }

  lemma BindKeepsMessageID(peer: Peer, frame: StreamFrame)
    ensures BindFrame(peer, frame).head.messageID == frame.header.messageID
  {
  }

  // ----- what an answer says -----

  /** "cancel" in capitals or not, with white space around it or not. */
  ghost predicate CancelWord(s: string) {
    exists left, word, right ::
      s == left + word + right && Blank(left) && Blank(right) && AnyCase(word, "cancel", "CANCEL")
  }

  predicate AnyCase(word: string, lower: string, upper: string)
    requires |lower| == |upper|
  {
    |word| == |lower| && forall i | 0 <= i < |word| :: word[i] == lower[i] || word[i] == upper[i]
  }

  /** The payload has an action, and it is "cancel". */
  ghost predicate SaysCancel(payload: Json) {
    payload.JObj? && "action" in payload.fields && payload.fields["action"].JStr?
    && CancelWord(payload.fields["action"].s)
  }

  lemma SaysCancelIff(payload: Json)
    ensures ControlAction(payload) == "cancel" <==> SaysCancel(payload)
  {
    hide TrimSpace, Lowered;
    if payload.JObj? && "action" in payload.fields && payload.fields["action"].JStr? {
      var s := payload.fields["action"].s;
      LoweredIsCancel(TrimSpace(s));
      if Lowered(TrimSpace(s)) == "cancel" {
        var left, right := TrimCutsBlanks(s);
      }
      if left, word, right :|
        s == left + word + right && Blank(left) && Blank(right) && AnyCase(word, "cancel", "CANCEL")
      {
        CancelIsTrimmed(word);
        TrimFinds(left, word, right);
      }
    }
  }

  lemma LoweredIsCancel(word: string)
    ensures Lowered(word) == "cancel" <==> AnyCase(word, "cancel", "CANCEL")
  {
    if Lowered(word) == "cancel" {
      forall i | 0 <= i < |word| ensures word[i] == "cancel"[i] || word[i] == "CANCEL"[i] {
        assert Lowered(word)[i] == ToLower(word[i]) == "cancel"[i];
      }
    }
  }

  lemma CancelIsTrimmed(word: string)
    requires AnyCase(word, "cancel", "CANCEL")
    ensures Trimmed(word) && word != ""
  {
    assert word[0] == 'c' || word[0] == 'C';
    assert word[5] == 'l' || word[5] == 'L';
  }

  /** A request is answered as its call was settled: with the payload of the answer, or with the error. */
  ghost predicate AnswersCall(s: Sys, peer: Peer, call: InvokeCall, gap: Gap, out: StreamFrame, s': Sys) {
    exists r ::
      && Settled(s, peer.own, call, gap, s', r)
      && (out.kind == "response" <==> r.Ok?)
      && (r.Ok? ==> out.error == None && out.payload == r.value.payload)
      && (r.Err? ==> out.kind == "error" && out.error == Some(r.error) && out.payload == JNull)
  }

  /** A cancel is acknowledged and recorded under the frame's own message ID, or it is invalid and does nothing. */
  predicate AnswersCancel(s: Sys, head: MessageHeader, reason: string, out: StreamFrame, s': Sys) {
    if Acceptable(head) && head.messageID != "" then
      && s' == s.(ledger := s.ledger.(cancelled := s.ledger.cancelled[head.messageID := reason]))
      && out.kind == "control" && out.error == None
      && out.payload == JObj(map["accepted" := JBool(true), "status" := JStr("cancelled")])
    else
      && s' == s && out.kind == "error" && out.payload == JNull
      && out.error == Some(MigError(InvalidRequest,
        if head.migVersion !in {"", "0.1"} then UnsupportedVersion
        else if head.tenantID == "" then TenantRequired else TargetRequired, false))
  }

  predicate Rejects(s: Sys, out: StreamFrame, error: MigError, s': Sys) {
    s' == s && out.kind == "error" && out.error == Some(error) && out.payload == JNull
  }

  /** The answer to a frame, read off the frame, the state `s` it meets and the state `s'` it leaves. */
  ghost predicate Replies(s: Sys, peer: Peer, frame: StreamFrame, turn: Turn, out: StreamFrame, s': Sys) {
    var ws, p := !peer.front.GRPC?, peer.principal;
    var bound := if ws then BindHttp(frame.header, p, peer.scopeList, peer.tenantHeader)
                 else BindGrpc(frame.header, p, peer.scopeList);
    var actor := if p.subject != "" then p.subject else "anonymous";
    var call := InvokeCall(frame.capability, InvokeRequest(bound.head, frame.capability, frame.payload), actor, p,
      turn.freshID, turn.now);
    && out.header == bound.head && out.endStream
    && out.streamID == (if ws && frame.streamID == "" then "stream-" + frame.header.messageID else frame.streamID)
    && out.capability == (if ws && bound.error.None? && frame.kind == "control" then "" else frame.capability)
    && if bound.error.Some? then Rejects(s, out, bound.error.value, s')
       else if frame.kind == "request" then AnswersCall(s, peer, call, turn.gap, out, s')
       else if frame.kind != "control" then Rejects(s, out, MigError(InvalidRequest, BadFrameKind, false), s')
       else if ws && !SaysCancel(frame.payload)
       then Rejects(s, out, MigError(InvalidRequest, UnsupportedControlAction, false), s')
       else
         var reason := if ws then "websocket control cancel" else "grpc stream control cancel";
         AnswersCancel(s, bound.head, reason, out, s')
  }

  lemma ReplyDescribes(s: Sys, peer: Peer, frame: StreamFrame, turn: Turn)
    requires peer.own !in s.inflight && AllForeign(turn.gap.others, peer.own)
    ensures Replies(s, peer, frame, turn, FrameReply(s, peer, frame, turn), Run(s, FrameSteps(s, peer, frame, turn)))
  {
    hide BindHttp, BindGrpc, CallSteps, CallResult, Settled, Run, AllForeign, SaysCancel, ControlAction, CancelReply;
    hide CancelStep, AnswersCancel;
    var given := Given(peer, frame);
    var call := CallOf(peer, given, turn);
    NoSteps(s);
    SaysCancelIff(frame.payload);
    InvokeSettles(s, peer.own, call, turn.gap);
    CancelDescribes(s, peer, given, turn);
    CancelLaws(s, peer, given, turn);
    RequestDescribes(s, peer, given, turn, Run(s, CallSteps(s, peer.own, call, turn.gap)));
  }

  lemma RequestDescribes(s: Sys, peer: Peer, frame: StreamFrame, turn: Turn, s': Sys)
    requires var call := CallOf(peer, frame, turn);
      Settled(s, peer.own, call, turn.gap, s', CallResult(s, call, turn.gap))
    ensures AnswersCall(s, peer, CallOf(peer, frame, turn), turn.gap, RequestReply(s, peer, frame, turn), s')
  {
    hide CallResult, Settled;
  }

  lemma CancelDescribes(s: Sys, peer: Peer, frame: StreamFrame, turn: Turn)
    ensures var out, s' := CancelReply(s.ledger, peer, frame, turn), Run(s, [CancelStep(peer, frame, turn)]);
      && AnswersCancel(s, frame.header, CancelReason(peer.front), out, s')
      && AnswersCancel(s, frame.header, CancelReason(peer.front), out.(capability := ""), s')
  {
    hide Run;
    var step := CancelStep(peer, frame, turn);
    OneStep(s, step);
    CancelIff(s.ledger, step.request, step.messageID, step.freshID, step.now);
  }

  // ----- one round of each loop -----

  method AnswerRequest(svc: Service, peer: Peer, frame: StreamFrame, turn: Turn) returns (out: StreamFrame)
    requires svc.Valid() && peer.own !in svc.inflight && AllForeign(turn.gap.others, peer.own)
    modifies svc
    ensures svc.Valid() && peer.own !in svc.inflight
    ensures var call := CallOf(peer, frame, turn);
      svc.View() == Run(old(svc.View()), CallSteps(old(svc.View()), peer.own, call, turn.gap))
    ensures out == RequestReply(old(svc.View()), peer, frame, turn)
  {
    hide Sound, Run, CallResult, CallSteps;
    var request := InvokeRequest(frame.header, frame.capability, frame.payload);
    var actor := peer.principal.subject;
    if actor == "" {
      actor := "anonymous";
    }
    var call := InvokeCall(frame.capability, request, actor, peer.principal, turn.freshID, turn.now);
    var r := svc.Invoke(peer.own, call, turn.gap);
    out := BaseFrame(frame, RESPONSE);
    match r {
      case Err(e) => out := ErrorFrame(out, e);
      case Ok(response) => out := out.(payload := response.payload);
    }
  }

  method AnswerCancel(svc: Service, peer: Peer, frame: StreamFrame, reason: string, turn: Turn)
    returns (out: StreamFrame)
    requires svc.Valid() && peer.own !in svc.inflight && reason == CancelReason(peer.front)
    modifies svc
    ensures svc.Valid() && peer.own !in svc.inflight
    ensures svc.View() == Run(old(svc.View()), [CancelStep(peer, frame, turn)])
    ensures out == CancelReply(old(svc.View()).ledger, peer, frame, turn)
  {
    hide Sound, Run, CancelMessage;
    OneStep(svc.View(), CancelStep(peer, frame, turn));
    var target := frame.header.messageID;
    var ack := svc.Cancel(CancelRequest(frame.header, target, reason), target, turn.freshID, turn.now);
    out := BaseFrame(frame, CONTROL);
    match ack {
      case Err(e) => out := ErrorFrame(out, e);
      case Ok(a) => out := out.(payload := JObj(map["accepted" := JBool(a.accepted), "status" := JStr(a.status)]));
    }
  }

  /** One round of the WebSocket loop. */
  method AnswerWs(svc: Service, peer: Peer, received: StreamFrame, turn: Turn) returns (out: StreamFrame)
    requires peer.front == WebSocket
    requires svc.Valid() && peer.own !in svc.inflight && AllForeign(turn.gap.others, peer.own)
    modifies svc
    ensures svc.Valid() && peer.own !in svc.inflight
    ensures svc.View() == Run(old(svc.View()), FrameSteps(old(svc.View()), peer, received, turn))
    ensures out == FrameReply(old(svc.View()), peer, received, turn)
  {
    hide RequestReply, CancelReply, CancelStep, CallSteps, Run, Sound;
    NoSteps(svc.View());
    var frame := received;
    if frame.streamID == "" {
      frame := frame.(streamID := "stream-" + frame.header.messageID);
    }
    var bound := ApplyPrincipalHeader(frame.header, peer.principal, peer.scopeList, peer.tenantHeader);
    frame := frame.(header := bound.head);
    if bound.error.Some? {
      return ErrorFrame(BaseFrame(frame, ERROR), bound.error.value);
    }
    if frame.kind == REQUEST {
      out := AnswerRequest(svc, peer, frame, turn);
    } else if frame.kind == CONTROL {
      var action := "";
      if frame.payload.JObj? && "action" in frame.payload.fields && frame.payload.fields["action"].JStr? {
        action := Lowered(TrimSpace(frame.payload.fields["action"].s));
      }
      if action != "cancel" {
        return ErrorFrame(BaseFrame(frame, ERROR), Invalid(UnsupportedControlAction)).(capability := "");
      }
      out := AnswerCancel(svc, peer, frame, "websocket control cancel", turn);
      out := out.(capability := "");
    } else {
      out := ErrorFrame(BaseFrame(frame, ERROR), Invalid(BadFrameKind));
    }
  }

  /** One round of the gRPC loop. */
  method AnswerGrpc(svc: Service, peer: Peer, received: StreamFrame, turn: Turn) returns (out: StreamFrame)
    requires peer.front == GRPC
    requires svc.Valid() && peer.own !in svc.inflight && AllForeign(turn.gap.others, peer.own)
    modifies svc
    ensures svc.Valid() && peer.own !in svc.inflight
    ensures svc.View() == Run(old(svc.View()), FrameSteps(old(svc.View()), peer, received, turn))
    ensures out == FrameReply(old(svc.View()), peer, received, turn)
  {
    hide RequestReply, CancelReply, CancelStep, CallSteps, Run, Sound;
    NoSteps(svc.View());
    var bound := ApplyPrincipalHeaderFromPrincipal(received.header, peer.principal, peer.scopeList);
    var frame := received.(header := bound.head);
    if bound.error.Some? {
      return ErrorFrame(BaseFrame(frame, ERROR), bound.error.value);
    }
    if frame.kind == REQUEST {
      out := AnswerRequest(svc, peer, frame, turn);
    } else if frame.kind == CONTROL {
      out := AnswerCancel(svc, peer, frame, "grpc stream control cancel", turn);
    } else {
      out := ErrorFrame(BaseFrame(frame, ERROR), Invalid(BadFrameKind));
    }
  }

  // ----- the loops -----

  /** Once a cancel of a message ID has been acknowledged on the stream, every later request with that ID gets an error,
      whatever other goroutines do in between. */
  predicate CancelSticks(frames: seq<StreamFrame>, out: seq<StreamFrame>)
    requires |out| == |frames|
  {
    forall i, j | 0 <= i < j < |frames| ::
      && out[i].kind == CONTROL && frames[j].kind == REQUEST
      && frames[j].header.messageID == frames[i].header.messageID
      ==> out[j].kind == ERROR
  }

  /** Every acknowledged cancel is on record. */
  predicate Covered(frames: seq<StreamFrame>, out: seq<StreamFrame>, cancelled: set<string>)
    requires |out| == |frames|
  {
    forall i | 0 <= i < |out| :: out[i].kind == CONTROL ==>
      frames[i].header.messageID != "" && frames[i].header.messageID in cancelled
  }

  lemma NothingYet()
    ensures CancelSticks([], []) && forall c :: Covered([], [], c)
  {
  }

  lemma OneMoreFrame(frames: seq<StreamFrame>, out: seq<StreamFrame>, frame: StreamFrame, o: StreamFrame,
                     seen: set<string>, known: set<string>, after: set<string>)
    requires |out| == |frames| && Covered(frames, out, seen) && CancelSticks(frames, out)
    requires seen <= known && Heeds(frame, o, known) && Registers(frame, o, known, after)
    ensures Covered(frames + [frame], out + [o], after) && CancelSticks(frames + [frame], out + [o])
  {
  }

  /** The run that a stream makes with its first `n` frames, other goroutines' steps included. */
  function StreamRun(s: Sys, peer: Peer, frames: seq<StreamFrame>, turns: seq<Turn>, n: nat): seq<Step>
    requires n <= |frames| == |turns|
  {
    if n == 0 then [] else
      var t := StreamRun(s, peer, frames, turns, n - 1) + turns[n - 1].before;
      t + FrameSteps(Run(s, t), peer, frames[n - 1], turns[n - 1])
  }

  /** The state that frame `n` meets. */
  function Met(s: Sys, peer: Peer, frames: seq<StreamFrame>, turns: seq<Turn>, n: nat): Sys
    requires n < |frames| == |turns|
  {
    Run(s, StreamRun(s, peer, frames, turns, n) + turns[n].before)
  }

  lemma StreamRunStarts(s: Sys, peer: Peer, frames: seq<StreamFrame>, turns: seq<Turn>)
    requires |frames| == |turns|
    ensures StreamRun(s, peer, frames, turns, 0) == []
  {
  }

  lemma StreamRunGrows(s: Sys, peer: Peer, frames: seq<StreamFrame>, turns: seq<Turn>, n: nat)
    requires n < |frames| == |turns|
    ensures Met(s, peer, frames, turns, n) == Run(Run(s, StreamRun(s, peer, frames, turns, n)), turns[n].before)
    ensures var met := Met(s, peer, frames, turns, n);
      Run(s, StreamRun(s, peer, frames, turns, n + 1)) == Run(met, FrameSteps(met, peer, frames[n], turns[n]))
  {
    hide Run, FrameSteps;
    var t := StreamRun(s, peer, frames, turns, n);
    RunAppend(s, t, turns[n].before);
    RunAppend(s, t + turns[n].before, FrameSteps(Run(s, t + turns[n].before), peer, frames[n], turns[n]));
  }

  /** Other goroutines at work, then one round of the peer's loop. */
  method Round(svc: Service, peer: Peer, frame: StreamFrame, turn: Turn) returns (o: StreamFrame)
    requires svc.Valid() && peer.own !in svc.inflight && !peer.front.HTTP?
    requires AllForeign(turn.before, peer.own) && AllForeign(turn.gap.others, peer.own)
    modifies svc
    ensures svc.Valid() && peer.own !in svc.inflight
    ensures var met := Run(old(svc.View()), turn.before);
      && svc.View() == Run(met, FrameSteps(met, peer, frame, turn))
      && o == FrameReply(met, peer, frame, turn)
      && old(svc.View()).ledger.cancelled.Keys <= met.ledger.cancelled.Keys
      && Heeds(frame, o, met.ledger.cancelled.Keys)
      && Registers(frame, o, met.ledger.cancelled.Keys, svc.View().ledger.cancelled.Keys)
    ensures Answers(frame, StreamIDOf(peer.front, frame), o)
    ensures Replies(Run(old(svc.View()), turn.before), peer, frame, turn, o, svc.View())
  {
    hide Answers, Heeds, Registers, FrameReply, FrameSteps, Run, Sound, StreamIDOf, AllForeign, Replies;
    CancelsStay(svc.View(), turn.before);
    ForeignStepsSpare(svc.View(), turn.before, peer.own);
    svc.Perform(turn.before);
    ReplyLaws(svc.View(), peer, frame, turn);
    ReplyDescribes(svc.View(), peer, frame, turn);
    if peer.front.WebSocket? {
      o := AnswerWs(svc, peer, frame, turn);
    } else {
      o := AnswerGrpc(svc, peer, frame, turn);
    }
  }

  /** Both stream loops, over every sequence of frames read before the connection ends: frame for frame the reply to the
      state it met, and in all one run of the protocol. */
  method Serve(svc: Service, peer: Peer, frames: seq<StreamFrame>, turns: seq<Turn>) returns (out: seq<StreamFrame>)
    requires svc.Valid() && peer.own !in svc.inflight && |turns| == |frames| && Apart(peer, turns) && !peer.front.HTTP?
    modifies svc
    ensures svc.Valid() && peer.own !in svc.inflight
    ensures svc.View() == Run(old(svc.View()), StreamRun(old(svc.View()), peer, frames, turns, |frames|))
    ensures |out| == |frames|
    ensures forall i | 0 <= i < |frames| ::
      out[i] == FrameReply(Met(old(svc.View()), peer, frames, turns, i), peer, frames[i], turns[i])
    ensures forall i | 0 <= i < |frames| :: Answers(frames[i], StreamIDOf(peer.front, frames[i]), out[i])
    ensures forall i | 0 <= i < |frames| ::
      Replies(Met(old(svc.View()), peer, frames, turns, i), peer, frames[i], turns[i], out[i],
              Run(old(svc.View()), StreamRun(old(svc.View()), peer, frames, turns, i + 1)))
    ensures CancelSticks(frames, out)
  {
    hide Answers, Heeds, Registers, Covered, CancelSticks, FrameReply, FrameSteps, Met, Run, Sound, StreamIDOf;
    hide AllForeign, Replies, StreamRun;
    StreamRunStarts(svc.View(), peer, frames, turns);
    ghost var s := svc.View();
    NothingYet();
    NoSteps(s);
    out := [];
    for n := 0 to |frames|
      invariant svc.Valid() && peer.own !in svc.inflight
      invariant svc.View() == Run(s, StreamRun(s, peer, frames, turns, n))
      invariant |out| == n
      invariant forall i | 0 <= i < n :: out[i] == FrameReply(Met(s, peer, frames, turns, i), peer, frames[i], turns[i])
      invariant forall i | 0 <= i < n :: Answers(frames[i], StreamIDOf(peer.front, frames[i]), out[i])
      invariant forall i | 0 <= i < n ::
        Replies(Met(s, peer, frames, turns, i), peer, frames[i], turns[i], out[i],
                Run(s, StreamRun(s, peer, frames, turns, i + 1)))
      invariant Covered(frames[..n], out, svc.cancelled.Keys)
      invariant CancelSticks(frames[..n], out)
    {
      ghost var known := svc.View().ledger.cancelled.Keys;
      StreamRunGrows(s, peer, frames, turns, n);
      var o := Round(svc, peer, frames[n], turns[n]);
      ghost var met, after := Met(s, peer, frames, turns, n).ledger.cancelled.Keys, svc.View().ledger.cancelled.Keys;
      OneMoreFrame(frames[..n], out, frames[n], o, known, met, after);
      assert frames[..n + 1] == frames[..n] + [frames[n]];
      out := out + [o];
    }
    assert frames[..|frames|] == frames;
  }
}
