/** The NATS mirror and the NATS binding on one broker. Every accepted publish is mirrored to a subject; a broker that
    echoes to its publisher hands the message to the binding, whose publish handler publishes it again. */
module Mirror {
  import opened MigTypes
  import opened EventLog
  import opened Subjects
  import opened Counting

  /** A message on the broker. */
  datatype Mail = Mail(subject: string, body: EventMessage)

  /** `publishEventToNATS`. */
  function Mirrored(e: EventMessage): Mail {
    Mail(MirrorSubject(e.header.tenantID, e.topic), e)
  }

  /** The event log and the mirrored messages not yet delivered. */
  datatype Net<!C(==)> = Net(hub: Hub<C>, pending: seq<Mail>)

  /** What an action of the event log puts on the broker: the event of an accepted publish. */
  function News<C(==)>(h: Hub<C>, a: Action<C>): seq<Mail> {
    if !a.Publish? then [] else
      match CheckPublish(a.topic, a.request, a.freshID, a.now)
      case Err(_) => []
      case Ok(p) => [Mirrored(NextEvent(h.Log(p.topic), p, a.eventID, a.now))]
  }

  /** An action of the event log with the mirror on. */
  function Local<C(==)>(net: Net<C>, a: Action<C>): Net<C> {
    Net(Act(net.hub, a), net.pending + News(net.hub, a))
  }

  /** The message reaches the publish handler. */
  predicate Loops(m: Mail) {
    Matches(EVENTS_PATTERN, Tokens(m.subject))
  }

  /** What the publish handler passes on: the body decodes as a request, blanks are filled from the subject. */
  function HandlerRequest(m: Mail): PublishRequest
    requires Loops(m)
  {
    MatchIsLongEnough(EVENTS_PATTERN, Tokens(m.subject));
    var head := m.body.header;
    PublishRequest(if head.tenantID == "" then head.(tenantID := Token(m.subject, 2)) else head,
                   if m.body.topic == "" then DecodeTopic(m.subject) else m.body.topic, m.body.payload)
  }

  /** What happens: an action of the event log, from whatever front, or the delivery of one pending message, any one. */
  datatype Move<C> =
    | Outside(action: Action<C>)
    | Delivery(index: nat, freshID: FreshId, now: string, eventID: string)

  function HandlerAction<C>(m: Mail, d: Move<C>): Action<C>
    requires Loops(m) && d.Delivery?
  {
    var req := HandlerRequest(m);
    Publish(req.topic, req, d.freshID, d.now, d.eventID)
  }

  predicate Delivers<C>(net: Net<C>, m: Move<C>) {
    m.Delivery? && m.index < |net.pending|
  }

  function Without<T>(xs: seq<T>, i: nat): seq<T>
    requires i < |xs|
  {
    xs[..i] + xs[i + 1..]
  }

  /** What a move makes the event log do. */
  function Effect<C(==)>(net: Net<C>, m: Move<C>, binding: bool): seq<Action<C>> {
    if m.Outside? then [m.action]
    else if Delivers(net, m) && binding && Loops(net.pending[m.index]) then [HandlerAction(net.pending[m.index], m)]
    else []
  }

  function Go<C(==)>(net: Net<C>, m: Move<C>, binding: bool): Net<C> {
    var rest := if Delivers(net, m) then net.(pending := Without(net.pending, m.index)) else net;
    var effect := Effect(net, m, binding);
    if effect == [] then rest else Local(rest, effect[0])
  }

  function GoOn<C(==)>(net: Net<C>, moves: seq<Move<C>>, binding: bool): Net<C>
    decreases moves
  {
    if moves == [] then net else GoOn(Go(net, moves[0], binding), moves[1..], binding)
  }

  /** The actions that the event log performs along the moves. */
  function Effects<C(==)>(net: Net<C>, moves: seq<Move<C>>, binding: bool): seq<Action<C>>
    decreases moves
  {
    if moves == [] then [] else
      Effect(net, moves[0], binding) + Effects(Go(net, moves[0], binding), moves[1..], binding)
  }

  /** The event log makes a run of its own, so everything proved of runs holds with mirror and binding on. */
  lemma {:induction false} FeedbackIsARun<C>(net: Net<C>, moves: seq<Move<C>>, binding: bool)
    ensures GoOn(net, moves, binding).hub == Play(net.hub, Effects(net, moves, binding))
    decreases moves
  {
    hide Act, Effect, Play, Go;
    if moves == [] {
      PlayNothing(net.hub);
    } else {
      var effect, net' := Effect(net, moves[0], binding), Go(net, moves[0], binding);
      FeedbackIsARun(net', moves[1..], binding);
      PlayAppend(net.hub, effect, Effects(net', moves[1..], binding));
      GoActs(net, moves[0], binding);
    }
  }

  lemma GoActs<C>(net: Net<C>, m: Move<C>, binding: bool)
    ensures Go(net, m, binding).hub == Play(net.hub, Effect(net, m, binding))
  {
    hide Act, Loops;
    var effect := Effect(net, m, binding);
    if effect != [] {
      assert effect == [effect[0]];
      PlayOne(net.hub, effect[0]);
    }
  }

  // ----- who and what -----

  /** A message of this tenant on this topic. */
  function Of(tenant: string, topic: string): Mail -> bool {
    (m: Mail) => m.body.header.tenantID == tenant && m.body.topic == topic
  }

  /** An accepted publish from outside, on this topic. */
  function PostsOn<C>(topic: string): Move<C> -> bool {
    (m: Move<C>) => m.Outside? && Posts(m.action) == Some(topic)
  }

  /** An accepted publish from outside, by this tenant and on this topic. */
  function PostsAs<C>(tenant: string, topic: string): Move<C> -> bool {
    (m: Move<C>) =>
      m.Outside? && Posts(m.action) == Some(topic) && m.action.request.header.tenantID == tenant
  }

  predicate LoopsAs(tenant: string, topic: string) {
    Matches(EVENTS_PATTERN, Tokens(MirrorSubject(tenant, topic)))
  }

  /** The move hands over a message on this topic that loops. */
  predicate Echo<C>(net: Net<C>, m: Move<C>, topic: string) {
    Delivers(net, m) && Loops(net.pending[m.index]) && net.pending[m.index].body.topic == topic
  }

  function Echoes<C(==)>(net: Net<C>, moves: seq<Move<C>>, topic: string): nat
    decreases moves
  {
    if moves == [] then 0 else
      (if Echo(net, moves[0], topic) then 1 else 0) + Echoes(Go(net, moves[0], true), moves[1..], topic)
  }

  /** A message that came from an accepted publish. */
  predicate Accepted(m: Mail) {
    && m.body.header.migVersion == MIG_VERSION && m.body.header.tenantID != "" && '.' in m.body.topic
    && m == Mirrored(m.body)
  }

  predicate AllAccepted<C>(net: Net<C>) {
    forall i | 0 <= i < |net.pending| :: Accepted(net.pending[i])
  }

  /** An accepted publish adds exactly one event to its topic and one message of its tenant and topic; any other action
      adds neither. */
  lemma LocalAddsOne<C>(net: Net<C>, a: Action<C>, tenant: string, topic: string)
    requires AllAccepted(net)
    ensures var net' := Local(net, a);
      && AllAccepted(net')
      && |net'.hub.Log(topic)| == |net.hub.Log(topic)| + (if Posts(a) == Some(topic) then 1 else 0)
      && Count(net'.pending, Of(tenant, topic)) == Count(net.pending, Of(tenant, topic))
        + (if Posts(a) == Some(topic) && a.request.header.tenantID == tenant then 1 else 0)
  {
    hide Count, Matches, MirrorSubject;
    var news := News(net.hub, a);
    CountAppend(net.pending, news, Of(tenant, topic));
    if news != [] {
      assert news == [news[0]];
      CountOne(news[0], Of(tenant, topic));
    } else {
      CountNone(Of(tenant, topic));
    }
    LogGrowth(net.hub, a, topic);
  }

  lemma CountNone<T>(p: T -> bool)
    ensures Count([], p) == 0
  {
  }

  lemma LogGrowth<C>(h: Hub<C>, a: Action<C>, topic: string)
    ensures |Act(h, a).Log(topic)| == |h.Log(topic)| + if Posts(a) == Some(topic) then 1 else 0
  {
  }

  lemma CountWithout<T>(xs: seq<T>, i: nat, p: T -> bool)
    requires i < |xs|
    ensures Count(Without(xs, i), p) == Count(xs, p) - if p(xs[i]) then 1 else 0
  {
    hide Count;
    SplitAround(xs, i);
    CountMiddle(xs[..i], xs[i], xs[i + 1..], p);
  }

  lemma SplitAround<T>(xs: seq<T>, i: nat)
    requires i < |xs|
    ensures xs == xs[..i] + ([xs[i]] + xs[i + 1..])
  {
  }

  lemma CountMiddle<T>(a: seq<T>, x: T, b: seq<T>, p: T -> bool)
    ensures Count(a + ([x] + b), p) == Count(a + b, p) + if p(x) then 1 else 0
  {
    hide Count;
    CountAppend(a, [x] + b, p);
    CountAppend([x], b, p);
    CountAppend(a, b, p);
    CountOne(x, p);
  }

  /** A looping message re-enters as a publish of the same tenant on the same topic, which is accepted. */
  lemma Reenters<C>(m: Mail, d: Move<C>)
    requires Accepted(m) && Loops(m) && d.Delivery?
    ensures var a := HandlerAction(m, d);
      a.Publish? && Posts(a) == Some(m.body.topic) && a.request.header.tenantID == m.body.header.tenantID
  {
    hide Matches, MirrorSubject;
  }

  lemma OneMove<C>(net: Net<C>, m: Move<C>, tenant: string, topic: string)
    requires AllAccepted(net)
    ensures var net' := Go(net, m, true);
      && AllAccepted(net')
      && |net'.hub.Log(topic)| == |net.hub.Log(topic)|
        + (if PostsOn(topic)(m) then 1 else 0) + (if Echo(net, m, topic) then 1 else 0)
      && (LoopsAs(tenant, topic) ==>
        Count(net'.pending, Of(tenant, topic)) == Count(net.pending, Of(tenant, topic))
          + (if PostsAs(tenant, topic)(m) then 1 else 0))
  {
    hide Matches, MirrorSubject, Local, Count, HandlerAction, Posts;
    if m.Outside? {
      LocalAddsOne(net, m.action, tenant, topic);
    } else if Delivers(net, m) {
      var mail := net.pending[m.index];
      var rest := net.(pending := Without(net.pending, m.index));
      assert AllAccepted(rest);
      CountWithout(net.pending, m.index, Of(tenant, topic));
      if Loops(mail) {
        Reenters(mail, m);
        LocalAddsOne(rest, HandlerAction(mail, m), tenant, topic);
      }
    }
  }

  /** With mirror and binding both on, whatever happens outside and in whatever order messages are delivered: a
      topic's log grows by one for each outside publish on it and for each looping delivery on it, and the pending
      messages of a tenant and topic that loop change only by the outside publishes. */
  lemma {:induction false} FeedbackLaw<C>(net: Net<C>, moves: seq<Move<C>>, tenant: string, topic: string)
    requires AllAccepted(net)
    ensures var net' := GoOn(net, moves, true);
      && AllAccepted(net')
      && |net'.hub.Log(topic)| == |net.hub.Log(topic)| + Count(moves, PostsOn(topic)) + Echoes(net, moves, topic)
      && (LoopsAs(tenant, topic) ==>
        Count(net'.pending, Of(tenant, topic))
          == Count(net.pending, Of(tenant, topic)) + Count(moves, PostsAs(tenant, topic)))
    decreases moves
  {
    hide Go, Echo, AllAccepted, LoopsAs, PostsOn, PostsAs, Of;
    if moves != [] {
      OneMove(net, moves[0], tenant, topic);
      FeedbackLaw(Go(net, moves[0], true), moves[1..], tenant, topic);
    }
  }

  /** Deliveries that all hand over a looping message on the topic. */
  predicate AllEcho<C(==)>(net: Net<C>, moves: seq<Move<C>>, topic: string)
    decreases moves
  {
    moves != [] ==> Echo(net, moves[0], topic) && AllEcho(Go(net, moves[0], true), moves[1..], topic)
  }

  lemma {:induction false} AllEchoCounts<C>(net: Net<C>, moves: seq<Move<C>>, topic: string)
    requires AllEcho(net, moves, topic)
    ensures Echoes(net, moves, topic) == |moves| && Count(moves, PostsOn(topic)) == 0
    decreases moves
  {
    hide Go;
    if moves != [] { AllEchoCounts(Go(net, moves[0], true), moves[1..], topic); }
  }

  /** So the feedback never dies out: one pending message that loops keeps one of its tenant and topic pending for
      ever, and `k` deliveries of looping messages on a topic make its log exactly `k` longer. */
  lemma FeedbackNeverEnds<C>(net: Net<C>, moves: seq<Move<C>>, tenant: string, topic: string)
    requires AllAccepted(net)
    ensures LoopsAs(tenant, topic) && Count(net.pending, Of(tenant, topic)) > 0 ==>
      Count(GoOn(net, moves, true).pending, Of(tenant, topic)) > 0
    ensures AllEcho(net, moves, topic) ==>
      |GoOn(net, moves, true).hub.Log(topic)| == |net.hub.Log(topic)| + |moves|
  {
    hide GoOn, LoopsAs, Echoes, AllEcho, Count;
    FeedbackLaw(net, moves, tenant, topic);
    if AllEcho(net, moves, topic) { AllEchoCounts(net, moves, topic); }
  }

  /** The actions that come from outside. */
  function OutsideOnly<C>(moves: seq<Move<C>>): seq<Action<C>> {
    if moves == [] then [] else (if moves[0].Outside? then [moves[0].action] else []) + OutsideOnly(moves[1..])
  }

  /** With the binding off, deliveries add nothing: the event log does what it is told from outside, and each accepted
      publish adds exactly one event. */
  lemma {:induction false} NoFeedbackWithoutBinding<C>(net: Net<C>, moves: seq<Move<C>>, topic: string)
    ensures GoOn(net, moves, false).hub == Play(net.hub, OutsideOnly(moves))
    ensures |GoOn(net, moves, false).hub.Log(topic)| == |net.hub.Log(topic)| + Count(moves, PostsOn(topic))
    decreases moves
  {
    hide Act, Play, Posts, Loops;
    if moves == [] {
      PlayNothing(net.hub);
    } else {
      var m, net' := moves[0], Go(net, moves[0], false);
      NoFeedbackWithoutBinding(net', moves[1..], topic);
      GoActs(net, m, false);
      PlayAppend(net.hub, Effect(net, m, false), OutsideOnly(moves[1..]));
      if m.Outside? {
        LogGrowth(net.hub, m.action, topic);
      } else {
        PlayNothing(net.hub);
      }
    }
  }
}
