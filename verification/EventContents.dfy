/** What is in the events: a log is the accepted publishes of its topic, in order and word for word, and that is what
    subscribers get; where a subscription starts; what the mirror carries. */
module EventContents {
  import opened MigTypes
  import opened Headers
  import opened GoStrings
  import opened EventLog
  import opened EventLaws
  import opened Mirror
  import opened Subjects

  // ----- publishing -----

  /** The action is a publish on the topic, named by path or else by body, that is acceptable. */
  predicate PublishesOn<C>(a: Action<C>, topic: string) {
    && a.Publish? && Acceptable(a.request.header)
    && topic == (if a.topic != "" then a.topic else a.request.topic) && '.' in topic
  }

  /** A publish is accepted exactly if its header is acceptable and its topic has a dot. */
  lemma PublishIff<C>(a: Action<C>)
    requires a.Publish?
    ensures var checked := CheckPublish(a.topic, a.request, a.freshID, a.now);
      var topic := if a.topic != "" then a.topic else a.request.topic;
      && (checked.Ok? <==> Acceptable(a.request.header) && '.' in topic)
      && (checked.Ok? ==>
        && checked.value.topic == topic && checked.value.payload == a.request.payload
        && Completes(checked.value.head, a.request.header, a.freshID, a.now))
      && (checked.Err? ==> checked.error == MigError(InvalidRequest,
        if a.request.header.migVersion !in {"", "0.1"} then UnsupportedVersion
        else if a.request.header.tenantID == "" then TenantRequired
        else if topic == "" then TopicRequired else TopicNotNamespaced, false))
  {
    hide Completes;
    AcceptLaws(a.request.header, a.freshID, a.now, a.freshID, a.now);
  }

  /** The event is the publish `a`, as number `n` of its topic. */
  predicate Carries<C>(e: EventMessage, a: Action<C>, topic: string, n: nat)
    requires a.Publish?
  {
    && Completes(e.header, a.request.header, a.freshID, a.now)
    && e.topic == topic && e.eventID == a.eventID && e.sequence == n
    && e.payload == a.request.payload && e.publishedAt == a.now && !e.replay
  }

  /** What one action does to the log of a topic. */
  lemma ActAppends<C>(h: Hub<C>, a: Action<C>, topic: string)
    ensures var log, log' := h.Log(topic), Act(h, a).Log(topic);
      if PublishesOn(a, topic)
      then |log'| == |log| + 1 && log'[..|log|] == log && Carries(log'[|log|], a, topic, |log| + 1)
      else log' == log
  {
    hide Completes, Accept;
    if a.Publish? { PublishIff(a); }
  }

  /** The publishes of a run on a topic. */
  function Publishes<C>(t: seq<Action<C>>, topic: string): seq<Action<C>> {
    if t == [] then [] else
      Publishes(t[..|t| - 1], topic) + if PublishesOn(t[|t| - 1], topic) then [t[|t| - 1]] else []
  }

  predicate Transcribes<C>(log: seq<EventMessage>, ps: seq<Action<C>>, topic: string) {
    && |log| == |ps|
    && forall i | 0 <= i < |log| :: ps[i].Publish? && Carries(log[i], ps[i], topic, i + 1)
  }

  /** After any run from boot the log of a topic is the run's accepted publishes on it, in order: event number `i` has
      the payload, event ID, clock reading and completed header of publish number `i`. */
  lemma {:induction false} LogIsItsPublishes<C>(t: seq<Action<C>>, topic: string)
    ensures Transcribes(Play(Empty(), t).Log(topic), Publishes(t, topic), topic)
    decreases t
  {
    hide Act, Play, Carries, PublishesOn;
    if t == [] {
      PlayNothing<C>(Empty());
    } else {
      var n := |t| - 1;
      LastAct(t);
      LogIsItsPublishes(t[..n], topic);
      ActAppends(Play(Empty<C>(), t[..n]), t[n], topic);
      OnlyPublishes(t[n], topic);
    }
  }

  lemma OnlyPublishes<C>(a: Action<C>, topic: string)
    ensures PublishesOn(a, topic) ==> a.Publish?
  {
  }

  /** Whatever a subscriber of any run has received is, word for word, the publish on its topic with that number. */
  lemma ReceivedAsPublished<C>(t: seq<Action<C>>, c: C)
    requires c in Play(Empty(), t).channels
    ensures var ch := Play(Empty(), t).channels[c];
      var ps := Publishes(t, ch.topic);
      forall i | 0 <= i < |ch.received| ::
        var n := ch.received[i].sequence;
        ch.joined < n <= |ps| && ps[n - 1].Publish? && Carries(ch.received[i], ps[n - 1], ch.topic, n)
  {
    hide Play, Carries, Publishes, Accounted, HonestGaps, CompleteIffNeverFull;
    EverySubscriberInEveryRun(t, c);
    var h := Play(Empty<C>(), t);
    var ch := h.channels[c];
    LogIsItsPublishes(t, ch.topic);
    assert forall i | 0 <= i < |ch.received| :: ch.received[i] == ch.Kept()[i];
  }

  // ----- subscribing -----

  /** A subscription starts at the number its cursor denotes, an empty cursor at 0. It fails exactly for a topic
      without a dot and for a cursor that is no numeral of a non-negative int64. */
  lemma CursorIff(topic: string, cursor: string, n: nat)
    ensures CheckSubscribe(topic, cursor) == Ok(n) <==>
      '.' in topic && if cursor == "" then n == 0 else n <= MAX_INT && Denotes(cursor, n)
    ensures CheckSubscribe(topic, cursor).Err? ==>
      CheckSubscribe(topic, cursor).error == MigError(InvalidRequest,
        if topic == "" then TopicRequired else if '.' !in topic then TopicNotNamespaced else BadResumeCursor, false)
  {
    hide Denotes, Atoi;
    if cursor != "" { AtoiIff(cursor, n); }
  }

  lemma SubscribeFailsIff(topic: string, cursor: string)
    ensures CheckSubscribe(topic, cursor).Err? <==>
      '.' !in topic || (cursor != "" && forall n: nat | n <= MAX_INT :: !Denotes(cursor, n))
  {
    hide Denotes, CheckSubscribe;
    forall n: nat
      ensures CheckSubscribe(topic, cursor) == Ok(n) <==>
        '.' in topic && if cursor == "" then n == 0 else n <= MAX_INT && Denotes(cursor, n)
    {
      CursorIff(topic, cursor, n);
    }
    if CheckSubscribe(topic, cursor).Ok? {
      var n := CheckSubscribe(topic, cursor).value;
      assert CheckSubscribe(topic, cursor) == Ok(n);
    } else if '.' in topic {
      assert CheckSubscribe(topic, cursor) != Ok(0);
    }
  }

  /** A new subscription: it starts at the cursor, or at the end of the log if the cursor is past it, and has received
      nothing yet. */
  lemma SubscribeStarts<C>(h: Hub<C>, c: C, topic: string, cursor: string, n: nat)
    requires c !in h.channels && '.' in topic
    requires if cursor == "" then n == 0 else n <= MAX_INT && Denotes(cursor, n)
    ensures var h' := Act(h, Subscribe(c, topic, cursor));
      && c in h'.channels && c in h'.Members(topic) && h'.logs == h.logs
      && var ch := h'.channels[c];
      && ch.topic == topic && ch.joined == |h.Log(topic)|
      && ch.start == (if n < |h.Log(topic)| then n else |h.Log(topic)|)
      && ch.received == [] && ch.buffer == [] && !ch.leaving && !ch.closed
  {
    hide Denotes;
    CursorIff(topic, cursor, n);
  }

  /** A subscriber that names no cursor is sent the whole log, flagged as replay and otherwise as published. */
  lemma EmptyCursorReplaysAll<C>(h: Hub<C>, c: C, topic: string)
    requires c !in h.channels && '.' in topic
    ensures var h' := Act(h, Subscribe(c, topic, ""));
      && c in h'.channels && h'.channels[c].start == 0 && h'.channels[c].joined == |h.Log(topic)|
      && var sent := Delivered(h'.channels[c], h'.Log(topic));
      && |sent| == |h.Log(topic)|
      && forall i | 0 <= i < |sent| :: sent[i] == h.Log(topic)[i].(replay := true)
  {
    SubscribeStarts(h, c, topic, "", 0);
  }

  /** What a session delivers is the log from its start to its join, flagged as replay, and then unflagged events: the
      flag tells the one from the other. */
  lemma FlagsTellReplay(ch: Chan, log: seq<EventMessage>)
    requires Faithful(ch, log) && Dense(log, ch.topic)
    ensures ch.start <= ch.joined <= |log|
    ensures var sent, replayed := Delivered(ch, log), ch.joined - ch.start;
      && |sent| == replayed + |ch.received|
      && (forall i | 0 <= i < |sent| :: sent[i].replay <==> i < replayed)
      && (forall i | 0 <= i < replayed :: sent[i] == log[ch.start + i].(replay := true))
      && (forall i | replayed <= i < |sent| :: sent[i] == ch.received[i - replayed])
  {
    hide Select, Ranks;
    KeptIsOrderedSelection(ch, log, ch.topic);
    assert forall i | 0 <= i < |ch.received| :: ch.received[i] == ch.Kept()[i];
  }

  /** A receive takes the oldest buffered event, if there is one, and moves nothing else. */
  lemma ReceiveTakesOldest<C>(h: Hub<C>, c: C)
    requires c in h.channels
    ensures var ch, h' := h.channels[c], Act(h, Receive(c));
      && h'.logs == h.logs && h'.subscribers == h.subscribers && h'.channels.Keys == h.channels.Keys
      && (forall d | d in h.channels && d != c :: h'.channels[d] == h.channels[d])
      && if ch.buffer == [] then h'.channels[c] == ch
         else h'.channels[c] == ch.(buffer := ch.buffer[1..], received := ch.received + [ch.buffer[0]])
  {
  }

  // ----- mirroring -----

  /** The mirror sends the event that was added to the log, as it is, and nothing else. */
  lemma MirrorCarries<C>(h: Hub<C>, a: Action<C>)
    ensures var news := News(h, a);
      && |news| <= 1
      && (news != [] ==>
        var e := news[0].body;
        && PublishesOn(a, e.topic)
        && Act(h, a).Log(e.topic) == h.Log(e.topic) + [e])
      && (news == [] ==> forall topic :: Act(h, a).Log(topic) == h.Log(topic))
  {
    hide Completes, Accept;
    if a.Publish? { PublishIff(a); }
  }

  /** The publish handler takes tenant and topic from the subject where the message leaves them out: the third token,
      and those from the fifth on. */
  lemma HandlerDescribes(m: Mail)
    requires Loops(m)
    ensures var req, tokens := HandlerRequest(m), Split(m.subject, '.');
      && |tokens| >= 5 && req.payload == m.body.payload
      && req.topic == (if m.body.topic != "" then m.body.topic else Join(tokens[4..], '.'))
      && req.header == m.body.header.(
        tenantID := if m.body.header.tenantID != "" then m.body.header.tenantID else tokens[2])
  {
    hide Fits, Split, Join;
    MatchIsLongEnough(EVENTS_PATTERN, Tokens(m.subject));
  }

  /** A mirrored message that loops is published again with its own header, topic and payload. */
  lemma EchoRepeats<C>(m: Mail, d: Move<C>)
    requires Accepted(m) && Loops(m) && d.Delivery?
    ensures var a := HandlerAction(m, d);
      && PublishesOn(a, m.body.topic)
      && a.request == PublishRequest(m.body.header, m.body.topic, m.body.payload)
      && a.freshID == d.freshID && a.now == d.now && a.eventID == d.eventID
  {
    hide Loops;
  }
}
