/** The handlers around the event log: the subscription handler, which subscribes, sends the replay, then sends what
    arrives, then unsubscribes; and the NATS publish handler. At every point of a subscription other goroutines may
    publish, subscribe, receive, withdraw and close, with channels that were there before or came during the
    subscription. */
module EventHandlers {
  import opened MigTypes
  import GoStrings
  import opened EventLog
  import opened EventLaws
  import opened EventBuses
  import opened Mirror
  import opened Subjects

  // ----- what others do -----

  /** A deed of another goroutine. `k` counts the subscriptions that other goroutines hold, oldest first. */
  datatype Deed =
    | Post(topic: string, request: PublishRequest, freshID: FreshId, now: string, eventID: string)
    | Join(topic: string, cursor: string)
    | Draw(k: nat)
    | Depart(k: nat)
    | Shut(k: nat)

  /** How many subscriptions the others hold after a deed: an accepted join adds one. */
  function Holding(n: nat, d: Deed): nat {
    if d.Join? && CheckSubscribe(d.topic, d.cursor).Ok? then n + 1 else n
  }

  /** The deed as an action of the event log, when the others hold the first `n` channels of `held`. */
  function Enacted(held: seq<Channel>, n: nat, d: Deed): seq<Action<Channel>>
    requires Holding(n, d) <= |held|
  {
    match d
    case Post(topic, request, freshID, now, eventID) => [Publish(topic, request, freshID, now, eventID)]
    case Join(topic, cursor) => if CheckSubscribe(topic, cursor).Ok? then [Subscribe(held[n], topic, cursor)] else []
    case Draw(k) => if k < n then [Receive(held[k])] else []
    case Depart(k) => if k < n then [Leave(held[k])] else []
    case Shut(k) => if k < n then [Close(held[k])] else []
  }

  /** Every action of the event log, on a channel that the others hold or that is about to join, is a deed of theirs. */
  lemma EveryActionIsADeed(held: seq<Channel>, n: nat, a: Action<Channel>) returns (d: Deed)
    requires n <= |held|
    requires a.Receive? || a.Leave? || a.Close? ==> a.ch in held[..n]
    requires a.Subscribe? ==> n < |held| && a.ch == held[n] && CheckSubscribe(a.topic, a.cursor).Ok?
    ensures Holding(n, d) <= |held| && Enacted(held, n, d) == [a]
  {
    hide CheckSubscribe;
    if a.Publish? {
      d := Post(a.topic, a.request, a.freshID, a.now, a.eventID);
    } else if a.Subscribe? {
      d := Join(a.topic, a.cursor);
    } else {
      var k :| 0 <= k < n && held[k] == a.ch;
      d := if a.Receive? then Draw(k) else if a.Leave? then Depart(k) else Shut(k);
    }
  }

  /** What happens next: the handler receives, or somebody else does something. */
  datatype Turn = Own | Other(deed: Deed)

  function HoldingNext(n: nat, turn: Turn): nat {
    if turn.Own? then n else Holding(n, turn.deed)
  }

  function TurnActions(held: seq<Channel>, n: nat, turn: Turn, c: Channel): seq<Action<Channel>>
    requires HoldingNext(n, turn) <= |held|
  {
    if turn.Own? then [Receive(c)] else Enacted(held, n, turn.deed)
  }

  function HoldingAfter(n: nat, turns: seq<Turn>): nat {
    if turns == [] then n else HoldingNext(HoldingAfter(n, turns[..|turns| - 1]), turns[|turns| - 1])
  }

  /** The turns as a run of the event log, for the handler of channel `c`. */
  function Script(held: seq<Channel>, n: nat, turns: seq<Turn>, c: Channel): seq<Action<Channel>>
    requires HoldingAfter(n, turns) <= |held|
  {
    if turns == [] then [] else
      var last, before := turns[|turns| - 1], turns[..|turns| - 1];
      Script(held, n, before, c) + TurnActions(held, HoldingAfter(n, before), last, c)
  }

  lemma {:induction false} ScriptIsStable(held: seq<Channel>, held': seq<Channel>, n: nat, turns: seq<Turn>, c: Channel)
    requires held <= held' && HoldingAfter(n, turns) <= |held|
    ensures Script(held', n, turns, c) == Script(held, n, turns, c)
  {
    hide TurnActions;
    if turns != [] {
      var last, before := turns[|turns| - 1], turns[..|turns| - 1];
      ScriptIsStable(held, held', n, before, c);
      TurnIsStable(held, held', HoldingAfter(n, before), last, c);
    }
  }

  lemma TurnIsStable(held: seq<Channel>, held': seq<Channel>, n: nat, turn: Turn, c: Channel)
    requires held <= held' && HoldingNext(n, turn) <= |held|
    ensures TurnActions(held', n, turn, c) == TurnActions(held, n, turn, c)
  {
    hide CheckSubscribe;
  }

  function Others(deeds: seq<Deed>): seq<Turn> {
    seq(|deeds|, i requires 0 <= i < |deeds| => Other(deeds[i]))
  }

  /** A whole subscription as a run of the event log: others are at work while it lasts, after its last receive, and
      between the two halves of unsubscribe. */
  function Session(c: Channel, topic: string, cursor: string, held: seq<Channel>, n: nat, turns: seq<Turn>,
                   between: seq<Deed>)
    : seq<Action<Channel>>
    requires HoldingAfter(n, turns) <= |held| && HoldingAfter(HoldingAfter(n, turns), Others(between)) <= |held|
  {
    [Subscribe(c, topic, cursor)] + (Script(held, n, turns, c) + Departure(c, held, HoldingAfter(n, turns), between))
  }

  function Departure(c: Channel, held: seq<Channel>, n: nat, between: seq<Deed>): seq<Action<Channel>>
    requires HoldingAfter(n, Others(between)) <= |held|
  {
    [Leave(c)] + (Script(held, n, Others(between), c) + [Close(c)])
  }

  /** What others leave alone in a channel: everything but its buffer and what becomes of events. */
  predicate Spared(a: Chan, b: Chan) {
    SameReading(a, b) && b.leaving == a.leaving && b.closed == a.closed
  }

  lemma OthersSpare<C>(h: Hub<C>, a: Action<C>, c: C, topic: string)
    requires c in h.channels && a !in {Receive(c), Leave(c), Close(c)}
    ensures c in Act(h, a).channels && Spared(h.channels[c], Act(h, a).channels[c])
    ensures h.Log(topic) <= Act(h, a).Log(topic)
  {
  }

  /** What a handler may count on: others hold channels of the bus, but not its own. */
  ghost predicate Ready(bus: EventBus, held: seq<Channel>, c: Channel)
    reads bus, bus.channels
  {
    bus.Valid() && c in bus.channels && c !in held && forall ch | ch in held :: ch in bus.channels
  }

  /** One deed of another goroutine. */
  method Enact(bus: EventBus, held: seq<Channel>, d: Deed, ghost c: Channel, ghost topic: string)
    returns (held': seq<Channel>)
    requires Ready(bus, held, c)
    modifies bus, bus.channels
    ensures Ready(bus, held', c) && held <= held' && |held'| == Holding(|held|, d)
    ensures old(bus.channels) <= bus.channels && fresh(bus.channels - old(bus.channels))
    ensures bus.View() == Play(old(bus.View()), Enacted(held', |held|, d))
    ensures Spared(old(c.View()), c.View())
    ensures old(bus.View()).Log(topic) <= bus.View().Log(topic)
  {
    hide Consistent, Act, Play, CheckSubscribe, Spared;
    ghost var was := bus.View();
    PlayNothing(was);
    assert was.channels[c] == c.View();
    Untouched(was, c);
    held' := held;
    match d {
      case Post(tp, request, freshID, now, eventID) =>
        ghost var a := EventLog.Publish(tp, request, freshID, now, eventID);
        PlayOne(was, a);
        OthersSpare(was, a, c, topic);
        var _ := bus.Publish(tp, request, freshID, now, eventID);
      case Join(tp, cursor) =>
        var _, ch, err := bus.Subscribe(tp, cursor);
        if err.None? {
          held' := held + [ch];
          PlayOne(was, EventLog.Subscribe(ch, tp, cursor));
          OthersSpare(was, EventLog.Subscribe(ch, tp, cursor), c, topic);
        }
      case Draw(k) =>
        if k < |held| {
          PlayOne(was, EventLog.Receive(held[k]));
          OthersSpare(was, EventLog.Receive(held[k]), c, topic);
          var _ := bus.Receive(held[k]);
        }
      case Depart(k) =>
        if k < |held| {
          PlayOne(was, EventLog.Leave(held[k]));
          OthersSpare(was, EventLog.Leave(held[k]), c, topic);
          EnactDepart(bus, held[k]);
        }
      case Shut(k) =>
        if k < |held| {
          PlayOne(was, EventLog.Close(held[k]));
          OthersSpare(was, EventLog.Close(held[k]), c, topic);
          EnactShut(bus, held[k]);
        }
    }
    assert bus.View().channels[c] == c.View();
  }

  lemma Untouched<C>(h: Hub<C>, c: C)
    requires c in h.channels
    ensures Spared(h.channels[c], h.channels[c])
  {
  }

  /** A holder withdraws its channel, once. */
  method EnactDepart(bus: EventBus, ch: Channel)
    requires bus.Valid() && ch in bus.channels
    modifies bus`subscribers, ch`past
    ensures bus.Valid() && bus.channels == old(bus.channels)
    ensures bus.View() == Act(old(bus.View()), EventLog.Leave(ch))
  {
    hide Consistent;
    bus.MemberIffStaying(ch);
    if ch.topic in bus.subscribers && ch in bus.subscribers[ch.topic] {
      bus.Leave(ch);
    }
  }

  /** A holder closes its channel, once, after withdrawing it. */
  method EnactShut(bus: EventBus, ch: Channel)
    requires bus.Valid() && ch in bus.channels
    modifies ch
    ensures bus.Valid() && bus.channels == old(bus.channels)
    ensures bus.View() == Act(old(bus.View()), EventLog.Close(ch))
  {
    hide Consistent;
    bus.MemberIffStaying(ch);
    if !(ch.topic in bus.subscribers && ch in bus.subscribers[ch.topic]) && !ch.closed {
      bus.Close(ch);
    }
  }

  // ----- the subscription handler -----

  /** The receive loop, with others at work: what is sent is what is taken from the channel, in order. */
  method Forward(bus: EventBus, c: Channel, topic: string, held: seq<Channel>, turns: seq<Turn>)
    returns (sent: seq<EventMessage>, held': seq<Channel>)
    requires Ready(bus, held, c)
    modifies bus, bus.channels
    ensures Ready(bus, held', c) && held <= held' && |held'| == HoldingAfter(|held|, turns)
    ensures old(bus.channels) <= bus.channels && fresh(bus.channels - old(bus.channels))
    ensures bus.View() == Play(old(bus.View()), Script(held', |held|, turns, c))
    ensures Spared(old(c.View()).(received := old(c.View()).received + sent), c.View())
    ensures Own !in turns ==> sent == []
    ensures old(bus.View()).Log(topic) <= bus.View().Log(topic)
  {
    hide Consistent, Play, Act, TurnActions, HoldingNext;
    sent, held' := [], held;
    PlayNothing(bus.View());
    assert c.View().received + [] == c.View().received;
    for i := 0 to |turns|
      invariant Ready(bus, held', c) && held <= held' && |held'| == HoldingAfter(|held|, turns[..i])
      invariant old(bus.channels) <= bus.channels && fresh(bus.channels - old(bus.channels))
      invariant bus.View() == Play(old(bus.View()), Script(held', |held|, turns[..i], c))
      invariant Spared(old(c.View()).(received := old(c.View()).received + sent), c.View())
      invariant Own !in turns[..i] ==> sent == []
      invariant old(bus.View()).Log(topic) <= bus.View().Log(topic)
    {
      var before, events;
      before := held';
      assert turns[..i + 1][..i] == turns[..i];
      events, held' := TakeTurn(bus, c, topic, before, turns[i]);
      ScriptIsStable(before, held', |held|, turns[..i], c);
      PlayAppend(old(bus.View()), Script(held', |held|, turns[..i], c), TurnActions(held', |before|, turns[i], c));
      sent := sent + events;
    }
    assert turns[..|turns|] == turns;
  }

  /** One turn. */
  method TakeTurn(bus: EventBus, c: Channel, topic: string, held: seq<Channel>, turn: Turn)
    returns (events: seq<EventMessage>, held': seq<Channel>)
    requires Ready(bus, held, c)
    modifies bus, bus.channels
    ensures Ready(bus, held', c) && held <= held'
    ensures |held'| == HoldingNext(|held|, turn)
    ensures old(bus.channels) <= bus.channels && fresh(bus.channels - old(bus.channels))
    ensures bus.View() == Play(old(bus.View()), TurnActions(held', |held|, turn, c))
    ensures Spared(old(c.View()).(received := old(c.View()).received + events), c.View())
    ensures events == if turn.Own? && old(c.buffer) != [] then [old(c.buffer)[0]] else []
    ensures turn.Own? && old(c.buffer) != [] ==> c.buffer == old(c.buffer)[1..]
    ensures old(bus.View()).Log(topic) <= bus.View().Log(topic)
  {
    hide Consistent, Play, Enacted;
    ghost var was := bus.View();
    assert was.channels[c] == c.View();
    if turn.Own? {
      PlayOne(was, EventLog.Receive(c));
      var event := bus.Receive(c);
      assert bus.View().channels[c] == c.View();
      events, held' := if event.Some? then [event.value] else [], held;
    } else {
      held' := Enact(bus, held, turn.deed, c, topic);
      events := [];
      assert old(c.View()).received + events == old(c.View()).received;
    }
  }

  /** The deferred unsubscribe: withdraw under the lock, close after it; others may do anything in between. */
  method Unsubscribe(bus: EventBus, c: Channel, topic: string, held: seq<Channel>, between: seq<Deed>)
    returns (held': seq<Channel>)
    requires Ready(bus, held, c) && !c.View().leaving && !c.View().closed
    modifies bus, bus.channels
    ensures Ready(bus, held', c) && held <= held' && |held'| == HoldingAfter(|held|, Others(between))
    ensures old(bus.channels) <= bus.channels && fresh(bus.channels - old(bus.channels))
    ensures bus.View() == Play(old(bus.View()), Departure(c, held', |held|, between))
    ensures Spared(old(c.View()).(leaving := true, closed := true), c.View())
    ensures old(bus.View()).Log(topic) <= bus.View().Log(topic)
  {
    hide Consistent, Play, Script, Act, HoldingAfter, Others;
    ghost var was := bus.View();
    assert was.channels[c] == c.View();
    LeaveMarks(was, c, topic);
    bus.Leave(c);
    ghost var left := bus.View();
    assert left.channels[c] == c.View();
    var sent;
    sent, held' := Forward(bus, c, topic, held, Others(between));
    OthersOnly(between);
    ghost var done := bus.View();
    assert done.channels[c] == c.View();
    CloseMarks(done, c, topic);
    bus.Close(c);
    assert bus.View().channels[c] == c.View();
    DepartureRun(was, c, held', |held|, between);
  }

  lemma OthersOnly(deeds: seq<Deed>)
    ensures Own !in Others(deeds)
  {
  }

  lemma LeaveMarks<C>(h: Hub<C>, c: C, topic: string)
    requires c in h.channels && !h.channels[c].leaving
    ensures var h' := Act(h, Leave(c));
      c in h'.channels && h'.channels[c] == h.channels[c].(leaving := true) && h'.Log(topic) == h.Log(topic)
  {
  }

  lemma CloseMarks<C>(h: Hub<C>, c: C, topic: string)
    requires c in h.channels && h.channels[c].leaving && !h.channels[c].closed
    ensures var h' := Act(h, Close(c));
      c in h'.channels && h'.channels[c] == h.channels[c].(closed := true) && h'.Log(topic) == h.Log(topic)
  {
  }

  lemma DepartureRun(h: Hub<Channel>, c: Channel, held: seq<Channel>, n: nat, between: seq<Deed>)
    requires HoldingAfter(n, Others(between)) <= |held|
    ensures Play(h, Departure(c, held, n, between)) ==
      Act(Play(Act(h, Leave(c)), Script(held, n, Others(between), c)), Close(c))
  {
    hide Act, Play, Script, HoldingAfter, Others;
    var script := Script(held, n, Others(between), c);
    PlayOne(h, Leave(c));
    PlaySnoc(Act(h, Leave(c)), script, Close(c));
    PlayAppend(h, [Leave(c)], script + [Close(c)]);
  }

  /** Everything sent is the subscription's delivery: the flagged log up to the join, then the received events. The
      channel ends up withdrawn and closed, and the bus has made exactly the session's run. */
  method HandleSubscribe(bus: EventBus, topic: string, cursor: string, held: seq<Channel>, turns: seq<Turn>,
                         between: seq<Deed>)
    returns (sent: seq<EventMessage>, error: Option<MigError>, held': seq<Channel>, ghost ch: Channel?)
    requires bus.Valid() && forall c | c in held :: c in bus.channels
    modifies bus, bus.channels
    ensures bus.Valid() && fresh(bus.channels - old(bus.channels))
    ensures forall c | c in held' :: c in bus.channels
    ensures old(bus.View()).Log(topic) <= bus.View().Log(topic)
    ensures error == match CheckSubscribe(topic, cursor) case Err(e) => Some(e) case Ok(_) => None
    ensures error.Some? ==> sent == [] && held' == held && bus.View() == old(bus.View())
    ensures error.None? ==>
      && ch != null && Ready(bus, held', ch) && ch.View().topic == topic && ch.View().leaving && ch.View().closed
      && ch.View().start == Clamp(CheckSubscribe(topic, cursor).value, old(bus.View()).Log(topic))
      && ch.View().joined == |old(bus.View()).Log(topic)| <= |bus.View().Log(topic)|
      && sent == Delivered(ch.View(), bus.View().Log(topic))
      && HoldingAfter(|held|, turns) <= |held'| == HoldingAfter(HoldingAfter(|held|, turns), Others(between))
      && bus.View() == Play(old(bus.View()), Session(ch, topic, cursor, held', |held|, turns, between))
  {
    hide Consistent, CheckSubscribe, Act, Play, Script;
    ghost var was := bus.View();
    var replay, c, err := bus.Subscribe(topic, cursor);
    ch, error := c, err;
    if err.Some? {
      return [], err, held, null;
    }
    ghost var log := bus.View().Log(topic);
    assert c.View() == Chan(topic, |log| - |replay|, |log|, [], [], [], false, false);
    PlayOne(was, EventLog.Subscribe(c, topic, cursor));
    ghost var joined := bus.View();
    var live, mid := Forward(bus, c, topic, held, turns);
    sent := replay + live;
    held' := Unsubscribe(bus, c, topic, mid, between);
    ghost var script, rest := Script(held', |held|, turns, c), Departure(c, held', |mid|, between);
    ScriptIsStable(mid, held', |held|, turns, c);
    PlayAppend(joined, script, rest);
    PlayAppend(was, [EventLog.Subscribe(c, topic, cursor)], script + rest);
    assert bus.View().Log(topic)[..|log|] == log;
    assert [] + live == live;
  }

  // ----- a client that resumes -----

  /** One session of a client, and what others do before its next one. */
  datatype Stay = Stay(turns: seq<Turn>, between: seq<Deed>, apart: seq<Deed>)

  /** Others at work while the client has no session; `c` is the channel of its last one. */
  method Idle(bus: EventBus, ghost c: Channel, ghost topic: string, held: seq<Channel>, deeds: seq<Deed>)
    returns (held': seq<Channel>)
    requires Ready(bus, held, c)
    modifies bus, bus.channels
    ensures Ready(bus, held', c) && fresh(bus.channels - old(bus.channels)) && old(bus.channels) <= bus.channels
    ensures old(bus.View()).Log(topic) <= bus.View().Log(topic)
  {
    held' := held;
    for i := 0 to |deeds|
      invariant Ready(bus, held', c) && fresh(bus.channels - old(bus.channels)) && old(bus.channels) <= bus.channels
      invariant old(bus.View()).Log(topic) <= bus.View().Log(topic)
    {
      held' := Enact(bus, held', deeds[i], c, topic);
    }
  }

  /** What one session adds to a view that ends where the session starts. */
  lemma SessionAdds(h: Hub<Channel>, c: Channel, topic: string, view: seq<EventMessage>)
    requires Consistent(h) && c in h.channels && h.channels[c].topic == topic
    requires view <= h.Log(topic) && h.channels[c].start == |view|
    ensures Readable(h.channels[c], h.Log(topic))
    ensures var seen := Absorb(view, Delivered(h.channels[c], h.Log(topic)));
      seen <= h.Log(topic) && |seen| >= h.channels[c].joined
  {
    hide Consistent, Absorb, Delivered;
    ChannelOf(h, c);
    SessionExtends(h.channels[c], h.Log(topic), topic, view);
  }

  lemma PrefixesChain<T>(a: seq<T>, b: seq<T>, c: seq<T>)
    requires a <= b <= c
    ensures a <= c
  {
  }

  /** One session of the client, and the time until the next. */
  method FollowOnce(bus: EventBus, topic: string, held: seq<Channel>, view: seq<EventMessage>, stay: Stay)
    returns (view': seq<EventMessage>, held': seq<Channel>)
    requires bus.Valid() && forall c | c in held :: c in bus.channels
    requires view <= bus.View().Log(topic)
    modifies bus, bus.channels
    ensures bus.Valid() && fresh(bus.channels - old(bus.channels)) && forall c | c in held' :: c in bus.channels
    ensures old(bus.View()).Log(topic) <= bus.View().Log(topic)
    ensures view' <= bus.View().Log(topic)
    ensures '.' in topic && |old(bus.View()).Log(topic)| <= GoStrings.MAX_INT ==>
      |old(bus.View()).Log(topic)| <= |view'|
  {
    hide Consistent, Act, Play, Session, Absorb, Delivered, CheckSubscribe, HoldingAfter;
    CursorReads(topic, |view|);
    ghost var log := bus.View().Log(topic);
    var sent, error;
    ghost var ch;
    sent, error, held', ch := HandleSubscribe(bus, topic, GoStrings.Itoa(|view|), held, stay.turns, stay.between);
    view' := view;
    if error.None? {
      ghost var h := bus.View();
      assert h.channels[ch] == ch.View();
      PrefixesChain(view, log, h.Log(topic));
      SessionAdds(h, ch, topic, view);
      view' := Absorb(view, sent);
      held' := Idle(bus, ch, topic, held', stay.apart);
      PrefixesChain(view', h.Log(topic), bus.View().Log(topic));
      PrefixesChain(log, h.Log(topic), bus.View().Log(topic));
    }
  }

  /** A client of the subscription handler that starts each session with the number of events in its view, and takes
      from what it is sent whatever continues the view: whatever was dropped and whatever others did, the view is a
      prefix of the log, and it holds all that had been published when the last session began. */
  method Follow(bus: EventBus, topic: string, held: seq<Channel>, stays: seq<Stay>)
    returns (view: seq<EventMessage>, ghost joined: nat)
    requires bus.Valid() && forall c | c in held :: c in bus.channels
    modifies bus, bus.channels
    ensures bus.Valid() && fresh(bus.channels - old(bus.channels))
    ensures old(bus.View()).Log(topic) <= bus.View().Log(topic)
    ensures view <= bus.View().Log(topic)
    ensures stays != [] ==> |old(bus.View()).Log(topic)| <= joined <= |bus.View().Log(topic)|
    ensures stays != [] && '.' in topic && joined <= GoStrings.MAX_INT ==> joined <= |view|
  {
    hide Consistent;
    view, joined := [], 0;
    var holding := held;
    for i := 0 to |stays|
      invariant bus.Valid() && fresh(bus.channels - old(bus.channels))
      invariant forall c | c in holding :: c in bus.channels
      invariant old(bus.View()).Log(topic) <= bus.View().Log(topic)
      invariant view <= bus.View().Log(topic)
      invariant i > 0 ==> |old(bus.View()).Log(topic)| <= joined <= |bus.View().Log(topic)|
      invariant i > 0 && '.' in topic && joined <= GoStrings.MAX_INT ==> joined <= |view|
    {
      ghost var log := bus.View().Log(topic);
      joined := |log|;
      view, holding := FollowOnce(bus, topic, holding, view, stays[i]);
      PrefixesChain(old(bus.View()).Log(topic), log, bus.View().Log(topic));
    }
  }

  /** The printed cursor is read back, on a namespaced topic and in the range of Go's int. */
  lemma CursorReads(topic: string, n: nat)
    ensures '.' in topic && n <= GoStrings.MAX_INT ==> CheckSubscribe(topic, GoStrings.Itoa(n)) == Ok(n)
    ensures CheckSubscribe(topic, GoStrings.Itoa(n)).Ok? ==> CheckSubscribe(topic, GoStrings.Itoa(n)) == Ok(n)
  {
    GoStrings.ValueItoa(n);
    assert GoStrings.IsDigit(GoStrings.Itoa(n)[0]);
  }

  // ----- the NATS publish handler -----

  /** A mirrored message that comes back is published again, as the feedback model says. */
  method HandlePublish(bus: EventBus, mail: Mail, freshID: FreshId, now: string, eventID: string)
    returns (ack: Result<PublishAck>)
    requires bus.Valid() && Loops(mail)
    modifies bus`events, bus`mirrored, bus.channels
    ensures bus.Valid()
    ensures bus.View() == Act(old(bus.View()), HandlerAction(mail, Delivery(0, freshID, now, eventID)))
    ensures bus.natsConn ==>
      var a := HandlerAction(mail, Delivery(0, freshID, now, eventID));
      Net(bus.View(), bus.mirrored) == Local(Net(old(bus.View()), old(bus.mirrored)), a)
    ensures Accepted(mail) ==> ack.Ok? && ack.value.topic == mail.body.topic
  {
    hide Consistent, Act, Matches, MirrorSubject, News;
    HandlersSliceInRange(mail.subject);
    var tenant, topic := Token(mail.subject, 2), GoStrings.Join(Tokens(mail.subject)[4..], '.');
    var req := PublishRequest(mail.body.header, mail.body.topic, mail.body.payload);
    if req.header.tenantID == "" {
      req := req.(header := req.header.(tenantID := tenant));
    }
    if req.topic == "" {
      req := req.(topic := topic);
    }
    ack := bus.Publish(req.topic, req, freshID, now, eventID);
  }
}
