/** The event log: per-topic logs, subscriber channels that drop when full, replay from a cursor, and the two-step
    unsubscribe. `C` is whatever identifies a channel. */
module EventLog {
  import opened MigTypes
  import opened Headers
  import opened GoStrings

  const CAPACITY: nat := 32

  /** A subscription: the cursor position it asked for, the log length when it joined, what is buffered and what has
      been received, and for each event published since it joined whether it was kept (true) or dropped (false). */
  datatype Chan = Chan(
    topic: string,
    start: nat,
    joined: nat,
    buffer: seq<EventMessage>,
    received: seq<EventMessage>,
    fate: seq<bool>,
    leaving: bool,
    closed: bool)
  {
    function Kept(): seq<EventMessage> { received + buffer }
  }

  datatype Hub<!C(==)> = Hub(
    logs: map<string, seq<EventMessage>>,
    subscribers: map<string, set<C>>,
    channels: map<C, Chan>)
  {
    function Log(topic: string): seq<EventMessage> {
      if topic in logs then logs[topic] else []
    }

    function Members(topic: string): set<C> {
      if topic in subscribers then subscribers[topic] else {}
    }
  }

  // ----- PUBLISH -----

  datatype Publication = Publication(topic: string, head: MessageHeader, payload: Json)

  /** Header and topic checks of Publish. */
  function CheckPublish(topic: string, req: PublishRequest, freshID: FreshId, now: string): Result<Publication> {
    match Accept(req.header, freshID, now)
    case Err(e) => Err(e)
    case Ok(head) =>
      var target := if topic == "" then req.topic else topic;
      if target == "" then Err(Invalid(TopicRequired))
      else if '.' !in target then Err(Invalid(TopicNotNamespaced))
      else Ok(Publication(target, head, req.payload))
  }

  function NextEvent(log: seq<EventMessage>, p: Publication, eventID: string, at: string): EventMessage {
    EventMessage(p.head, p.topic, eventID, |log| + 1, p.payload, at, false)
  }

  /** A send that gives up when the channel is full. */
  function Offer(ch: Chan, e: EventMessage): Chan {
    if |ch.buffer| < CAPACITY then ch.(buffer := ch.buffer + [e], fate := ch.fate + [true])
    else ch.(fate := ch.fate + [false])
  }

  function Append<C(==)>(h: Hub<C>, e: EventMessage): Hub<C> {
    h.(logs := h.logs[e.topic := h.Log(e.topic) + [e]],
       channels := map c | c in h.channels ::
         if c in h.Members(e.topic) then Offer(h.channels[c], e) else h.channels[c])
  }

  // ----- SUBSCRIBE -----

  function CheckSubscribe(topic: string, cursor: string): Result<nat> {
    if topic == "" then Err(Invalid(TopicRequired))
    else if '.' !in topic then Err(Invalid(TopicNotNamespaced))
    else if cursor == "" then Ok(0)
    else match Atoi(cursor)
      case Some(i) => if i < 0 then Err(Invalid(BadResumeCursor)) else Ok(i)
      case None => Err(Invalid(BadResumeCursor))
  }

  function Clamp(cursor: nat, log: seq<EventMessage>): nat {
    if cursor > |log| then |log| else cursor
  }

  function Marked(e: EventMessage): EventMessage { e.(replay := true) }

  function Unmarked(e: EventMessage): EventMessage { e.(replay := false) }

  /** The replay handed to a subscriber: a copy of the log from `start`, flagged. */
  function Snapshot(log: seq<EventMessage>, start: nat): (r: seq<EventMessage>)
    requires start <= |log|
    ensures |r| == |log| - start
    ensures forall i | 0 <= i < |r| :: r[i] == Marked(log[start + i])
  {
    seq(|log| - start, i requires 0 <= i < |log| - start => Marked(log[start + i]))
  }

  function Enrol<C(==)>(h: Hub<C>, c: C, topic: string, cursor: nat): Hub<C> {
    var log := h.Log(topic);
    h.(subscribers := h.subscribers[topic := h.Members(topic) + {c}],
       channels := h.channels[c := Chan(topic, Clamp(cursor, log), |log|, [], [], [], false, false)])
  }

  // ----- receive, unsubscribe -----

  function Take(ch: Chan): Chan {
    if ch.buffer == [] then ch else ch.(buffer := ch.buffer[1..], received := ch.received + [ch.buffer[0]])
  }

  /** First half of unsubscribe, under the lock. */
  function Withdraw<C(==)>(h: Hub<C>, c: C): Hub<C>
    requires c in h.channels
  {
    var ch := h.channels[c];
    h.(subscribers := if ch.topic !in h.subscribers then h.subscribers
                      else h.subscribers[ch.topic := h.subscribers[ch.topic] - {c}],
       channels := h.channels[c := ch.(leaving := true)])
  }

  // ----- runs -----

  datatype Action<C> =
    | Publish(topic: string, request: PublishRequest, freshID: FreshId, now: string, eventID: string)
    | Subscribe(ch: C, topic: string, cursor: string)
    | Receive(ch: C)
    | Leave(ch: C)
    | Close(ch: C)

  /** One atomic action. Unsubscribe runs once per subscription, as Leave and then Close; an action that cannot happen
      changes nothing. */
  function Act<C(==)>(h: Hub<C>, a: Action<C>): Hub<C> {
    match a
    case Publish(topic, req, freshID, now, eventID) =>
      (match CheckPublish(topic, req, freshID, now)
       case Err(_) => h
       case Ok(p) => Append(h, NextEvent(h.Log(p.topic), p, eventID, now)))
    case Subscribe(c, topic, cursor) =>
      if CheckSubscribe(topic, cursor).Ok? && c !in h.channels
      then Enrol(h, c, topic, CheckSubscribe(topic, cursor).value) else h
    case Receive(c) => if c in h.channels then h.(channels := h.channels[c := Take(h.channels[c])]) else h
    case Leave(c) => if c in h.channels && !h.channels[c].leaving then Withdraw(h, c) else h
    case Close(c) =>
      if c in h.channels && h.channels[c].leaving && !h.channels[c].closed
      then h.(channels := h.channels[c := h.channels[c].(closed := true)]) else h
  }

  /** The topic that an action publishes on, if it is an accepted publish. */
  function Posts<C>(a: Action<C>): Option<string> {
    if !a.Publish? then None else
      match CheckPublish(a.topic, a.request, a.freshID, a.now)
      case Err(_) => None
      case Ok(p) => Some(p.topic)
  }

  function Play<C(==)>(h: Hub<C>, t: seq<Action<C>>): Hub<C>
    decreases t
  {
    if t == [] then h else Play(Act(h, t[0]), t[1..])
  }

  lemma {:induction false} PlayAppend<C>(h: Hub<C>, t: seq<Action<C>>, u: seq<Action<C>>)
    ensures Play(h, t + u) == Play(Play(h, t), u)
    decreases t
  {
    hide Act;
    if t == [] {
      assert t + u == u;
    } else {
      assert (t + u)[1..] == t[1..] + u;
      PlayAppend(Act(h, t[0]), t[1..], u);
    }
  }

  lemma PlayOne<C>(h: Hub<C>, a: Action<C>)
    ensures Play(h, [a]) == Act(h, a)
  {
    hide Act;
    assert [a][1..] == [];
  }

  lemma PlaySnoc<C>(h: Hub<C>, t: seq<Action<C>>, a: Action<C>)
    ensures Play(h, t + [a]) == Act(Play(h, t), a)
  {
    hide Act, Play;
    PlayAppend(h, t, [a]);
    PlayOne(Play(h, t), a);
  }

  lemma PlayNothing<C>(h: Hub<C>)
    ensures Play(h, []) == h
  {
  }

  // ----- what every state satisfies -----

  /** The elements of `s` whose flag is set, in order. */
  function Select<T>(s: seq<T>, flags: seq<bool>): seq<T>
    requires |s| == |flags|
  {
    if s == [] then [] else
      var n := |s| - 1;
      Select(s[..n], flags[..n]) + if flags[n] then [s[n]] else []
  }

  predicate Dense(log: seq<EventMessage>, topic: string) {
    forall i | 0 <= i < |log| :: log[i].sequence == i + 1 && log[i].topic == topic && !log[i].replay
  }

  /** What a channel holds and has handed out is what its fates select from the log since it joined; the first event
      after joining is never dropped. */
  predicate Faithful(ch: Chan, log: seq<EventMessage>) {
    && ch.start <= ch.joined
    && ch.joined + |ch.fate| <= |log|
    && |ch.buffer| <= CAPACITY
    && ch.Kept() == Select(log[ch.joined..ch.joined + |ch.fate|], ch.fate)
    && (ch.fate == [] ==> ch.buffer == [])
    && (ch.fate != [] ==> ch.fate[0])
  }

  predicate WellKept<C(==)>(h: Hub<C>, c: C)
    requires c in h.channels
  {
    var ch := h.channels[c];
    && Faithful(ch, h.Log(ch.topic))
    && (ch.closed ==> ch.leaving)
    && (!ch.leaving ==> c in h.Members(ch.topic) && ch.joined + |ch.fate| == |h.Log(ch.topic)|)
  }

  predicate Enrolled<C(==)>(h: Hub<C>, topic: string, c: C) {
    c in h.channels && h.channels[c].topic == topic && !h.channels[c].leaving
  }

  predicate Consistent<C(==)>(h: Hub<C>) {
    && (forall topic | topic in h.logs :: Dense(h.logs[topic], topic))
    && (forall topic | topic in h.subscribers :: forall c | c in h.subscribers[topic] :: Enrolled(h, topic, c))
    && (forall c | c in h.channels :: WellKept(h, c))
  }

  lemma OfferKeepsFaith(ch: Chan, log: seq<EventMessage>, e: EventMessage)
    requires Faithful(ch, log) && ch.joined + |ch.fate| == |log|
    ensures Faithful(Offer(ch, e), log + [e])
  {
    hide Select;
    var ch', lived := Offer(ch, e), log[ch.joined..];
    assert log[ch.joined..ch.joined + |ch.fate|] == lived;
    assert (log + [e])[ch.joined..ch.joined + |ch'.fate|] == lived + [e];
    SelectSnoc(lived, ch.fate, e, |ch.buffer| < CAPACITY);
    assert |ch.buffer| < CAPACITY ==> ch.received + (ch.buffer + [e]) == ch.Kept() + [e];
    assert ch.Kept() + [] == ch.Kept();
  }

  lemma SelectSnoc<T>(s: seq<T>, flags: seq<bool>, x: T, flag: bool)
    requires |s| == |flags|
    ensures Select(s + [x], flags + [flag]) == Select(s, flags) + if flag then [x] else []
  {
    assert (s + [x])[..|s|] == s && (flags + [flag])[..|s|] == flags;
  }

  lemma NewIsFaithful(topic: string, start: nat, log: seq<EventMessage>)
    requires start <= |log|
    ensures Faithful(Chan(topic, start, |log|, [], [], [], false, false), log)
  {
    assert log[|log|..|log| + 0] == [];
  }

  lemma GrowthKeepsFaith(ch: Chan, log: seq<EventMessage>, e: EventMessage)
    requires Faithful(ch, log)
    ensures Faithful(ch, log + [e])
  {
    assert (log + [e])[ch.joined..ch.joined + |ch.fate|] == log[ch.joined..ch.joined + |ch.fate|];
  }

  lemma TakeKeepsFaith(ch: Chan, log: seq<EventMessage>)
    requires Faithful(ch, log)
    ensures Faithful(Take(ch), log)
    ensures Take(ch).Kept() == ch.Kept()
  {
    assert ch.buffer != [] ==> ch.buffer == [ch.buffer[0]] + ch.buffer[1..];
    assert Take(ch).Kept() == ch.Kept();
  }

  lemma FlagsKeepFaith(ch: Chan, log: seq<EventMessage>, leaving: bool, closed: bool)
    ensures Faithful(ch.(leaving := leaving, closed := closed), log) <==> Faithful(ch, log)
  {
    assert ch.(leaving := leaving, closed := closed).Kept() == ch.Kept();
  }

  lemma AppendKeeps<C>(h: Hub<C>, p: Publication, eventID: string, at: string)
    requires Consistent(h)
    ensures Consistent(Append(h, NextEvent(h.Log(p.topic), p, eventID, at)))
  {
    hide Faithful;
    var log := h.Log(p.topic);
    var e := NextEvent(log, p, eventID, at);
    var h' := Append(h, e);
    forall c | c in h'.channels ensures WellKept(h', c) {
      var ch := h.channels[c];
      assert WellKept(h, c);
      if c in h.Members(p.topic) {
        assert Enrolled(h, p.topic, c);
        OfferKeepsFaith(ch, log, e);
      } else if ch.topic == p.topic {
        GrowthKeepsFaith(ch, log, e);
      }
    }
    forall topic, c | topic in h'.subscribers && c in h'.subscribers[topic] ensures Enrolled(h', topic, c) {
      assert Enrolled(h, topic, c);
    }
  }

  lemma EnrolKeeps<C>(h: Hub<C>, c: C, topic: string, cursor: nat)
    requires Consistent(h) && c !in h.channels
    ensures Consistent(Enrol(h, c, topic, cursor))
  {
    hide Faithful;
    var h' := Enrol(h, c, topic, cursor);
    NewIsFaithful(topic, Clamp(cursor, h.Log(topic)), h.Log(topic));
    forall d | d in h'.channels ensures WellKept(h', d) {
      if d != c { assert WellKept(h, d); }
    }
    forall tp, d | tp in h'.subscribers && d in h'.subscribers[tp] ensures Enrolled(h', tp, d) {
      assert d == c || Enrolled(h, tp, d);
    }
  }

  lemma TouchKeeps<C>(h: Hub<C>, c: C, ch: Chan)
    requires Consistent(h) && c in h.channels
    requires ch == Take(h.channels[c]) || (h.channels[c].leaving && ch == h.channels[c].(closed := true))
    ensures Consistent(h.(channels := h.channels[c := ch]))
  {
    hide Faithful;
    var h' := h.(channels := h.channels[c := ch]);
    assert WellKept(h, c);
    TakeKeepsFaith(h.channels[c], h.Log(ch.topic));
    FlagsKeepFaith(h.channels[c], h.Log(ch.topic), h.channels[c].leaving, true);
    forall d | d in h'.channels ensures WellKept(h', d) {
      assert WellKept(h, d);
    }
    forall tp, d | tp in h'.subscribers && d in h'.subscribers[tp] ensures Enrolled(h', tp, d) {
      assert Enrolled(h, tp, d);
    }
  }

  lemma WithdrawKeeps<C>(h: Hub<C>, c: C)
    requires Consistent(h) && c in h.channels
    ensures Consistent(Withdraw(h, c))
  {
    hide Faithful;
    var h' := Withdraw(h, c);
    FlagsKeepFaith(h.channels[c], h.Log(h.channels[c].topic), true, h.channels[c].closed);
    forall d | d in h'.channels ensures WellKept(h', d) {
      assert WellKept(h, d);
    }
    forall tp, d | tp in h'.subscribers && d in h'.subscribers[tp] ensures Enrolled(h', tp, d) {
      assert Enrolled(h, tp, d);
    }
  }

  lemma ActKeeps<C>(h: Hub<C>, a: Action<C>)
    requires Consistent(h)
    ensures Consistent(Act(h, a))
  {
    hide Consistent;
    match a {
      case Publish(topic, req, freshID, now, eventID) =>
        var checked := CheckPublish(topic, req, freshID, now);
        if checked.Ok? { AppendKeeps(h, checked.value, eventID, now); }
      case Subscribe(c, topic, cursor) =>
        var checked := CheckSubscribe(topic, cursor);
        if checked.Ok? && c !in h.channels { EnrolKeeps(h, c, topic, checked.value); }
      case Receive(c) =>
        if c in h.channels { TouchKeeps(h, c, Take(h.channels[c])); }
      case Leave(c) =>
        if c in h.channels { WithdrawKeeps(h, c); }
      case Close(c) =>
        if c in h.channels && h.channels[c].leaving { TouchKeeps(h, c, h.channels[c].(closed := true)); }
    }
  }

  /** Every interleaving of publishes, subscribes, receives and unsubscribes keeps the hub consistent. */
  lemma {:induction false} PlayKeeps<C>(h: Hub<C>, t: seq<Action<C>>)
    requires Consistent(h)
    ensures Consistent(Play(h, t))
    decreases t
  {
    hide Act, Consistent;
    if t != [] {
      ActKeeps(h, t[0]);
      PlayKeeps(Act(h, t[0]), t[1..]);
    }
  }
}
