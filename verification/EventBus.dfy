/** The event-log half of the service as it runs: a bus whose methods update its maps and the channel objects in place,
    each proved to perform the matching atomic action of EventLog. Each method body is one critical section. */
module EventBuses {
  import opened MigTypes
  import opened Headers
  import opened GoStrings
  import opened EventLog
  import opened Mirror
  import opened Subjects

  /** The checks of Publish, before it takes the lock. */
  method ValidatePublish(topic: string, req: PublishRequest, freshID: FreshId, now: string)
    returns (r: Result<Publication>)
    ensures r == CheckPublish(topic, req, freshID, now)
  {
    var accepted := AcceptHeader(req.header, freshID, now);
    if accepted.Err? {
      return Err(accepted.error);
    }
    var target := topic;
    if target == "" {
      target := req.topic;
    }
    if target == "" {
      return Err(Invalid(TopicRequired));
    }
    if !Contains(target, ".") {
      DotIn(target);
      return Err(Invalid(TopicNotNamespaced));
    }
    DotIn(target);
    r := Ok(Publication(target, accepted.value, req.payload));
  }

  /** The checks of Subscribe, before it takes the lock. */
  method ValidateSubscribe(topic: string, cursor: string) returns (r: Result<nat>)
    ensures r == CheckSubscribe(topic, cursor)
  {
    DotIn(topic);
    if topic == "" {
      return Err(Invalid(TopicRequired));
    }
    if !Contains(topic, ".") {
      return Err(Invalid(TopicNotNamespaced));
    }
    var start := 0;
    if cursor != "" {
      var parsed := Atoi(cursor);
      if parsed.None? || parsed.value < 0 {
        return Err(Invalid(BadResumeCursor));
      }
      start := parsed.value;
    }
    r := Ok(start);
  }

  /** Namespaced means having a dot somewhere. */
  lemma {:induction false} DotIn(s: string)
    ensures Contains(s, ".") <==> '.' in s
  {
    if s != "" {
      DotIn(s[1..]);
      assert s == [s[0]] + s[1..];
      assert "." <= s <==> s[0] == '.';
    }
  }

  /** A buffered channel, with the topic that its unsubscribe closure captures. The ghost record holds its history;
      topic, buffer and closed flag are the real ones. */
  class Channel {
    const topic: string
    var buffer: seq<EventMessage>
    var closed: bool
    ghost var past: Chan

    ghost function View(): Chan
      reads this
    {
      past.(topic := topic, buffer := buffer, closed := closed)
    }

    constructor (topic: string, ghost start: nat, ghost joined: nat)
      ensures this.topic == topic
      ensures View() == Chan(topic, start, joined, [], [], [], false, false)
    {
      this.topic, buffer, closed := topic, [], false;
      past := Chan(topic, start, joined, [], [], [], false, false);
    }

    /** `select { case sub <- event: default: }`; sending on a closed channel would panic. */
    method Send(e: EventMessage)
      requires !closed
      modifies this
      ensures View() == Offer(old(View()), e)
    {
      if |buffer| < CAPACITY {
        buffer := buffer + [e];
        past := past.(fate := past.fate + [true]);
      } else {
        past := past.(fate := past.fate + [false]);
      }
    }

    method Receive() returns (e: Option<EventMessage>)
      modifies this
      ensures View() == Take(old(View()))
      ensures e == if old(buffer) == [] then None else Some(old(buffer)[0])
    {
      if buffer == [] {
        e := None;
      } else {
        e := Some(buffer[0]);
        past := past.(received := past.received + [buffer[0]]);
        buffer := buffer[1..];
      }
    }

    /** Closing twice would panic. */
    method Close()
      requires !closed
      modifies this
      ensures View() == old(View()).(closed := true)
    {
      closed := true;
    }
  }

  lemma MirrorPrints(tenant: string, topic: string)
    ensures "mig.v0_1." + SanitizeSegment(tenant) + ".events." + SanitizeSubject(topic) == MirrorSubject(tenant, topic)
  {
    hide SanitizeSegment, SanitizeSubject;
    var head := "mig.v0_1." + SanitizeSegment(tenant);
    assert head + ".events." == head + "." + EVENTS + ".";
  }

  lemma Withdrawn(h: Hub<Channel>, c: Channel)
    requires Consistent(h) && c in h.channels && h.channels[c].leaving
    ensures forall topic :: c !in h.Members(topic)
  {
    assert forall topic | c in h.Members(topic) :: Enrolled(h, topic, c);
  }

  class EventBus {
    var events: map<string, seq<EventMessage>>
    var subscribers: map<string, set<Channel>>
    /** Whether there is a NATS connection, and what has been published on it. */
    const natsConn: bool
    var mirrored: seq<Mail>
    /** Every channel ever handed out. */
    ghost var channels: set<Channel>

    ghost function View(): Hub<Channel>
      reads this, channels
    {
      Hub(events, subscribers, map c | c in channels :: c.View())
    }

    ghost predicate Valid()
      reads this, channels
    {
      Consistent(View())
    }

    constructor (natsConn: bool)
      ensures Valid() && View() == Hub(map[], map[], map[]) && mirrored == []
    {
      this.natsConn := natsConn;
      events, subscribers, mirrored, channels := map[], map[], [], {};
    }

    lemma MembersAreLive(topic: string)
      requires Valid()
      ensures forall c | c in View().Members(topic) :: c in channels && !c.closed
    {
      forall c | c in View().Members(topic) ensures c in channels && !c.closed {
        assert Enrolled(View(), topic, c) && WellKept(View(), c);
      }
    }

    /** A channel is in its topic's subscriber set until it leaves. */
    lemma MemberIffStaying(ch: Channel)
      requires Valid() && ch in channels
      ensures (ch.topic in subscribers && ch in subscribers[ch.topic]) <==> !ch.past.leaving
      ensures View().channels[ch] == ch.View()
    {
      var h := View();
      assert WellKept(h, ch);
      if ch.topic in subscribers && ch in subscribers[ch.topic] {
        assert Enrolled(h, ch.topic, ch);
      }
    }

    /** The acknowledged event is the next of its topic; every subscriber of the topic was offered it; it was mirrored
        if there is a NATS connection; nothing else moved. */
    method Publish(topic: string, req: PublishRequest, freshID: FreshId, now: string, eventID: string)
      returns (ack: Result<PublishAck>)
      requires Valid()
      modifies this`events, this`mirrored, channels
      ensures channels == old(channels) && subscribers == old(subscribers)
      ensures View() == Act(old(View()), EventLog.Publish(topic, req, freshID, now, eventID))
      ensures natsConn ==>
        var a := EventLog.Publish(topic, req, freshID, now, eventID);
        Net(View(), mirrored) == Local(Net(old(View()), old(mirrored)), a)
      ensures !natsConn ==> mirrored == old(mirrored)
      ensures Valid()
      ensures match CheckPublish(topic, req, freshID, now)
        case Err(e) => ack == Err(e)
        case Ok(p) => ack == Ok(PublishAck(p.head, p.topic, eventID, |old(View()).Log(p.topic)| + 1, true))
    {
      hide Consistent, CheckPublish;
      var checked := ValidatePublish(topic, req, freshID, now);
      if checked.Err? {
        return Err(checked.error);
      }
      var p := checked.value;
      var sequence := Record(p, eventID, now);
      ack := Ok(PublishAck(p.head, p.topic, eventID, sequence, true));
    }

    /** The locked section of Publish. */
    method Record(p: Publication, eventID: string, now: string) returns (sequence: int)
      requires Valid()
      modifies this`events, this`mirrored, channels
      ensures Valid() && channels == old(channels) && subscribers == old(subscribers)
      ensures mirrored == old(mirrored)
        + if natsConn then [Mirrored(NextEvent(old(View()).Log(p.topic), p, eventID, now))] else []
      ensures View() == Append(old(View()), NextEvent(old(View()).Log(p.topic), p, eventID, now))
      ensures sequence == |old(View()).Log(p.topic)| + 1
    {
      hide Consistent, Append;
      var log := if p.topic in events then events[p.topic] else [];
      sequence := |log| + 1;
      var event := EventMessage(p.head, p.topic, eventID, sequence, p.payload, now, false);
      AppendKeeps(View(), p, eventID, now);
      assert event == NextEvent(View().Log(p.topic), p, eventID, now);
      Store(log, event);
      ghost var stored := View();
      PublishEventToNATS(event);
      assert View() == stored;
    }

    /** The event goes to the end of its topic's log and to the topic's subscribers. */
    method Store(log: seq<EventMessage>, event: EventMessage)
      requires Valid() && log == if event.topic in events then events[event.topic] else []
      modifies this`events, channels
      ensures channels == old(channels) && subscribers == old(subscribers)
      ensures View() == Append(old(View()), event)
    {
      hide Consistent, Offer;
      MembersAreLive(event.topic);
      events := events[event.topic := log + [event]];
      FanOut(event.topic, event);
    }

    /** Without a connection nothing is sent. */
    method PublishEventToNATS(event: EventMessage)
      modifies this`mirrored
      ensures mirrored == old(mirrored) + if natsConn then [Mirrored(event)] else []
    {
      if natsConn {
        var tenant, topic := SanitizeSegment(event.header.tenantID), SanitizeSubject(event.topic);
        var subject := "mig.v0_1." + tenant + ".events." + topic;
        MirrorPrints(event.header.tenantID, event.topic);
        mirrored := mirrored + [Mail(subject, event)];
      }
    }

    /** The loop over the topic's subscribers, in whatever order the map yields them. */
    method FanOut(topic: string, event: EventMessage)
      requires topic in subscribers ==> forall c | c in subscribers[topic] :: c in channels && !c.closed
      modifies if topic in subscribers then subscribers[topic] else {}
      ensures forall c | c in channels ::
        c.View() == if topic in subscribers && c in subscribers[topic] then Offer(old(c.View()), event)
                    else old(c.View())
    {
      if topic in subscribers {
        var todo := subscribers[topic];
        while todo != {}
          invariant todo <= subscribers[topic]
          invariant forall c | c in todo :: c.View() == old(c.View()) && !c.closed
          invariant forall c | c in subscribers[topic] - todo :: c.View() == Offer(old(c.View()), event)
          invariant forall c | c in channels - subscribers[topic] :: c.View() == old(c.View())
          decreases |todo|
        {
          var sub :| sub in todo;
          sub.Send(event);
          todo := todo - {sub};
        }
      }
    }

    /** A flagged copy of the log from the cursor on, and a channel that is offered every later event. */
    method Subscribe(topic: string, cursor: string)
      returns (replay: seq<EventMessage>, ch: Channel?, error: Option<MigError>)
      requires Valid()
      modifies this`subscribers, this`channels
      ensures Valid() && events == old(events)
      ensures match CheckSubscribe(topic, cursor)
        case Err(e) =>
          && error == Some(e) && ch == null && replay == []
          && channels == old(channels) && View() == old(View())
        case Ok(start) =>
          && error == None && ch != null && fresh(ch) && channels == old(channels) + {ch}
          && View() == Act(old(View()), EventLog.Subscribe(ch, topic, cursor))
          && replay == Snapshot(View().Log(topic), Clamp(start, View().Log(topic)))
          && ch.View() == Chan(topic, Clamp(start, View().Log(topic)), |View().Log(topic)|, [], [], [], false, false)
    {
      hide Consistent, CheckSubscribe;
      var checked := ValidateSubscribe(topic, cursor);
      if checked.Err? {
        return [], null, Some(checked.error);
      }
      var all := if topic in events then events[topic] else [];
      var start := if checked.value > |all| then |all| else checked.value;
      replay := Flagged(all, start);
      var c := Attach(topic, checked.value);
      ch, error := c, None;
    }

    /** A fresh channel joins the topic's subscriber set. */
    method Attach(topic: string, ghost cursor: nat) returns (c: Channel)
      requires Valid()
      modifies this`subscribers, this`channels
      ensures Valid() && events == old(events) && channels == old(channels) + {c}
      ensures fresh(c) && View() == Enrol(old(View()), c, topic, cursor)
      ensures c.View() == View().channels[c]
    {
      hide Consistent;
      ghost var before := View();
      c := new Channel(topic, Clamp(cursor, before.Log(topic)), |before.Log(topic)|);
      EnrolKeeps(before, c, topic, cursor);
      Insert(c, cursor);
    }

    method Insert(c: Channel, ghost cursor: nat)
      requires c !in channels
      requires var log := View().Log(c.topic);
        c.View() == Chan(c.topic, Clamp(cursor, log), |log|, [], [], [], false, false)
      modifies this`subscribers, this`channels
      ensures channels == old(channels) + {c} && View() == Enrol(old(View()), c, c.topic, cursor)
    {
      var members := if c.topic in subscribers then subscribers[c.topic] else {};
      subscribers := subscribers[c.topic := members + {c}];
      channels := channels + {c};
    }

    method Flagged(all: seq<EventMessage>, start: nat) returns (snapshot: seq<EventMessage>)
      requires start <= |all|
      ensures snapshot == Snapshot(all, start)
    {
      snapshot := all[start..];
      for i := 0 to |snapshot|
        invariant |snapshot| == |all| - start
        invariant forall j | 0 <= j < |snapshot| ::
          snapshot[j] == if j < i then Marked(all[start + j]) else all[start + j]
      {
        snapshot := snapshot[i := snapshot[i].(replay := true)];
      }
    }

    /** First half of unsubscribe. The second half is `ch.Close()`, after the lock has been released. */
    method Leave(ch: Channel)
      requires Valid() && ch in channels && !ch.past.leaving
      modifies this`subscribers, ch`past
      ensures Valid() && channels == old(channels)
      ensures View() == Act(old(View()), EventLog.Leave(ch))
      ensures forall topic :: ch !in View().Members(topic)
    {
      hide Consistent;
      WithdrawKeeps(View(), ch);
      Remove(ch);
      Withdrawn(View(), ch);
    }

    method Remove(ch: Channel)
      requires ch in channels
      modifies this`subscribers, ch`past
      ensures channels == old(channels)
      ensures View() == Withdraw(old(View()), ch)
    {
      if ch.topic in subscribers {
        subscribers := subscribers[ch.topic := subscribers[ch.topic] - {ch}];
      }
      ch.past := ch.past.(leaving := true);
    }

    method Receive(ch: Channel) returns (e: Option<EventMessage>)
      requires Valid() && ch in channels
      modifies ch
      ensures Valid()
      ensures View() == Act(old(View()), EventLog.Receive(ch))
      ensures e == if old(ch.buffer) == [] then None else Some(old(ch.buffer)[0])
    {
      hide Consistent;
      ghost var before := View();
      e := ch.Receive();
      assert View() == before.(channels := before.channels[ch := Take(before.channels[ch])]);
      TouchKeeps(before, ch, Take(before.channels[ch]));
    }

    /** Second half of unsubscribe. */
    method Close(ch: Channel)
      requires Valid() && ch in channels && ch.past.leaving && !ch.closed
      modifies ch
      ensures Valid()
      ensures View() == Act(old(View()), EventLog.Close(ch))
    {
      hide Consistent;
      ghost var before := View();
      ch.Close();
      assert View() == before.(channels := before.channels[ch := before.channels[ch].(closed := true)]);
      TouchKeeps(before, ch, before.channels[ch].(closed := true));
    }
  }
}
