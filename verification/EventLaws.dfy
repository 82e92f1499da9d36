/** What a consistent hub means for a subscriber: what it sees, what it can tell from gaps, and how resuming at the last
    contiguous sequence number rebuilds the log. */
module EventLaws {
  import opened MigTypes
  import opened GoStrings
  import opened EventLog

  // ----- selections -----

  /** The positions of the set flags, in order. */
  function Ranks(flags: seq<bool>): (r: seq<nat>)
    ensures forall i | 0 <= i < |r| :: r[i] < |flags|
  {
    if flags == [] then [] else
      var n := |flags| - 1;
      Ranks(flags[..n]) + if flags[n] then [n] else []
  }

  function Negate(flags: seq<bool>): (r: seq<bool>)
    ensures |r| == |flags|
    ensures forall i | 0 <= i < |r| :: r[i] == !flags[i]
  {
    seq(|flags|, i requires 0 <= i < |flags| => !flags[i])
  }

  lemma {:induction false} RankLaws<T>(s: seq<T>, flags: seq<bool>)
    requires |s| == |flags|
    ensures var r, kept := Ranks(flags), Select(s, flags);
      && |kept| == |r|
      && (forall i | 0 <= i < |r| :: flags[r[i]] && kept[i] == s[r[i]])
      && (forall i, j | 0 <= i < j < |r| :: r[i] < r[j])
      && (forall p | 0 <= p < |flags| :: flags[p] <==> p in r)
  {
    if flags != [] {
      var n := |flags| - 1;
      RankLaws(s[..n], flags[..n]);
      assert forall p | 0 <= p < n :: flags[p] == flags[..n][p];
    }
  }

  lemma {:induction false} SelectionsPartition<T>(s: seq<T>, flags: seq<bool>)
    requires |s| == |flags|
    ensures |Select(s, flags)| + |Select(s, Negate(flags))| == |s|
  {
    if s != [] {
      var n := |s| - 1;
      SelectionsPartition(s[..n], flags[..n]);
      assert Negate(flags)[..n] == Negate(flags[..n]);
    }
  }

  lemma {:induction false} SelectAll<T>(s: seq<T>, flags: seq<bool>)
    requires |s| == |flags|
    ensures |Select(s, flags)| <= |s|
    ensures Select(s, flags) == s <==> forall i | 0 <= i < |flags| :: flags[i]
    ensures |Select(s, flags)| == |s| <==> forall i | 0 <= i < |flags| :: flags[i]
  {
    if s != [] {
      var n := |s| - 1;
      SelectAll(s[..n], flags[..n]);
      assert s == s[..n] + [s[n]];
      assert forall i | 0 <= i < n :: flags[i] == flags[..n][i];
    }
  }

  // ----- one subscriber -----

  /** The stretch of the log a subscription has lived through. */
  function Lived(ch: Chan, log: seq<EventMessage>): seq<EventMessage>
    requires ch.joined + |ch.fate| <= |log|
  {
    log[ch.joined..ch.joined + |ch.fate|]
  }

  function Dropped(ch: Chan, log: seq<EventMessage>): seq<EventMessage>
    requires ch.joined + |ch.fate| <= |log|
  {
    Select(Lived(ch, log), Negate(ch.fate))
  }

  lemma KeptByRank(ch: Chan, log: seq<EventMessage>, topic: string)
    requires Faithful(ch, log) && Dense(log, topic)
    ensures var r, kept := Ranks(ch.fate), ch.Kept();
      && |kept| == |r|
      && (forall i | 0 <= i < |kept| :: kept[i].sequence == ch.joined + r[i] + 1 && kept[i] == log[ch.joined + r[i]])
      && (forall i, j | 0 <= i < j < |r| :: r[i] < r[j])
      && (forall p | 0 <= p < |ch.fate| :: ch.fate[p] <==> p in r)
  {
    RankLaws(Lived(ch, log), ch.fate);
  }

  /** At most 32 buffered; what was received or is buffered is a duplicate-free selection of the log since joining, in
      strictly increasing sequence order. */
  predicate OrderedSelection(ch: Chan, log: seq<EventMessage>) {
    var kept := ch.Kept();
    && |ch.buffer| <= 32
    && (forall i | 0 <= i < |kept| ::
          ch.joined < kept[i].sequence <= |log| && kept[i] == log[kept[i].sequence - 1])
    && (forall i, j | 0 <= i < j < |kept| :: kept[i].sequence < kept[j].sequence)
  }

  lemma KeptIsOrderedSelection(ch: Chan, log: seq<EventMessage>, topic: string)
    requires Faithful(ch, log) && Dense(log, topic)
    ensures OrderedSelection(ch, log)
  {
    hide Select, Ranks;
    KeptByRank(ch, log, topic);
  }

  /** Received, buffered and dropped events add up to what was published since joining, and an event is kept exactly
      when it was not dropped. */
  predicate Accounted(ch: Chan, log: seq<EventMessage>)
    requires ch.joined + |ch.fate| <= |log|
  {
    && |ch.received| + |ch.buffer| + |Dropped(ch, log)| == |ch.fate|
    && (forall p | 0 <= p < |ch.fate| :: log[ch.joined + p] in ch.Kept() <==> ch.fate[p])
    && (!ch.leaving ==> |ch.fate| == |log| - ch.joined)
  }

  lemma KeptIsAccounted(ch: Chan, log: seq<EventMessage>, topic: string)
    requires Faithful(ch, log) && Dense(log, topic)
    requires !ch.leaving ==> |ch.fate| == |log| - ch.joined
    ensures Accounted(ch, log)
  {
    SelectionsPartition(Lived(ch, log), ch.fate);
    forall p | 0 <= p < |ch.fate| ensures log[ch.joined + p] in ch.Kept() <==> ch.fate[p] {
      KeptIffFate(ch, log, topic, p);
    }
  }

  lemma KeptIffFate(ch: Chan, log: seq<EventMessage>, topic: string, p: nat)
    requires Faithful(ch, log) && Dense(log, topic) && p < |ch.fate|
    ensures log[ch.joined + p] in ch.Kept() <==> ch.fate[p]
  {
    hide Select, Ranks;
    KeptByRank(ch, log, topic);
    var r, kept := Ranks(ch.fate), ch.Kept();
    if p in r {
      var i :| 0 <= i < |r| && r[i] == p;
      assert kept[i] == log[ch.joined + p];
    }
  }

  function Plain(events: seq<EventMessage>): (r: seq<EventMessage>)
    ensures |r| == |events|
    ensures forall i | 0 <= i < |r| :: r[i] == Unmarked(events[i])
  {
    seq(|events|, i requires 0 <= i < |events| => Unmarked(events[i]))
  }

  /** Replay followed by what was received and what is buffered is the log from the start position, up to the replay
      flag, if and only if no event met a full buffer. */
  predicate CompleteIffNeverFull(ch: Chan, log: seq<EventMessage>)
    requires ch.start <= ch.joined <= |log|
  {
    Plain(Snapshot(log[..ch.joined], ch.start)) + ch.Kept() == log[ch.start..]
    <==> forall i | 0 <= i < |ch.fate| :: ch.fate[i]
  }

  lemma CompleteWhileSubscribed(ch: Chan, log: seq<EventMessage>, topic: string)
    requires Faithful(ch, log) && Dense(log, topic) && |ch.fate| == |log| - ch.joined
    ensures CompleteIffNeverFull(ch, log)
  {
    hide Select;
    var replay, rest := Plain(Snapshot(log[..ch.joined], ch.start)), log[ch.joined..];
    SelectAll(rest, ch.fate);
    assert log[ch.joined..ch.joined + |ch.fate|] == rest;
    ReplayIsLog(log, topic, ch.start, ch.joined);
    SamePrefix(replay, ch.Kept(), rest);
  }

  lemma ReplayIsLog(log: seq<EventMessage>, topic: string, start: nat, joined: nat)
    requires Dense(log, topic) && start <= joined <= |log|
    ensures Plain(Snapshot(log[..joined], start)) + log[joined..] == log[start..]
  {
    assert Plain(Snapshot(log[..joined], start)) == log[start..joined];
  }

  lemma SamePrefix<T>(a: seq<T>, b: seq<T>, c: seq<T>)
    ensures a + b == a + c <==> b == c
  {
    assert (a + b)[|a|..] == b && (a + c)[|a|..] == c;
  }

  /** Gaps tell the truth: nothing is missing between joining and the first kept event, and the events between two
      consecutively kept ones are exactly the dropped ones. */
  predicate HonestGaps(ch: Chan) {
    var kept := ch.Kept();
    && (kept != [] ==> kept[0].sequence == ch.joined + 1)
    && forall i, p | 0 <= i < |kept| - 1 && 0 <= p < |ch.fate| :: HonestGap(ch, i, p)
  }

  /** The event published at place `p` after joining, seen from the consecutively kept events `i` and `i + 1`. */
  predicate HonestGap(ch: Chan, i: nat, p: nat)
    requires i + 1 < |ch.Kept()| && p < |ch.fate|
  {
    var a, b, q := ch.Kept()[i].sequence, ch.Kept()[i + 1].sequence, ch.joined + p + 1;
    a <= q <= b ==> (a < q < b <==> !ch.fate[p])
  }

  lemma GapsAreDrops(ch: Chan, log: seq<EventMessage>, topic: string)
    requires Faithful(ch, log) && Dense(log, topic)
    ensures HonestGaps(ch)
  {
    hide Select, Ranks;
    var kept, r := ch.Kept(), Ranks(ch.fate);
    KeptByRank(ch, log, topic);
    if kept != [] {
      assert r[0] < |ch.fate|;
      assert ch.fate[0] && 0 in r;
      var k :| 0 <= k < |r| && r[k] == 0;
      assert r[0] <= r[k];
    }
    forall i, p | 0 <= i < |kept| - 1 && 0 <= p < |ch.fate| ensures HonestGap(ch, i, p) {
      if p in r {
        var k :| 0 <= k < |r| && r[k] == p;
        assert k <= i || k >= i + 1;
      }
    }
  }

  // ----- all channels, all topics -----

  lemma ChannelOf<C>(h: Hub<C>, c: C)
    requires Consistent(h) && c in h.channels
    ensures var ch := h.channels[c];
      var log := h.Log(ch.topic);
      && Faithful(ch, log) && Dense(log, ch.topic)
      && (!ch.leaving ==> |ch.fate| == |log| - ch.joined)
  {
    assert WellKept(h, c);
  }

  function Empty<C(==)>(): Hub<C> {
    Hub(map[], map[], map[])
  }

  /** After any interleaving of publishes, subscribes, receives and unsubscribes, every subscriber that ever joined
      has an ordered selection of the log, accounts for every event since it joined, can trust gaps, and while it is
      subscribed has everything from its start position exactly if its buffer was never full at a publish. */
  lemma EverySubscriberInEveryRun<C>(t: seq<Action<C>>, c: C)
    requires c in Play(Empty(), t).channels
    ensures var h := Play(Empty(), t);
      var ch := h.channels[c];
      var log := h.Log(ch.topic);
      && ch.start <= ch.joined && ch.joined + |ch.fate| <= |log|
      && OrderedSelection(ch, log) && Accounted(ch, log) && HonestGaps(ch)
      && (!ch.leaving ==> CompleteIffNeverFull(ch, log))
  {
    hide Play, Consistent, OrderedSelection, Accounted, HonestGaps, CompleteIffNeverFull;
    var h := Play<C>(Empty(), t);
    PlayKeeps<C>(Empty(), t) by {
      EmptyIsConsistent<C>();
    }
    ChannelOf(h, c);
    var ch := h.channels[c];
    var log := h.Log(ch.topic);
    KeptIsOrderedSelection(ch, log, ch.topic);
    KeptIsAccounted(ch, log, ch.topic);
    GapsAreDrops(ch, log, ch.topic);
    if !ch.leaving { CompleteWhileSubscribed(ch, log, ch.topic); }
  }

  lemma EmptyIsConsistent<C>()
    ensures Consistent(Empty<C>())
  {
  }

  // ----- drops, seen from the run -----

  /** The action publishes to a topic whose subscriber set has the channel. */
  predicate Offered<C(==)>(h: Hub<C>, a: Action<C>, c: C) {
    c in h.channels && Posts(a) == Some(h.channels[c].topic) && c in h.Members(h.channels[c].topic)
  }

  /** A channel's fates grow by one at each publish offered to it, and say whether its buffer had room. */
  lemma ActFate<C>(h: Hub<C>, a: Action<C>, c: C)
    requires Consistent(h) && c in h.channels
    ensures var ch := h.channels[c];
      && c in Act(h, a).channels
      && Act(h, a).channels[c].fate == ch.fate + if Offered(h, a, c) then [|ch.buffer| < CAPACITY] else []
  {
    hide WellKept;
    if a.Publish? && Posts(a).Some? {
      assert c in h.Members(Posts(a).value) ==> Enrolled(h, Posts(a).value, c);
    }
  }

  lemma NewFate<C>(h: Hub<C>, a: Action<C>, c: C)
    requires c !in h.channels && c in Act(h, a).channels
    ensures Act(h, a).channels[c].fate == []
  {
  }

  /** Step `k` of a run from boot is a publish offered to the channel. */
  predicate OfferedAt<C(==)>(t: seq<Action<C>>, k: nat, c: C) {
    k < |t| && Offered(Play(Empty(), t[..k]), t[k], c)
  }

  /** The channel as it was before step `k`. */
  function Before<C(==)>(t: seq<Action<C>>, k: nat, c: C): Chan
    requires OfferedAt(t, k, c)
  {
    Play(Empty(), t[..k]).channels[c]
  }

  lemma LastAct<C>(t: seq<Action<C>>)
    requires t != []
    ensures Play(Empty(), t) == Act(Play(Empty(), t[..|t| - 1]), t[|t| - 1])
    ensures Consistent(Play(Empty<C>(), t[..|t| - 1]))
  {
    hide Act, Consistent;
    var n := |t| - 1;
    assert t == t[..n] + [t[n]];
    PlaySnoc(Empty<C>(), t[..n], t[n]);
    EmptyIsConsistent<C>();
    PlayKeeps(Empty<C>(), t[..n]);
  }

  /** Every fate was decided by the buffer at one publish of the run. */
  lemma {:induction false} FateHasItsPublish<C>(t: seq<Action<C>>, c: C, p: nat) returns (k: nat)
    requires c in Play(Empty(), t).channels && p < |Play(Empty(), t).channels[c].fate|
    ensures OfferedAt(t, k, c) && |Before(t, k, c).fate| == p
    ensures Play(Empty(), t).channels[c].fate[p] <==> |Before(t, k, c).buffer| < CAPACITY
    decreases t
  {
    hide Act, Play, Consistent, Offered;
    if t == [] {
      NoChannels(c);
    } else {
      var n := |t| - 1;
      LastAct(t);
      var h := Play(Empty<C>(), t[..n]);
      if c !in h.channels {
        NewFate(h, t[n], c);
      } else {
        ActFate(h, t[n], c);
        if p < |h.channels[c].fate| {
          k := FateHasItsPublish(t[..n], c, p);
          assert t[..n][..k] == t[..k];
        } else {
          k := n;
        }
      }
    }
  }

  lemma NoChannels<C>(c: C)
    ensures c !in Play(Empty<C>(), []).channels
  {
  }

  /** Every publish of the run that was offered to the channel decided one of its fates. */
  lemma {:induction false} PublishHasItsFate<C>(t: seq<Action<C>>, c: C, k: nat)
    requires OfferedAt(t, k, c)
    ensures c in Play(Empty(), t).channels
    ensures var fate, was := Play(Empty(), t).channels[c].fate, Before(t, k, c);
      |was.fate| < |fate| && (fate[|was.fate|] <==> |was.buffer| < CAPACITY)
    decreases t
  {
    hide Act, Play, Consistent, Offered;
    var n := |t| - 1;
    LastAct(t);
    if k < n {
      assert t[..n][..k] == t[..k];
      PublishHasItsFate(t[..n], c, k);
    } else {
      OfferedIsThere(Play(Empty<C>(), t[..n]), t[n], c);
    }
    ActFate(Play(Empty<C>(), t[..n]), t[n], c);
  }

  lemma OfferedIsThere<C>(h: Hub<C>, a: Action<C>, c: C)
    requires Offered(h, a, c)
    ensures c in h.channels
  {
  }

  /** No publish of the run met a full buffer. */
  predicate NeverFull<C(==)>(t: seq<Action<C>>, c: C) {
    forall k | 0 <= k < |t| && OfferedAt(t, k, c) :: |Before(t, k, c).buffer| < CAPACITY
  }

  lemma NothingDroppedIffNeverFull<C>(t: seq<Action<C>>, c: C)
    requires c in Play(Empty(), t).channels
    ensures (forall p | 0 <= p < |Play(Empty(), t).channels[c].fate| :: Play(Empty(), t).channels[c].fate[p])
      <==> NeverFull(t, c)
  {
    hide Play, Act, Offered;
    var fate := Play(Empty<C>(), t).channels[c].fate;
    if NeverFull(t, c) {
      forall p | 0 <= p < |fate| ensures fate[p] {
        var k := FateHasItsPublish(t, c, p);
      }
    } else {
      var k :| 0 <= k < |t| && OfferedAt(t, k, c) && !(|Before(t, k, c).buffer| < CAPACITY);
      PublishHasItsFate(t, c, k);
    }
  }

  /** A subscriber that has not left has everything from its start position, once, if and only if no publish of the
      run found its buffer full. */
  lemma EverythingIffNeverFull<C>(t: seq<Action<C>>, c: C)
    requires c in Play(Empty(), t).channels && !Play(Empty(), t).channels[c].leaving
    ensures var h := Play(Empty(), t);
      var ch := h.channels[c];
      var log := h.Log(ch.topic);
      && ch.start <= ch.joined <= |log|
      && (Plain(Snapshot(log[..ch.joined], ch.start)) + ch.Kept() == log[ch.start..] <==> NeverFull(t, c))
  {
    hide Play, NeverFull, OrderedSelection, Accounted, HonestGaps;
    EverySubscriberInEveryRun(t, c);
    NothingDroppedIffNeverFull(t, c);
  }

  /** A subscription to the topic, and then `n` publishes on it that nobody receives. */
  function Flood<C>(c: C, topic: string, n: nat): seq<Action<C>> {
    if n == 0 then [Subscribe(c, topic, "")] else Flood(c, topic, n - 1) + [FloodPost(topic)]
  }

  function FloodPost<C>(topic: string): Action<C> {
    var head := MessageHeader("", "", "", "a", "", "", "", 0, map[]);
    Publish(topic, PublishRequest(head, "", JNull), "0", "", "e")
  }

  /** A channel that was offered `n` events and kept the first 32. */
  predicate Flooded(ch: Chan, topic: string, n: nat) {
    && ch.topic == topic && ch.received == [] && |ch.fate| == n
    && |ch.buffer| == (if n < 32 then n else 32)
    && forall p | 0 <= p < n :: ch.fate[p] <==> p < 32
  }

  predicate HasFlooded<C(==)>(h: Hub<C>, c: C, topic: string, n: nat) {
    c in h.channels && c in h.Members(topic) && Flooded(h.channels[c], topic, n)
  }

  /** The buffer keeps the first 32 events, and every later one is dropped. */
  lemma {:induction false} FloodDrops<C>(c: C, topic: string, n: nat)
    requires '.' in topic
    ensures HasFlooded(Play(Empty(), Flood(c, topic, n)), c, topic, n)
  {
    hide Play, Act, HasFlooded, Consistent, FloodPost;
    var t := Flood(c, topic, n);
    LastAct(t);
    if n == 0 {
      PlayNothing<C>(Empty());
      assert t[..0] == [];
      FloodStarts(c, topic);
    } else {
      assert t[..|t| - 1] == Flood(c, topic, n - 1) && t[|t| - 1] == FloodPost(topic);
      FloodDrops(c, topic, n - 1);
      FloodGoesOn(Play(Empty<C>(), t[..|t| - 1]), c, topic, n - 1);
    }
  }

  lemma FloodStarts<C>(c: C, topic: string)
    requires '.' in topic
    ensures HasFlooded(Act(Empty(), Subscribe(c, topic, "")), c, topic, 0)
  {
  }

  lemma FloodGoesOn<C>(h: Hub<C>, c: C, topic: string, n: nat)
    requires '.' in topic && HasFlooded(h, c, topic, n)
    ensures HasFlooded(Act(h, FloodPost(topic)), c, topic, n + 1)
  {
    hide Offer, Flooded;
    var a := FloodPost<C>(topic);
    var p := CheckPublish(a.topic, a.request, a.freshID, a.now).value;
    OfferFloods(h.channels[c], NextEvent(h.Log(topic), p, a.eventID, a.now), topic, n);
  }

  lemma OfferFloods(ch: Chan, e: EventMessage, topic: string, n: nat)
    requires Flooded(ch, topic, n)
    ensures Flooded(Offer(ch, e), topic, n + 1)
  {
  }

  /** So drops happen: after 33 publishes without a receive the buffer has been full, and the last event is lost. */
  lemma DropIsReachable<C>(c: C, topic: string)
    requires '.' in topic
    ensures var t := Flood(c, topic, 33);
      && HasFlooded(Play(Empty(), t), c, topic, 33)
      && !Play(Empty(), t).channels[c].fate[32]
      && !NeverFull(t, c)
  {
    hide Play, NeverFull, Flood;
    var t := Flood(c, topic, 33);
    FloodDrops(c, topic, 33);
    NothingDroppedIffNeverFull(t, c);
  }

  // ----- all topics -----

  /** No publish can send on a closed channel: after any interleaving every channel in any topic's subscriber set is
      open. */
  lemma SubscribersAreOpen<C>(t: seq<Action<C>>, topic: string, c: C)
    requires c in Play(Empty(), t).Members(topic)
    ensures var h := Play(Empty(), t);
      c in h.channels && h.channels[c].topic == topic && !h.channels[c].closed
  {
    var h := Play<C>(Empty(), t);
    EmptyIsConsistent<C>();
    PlayKeeps<C>(Empty(), t);
    assert Enrolled(h, topic, c) && WellKept(h, c);
  }

  /** A publish touches no other topic's log, subscribers or channels, and adds exactly one event to its own. */
  lemma PublishIsLocal<C>(h: Hub<C>, a: Action<C>)
    requires Consistent(h) && a.Publish?
    ensures var checked := CheckPublish(a.topic, a.request, a.freshID, a.now);
      if checked.Err? then Act(h, a) == h
      else
        var topic, h' := checked.value.topic, Act(h, a);
        && |h'.Log(topic)| == |h.Log(topic)| + 1
        && h'.subscribers == h.subscribers && h'.channels.Keys == h.channels.Keys
        && (forall other | other != topic :: h'.Log(other) == h.Log(other))
        && (forall c | c in h.channels && h.channels[c].topic != topic :: h'.channels[c] == h.channels[c])
  {
    hide WellKept;
    var checked := CheckPublish(a.topic, a.request, a.freshID, a.now);
    if checked.Ok? {
      assert forall c | c in h.Members(checked.value.topic) :: Enrolled(h, checked.value.topic, c);
    }
  }

  lemma ActGrowsLogs<C>(h: Hub<C>, a: Action<C>, topic: string)
    ensures h.Log(topic) <= Act(h, a).Log(topic)
  {
  }

  /** Logs are append-only, so a subscriber's replay and everything it was sent stay part of the log for ever. */
  lemma {:induction false} LogsAppendOnly<C>(h: Hub<C>, t: seq<Action<C>>, topic: string)
    ensures h.Log(topic) <= Play(h, t).Log(topic)
    decreases t
  {
    hide Act;
    if t != [] {
      ActGrowsLogs(h, t[0], topic);
      LogsAppendOnly(Act(h, t[0]), t[1..], topic);
    }
  }

  // ----- resuming -----

  /** Subscribing with the printed cursor `n` starts the replay at `n`. */
  lemma ResumeStartsAt<C>(h: Hub<C>, c: C, topic: string, n: nat)
    requires c !in h.channels && '.' in topic && n <= |h.Log(topic)| && n <= MAX_INT
    ensures var h' := Act(h, Subscribe(c, topic, Itoa(n)));
      && c in h'.channels && h'.channels[c].topic == topic
      && h'.channels[c].start == n && h'.channels[c].joined == |h.Log(topic)|
  {
    AtoiItoa(n);
  }

  /** A client's reading of a delivery: it takes events while they continue its view without a gap. */
  function Absorb(view: seq<EventMessage>, incoming: seq<EventMessage>): seq<EventMessage>
    decreases incoming
  {
    if incoming != [] && incoming[0].sequence == |view| + 1
    then Absorb(view + [Unmarked(incoming[0])], incoming[1..])
    else view
  }

  /** What a subscription has delivered so far: its replay, then the events received. */
  function Delivered(ch: Chan, log: seq<EventMessage>): seq<EventMessage>
    requires ch.start <= ch.joined <= |log|
  {
    Snapshot(log[..ch.joined], ch.start) + ch.received
  }

  /** Each event is the log's event of that number, up to the replay flag. */
  predicate Genuine(events: seq<EventMessage>, log: seq<EventMessage>) {
    forall i | 0 <= i < |events| ::
      1 <= events[i].sequence <= |log| && Unmarked(events[i]) == log[events[i].sequence - 1]
  }

  lemma {:induction false} AbsorbStaysGenuine(view: seq<EventMessage>, incoming: seq<EventMessage>,
                                              log: seq<EventMessage>)
    requires view <= log && Genuine(incoming, log)
    ensures view <= Absorb(view, incoming) <= log
    decreases incoming
  {
    if incoming != [] && incoming[0].sequence == |view| + 1 {
      assert forall i | 0 <= i < |incoming| - 1 :: incoming[1..][i] == incoming[i + 1];
      AbsorbStaysGenuine(view + [Unmarked(incoming[0])], incoming[1..], log);
    }
  }

  /** A stretch of the log that begins where the view ends is absorbed whole. */
  lemma {:induction false} AbsorbRun(view: seq<EventMessage>, run: seq<EventMessage>, rest: seq<EventMessage>,
                                     log: seq<EventMessage>)
    requires view <= log && |view| + |run| <= |log|
    requires forall i | 0 <= i < |log| :: log[i].sequence == i + 1
    requires forall i | 0 <= i < |run| :: Unmarked(run[i]) == log[|view| + i]
    ensures Absorb(view, run + rest) == Absorb(log[..|view| + |run|], rest)
    decreases run
  {
    if run == [] {
      assert run + rest == rest && log[..|view|] == view;
    } else {
      assert Unmarked(run[0]).sequence == run[0].sequence == |view| + 1;
      assert (run + rest)[0] == run[0] && (run + rest)[1..] == run[1..] + rest;
      AbsorbRun(view + [Unmarked(run[0])], run[1..], rest, log);
    }
  }

  /** The view after reading a number of subscriptions one after the other. */
  function Stitch<C(==)>(h: Hub<C>, cs: seq<C>): seq<EventMessage> {
    if cs == [] then [] else
      var c, view := cs[|cs| - 1], Stitch(h, cs[..|cs| - 1]);
      if c in h.channels && Readable(h.channels[c], h.Log(h.channels[c].topic))
      then Absorb(view, Delivered(h.channels[c], h.Log(h.channels[c].topic)))
      else view
  }

  predicate Readable(ch: Chan, log: seq<EventMessage>) {
    ch.start <= ch.joined <= |log|
  }

  /** Subscriptions to one topic, each resumed at the last contiguous sequence number of those before it. */
  predicate Resumed<C(==)>(h: Hub<C>, topic: string, cs: seq<C>) {
    cs != [] ==>
      var c, before := cs[|cs| - 1], cs[..|cs| - 1];
      && c in h.channels && h.channels[c].topic == topic
      && Resumed(h, topic, before)
      && h.channels[c].start == |Stitch(h, before)|
  }

  lemma ReceivedIsGenuine(ch: Chan, log: seq<EventMessage>, topic: string)
    requires Faithful(ch, log) && Dense(log, topic)
    ensures Genuine(ch.received, log)
  {
    hide Select;
    KeptIsOrderedSelection(ch, log, topic);
    assert forall i | 0 <= i < |ch.received| :: ch.received[i] == ch.Kept()[i];
  }

  /** However many events each session dropped, together they rebuild a prefix of the log, without loss and without
      repetition, that reaches at least to where the last session joined. */
  lemma {:induction false} StitchRebuildsLog<C>(h: Hub<C>, topic: string, cs: seq<C>)
    requires Consistent(h) && Resumed(h, topic, cs)
    ensures Stitch(h, cs) <= h.Log(topic)
    ensures cs != [] ==> |Stitch(h, cs)| >= h.channels[cs[|cs| - 1]].joined
    decreases cs
  {
    hide Consistent, Select, Absorb;
    if cs != [] {
      var c, before := cs[|cs| - 1], cs[..|cs| - 1];
      StitchRebuildsLog(h, topic, before);
      ChannelOf(h, c);
      SessionExtends(h.channels[c], h.Log(topic), topic, Stitch(h, before));
    }
  }

  lemma SessionExtends(ch: Chan, log: seq<EventMessage>, topic: string, view: seq<EventMessage>)
    requires Faithful(ch, log) && Dense(log, topic)
    requires view <= log && ch.start == |view|
    ensures Absorb(view, Delivered(ch, log)) == Absorb(log[..ch.joined], ch.received)
    ensures log[..ch.joined] <= Absorb(log[..ch.joined], ch.received) <= log
  {
    hide Select, Absorb, Genuine;
    var replay := Snapshot(log[..ch.joined], ch.start);
    ReceivedIsGenuine(ch, log, topic);
    AbsorbRun(view, replay, ch.received, log);
    AbsorbStaysGenuine(log[..ch.joined], ch.received, log);
  }

  /** Still subscribed, nothing dropped, nothing left in the buffer. */
  predicate Drained(ch: Chan) {
    !ch.leaving && ch.buffer == [] && forall i | 0 <= i < |ch.fate| :: ch.fate[i]
  }

  /** When the last session is drained, the whole log has been rebuilt. */
  lemma DrainedSessionCompletes<C>(h: Hub<C>, topic: string, cs: seq<C>)
    requires Consistent(h) && Resumed(h, topic, cs) && cs != [] && Drained(h.channels[cs[|cs| - 1]])
    ensures Stitch(h, cs) == h.Log(topic)
  {
    hide Consistent, Absorb, Select;
    var c, before := cs[|cs| - 1], cs[..|cs| - 1];
    StitchRebuildsLog(h, topic, before);
    ChannelOf(h, c);
    var ch, log := h.channels[c], h.Log(topic);
    SessionExtends(ch, log, topic, Stitch(h, before));
    DrainedReads(ch, log, topic);
  }

  lemma AbsorbNothing(view: seq<EventMessage>)
    ensures Absorb(view, []) == view
  {
  }

  lemma DrainedReads(ch: Chan, log: seq<EventMessage>, topic: string)
    requires Faithful(ch, log) && Dense(log, topic) && |ch.fate| == |log| - ch.joined
    requires ch.buffer == [] && forall i | 0 <= i < |ch.fate| :: ch.fate[i]
    ensures Absorb(log[..ch.joined], ch.received) == log
  {
    hide Select, Absorb;
    SelectAll(log[ch.joined..], ch.fate);
    assert log[ch.joined..ch.joined + |ch.fate|] == log[ch.joined..];
    assert ch.received == ch.Kept() == log[ch.joined..];
    AbsorbRun(log[..ch.joined], ch.received, [], log);
    assert ch.received + [] == ch.received && log[..ch.joined + |ch.received|] == log;
    AbsorbNothing(log);
  }

  // ----- a client that resumes, over whole runs -----

  /** The subscription is the same one, and nothing more has been read from it. */
  predicate SameReading(a: Chan, b: Chan) {
    SamePlace(a, b) && b.received == a.received
  }

  predicate SamePlace(a: Chan, b: Chan) {
    b.topic == a.topic && b.start == a.start && b.joined == a.joined
  }

  predicate Unread<C(==)>(t: seq<Action<C>>, c: C) {
    forall i | 0 <= i < |t| :: t[i] != Receive(c)
  }

  lemma ActKeepsReading<C>(h: Hub<C>, a: Action<C>, c: C)
    requires c in h.channels
    ensures var h' := Act(h, a);
      && c in h'.channels && SamePlace(h.channels[c], h'.channels[c])
      && (a != Receive(c) ==> SameReading(h.channels[c], h'.channels[c]))
  {
  }

  lemma {:induction false} PlayKeepsReading<C>(h: Hub<C>, t: seq<Action<C>>, c: C)
    requires c in h.channels
    ensures var h' := Play(h, t);
      && c in h'.channels && SamePlace(h.channels[c], h'.channels[c])
      && (Unread(t, c) ==> SameReading(h.channels[c], h'.channels[c]))
    decreases t
  {
    hide Act;
    if t != [] {
      ActKeepsReading(h, t[0], c);
      PlayKeepsReading(Act(h, t[0]), t[1..], c);
      assert Unread(t, c) ==> t[0] != Receive(c) && Unread(t[1..], c);
    }
  }

  /** What a client has read stays as it is while it reads no more of it, whatever else happens. */
  lemma {:induction false} StitchIsStable<C>(h: Hub<C>, t: seq<Action<C>>, topic: string, cs: seq<C>)
    requires Consistent(h) && Resumed(h, topic, cs) && forall c | c in cs :: Unread(t, c)
    ensures Stitch(Play(h, t), cs) == Stitch(h, cs)
    ensures Resumed(Play(h, t), topic, cs)
    decreases cs
  {
    hide Consistent, Play, Absorb;
    if cs != [] {
      var c, before, h' := cs[|cs| - 1], cs[..|cs| - 1], Play(h, t);
      StitchIsStable(h, t, topic, before);
      assert Unread(t, c);
      PlayKeepsReading(h, t, c);
      LogsAppendOnly(h, t, topic);
      ChannelOf(h, c);
      var ch, ch' := h.channels[c], h'.channels[c];
      assert h'.Log(topic)[..ch.joined] == h.Log(topic)[..ch.joined];
    }
  }

  /** One session of the client: its channel, and everything that happens until the client starts the next one. */
  datatype Visit<C> = Visit(ch: C, during: seq<Action<C>>)

  function Channels<C>(visits: seq<Visit<C>>): (cs: seq<C>)
    ensures |cs| == |visits|
    ensures forall i | 0 <= i < |cs| :: cs[i] == visits[i].ch
  {
    seq(|visits|, i requires 0 <= i < |visits| => visits[i].ch)
  }

  /** The run from boot in which the client starts each session with the printed last contiguous sequence number of what
      it has read so far. */
  function ClientRun<C(==)>(topic: string, before: seq<Action<C>>, visits: seq<Visit<C>>): seq<Action<C>>
    decreases |visits|
  {
    if visits == [] then before else
      var n := |visits| - 1;
      var t := ClientRun(topic, before, visits[..n]);
      var view := Stitch(Play(Empty(), t), Channels(visits[..n]));
      t + ([Subscribe(visits[n].ch, topic, Itoa(|view|))] + visits[n].during)
  }

  /** Each session has a new channel, and once it has begun nothing more is read from the earlier ones. */
  predicate OneAtATime<C(==)>(topic: string, before: seq<Action<C>>, visits: seq<Visit<C>>)
    decreases |visits|
  {
    visits != [] ==>
      var n := |visits| - 1;
      && OneAtATime(topic, before, visits[..n])
      && visits[n].ch !in Play(Empty(), ClientRun(topic, before, visits[..n])).channels
      && forall c | c in Channels(visits[..n]) :: Unread(visits[n].during, c)
  }

  lemma ResumeNext<C>(h: Hub<C>, topic: string, cs: seq<C>, c: C, during: seq<Action<C>>)
    requires Consistent(h) && Resumed(h, topic, cs) && c !in h.channels && '.' in topic
    requires |h.Log(topic)| <= MAX_INT && forall d | d in cs :: Unread(during, d)
    ensures Resumed(Play(h, [Subscribe(c, topic, Itoa(|Stitch(h, cs)|))] + during), topic, cs + [c])
  {
    hide Consistent, Play, Stitch, Act;
    var a := Subscribe(c, topic, Itoa(|Stitch(h, cs)|));
    var h' := Act(h, a);
    StitchRebuildsLog(h, topic, cs);
    ResumeStartsAt(h, c, topic, |Stitch(h, cs)|);
    PlayAppend(h, [a], during);
    PlayOne(h, a);
    PlayKeepsReading(h', during, c);
    forall d | d in cs ensures Unread([a] + during, d) {
      assert Unread(during, d);
    }
    StitchIsStable(h, [a] + during, topic, cs);
    assert (cs + [c])[..|cs|] == cs;
  }

  lemma {:induction false} ClientRunResumes<C>(topic: string, before: seq<Action<C>>, visits: seq<Visit<C>>)
    requires '.' in topic && OneAtATime(topic, before, visits)
    requires |Play(Empty(), ClientRun(topic, before, visits)).Log(topic)| <= MAX_INT
    ensures Resumed(Play(Empty(), ClientRun(topic, before, visits)), topic, Channels(visits))
    ensures Consistent(Play(Empty<C>(), ClientRun(topic, before, visits)))
    decreases |visits|
  {
    hide Consistent, Play, Stitch, Resumed;
    EmptyIsConsistent<C>();
    PlayKeeps(Empty<C>(), ClientRun(topic, before, visits));
    if visits == [] {
      NothingResumed(Play(Empty<C>(), before), topic);
    } else {
      var n := |visits| - 1;
      var front, v := visits[..n], visits[n];
      var t, cs := ClientRun(topic, before, front), Channels(front);
      var h := Play(Empty<C>(), t);
      var rest := [Subscribe(v.ch, topic, Itoa(|Stitch(h, cs)|))] + v.during;
      PlayAppend(Empty<C>(), t, rest);
      LogsAppendOnly(h, rest, topic);
      ClientRunResumes(topic, before, front);
      ResumeNext(h, topic, cs, v.ch, v.during);
      assert Channels(visits) == cs + [v.ch];
    }
  }

  lemma NothingResumed<C>(h: Hub<C>, topic: string)
    ensures Resumed(h, topic, [])
  {
  }

  /** In every run, whatever other clients publish, subscribe, receive and leave in it: a client that resumes any
      number of times at its last contiguous sequence number has rebuilt a prefix of the log, without loss and without
      repetition, that reaches at least to where its last session joined, and the whole log once that session is
      drained. */
  lemma ResumingClientRebuildsLog<C>(topic: string, before: seq<Action<C>>, visits: seq<Visit<C>>)
    requires '.' in topic && OneAtATime(topic, before, visits)
    requires |Play(Empty(), ClientRun(topic, before, visits)).Log(topic)| <= MAX_INT
    ensures var h, cs := Play(Empty(), ClientRun(topic, before, visits)), Channels(visits);
      && Stitch(h, cs) <= h.Log(topic)
      && (visits != [] ==>
        var last := visits[|visits| - 1].ch;
        && last in h.channels && |Stitch(h, cs)| >= h.channels[last].joined
        && (Drained(h.channels[last]) ==> Stitch(h, cs) == h.Log(topic)))
  {
    hide Consistent, Play, Stitch, ClientRun, OneAtATime, Drained;
    ClientRunResumes(topic, before, visits);
    var h, cs := Play(Empty<C>(), ClientRun(topic, before, visits)), Channels(visits);
    StitchRebuildsLog(h, topic, cs);
    if visits != [] && Drained(h.channels[cs[|cs| - 1]]) {
      DrainedSessionCompletes(h, topic, cs);
    }
  }
}
