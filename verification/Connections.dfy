/** The registry of live connections and its filtered, summarised, sorted view. */
module Connections {
  import opened MigTypes
  import opened GoStrings
  import opened Counting
  import opened Sorting

  datatype Connection = Connection(
    id: string,
    protocol: string,
    kind: string,
    tenantID: string,
    actor: string,
    remoteAddr: string,
    startedAt: string,
    meta: map<string, Json>)

  type Table = map<string, Connection>

  predicate KeyedByConnID(t: Table) {
    forall id | id in t :: t[id].id == id
  }

  // ----- runs -----

  /** A registration, or a run of the closure that registration number `reg` of the run handed out. */
  datatype Op = Register(conn: Connection) | Unregister(reg: nat)

  predicate Registers(ops: seq<Op>, i: nat) {
    i < |ops| && ops[i].Register?
  }

  /** The ID that operation `j` writes or deletes: a closure deletes the ID that its registration captured. */
  function Target(ops: seq<Op>, j: nat): Option<string>
    requires j < |ops|
  {
    match ops[j]
    case Register(c) => Some(c.id)
    case Unregister(r) => if r < j && ops[r].Register? then Some(ops[r].conn.id) else None
  }

  /** Which registration sits under which ID after the operations, oldest first. */
  function Slots(ops: seq<Op>): map<string, nat> {
    if ops == [] then map[] else
      var n := |ops| - 1;
      var slots := Slots(ops[..n]);
      match Target(ops, n)
      case None => slots
      case Some(id) => if ops[n].Register? then slots[id := n] else slots - {id}
  }

  lemma {:induction false} SlotsAreRegistrations(ops: seq<Op>)
    ensures forall id | id in Slots(ops) :: Registers(ops, Slots(ops)[id]) && ops[Slots(ops)[id]].conn.id == id
  {
    if ops != [] { SlotsAreRegistrations(ops[..|ops| - 1]); }
  }

  /** The table after the operations. */
  function After(ops: seq<Op>): Table {
    SlotsAreRegistrations(ops);
    map id | id in Slots(ops) :: ops[Slots(ops)[id]].conn
  }

  predicate Present(ops: seq<Op>, i: nat)
    requires Registers(ops, i)
  {
    var id := ops[i].conn.id;
    id in Slots(ops) && Slots(ops)[id] == i
  }

  /** Its own closure has not run. */
  predicate Live(ops: seq<Op>, i: nat)
    requires Registers(ops, i)
  {
    Unregister(i) !in ops[i..]
  }

  /** Operation `j`, of another registration, writes or deletes the ID of registration `i`. */
  predicate Tramples(ops: seq<Op>, j: nat, i: nat)
    requires Registers(ops, i) && j < |ops|
  {
    i < j && ops[j] != Unregister(i) && Target(ops, j) == Some(ops[i].conn.id)
  }

  /** A registration is in the table if and only if it is live and no later operation of another has named its ID. */
  lemma {:induction false} PresentIff(ops: seq<Op>, i: nat)
    requires Registers(ops, i)
    ensures Present(ops, i) <==> Live(ops, i) && forall j | 0 <= j < |ops| :: !Tramples(ops, j, i)
    decreases |ops|
  {
    hide Target;
    var n := |ops| - 1;
    var front := ops[..n];
    assert ops == front + [ops[n]];
    SlotsAreRegistrations(front);
    if i == n {
      OwnSlot(ops);
      assert ops[i..] == [ops[n]];
    } else {
      PresentIff(front, i);
      assert ops[i..] == front[i..] + [ops[n]];
      forall j | 0 <= j < n ensures Tramples(ops, j, i) <==> Tramples(front, j, i) { SameTarget(ops, n, j); }
      LastOp(ops, i);
    }
  }

  lemma SameTarget(ops: seq<Op>, n: nat, j: nat)
    requires j < n <= |ops|
    ensures Target(ops[..n], j) == Target(ops, j)
  {
  }

  lemma OwnSlot(ops: seq<Op>)
    requires ops != [] && ops[|ops| - 1].Register?
    ensures Present(ops, |ops| - 1)
  {
  }

  /** What the last operation does to an earlier registration. */
  lemma LastOp(ops: seq<Op>, i: nat)
    requires ops != [] && i < |ops| - 1 && ops[i].Register?
    ensures var n := |ops| - 1;
      Present(ops, i) <==> Present(ops[..n], i) && ops[n] != Unregister(i) && !Tramples(ops, n, i)
  {
  }

  /** The table holds exactly the live registrations. */
  predicate Exact(ops: seq<Op>) {
    forall i | 0 <= i < |ops| && ops[i].Register? :: Present(ops, i) <==> Live(ops, i)
  }

  /** After a run the table holds exactly the live registrations if and only if no live one was trampled. */
  lemma ExactIff(ops: seq<Op>)
    ensures Exact(ops) <==>
      forall i, j | 0 <= i < j < |ops| && ops[i].Register? && Live(ops, i) :: !Tramples(ops, j, i)
  {
    hide Present, Live, Tramples, Slots;
    forall i | 0 <= i < |ops| && ops[i].Register?
      ensures Present(ops, i) <==> Live(ops, i) && forall j | i < j < |ops| :: !Tramples(ops, j, i)
    {
      PresentIff(ops, i);
      OnlyLaterTramples(ops, i);
    }
  }

  lemma OnlyLaterTramples(ops: seq<Op>, i: nat)
    requires Registers(ops, i)
    ensures forall j | 0 <= j <= i :: !Tramples(ops, j, i)
  {
  }

  /** Operation `j` names the ID of another registration that is live at that moment. */
  predicate Careless(ops: seq<Op>, j: nat)
    requires j < |ops|
  {
    exists i | 0 <= i < j :: ops[i].Register? && Live(ops[..j], i) && Tramples(ops, j, i)
  }

  /** The table is exact at every moment of a run if and only if no operation names the ID of another registration
      that is live when it is made: no ID is reused before its closure has run, and no closure runs again after a
      reuse. */
  lemma AlwaysExactIff(ops: seq<Op>)
    ensures (forall n | 0 <= n <= |ops| :: Exact(ops[..n])) <==> forall j | 0 <= j < |ops| :: !Careless(ops, j)
  {
    hide Exact;
    if forall n | 0 <= n <= |ops| :: Exact(ops[..n]) {
      forall j | 0 <= j < |ops| ensures !Careless(ops, j) {
        assert Exact(ops[..j + 1]);
        ExactMeansCareful(ops, j);
      }
    } else {
      var n :| 0 <= n <= |ops| && !Exact(ops[..n]);
      var j := InexactMeansCareless(ops, n);
    }
  }

  lemma ExactMeansCareful(ops: seq<Op>, j: nat)
    requires j < |ops| && Exact(ops[..j + 1])
    ensures !Careless(ops, j)
  {
    hide Exact, Target, Slots;
    var upto := ops[..j + 1];
    ExactIff(upto);
    SameTarget(ops, j + 1, j);
    forall i | 0 <= i < j && ops[i].Register? && Live(ops[..j], i) ensures !Tramples(ops, j, i) {
      assert upto[i..] == ops[..j][i..] + [ops[j]];
      assert Tramples(upto, j, i) <==> Tramples(ops, j, i);
      assert ops[j] == Unregister(i) || Live(upto, i);
    }
  }

  lemma InexactMeansCareless(ops: seq<Op>, n: nat) returns (j: nat)
    requires n <= |ops| && !Exact(ops[..n])
    ensures j < |ops| && Careless(ops, j)
  {
    hide Exact, Target, Slots;
    var upto := ops[..n];
    ExactIff(upto);
    var i, k :| 0 <= i < k < n && upto[i].Register? && Live(upto, i) && Tramples(upto, k, i);
    j := k;
    SameTarget(ops, n, k);
    assert upto[i..] == ops[..k][i..] + ops[k..n];
    assert Live(ops[..k], i) && Tramples(ops, k, i);
  }

  predicate DistinctIDs(ops: seq<Op>) {
    forall i, j | 0 <= i < j < |ops| :: ops[i].Register? && ops[j].Register? ==> ops[i].conn.id != ops[j].conn.id
  }

  /** With distinct IDs, as generated ones are, nothing is ever trampled, however often closures run. */
  lemma DistinctIDsAreExact(ops: seq<Op>)
    requires DistinctIDs(ops)
    ensures forall n | 0 <= n <= |ops| :: Exact(ops[..n])
  {
    hide Exact, Live;
    AlwaysExactIff(ops);
    forall j | 0 <= j < |ops| ensures !Careless(ops, j) {
      forall i | 0 <= i < j && ops[i].Register? ensures !Tramples(ops, j, i) {
        if ops[j].Unregister? && ops[j].reg < j && ops[j].reg != i {
          var r := ops[j].reg;
          assert ops[r].Register? ==> ops[r].conn.id != ops[i].conn.id;
        }
      }
    }
  }

  /** Closing an old connection removes a live one that reuses its ID. */
  lemma ReusedIDIsRemoved(a: Connection, b: Connection)
    requires a.id == b.id
    ensures var ops := [Register(a), Register(b), Unregister(0)];
      Live(ops, 1) && !Present(ops, 1) && b.id !in After(ops)
  {
    var ops := [Register(a), Register(b), Unregister(0)];
    assert ops[..2] == [Register(a), Register(b)] && ops[1..] == [Register(b), Unregister(0)];
    assert Slots(ops) == Slots(ops[..2]) - {a.id};
  }

  // ----- the view -----

  datatype Filters = Filters(tenantID: string, kind: string, protocol: string)

  predicate Wanted(c: Connection, f: Filters) {
    && (f.tenantID == "" || c.tenantID == f.tenantID)
    && (f.kind == "" || c.kind == f.kind)
    && (f.protocol == "" || c.protocol == f.protocol)
  }

  function Cleaned(f: Filters): Filters {
    Filters(TrimSpace(f.tenantID), TrimSpace(f.kind), TrimSpace(f.protocol))
  }

  function Newest(): (Connection, Connection) -> bool {
    (a: Connection, b: Connection) => Less(b.startedAt, a.startedAt)
  }

  lemma NewestIsOrder()
    ensures StrictWeakOrder(Newest())
  {
    forall x: Connection ensures !Less(x.startedAt, x.startedAt) { LessIrreflexive(x.startedAt); }
    forall x: Connection, y: Connection, z: Connection
      | Less(y.startedAt, x.startedAt) && Less(z.startedAt, y.startedAt)
      ensures Less(z.startedAt, x.startedAt)
    {
      LessTransitive(z.startedAt, y.startedAt, x.startedAt);
    }
    forall x: Connection, y: Connection, z: Connection | Less(z.startedAt, x.startedAt)
      ensures Less(y.startedAt, x.startedAt) || Less(z.startedAt, y.startedAt)
    {
      LessTotal(z.startedAt, y.startedAt);
      if Less(y.startedAt, z.startedAt) { LessTransitive(y.startedAt, z.startedAt, x.startedAt); }
    }
  }

  function Having(t: Table, ids: set<string>, p: Connection -> bool): set<string>
    requires ids <= t.Keys
  {
    set id | id in ids && p(t[id])
  }

  function Is(field: Connection -> string, v: string): Connection -> bool {
    (c: Connection) => field(c) == v
  }

  function Filled(field: Connection -> string): Connection -> bool {
    (c: Connection) => field(c) != ""
  }

  /** A breakdown of the connections `ids` by a field: each nonempty value with its number, summing to the connections
      whose field is not empty. */
  ghost predicate Breakdown(m: map<string, int>, t: Table, ids: set<string>, field: Connection -> string)
    requires ids <= t.Keys
  {
    && "" !in m
    && (forall v | v != "" :: Get(m, v) == |Having(t, ids, Is(field, v))|)
    && Sum(m) == |Having(t, ids, Filled(field))|
  }

  function Bump(m: map<string, int>, v: string): map<string, int> {
    if v != "" then Increment(m, v) else m
  }

  lemma HavingStep(t: Table, ids: set<string>, id: string, p: Connection -> bool)
    requires id in t && id !in ids && ids <= t.Keys
    ensures |Having(t, ids + {id}, p)| == |Having(t, ids, p)| + if p(t[id]) then 1 else 0
  {
    if p(t[id]) {
      assert Having(t, ids + {id}, p) == Having(t, ids, p) + {id};
    } else {
      assert Having(t, ids + {id}, p) == Having(t, ids, p);
    }
  }

  lemma BumpKeepsBreakdown(m: map<string, int>, t: Table, ids: set<string>, id: string, field: Connection -> string)
    requires id in t && id !in ids && ids <= t.Keys && Breakdown(m, t, ids, field)
    ensures Breakdown(Bump(m, field(t[id])), t, ids + {id}, field)
  {
    hide Sum, Having;
    var v := field(t[id]);
    forall w ensures |Having(t, ids + {id}, Is(field, w))| == |Having(t, ids, Is(field, w))| + if v == w then 1 else 0 {
      HavingStep(t, ids, id, Is(field, w));
    }
    HavingStep(t, ids, id, Filled(field));
    if v != "" { SumIncrement(m, v); }
  }

  lemma NoBreakdown(t: Table, field: Connection -> string)
    ensures Breakdown(map[], t, {}, field)
  {
    assert Having(t, {}, Filled(field)) == {};
    forall v ensures Having(t, {}, Is(field, v)) == {} {}
  }

  function ProtocolOf(): Connection -> string { (c: Connection) => c.protocol }

  function KindOf(): Connection -> string { (c: Connection) => c.kind }

  function TenantOf(): Connection -> string { (c: Connection) => c.tenantID }

  function WantedIDs(t: Table, f: Filters): set<string> {
    set id | id in t && Wanted(t[id], f)
  }

  datatype Summary = Summary(
    total: int,
    byProtocol: map<string, int>,
    byKind: map<string, int>,
    byTenant: map<string, int>)

  ghost predicate Summarises(s: Summary, t: Table, ids: set<string>)
    requires ids <= t.Keys
  {
    && s.total == |ids|
    && Breakdown(s.byProtocol, t, ids, ProtocolOf())
    && Breakdown(s.byKind, t, ids, KindOf())
    && Breakdown(s.byTenant, t, ids, TenantOf())
  }

  /** The list holds exactly the connections `ids`, each once. */
  ghost predicate Enumerates(list: seq<Connection>, t: Table, ids: set<string>)
    requires ids <= t.Keys
  {
    && |list| == |ids|
    && (forall c :: c in list <==> c.id in ids && t[c.id] == c)
  }

  lemma SummaryStep(s: Summary, t: Table, ids: set<string>, id: string)
    requires ids <= t.Keys && id in t && id !in ids && Summarises(s, t, ids)
    ensures var c := t[id];
      var s' := Summary(s.total + 1, Bump(s.byProtocol, c.protocol), Bump(s.byKind, c.kind),
        Bump(s.byTenant, c.tenantID));
      Summarises(s', t, ids + {id})
  {
    hide Breakdown, Bump;
    BumpKeepsBreakdown(s.byProtocol, t, ids, id, ProtocolOf());
    BumpKeepsBreakdown(s.byKind, t, ids, id, KindOf());
    BumpKeepsBreakdown(s.byTenant, t, ids, id, TenantOf());
  }

  /** Totals and breakdowns by protocol, kind and tenant of the connections with the IDs `shown`: how many have each
      nonempty value, and in all those that have one. */
  ghost predicate Tallies(s: Summary, t: Table, shown: set<string>)
    requires shown <= t.Keys
  {
    && s.total == |shown|
    && Tally(s.byProtocol, map id | id in shown :: t[id].protocol)
    && Tally(s.byKind, map id | id in shown :: t[id].kind)
    && Tally(s.byTenant, map id | id in shown :: t[id].tenantID)
  }

  /** How often each nonempty value occurs, and all of them together. */
  ghost predicate Tally(m: map<string, int>, values: map<string, string>) {
    && "" !in m
    && (forall v | v != "" :: Get(m, v) == |set id | id in values && values[id] == v|)
    && Sum(m) == |set id | id in values && values[id] != ""|
  }

  lemma BreakdownIsTally(m: map<string, int>, t: Table, shown: set<string>, field: Connection -> string)
    requires shown <= t.Keys && Breakdown(m, t, shown, field)
    ensures Tally(m, map id | id in shown :: field(t[id]))
  {
    hide Sum;
    var values := map id | id in shown :: field(t[id]);
    forall v ensures Having(t, shown, Is(field, v)) == set id | id in values && values[id] == v {}
    assert Having(t, shown, Filled(field)) == set id | id in values && values[id] != "";
  }

  lemma SummaryTallies(s: Summary, t: Table, shown: set<string>)
    requires shown <= t.Keys && Summarises(s, t, shown)
    ensures Tallies(s, t, shown)
  {
    hide Breakdown, Tally;
    BreakdownIsTally(s.byProtocol, t, shown, ProtocolOf());
    BreakdownIsTally(s.byKind, t, shown, KindOf());
    BreakdownIsTally(s.byTenant, t, shown, TenantOf());
    assert (map id | id in shown :: ProtocolOf()(t[id])) == map id | id in shown :: t[id].protocol;
    assert (map id | id in shown :: KindOf()(t[id])) == map id | id in shown :: t[id].kind;
    assert (map id | id in shown :: TenantOf()(t[id])) == map id | id in shown :: t[id].tenantID;
  }

  /** The connection passes the filters: each one that is not blank is, once trimmed, the value of its field. */
  predicate Passes(c: Connection, filters: Filters) {
    && TrimSpace(filters.tenantID) in ["", c.tenantID]
    && TrimSpace(filters.kind) in ["", c.kind]
    && TrimSpace(filters.protocol) in ["", c.protocol]
  }

  /** The IDs of the connections that pass. */
  function Shown(t: Table, filters: Filters): set<string> {
    set id | id in t && Passes(t[id], filters)
  }

  lemma ShownAreWanted(t: Table, filters: Filters)
    ensures WantedIDs(t, Cleaned(filters)) == Shown(t, filters)
  {
    hide TrimSpace;
  }

  /** Newest first: no entry started before one that comes after it. */
  ghost predicate NewestFirst(list: seq<Connection>) {
    forall i, j | 0 <= i < j < |list| :: !Precedes(list[i].startedAt, list[j].startedAt)
  }

  lemma SortedIsNewestFirst(list: seq<Connection>)
    requires Sorted(list, Newest())
    ensures NewestFirst(list)
  {
    hide Less, Precedes;
    forall i, j | 0 <= i < j < |list| ensures !Precedes(list[i].startedAt, list[j].startedAt) {
      LessIff(list[i].startedAt, list[j].startedAt);
      assert !Newest()(list[j], list[i]);
    }
  }

  /** The answer of the connections endpoint. */
  datatype ConnectionsResponse = ConnectionsResponse(
    generatedAt: string,
    summary: Summary,
    natsBindingActive: bool,
    connections: seq<Connection>,
    filters: Filters)

  class Registry {
    var connections: Table
    /** A NATS binding is running. */
    var natsBinding: bool
    ghost var ops: seq<Op>

    ghost predicate Valid()
      reads this
    {
      connections == After(ops)
    }

    constructor (natsBinding: bool)
      ensures Valid() && connections == map[] && ops == []
    {
      connections, ops := map[], [];
      this.natsBinding := natsBinding;
    }

    /** Fills in ID and start time, stores, and returns the ID that the unregister closure captures. */
    method RegisterConnection(conn: Connection, freshID: FreshId, now: string) returns (id: string, ghost reg: nat)
      requires Valid()
      modifies this`connections, this`ops
      ensures Valid()
      ensures id == (if conn.id == "" then freshID else conn.id) && id != ""
      ensures reg == |old(ops)|
      ensures ops == old(ops) + [
        Register(conn.(id := id, startedAt := if conn.startedAt == "" then now else conn.startedAt))]
    {
      var c := conn;
      if c.id == "" {
        c := c.(id := freshID);
      }
      if c.startedAt == "" {
        c := c.(startedAt := now);
      }
      AfterSnoc(ops, Register(c));
      connections := connections[c.id := c];
      id, reg := c.id, |ops|;
      ops := ops + [Register(c)];
    }

    /** The closure of registration `reg`, which captured `id`. It may run more than once. */
    method UnregisterConnection(id: string, ghost reg: nat)
      requires Valid() && reg < |ops| && ops[reg].Register? && ops[reg].conn.id == id
      modifies this`connections, this`ops
      ensures Valid() && ops == old(ops) + [Unregister(reg)]
      ensures id !in connections
    {
      AfterSnoc(ops, Unregister(reg));
      connections := connections - {id};
      ops := ops + [Unregister(reg)];
    }

    /** Whatever order the map is visited in: the matching connections, each once, newest first, with exact totals. */
    method List(filters: Filters, now: string) returns (r: ConnectionsResponse)
      requires Valid()
      ensures Sorted(r.connections, Newest())
      ensures Enumerates(r.connections, connections, WantedIDs(connections, Cleaned(filters)))
      ensures Summarises(r.summary, connections, WantedIDs(connections, Cleaned(filters)))
      ensures r.filters == Cleaned(filters) && r.natsBindingActive == natsBinding && r.generatedAt == now
      ensures NewestFirst(r.connections)
      ensures Enumerates(r.connections, connections, Shown(connections, filters))
      ensures Tallies(r.summary, connections, Shown(connections, filters))
      ensures r.filters ==
        Filters(TrimSpace(filters.tenantID), TrimSpace(filters.kind), TrimSpace(filters.protocol))
    {
      hide Summarises, Tallies, TrimSpace, Enumerates, Sorted, Shown, NewestFirst, Slots;
      SlotsAreRegistrations(ops);
      var f := Filters(TrimSpace(filters.tenantID), TrimSpace(filters.kind), TrimSpace(filters.protocol));
      var found, summary := Collect(f);
      NewestIsOrder();
      var list := SortBy(found, Newest());
      SamePopulation(found, list, connections, WantedIDs(connections, f));
      ShownAreWanted(connections, filters);
      SummaryTallies(summary, connections, Shown(connections, filters));
      SortedIsNewestFirst(list);
      r := ConnectionsResponse(now, summary, natsBinding, list, f);
    }

    method Collect(f: Filters) returns (found: seq<Connection>, summary: Summary)
      requires KeyedByConnID(connections)
      ensures Enumerates(found, connections, WantedIDs(connections, f))
      ensures Summarises(summary, connections, WantedIDs(connections, f))
    {
      hide Summarises, Enumerates;
      NothingSummarised(connections);
      found, summary := [], Summary(0, map[], map[], map[]);
      var todo := connections.Keys;
      ghost var taken: set<string> := {};
      while todo != {}
        invariant todo <= connections.Keys
        invariant taken == WantedIDs(connections, f) - todo
        invariant Enumerates(found, connections, taken)
        invariant Summarises(summary, connections, taken)
        decreases |todo|
      {
        var id :| id in todo;
        var c := connections[id];
        if Wanted(c, f) {
          OneMore(found, connections, taken, id);
          found := found + [c];
          SummaryStep(summary, connections, taken, id);
          summary := Summary(summary.total + 1, Bump(summary.byProtocol, c.protocol), Bump(summary.byKind, c.kind),
            Bump(summary.byTenant, c.tenantID));
          taken := taken + {id};
        }
        todo := todo - {id};
      }
      assert taken == WantedIDs(connections, f);
    }
  }

  lemma AfterSnoc(ops: seq<Op>, op: Op)
    ensures var all := ops + [op];
      After(all) == match Target(all, |ops|)
        case None => After(ops)
        case Some(id) => if op.Register? then After(ops)[id := op.conn] else After(ops) - {id}
  {
    hide Target;
    var all := ops + [op];
    assert all[..|ops|] == ops;
    SlotsAreRegistrations(ops);
    SlotsAreRegistrations(all);
  }

  lemma OneMore(list: seq<Connection>, t: Table, ids: set<string>, id: string)
    requires ids <= t.Keys && KeyedByConnID(t) && id in t && id !in ids && Enumerates(list, t, ids)
    ensures Enumerates(list + [t[id]], t, ids + {id})
  {
  }

  lemma NothingSummarised(t: Table)
    ensures Summarises(Summary(0, map[], map[], map[]), t, {}) && Enumerates([], t, {})
  {
    NoBreakdown(t, ProtocolOf());
    NoBreakdown(t, KindOf());
    NoBreakdown(t, TenantOf());
  }

  lemma SamePopulation(found: seq<Connection>, list: seq<Connection>, t: Table, ids: set<string>)
    requires ids <= t.Keys && Enumerates(found, t, ids) && multiset(list) == multiset(found)
    ensures Enumerates(list, t, ids)
  {
    assert |list| == |multiset(list)| == |multiset(found)| == |found|;
    forall c ensures c in list <==> c in found {
      assert c in list <==> c in multiset(list);
      assert c in found <==> c in multiset(found);
    }
  }
}
