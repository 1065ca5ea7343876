/** The traffic ledger as a state machine. Every Redis command, every `TxPipeline` Exec and every
    SQL statement is one atomic step; requests, one flusher, the read-then-save windows of node
    rows, and the creation and deletion of users and nodes interleave freely. */
module Ledger {
  import opened Text
  import opened RedisKeys

  // ---------------------------------------------------------------- state

  datatype User = User(used: int, requests: int, quota: int, enabled: bool, expiredAt: Option<int>)

  /** The traffic columns of a node row. */
  datatype Node = Node(upload: int, download: int, requests: int) {
    function Get(d: Direction): int {
      match d
      case Upload => upload
      case Download => download
      case Requests => requests
    }
  }

  /** What one flush iteration works on. */
  datatype Target = OfUser(uid: string) | OfNode(id: nat) {
    function Owner(): string {
      match this
      case OfUser(uid) => uid
      case OfNode(id) => NodeOwner(id)
    }
  }

  /** The program counter of the flusher inside one iteration, with the values read so far. */
  datatype Flusher =
    | Idle
    | GotUpload(target: Target, up: int)
    | GotDownload(target: Target, up: int, down: int)
    | GotRequests(target: Target, up: int, down: int, reqs: int)
    | Stored(target: Target, up: int, down: int, reqs: int)
    | Recounted(target: Target, up: int, down: int, reqs: int, again: int)
  {
    /** The next command is the pipeline of DecrBy that takes the stored amounts out of Redis. */
    predicate Draining() {
      Recounted? || (Stored? && target.OfNode?)
    }

    function DrainedRequests(): int
      requires Draining()
    {
      if Recounted? then again else reqs
    }
  }

  /** A node row read by a check or an admin handler that will save the whole row back. */
  datatype Window = Window(node: nat, row: Node)

  /** A Redis number: a usage counter by owner and direction, the score of a region in
      `traffic:region`, or the counter of an hour. `UsageKey` and `NodeUsageKey` give every
      owner and direction a key of its own (RedisKeys.UsageKeyInjective, RedisKeys.NodeKeyIsUsageKey). */
  datatype Counter =
    | Usage(owner: string, d: Direction)
    | Region(member: string)
    | Hour(hour: nat)

  datatype State = State(
    counters: map<Counter, int>,
    users: map<string, User>,
    nodes: map<nat, Node>,
    flusher: Flusher,
    windows: map<nat, Window>)

  datatype TrafficRecord =
    TrafficRecord(uid: Uid, node: nat, region: string, upload: nat, download: nat, requests: int, hour: nat)

  datatype Step =
    | Record(record: TrafficRecord)
    | Begin(target: Target)
    | Advance
    | Abandon
    | Load(window: nat, id: nat)
    | Save(window: nat)
    | CreateUser(uid: string, quota: nat, enabled: bool, expiredAt: Option<int>)
    | DeleteUser(uid: string)
    | CreateNode(id: nat)
    | DeleteNode(id: nat)
    | ClearCounters(owner: string)

  function Value(counters: map<Counter, int>, key: Counter): int {
    if key in counters then counters[key] else 0
  }

  function IncrBy(counters: map<Counter, int>, key: Counter, n: int): map<Counter, int> {
    counters[key := Value(counters, key) + n]
  }

  function Pending(s: State, owner: string, d: Direction): int {
    Value(s.counters, Usage(owner, d))
  }

  // ---------------------------------------------------------------- steps

  function RegionMember(region: string): string {
    if region == "" then "__unknown__" else region
  }

  /** `maxInt64(record.Requests, 1)` */
  function RequestUnits(requests: int): nat {
    if requests <= 0 then 1 else requests
  }

  function Amount(r: TrafficRecord, d: Direction): nat {
    match d
    case Upload => r.upload
    case Download => r.download
    case Requests => RequestUnits(r.requests)
  }

  /** Three IncrBy commands on the counters of one owner. */
  function AddAll(c: map<Counter, int>, owner: string, up: int, down: int, reqs: int): map<Counter, int> {
    IncrBy(IncrBy(IncrBy(c, Usage(owner, Upload), up), Usage(owner, Download), down),
           Usage(owner, Requests), reqs)
  }

  function ChargeUser(c: map<Counter, int>, r: TrafficRecord): map<Counter, int> {
    AddAll(c, r.uid, r.upload, r.download, RequestUnits(r.requests))
  }

  function ChargeNode(c: map<Counter, int>, r: TrafficRecord): map<Counter, int> {
    if r.node > 0 then AddAll(c, NodeOwner(r.node), r.upload, r.download, RequestUnits(r.requests)) else c
  }

  function ChargeTotals(c: map<Counter, int>, r: TrafficRecord): map<Counter, int> {
    IncrBy(IncrBy(c, Region(RegionMember(r.region)), r.upload + r.download), Hour(r.hour), r.upload + r.download)
  }

  /** The pipeline of one traffic record. */
  function Recorded(s: State, r: TrafficRecord): State {
    s.(counters := ChargeTotals(ChargeNode(ChargeUser(s.counters, r), r), r))
  }

  /** `UPDATE users SET used_bytes = used_bytes + ?, ... WHERE uid = ?`: no row, no effect. */
  function StoreUser(users: map<string, User>, uid: string, bytes: int, reqs: int): map<string, User> {
    if uid in users
    then users[uid := users[uid].(used := users[uid].used + bytes, requests := users[uid].requests + reqs)]
    else users
  }

  function StoreNode(nodes: map<nat, Node>, id: nat, up: int, down: int, reqs: int): map<nat, Node> {
    if id in nodes
    then nodes[id := Node(nodes[id].upload + up, nodes[id].download + down, nodes[id].requests + reqs)]
    else nodes
  }

  /** The next command of the running flush iteration. Users are read twice for requests, once
      before and once after the SQL update; nodes are read once. */
  function Advanced(s: State): State {
    var f := s.flusher;
    if f.Draining() then
      s.(counters := AddAll(s.counters, f.target.Owner(), -f.up, -f.down, -f.DrainedRequests()), flusher := Idle)
    else match f
    case Idle => s
    case GotUpload(t, up) =>
      s.(flusher := GotDownload(t, up, Pending(s, t.Owner(), Download)))
    case GotDownload(t, up, down) =>
      if t.OfUser? && up + down == 0 then s.(flusher := Idle)
      else s.(flusher := GotRequests(t, up, down, Pending(s, t.Owner(), Requests)))
    case GotRequests(t, up, down, reqs) => (
      match t
      case OfUser(uid) =>
        s.(users := StoreUser(s.users, uid, up + down, reqs), flusher := Stored(t, up, down, reqs))
      case OfNode(id) =>
        if up == 0 && down == 0 && reqs == 0 then s.(flusher := Idle)
        else s.(nodes := StoreNode(s.nodes, id, up, down, reqs), flusher := Stored(t, up, down, reqs)))
    case Stored(t, up, down, reqs) =>
      s.(flusher := Recounted(t, up, down, reqs, Pending(s, t.Owner(), Requests)))
  }

  function Without(c: map<Counter, int>, owner: string): map<Counter, int> {
    c - {Usage(owner, Upload), Usage(owner, Download), Usage(owner, Requests)}
  }

  /** One atomic step; a step that is not enabled changes nothing. */
  function Next(s: State, step: Step): State {
    match step
    case Record(r) => Recorded(s, r)
    case Begin(t) =>
      if s.flusher.Idle? && !(t.OfUser? && Skipped(t.uid))
      then s.(flusher := GotUpload(t, Pending(s, t.Owner(), Upload)))
      else s
    case Advance => Advanced(s)
    case Abandon => s.(flusher := Idle)
    case Load(w, id) =>
      if id in s.nodes && w !in s.windows then s.(windows := s.windows[w := Window(id, s.nodes[id])]) else s
    case Save(w) =>
      if w in s.windows
      then s.(nodes := s.nodes[s.windows[w].node := s.windows[w].row], windows := s.windows - {w})
      else s
    case CreateUser(uid, quota, enabled, expiredAt) =>
      if uid in s.users then s else s.(users := s.users[uid := User(0, 0, quota, enabled, expiredAt)])
    case DeleteUser(uid) => s.(users := s.users - {uid})
    case CreateNode(id) => if id in s.nodes then s else s.(nodes := s.nodes[id := Node(0, 0, 0)])
    case DeleteNode(id) => s.(nodes := s.nodes - {id})
    case ClearCounters(owner) => s.(counters := Without(s.counters, owner))
  }

  function Run(s: State, steps: seq<Step>): State {
    if steps == [] then s else Next(Run(s, Front(steps)), Last(steps))
  }

  lemma {:induction false} RunAppend(s: State, a: seq<Step>, b: seq<Step>)
    ensures Run(s, a + b) == Run(Run(s, a), b)
    decreases |b|
  {
    if b == [] {
      assert a + b == a;
    } else {
      assert Front(a + b) == a + Front(b) && Last(a + b) == Last(b);
      RunAppend(s, a, Front(b));
    }
  }

  lemma RunSnoc(s: State, steps: seq<Step>, step: Step)
    ensures Run(s, steps + [step]) == Next(Run(s, steps), step)
  {
    assert Front(steps + [step]) == steps;
  }

  /** A run of a step followed by advances of the flusher, one state at a time. */
  lemma RunAdvances(s: State, step: Step, n: nat)
    ensures Run(s, [step] + Advances(n)) == AdvancedBy(Next(s, step), n)
  {
    if n == 0 {
      assert [step] + Advances(0) == [] + [step];
      RunSnoc(s, [], step);
    } else {
      RunAdvances(s, step, n - 1);
      assert [step] + Advances(n) == [step] + Advances(n - 1) + [Advance];
      RunSnoc(s, [step] + Advances(n - 1), Advance);
    }
  }

  function Advances(n: nat): seq<Step> {
    if n == 0 then [] else Advances(n - 1) + [Advance]
  }

  function AdvancedBy(s: State, n: nat): State {
    if n == 0 then s else Advanced(AdvancedBy(s, n - 1))
  }

  function Iterate(f: State -> State, s: State, n: nat): State {
    if n == 0 then s else f(Iterate(f, s, n - 1))
  }

  lemma {:induction false} IteratePlus(f: State -> State, s: State, m: nat, n: nat)
    ensures Iterate(f, s, m + n) == Iterate(f, Iterate(f, s, m), n)
  {
    if n > 0 { IteratePlus(f, s, m, n - 1); }
  }

  lemma {:induction false} AdvancedByIterates(s: State, n: nat, f: State -> State)
    requires forall x :: f(x) == Advanced(x)
    ensures AdvancedBy(s, n) == Iterate(f, s, n)
  {
    if n > 0 { AdvancedByIterates(s, n - 1, f); }
  }

  lemma {:induction false} IterateFirst(f: State -> State, s: State, n: nat)
    ensures Iterate(f, s, n + 1) == Iterate(f, f(s), n)
  {
    if n > 0 { IterateFirst(f, s, n - 1); }
  }

  lemma AdvancedFirst(s: State, s1: State, n: nat)
    requires s1 == Advanced(s)
    ensures AdvancedBy(s, n + 1) == AdvancedBy(s1, n)
  {
    AdvancedByIterates(s, n + 1, Advanced);
    AdvancedByIterates(s1, n, Advanced);
    IterateFirst(Advanced, s, n);
  }

  lemma AdvancedPlus(s: State, m: nat, n: nat)
    ensures AdvancedBy(s, m + n) == AdvancedBy(AdvancedBy(s, m), n)
  {
    AdvancedByIterates(s, m, Advanced);
    AdvancedByIterates(s, m + n, Advanced);
    AdvancedByIterates(AdvancedBy(s, m), n, Advanced);
    IteratePlus(Advanced, s, m, n);
  }

  // ---------------------------------------------------------------- effects on one owner

  function Pick(d: Direction, up: int, down: int, reqs: int): int {
    match d
    case Upload => up
    case Download => down
    case Requests => reqs
  }

  lemma AddAllEffect(c: map<Counter, int>, owner: string, up: int, down: int, reqs: int, o: string, d: Direction)
    ensures Value(AddAll(c, owner, up, down, reqs), Usage(o, d))
         == Value(c, Usage(o, d)) + if o == owner then Pick(d, up, down, reqs) else 0
  {
  }

  /** What a record adds to the counters of an owner: once as the user, once as the node. */
  function Charge(r: TrafficRecord, o: string, d: Direction): nat {
    (if o == r.uid then Amount(r, d) else 0)
    + (if r.node > 0 && o == NodeOwner(r.node) then Amount(r, d) else 0)
  }

  lemma RecordEffect(s: State, r: TrafficRecord, o: string, d: Direction)
    ensures Pending(Recorded(s, r), o, d) == Pending(s, o, d) + Charge(r, o, d)
  {
    var u := RequestUnits(r.requests);
    AddAllEffect(s.counters, r.uid, r.upload, r.download, u, o, d);
    AddAllEffect(ChargeUser(s.counters, r), NodeOwner(r.node), r.upload, r.download, u, o, d);
  }

  /** The same by the fields of the record: bytes as they are, and at least one request; nothing to anybody
      but the user and a node with an id. */
  lemma RecordCounters(s: State, r: TrafficRecord, o: string)
    ensures var t := Recorded(s, r);
         if o == r.uid || (r.node > 0 && o == NodeOwner(r.node)) then
           && Pending(t, o, Upload) == Pending(s, o, Upload) + r.upload
           && Pending(t, o, Download) == Pending(s, o, Download) + r.download
           && Pending(t, o, Requests) == Pending(s, o, Requests) + (if r.requests < 1 then 1 else r.requests)
         else forall d :: Pending(t, o, d) == Pending(s, o, d)
    ensures var t := Recorded(s, r); t == s.(counters := t.counters)
  {
    SpellsNoNode(r.uid);
    assert r.uid != NodeOwner(r.node);
    forall d
      ensures Pending(Recorded(s, r), o, d) == Pending(s, o, d) + Charge(r, o, d)
    {
      RecordEffect(s, r, o, d);
    }
  }

  lemma WithoutEffect(c: map<Counter, int>, owner: string, o: string, d: Direction)
    ensures Value(Without(c, owner), Usage(o, d)) == if o == owner then 0 else Value(c, Usage(o, d))
  {
  }

  /** The amount the flusher takes out of the counters of an owner in its next command. */
  function Drained(s: State, o: string, d: Direction): int {
    var f := s.flusher;
    if f.Draining() && f.target.Owner() == o then Pick(d, f.up, f.down, f.DrainedRequests()) else 0
  }

  lemma PickNegates(d: Direction, up: int, down: int, reqs: int)
    ensures Pick(d, -up, -down, -reqs) == -Pick(d, up, down, reqs)
  {
  }

  lemma AdvanceEffect(s: State, o: string, d: Direction)
    ensures Pending(Advanced(s), o, d) == Pending(s, o, d) - Drained(s, o, d)
  {
    var f := s.flusher;
    if f.Draining() {
      var owner, reqs := f.target.Owner(), f.DrainedRequests();
      AddAllEffect(s.counters, owner, -f.up, -f.down, -reqs, o, d);
      PickNegates(d, f.up, f.down, reqs);
      assert Advanced(s).counters == AddAll(s.counters, owner, -f.up, -f.down, -reqs);
    } else {
      assert Advanced(s).counters == s.counters;
    }
  }

  /** The only steps that touch an owner's counters: a record, a drain, a clean-up. */
  lemma PendingEffect(s: State, step: Step, o: string, d: Direction)
    ensures Pending(Next(s, step), o, d)
         == if step.Record? then Pending(s, o, d) + Charge(step.record, o, d)
            else if step.Advance? then Pending(s, o, d) - Drained(s, o, d)
            else if step.ClearCounters? && step.owner == o then 0
            else Pending(s, o, d)
  {
    match step
    case Record(r) => RecordEffect(s, r, o, d);
    case ClearCounters(owner) => WithoutEffect(s.counters, owner, o, d);
    case Advance => AdvanceEffect(s, o, d);
    case _ => assert Next(s, step).counters == s.counters;
  }
}
