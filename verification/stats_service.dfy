/** The stats service over string-keyed Redis counters and SQL rows. Between any two commands other
    requests may record traffic; every command is one step of the ledger. */
module StatsService {
  import opened Text
  import opened RedisKeys
  import opened Ledger
  import opened LedgerConservation
  import opened LedgerTotals

  function Get(redis: map<string, int>, key: string): int {
    if key in redis then redis[key] else 0
  }

  function Incr(redis: map<string, int>, key: string, n: int): map<string, int> {
    redis[key := Get(redis, key) + n]
  }

  /** The string keys hold what the ledger holds for their owners. */
  ghost predicate Mirrors(redis: map<string, int>, counters: map<Counter, int>) {
    forall o: string, d: Direction {:trigger Get(redis, UsageKey(o, d))} ::
      Get(redis, UsageKey(o, d)) == Value(counters, Usage(o, d))
  }

  lemma MirrorIncr(redis: map<string, int>, counters: map<Counter, int>, owner: string, d: Direction, n: int)
    requires Mirrors(redis, counters)
    ensures Mirrors(Incr(redis, UsageKey(owner, d), n), IncrBy(counters, Usage(owner, d), n))
  {
    var redis', counters' := Incr(redis, UsageKey(owner, d), n), IncrBy(counters, Usage(owner, d), n);
    forall o: string, e: Direction
      ensures Get(redis', UsageKey(o, e)) == Value(counters', Usage(o, e))
    {
      assert Get(redis, UsageKey(o, e)) == Value(counters, Usage(o, e));
      if UsageKey(o, e) == UsageKey(owner, d) {
        UsageKeyInjective(o, e, owner, d);
      }
    }
  }

  /** Three IncrBy on the string keys of one owner. */
  function IncrAll(redis: map<string, int>, owner: string, up: int, down: int, reqs: int): (redis': map<string, int>)
    ensures redis.Keys <= redis'.Keys
  {
    var bytes := Incr(Incr(redis, UsageKey(owner, Upload), up), UsageKey(owner, Download), down);
    Incr(bytes, UsageKey(owner, Requests), reqs)
  }

  lemma MirrorAll(redis: map<string, int>, counters: map<Counter, int>, owner: string, up: int, down: int, reqs: int)
    requires Mirrors(redis, counters)
    ensures Mirrors(IncrAll(redis, owner, up, down, reqs), AddAll(counters, owner, up, down, reqs))
  {
    MirrorIncr(redis, counters, owner, Upload, up);
    var r1, c1 := Incr(redis, UsageKey(owner, Upload), up), IncrBy(counters, Usage(owner, Upload), up);
    MirrorIncr(r1, c1, owner, Download, down);
    var r2, c2 := Incr(r1, UsageKey(owner, Download), down), IncrBy(c1, Usage(owner, Download), down);
    MirrorIncr(r2, c2, owner, Requests, reqs);
  }

  /** The usage counters after a traffic record. */
  function UsageAfter(redis: map<string, int>, r: TrafficRecord): (redis': map<string, int>)
    ensures redis.Keys <= redis'.Keys
  {
    var c1 := IncrAll(redis, r.uid, r.upload, r.download, RequestUnits(r.requests));
    if r.node > 0 then IncrAll(c1, NodeOwner(r.node), r.upload, r.download, RequestUnits(r.requests)) else c1
  }

  lemma MirrorRecord(redis: map<string, int>, s: State, r: TrafficRecord)
    requires Mirrors(redis, s.counters)
    ensures Mirrors(UsageAfter(redis, r), Recorded(s, r).counters)
  {
    var counters := s.counters;
    var units := RequestUnits(r.requests);
    MirrorAll(redis, counters, r.uid, r.upload, r.download, units);
    if r.node > 0 {
      var c1 := IncrAll(redis, r.uid, r.upload, r.download, units);
      MirrorAll(c1, ChargeUser(counters, r), NodeOwner(r.node), r.upload, r.download, units);
    }
    MirrorTotals(UsageAfter(redis, r), ChargeNode(ChargeUser(counters, r), r), r);
  }

  lemma MirrorTotals(redis: map<string, int>, counters: map<Counter, int>, r: TrafficRecord)
    requires Mirrors(redis, counters)
    ensures Mirrors(redis, ChargeTotals(counters, r))
  {
    forall o: string, d: Direction
      ensures Get(redis, UsageKey(o, d)) == Value(ChargeTotals(counters, r), Usage(o, d))
    {
    }
  }

  /** Deleting the three keys of an owner is the clean-up step of the ledger. */
  lemma MirrorClear(redis: map<string, int>, counters: map<Counter, int>, owner: string, others: set<string>)
    requires Mirrors(redis, counters)
    requires forall o: string, d: Direction :: UsageKey(o, d) !in others
    ensures var keys := {UsageKey(owner, Upload), UsageKey(owner, Download), UsageKey(owner, Requests)};
         Mirrors(redis - (keys + others), Without(counters, owner))
  {
    var keys := {UsageKey(owner, Upload), UsageKey(owner, Download), UsageKey(owner, Requests)} + others;
    forall o: string, d: Direction
      ensures Get(redis - keys, UsageKey(o, d)) == Value(Without(counters, owner), Usage(o, d))
    {
      WithoutEffect(counters, owner, o, d);
      assert Get(redis, UsageKey(o, d)) == Value(counters, Usage(o, d));
      assert o == owner ==> UsageKey(o, d) in keys;
      if o != owner { OthersKeysKept(owner, o, d); }
    }
  }

  lemma OthersKeysKept(owner: string, o: string, d: Direction)
    requires o != owner
    ensures UsageKey(o, d) !in {UsageKey(owner, Upload), UsageKey(owner, Download), UsageKey(owner, Requests)}
  {
    forall e | UsageKey(o, d) == UsageKey(owner, e)
      ensures false
    {
      UsageKeyInjective(o, d, owner, e);
    }
  }

  /** So is what removing a node from the store does to its counters. */
  lemma RemovalClearsNode(redis: map<string, int>, counters: map<Counter, int>, id: nat)
    requires Mirrors(redis, counters)
    ensures Mirrors(redis - NodeUsageKeys(id), Without(counters, NodeOwner(id)))
  {
    NodeKeyIsUsageKey(id, Upload);
    NodeKeyIsUsageKey(id, Download);
    NodeKeyIsUsageKey(id, Requests);
    var o := NodeOwner(id);
    MirrorClear(redis, counters, o, {});
    assert NodeUsageKeys(id) == {UsageKey(o, Upload), UsageKey(o, Download), UsageKey(o, Requests)} + {};
  }

  function HourGet(hours: map<nat, int>, hour: nat): int {
    if hour in hours then hours[hour] else 0
  }

  function HourIncr(hours: map<nat, int>, hour: nat, n: int): map<nat, int> {
    hours[hour := HourGet(hours, hour) + n]
  }

  /** Region scores and hour counters hold what the ledger holds. */
  ghost predicate MirrorsTotals(regions: map<string, int>, hours: map<nat, int>, counters: map<Counter, int>) {
    && (forall m: string :: Get(regions, m) == Value(counters, Region(m)))
    && (forall h: nat :: HourGet(hours, h) == Value(counters, Hour(h)))
  }

  lemma MirrorsTotalsRecord(regions: map<string, int>, hours: map<nat, int>, s: State, r: TrafficRecord)
    requires MirrorsTotals(regions, hours, s.counters)
    ensures MirrorsTotals(Incr(regions, RegionMember(r.region), Bytes(r)), HourIncr(hours, r.hour, Bytes(r)),
                          Recorded(s, r).counters)
  {
    var regions', hours' := Incr(regions, RegionMember(r.region), Bytes(r)), HourIncr(hours, r.hour, Bytes(r));
    forall m: string
      ensures Get(regions', m) == Value(Recorded(s, r).counters, Region(m))
    {
      TotalsRecord(s, r, Region(m));
    }
    forall h: nat
      ensures HourGet(hours', h) == Value(Recorded(s, r).counters, Hour(h))
    {
      TotalsRecord(s, r, Hour(h));
    }
  }

  lemma MirrorsTotalsDrain(regions: map<string, int>, hours: map<nat, int>, counters: map<Counter, int>,
                           owner: string, up: int, down: int, reqs: int)
    requires MirrorsTotals(regions, hours, counters)
    ensures MirrorsTotals(regions, hours, AddAll(counters, owner, up, down, reqs))
  {
    var counters' := AddAll(counters, owner, up, down, reqs);
    forall m: string
      ensures Get(regions, m) == Value(counters', Region(m))
    {
      AddAllKeepsTotals(counters, owner, up, down, reqs, Region(m));
    }
    forall h: nat
      ensures HourGet(hours, h) == Value(counters', Hour(h))
    {
      AddAllKeepsTotals(counters, owner, up, down, reqs, Hour(h));
    }
  }

  /** The trace went on with records and commands of the flusher; with an abandoned flush only if
      one failed. */
  predicate WentOn(before: seq<Step>, after: seq<Step>, failed: bool) {
    && before <= after
    && forall i :: |before| <= i < |after| ==>
         after[i].Record? || after[i].Begin? || after[i].Advance? || (failed && after[i].Abandon?)
  }

  /** A trace of steps through these states. */
  ghost predicate Traced(start: State, trace: seq<Step>, history: seq<State>, now: State) {
    && |history| == |trace| + 1
    && history[0] == start && history[|trace|] == now
    && forall i {:trigger trace[i]} :: 0 <= i < |trace| ==> history[i + 1] == Next(history[i], trace[i])
  }

  lemma {:induction false} TracedIsRun(start: State, trace: seq<Step>, history: seq<State>, now: State)
    requires Traced(start, trace, history, now)
    ensures now == Run(start, trace)
  {
    if trace != [] {
      var n := |trace| - 1;
      assert forall i :: 0 <= i < n ==> Front(trace)[i] == trace[i];
      assert Traced(start, Front(trace), Front(history), history[n]);
      TracedIsRun(start, Front(trace), Front(history), history[n]);
      assert history[n + 1] == Next(history[n], trace[n]);
    }
  }

  lemma TracedSnoc(start: State, trace: seq<Step>, history: seq<State>, now: State, step: Step)
    requires Traced(start, trace, history, now)
    ensures Traced(start, trace + [step], history + [Next(now, step)], Next(now, step))
  {
    var trace', history' := trace + [step], history + [Next(now, step)];
    forall i | 0 <= i < |trace'|
      ensures history'[i + 1] == Next(history'[i], trace'[i])
    {
      if i < |trace| { assert trace'[i] == trace[i]; }
    }
  }

  /** No usage counter of any owner but this one went down. */
  ghost predicate GrewExcept(c: map<Counter, int>, c': map<Counter, int>, owner: string) {
    forall o: string, d: Direction :: o != owner ==> Value(c', Usage(o, d)) >= Value(c, Usage(o, d))
  }

  ghost predicate Grew(c: map<Counter, int>, c': map<Counter, int>) {
    forall o: string, d: Direction :: Value(c', Usage(o, d)) >= Value(c, Usage(o, d))
  }

  lemma GrewThenGrew(a: map<Counter, int>, b: map<Counter, int>, c: map<Counter, int>)
    requires Grew(a, b) && Grew(b, c)
    ensures Grew(a, c)
  {
    forall o: string, d: Direction
      ensures Value(c, Usage(o, d)) >= Value(a, Usage(o, d))
    {
      assert Value(b, Usage(o, d)) >= Value(a, Usage(o, d));
    }
  }

  lemma GrewThenGrewExcept(a: map<Counter, int>, b: map<Counter, int>, c: map<Counter, int>, owner: string)
    requires Grew(a, b) && GrewExcept(b, c, owner)
    ensures GrewExcept(a, c, owner)
  {
    forall o: string, d: Direction | o != owner
      ensures Value(c, Usage(o, d)) >= Value(a, Usage(o, d))
    {
      assert Value(b, Usage(o, d)) >= Value(a, Usage(o, d));
    }
  }

  lemma GrewThenDrained(a: map<Counter, int>, b: map<Counter, int>, owner: string, up: int, down: int, reqs: int)
    requires Grew(a, b)
    ensures GrewExcept(a, AddAll(b, owner, -up, -down, -reqs), owner)
  {
    forall o: string, d: Direction | o != owner
      ensures Value(AddAll(b, owner, -up, -down, -reqs), Usage(o, d)) >= Value(a, Usage(o, d))
    {
      AddAllEffect(b, owner, -up, -down, -reqs, o, d);
      assert Value(b, Usage(o, d)) >= Value(a, Usage(o, d));
    }
  }

  lemma DrainIs(s: State, owner: string, up: int, down: int, reqs: int)
    requires s.flusher.Draining() && owner == s.flusher.target.Owner()
    requires up == s.flusher.up && down == s.flusher.down && reqs == s.flusher.DrainedRequests()
    ensures Next(s, Advance) == s.(counters := AddAll(s.counters, owner, -up, -down, -reqs), flusher := Idle)
  {
  }

  lemma MirrorDrain(redis: map<string, int>, redis': map<string, int>, regions: map<string, int>, hours: map<nat, int>,
                    c: map<Counter, int>, c': map<Counter, int>, owner: string, up: int, down: int, reqs: int)
    requires Mirrors(redis, c) && MirrorsTotals(regions, hours, c)
    requires redis' == IncrAll(redis, owner, -up, -down, -reqs) && c' == AddAll(c, owner, -up, -down, -reqs)
    ensures Mirrors(redis', c') && MirrorsTotals(regions, hours, c')
  {
    MirrorAll(redis, c, owner, -up, -down, -reqs);
    MirrorsTotalsDrain(regions, hours, c, owner, -up, -down, -reqs);
  }

  /** A scanned key of a user the flush does not skip. */
  predicate FlushableKey(key: string) {
    MatchesUploadGlob(key) && !("usage:node:" <= key)
  }

  /** The row of this user gained at least the bytes pending in the earlier state. */
  predicate Moved(before: map<string, User>, after: map<string, User>, s: State, uid: string) {
    uid in before && uid in after ==>
      after[uid].used - before[uid].used >= Pending(s, uid, Upload) + Pending(s, uid, Download)
  }

  /** The row of this user is as before and nothing pending was taken. */
  predicate Untouched(before: map<string, User>, after: map<string, User>, s: State, s': State, uid: string) {
    && (uid in before && uid in after ==> after[uid] == before[uid])
    && Pending(s', uid, Upload) >= Pending(s, uid, Upload)
    && Pending(s', uid, Download) >= Pending(s, uid, Download)
  }

  predicate NodeMoved(before: map<nat, Node>, after: map<nat, Node>, s: State, id: nat) {
    id in before && id in after ==>
      && after[id].upload - before[id].upload >= Pending(s, NodeOwner(id), Upload)
      && after[id].download - before[id].download >= Pending(s, NodeOwner(id), Download)
      && after[id].requests - before[id].requests >= Pending(s, NodeOwner(id), Requests)
  }

  predicate NodeUntouched(before: map<nat, Node>, after: map<nat, Node>, s: State, s': State, id: nat) {
    && (id in before && id in after ==> after[id] == before[id])
    && Pending(s', NodeOwner(id), Upload) >= Pending(s, NodeOwner(id), Upload)
    && Pending(s', NodeOwner(id), Download) >= Pending(s, NodeOwner(id), Download)
    && Pending(s', NodeOwner(id), Requests) >= Pending(s, NodeOwner(id), Requests)
  }

  ghost predicate GrewForSkipped(c: map<Counter, int>, c': map<Counter, int>) {
    forall o: string, d: Direction :: Skipped(o) ==> Value(c', Usage(o, d)) >= Value(c, Usage(o, d))
  }

  lemma GrewForSkippedToo(a: map<Counter, int>, b: map<Counter, int>, c: map<Counter, int>, uid: string)
    requires GrewForSkipped(a, b) && GrewExcept(b, c, uid) && !Skipped(uid)
    ensures GrewForSkipped(a, c)
  {
    forall o: string, d: Direction | Skipped(o)
      ensures Value(c, Usage(o, d)) >= Value(a, Usage(o, d))
    {
      assert Value(b, Usage(o, d)) >= Value(a, Usage(o, d));
    }
  }

  /** One more user flushed: the others stay as they were. */
  lemma UsersAfterFlush(users0: map<string, User>, users1: map<string, User>, users2: map<string, User>,
                        s0: State, s1: State, s2: State, keys: set<string>, todo: set<string>, key: string)
    requires forall k :: k in keys ==> MatchesUploadGlob(k)
    requires key in todo && todo <= keys && users1.Keys == users0.Keys == users2.Keys
    requires forall k :: k in todo && FlushableKey(k) ==> Untouched(users0, users1, s0, s1, UidOfUploadKey(k))
    requires forall k :: k in keys - todo && FlushableKey(k) ==> Moved(users0, users1, s0, UidOfUploadKey(k))
    requires GrewExcept(s1.counters, s2.counters, UidOfUploadKey(key))
    requires forall u :: u in users2 && u != UidOfUploadKey(key) ==> users2[u] == users1[u]
    requires FlushableKey(key) && Moved(users1, users2, s1, UidOfUploadKey(key))
    ensures forall k :: k in todo - {key} && FlushableKey(k) ==> Untouched(users0, users2, s0, s2, UidOfUploadKey(k))
    ensures forall k :: k in keys - (todo - {key}) && FlushableKey(k) ==> Moved(users0, users2, s0, UidOfUploadKey(k))
  {
    forall k | k in keys && k != key && FlushableKey(k)
      ensures k in todo ==> Untouched(users0, users2, s0, s2, UidOfUploadKey(k))
      ensures k !in todo ==> Moved(users0, users2, s0, UidOfUploadKey(k))
    {
      UploadKeysApart(k, key);
      var other := UidOfUploadKey(k);
      assert Value(s2.counters, Usage(other, Upload)) >= Value(s1.counters, Usage(other, Upload));
      assert Value(s2.counters, Usage(other, Download)) >= Value(s1.counters, Usage(other, Download));
    }
  }

  /** One more node flushed, perhaps again: the others stay as they were. */
  lemma NodesAfterFlush(nodes0: map<nat, Node>, nodes1: map<nat, Node>, nodes2: map<nat, Node>,
                        s0: State, s1: State, s2: State, done: set<nat>, id: nat)
    requires nodes1.Keys == nodes0.Keys == nodes2.Keys
    requires forall n: nat :: n !in done ==> NodeUntouched(nodes0, nodes1, s0, s1, n)
    requires forall n: nat :: n in done ==> NodeMoved(nodes0, nodes1, s0, n)
    requires GrewExcept(s1.counters, s2.counters, NodeOwner(id))
    requires forall n: nat :: n in nodes2 && n != id ==> nodes2[n] == nodes1[n]
    requires NodeMoved(nodes1, nodes2, s1, id) && Covered(s1, NodeOwner(id))
    ensures forall n: nat :: n !in done + {id} ==> NodeUntouched(nodes0, nodes2, s0, s2, n)
    ensures forall n: nat :: n in done + {id} ==> NodeMoved(nodes0, nodes2, s0, n)
  {
    forall n: nat | n != id
      ensures n !in done ==> NodeUntouched(nodes0, nodes2, s0, s2, n)
      ensures n in done ==> NodeMoved(nodes0, nodes2, s0, n)
    {
      if NodeOwner(n) == NodeOwner(id) { NodeOwnerInjective(n, id); }
      assert NodeUntouched(nodes1, nodes2, s1, s2, n);
    }
    assert id in done ==> NodeMoved(nodes0, nodes1, s0, id);
    assert id !in done ==> NodeUntouched(nodes0, nodes1, s0, s1, id);
  }

  class Service {
    var redis: map<string, int>
    var regions: map<string, int>
    var hours: map<nat, int>
    var users: map<string, User>
    var nodes: map<nat, Node>
    ghost var ledger: State
    ghost var trace: seq<Step>
    ghost var history: seq<State>
    ghost const start: State

    ghost predicate Valid()
      reads this
    {
      && users == ledger.users && nodes == ledger.nodes
      && Mirrors(redis, ledger.counters)
      && MirrorsTotals(regions, hours, ledger.counters)
      && Traced(start, trace, history, ledger)
    }

    constructor (users: map<string, User>, nodes: map<nat, Node>)
      ensures Valid() && trace == [] && start == State(map[], users, nodes, Idle, map[])
    {
      this.users, this.nodes := users, nodes;
      redis, regions, hours := map[], map[], map[];
      start := State(map[], users, nodes, Idle, map[]);
      ledger := State(map[], users, nodes, Idle, map[]);
      trace := [];
      history := [State(map[], users, nodes, Idle, map[])];
    }

    /** The state is the run of the trace, so what LedgerConservation proves of runs holds of it. */
    lemma IsRun()
      requires Valid()
      ensures ledger == Run(start, trace)
    {
      TracedIsRun(start, trace, history, ledger);
    }

    ghost method Tick(step: Step)
      requires Traced(start, trace, history, ledger)
      modifies this`ledger, this`trace, this`history
      ensures ledger == Next(old(ledger), step) && trace == old(trace) + [step]
      ensures Traced(start, trace, history, ledger)
    {
      TracedSnoc(start, trace, history, ledger, step);
      ledger := Next(ledger, step);
      trace := trace + [step];
      history := history + [ledger];
    }

    /** The commands of the transaction that touch usage counters. */
    method PipeUsage(record: TrafficRecord)
      modifies this`redis
      ensures redis == UsageAfter(old(redis), record)
    {
      var units := RequestUnits(record.requests);
      redis := Incr(redis, UsageKey(record.uid, Upload), record.upload);
      redis := Incr(redis, UsageKey(record.uid, Download), record.download);
      redis := Incr(redis, UsageKey(record.uid, Requests), units);
      if record.node > 0 {
        NodeKeyIsUsageKey(record.node, Upload);
        NodeKeyIsUsageKey(record.node, Download);
        NodeKeyIsUsageKey(record.node, Requests);
        redis := Incr(redis, NodeUsageKey(record.node, Upload), record.upload);
        redis := Incr(redis, NodeUsageKey(record.node, Download), record.download);
        redis := Incr(redis, NodeUsageKey(record.node, Requests), units);
      }
    }

    /** The commands of the transaction that touch the region score and the hour counter. */
    method PipeTotals(record: TrafficRecord)
      modifies this`regions, this`hours
      ensures regions == Incr(old(regions), RegionMember(record.region), Bytes(record))
      ensures hours == HourIncr(old(hours), record.hour, Bytes(record))
    {
      regions := Incr(regions, RegionMember(record.region), record.upload + record.download);
      hours := HourIncr(hours, record.hour, record.upload + record.download);
    }

    /** One transaction: counters of the user and of the node, region score, hour counter. */
    method RecordTraffic(record: TrafficRecord)
      requires Valid()
      modifies this
      ensures Valid()
      ensures ledger == Next(old(ledger), Record(record)) && trace == old(trace) + [Record(record)]
      ensures old(redis).Keys <= redis.Keys
    {
      MirrorRecord(redis, ledger, record);
      MirrorsTotalsRecord(regions, hours, ledger, record);
      PipeUsage(record);
      PipeTotals(record);
      Tick(Record(record));
    }

    /** Any number of other requests record traffic before the next command. */
    method Others()
      requires Valid()
      modifies this
      ensures Valid() && Grew(old(ledger).counters, ledger.counters)
      ensures ledger.flusher == old(ledger).flusher && users == old(users) && nodes == old(nodes)
      ensures WentOn(old(trace), trace, false)
      ensures old(redis).Keys <= redis.Keys
    {
      var n: nat := *;
      while n > 0
        invariant Valid() && Grew(old(ledger).counters, ledger.counters)
        invariant ledger.flusher == old(ledger).flusher && users == old(users) && nodes == old(nodes)
        invariant WentOn(old(trace), trace, false)
        invariant old(redis).Keys <= redis.Keys
      {
        var uid: Uid, node: nat, region: string := *, *, *;
        var upload: nat, download: nat, requests: int, hour: nat := *, *, *, *;
        var record := TrafficRecord(uid, node, region, upload, download, requests, hour);
        ghost var before := ledger;
        RecordTraffic(record);
        forall o: string, d: Direction
          ensures Value(ledger.counters, Usage(o, d)) >= Value(before.counters, Usage(o, d))
        {
          RecordEffect(before, record, o, d);
        }
        GrewThenGrew(old(ledger).counters, before.counters, ledger.counters);
        n := n - 1;
      }
    }

    // ------------------------------------------------------------ the commands of an iteration

    method GetUpload(t: Target) returns (up: int)
      requires Valid() && ledger.flusher.Idle? && !(t.OfUser? && Skipped(t.uid))
      modifies this`ledger, this`trace, this`history
      ensures Valid() && trace == old(trace) + [Begin(t)]
      ensures ledger == old(ledger).(flusher := GotUpload(t, up)) && up == Pending(old(ledger), t.Owner(), Upload)
    {
      up := Get(redis, UsageKey(t.Owner(), Upload));
      Tick(Begin(t));
    }

    method GetDownload(t: Target, up: int) returns (down: int)
      requires Valid() && ledger.flusher == GotUpload(t, up)
      modifies this`ledger, this`trace, this`history
      ensures Valid() && trace == old(trace) + [Advance]
      ensures ledger == old(ledger).(flusher := GotDownload(t, up, down)) &&
          down == Pending(old(ledger), t.Owner(), Download)
    {
      down := Get(redis, UsageKey(t.Owner(), Download));
      Tick(Advance);
    }

    /** Nothing pending for this user: the iteration ends without touching SQL. */
    ghost method SkipUser()
      requires Valid() && ledger.flusher.GotDownload? && ledger.flusher.target.OfUser?
      requires ledger.flusher.up + ledger.flusher.down == 0
      modifies this`ledger, this`trace, this`history
      ensures Valid() && trace == old(trace) + [Advance]
      ensures ledger == old(ledger).(flusher := Idle)
    {
      Tick(Advance);
    }

    method GetRequests(t: Target, up: int, down: int) returns (reqs: int)
      requires Valid() && ledger.flusher == GotDownload(t, up, down) && !(t.OfUser? && up + down == 0)
      modifies this`ledger, this`trace, this`history
      ensures Valid() && trace == old(trace) + [Advance]
      ensures ledger == old(ledger).(flusher := GotRequests(t, up, down, reqs))
      ensures reqs == Pending(old(ledger), t.Owner(), Requests)
    {
      reqs := Get(redis, UsageKey(t.Owner(), Requests));
      Tick(Advance);
    }

    method UpdateUser(uid: string, up: int, down: int, reqs: int)
      requires Valid() && ledger.flusher == GotRequests(OfUser(uid), up, down, reqs)
      modifies this`users, this`ledger, this`trace, this`history
      ensures Valid() && trace == old(trace) + [Advance]
      ensures users == StoreUser(old(users), uid, up + down, reqs)
      ensures ledger == old(ledger).(users := users, flusher := Stored(OfUser(uid), up, down, reqs))
    {
      users := StoreUser(users, uid, up + down, reqs);
      Tick(Advance);
    }

    method UpdateNode(id: nat, up: int, down: int, reqs: int)
      requires Valid() && ledger.flusher == GotRequests(OfNode(id), up, down, reqs)
      requires !(up == 0 && down == 0 && reqs == 0)
      modifies this`nodes, this`ledger, this`trace, this`history
      ensures Valid() && trace == old(trace) + [Advance]
      ensures nodes == StoreNode(old(nodes), id, up, down, reqs)
      ensures ledger == old(ledger).(nodes := nodes, flusher := Stored(OfNode(id), up, down, reqs))
    {
      nodes := StoreNode(nodes, id, up, down, reqs);
      Tick(Advance);
    }

    /** Nothing pending for this node: the iteration ends without touching SQL. */
    ghost method SkipNode(id: nat)
      requires Valid() && ledger.flusher == GotRequests(OfNode(id), 0, 0, 0)
      modifies this`ledger, this`trace, this`history
      ensures Valid() && trace == old(trace) + [Advance]
      ensures ledger == old(ledger).(flusher := Idle)
    {
      Tick(Advance);
    }

    /** The second read of the requests of a user. */
    method GetRequestsAgain(uid: string, up: int, down: int, reqs: int) returns (again: int)
      requires Valid() && ledger.flusher == Stored(OfUser(uid), up, down, reqs)
      modifies this`ledger, this`trace, this`history
      ensures Valid() && trace == old(trace) + [Advance]
      ensures ledger == old(ledger).(flusher := Recounted(OfUser(uid), up, down, reqs, again))
      ensures again == Pending(old(ledger), uid, Requests)
    {
      again := Get(redis, UsageKey(uid, Requests));
      Tick(Advance);
    }

    /** The DecrBy pipeline that ends an iteration. */
    method DecrBy(owner: string, up: int, down: int, reqs: int)
      requires Valid() && ledger.flusher.Draining() && owner == ledger.flusher.target.Owner()
      requires up == ledger.flusher.up && down == ledger.flusher.down && reqs == ledger.flusher.DrainedRequests()
      modifies this`redis, this`ledger, this`trace, this`history
      ensures Valid() && trace == old(trace) + [Advance] && old(redis).Keys <= redis.Keys
      ensures ledger == old(ledger).(counters := AddAll(old(ledger).counters, owner, -up, -down, -reqs),
          flusher := Idle)
    {
      redis := IncrAll(redis, owner, -up, -down, -reqs);
      TickDrain(owner, up, down, reqs);
      MirrorDrain(old(redis), redis, regions, hours, old(ledger).counters, ledger.counters, owner, up, down, reqs);
    }

    ghost method TickDrain(owner: string, up: int, down: int, reqs: int)
      requires Traced(start, trace, history, ledger)
      requires ledger.flusher.Draining() && owner == ledger.flusher.target.Owner()
      requires up == ledger.flusher.up && down == ledger.flusher.down && reqs == ledger.flusher.DrainedRequests()
      modifies this`ledger, this`trace, this`history
      ensures Traced(start, trace, history, ledger) && trace == old(trace) + [Advance]
      ensures ledger == old(ledger).(counters := AddAll(old(ledger).counters, owner, -up, -down, -reqs),
          flusher := Idle)
    {
      DrainIs(ledger, owner, up, down, reqs);
      Tick(Advance);
    }

    /** A failed SQL update or pipeline ends the flush where it is. */
    ghost method GiveUp()
      requires Valid()
      modifies this`ledger, this`trace, this`history
      ensures Valid() && trace == old(trace) + [Abandon]
      ensures ledger == old(ledger).(flusher := Idle)
    {
      Tick(Abandon);
    }

    // ------------------------------------------------------------ the flush

    /** Other requests, seen from an earlier point of the same iteration. */
    method OthersSince(ghost c: map<Counter, int>, ghost before: seq<Step>)
      requires Valid() && Grew(c, ledger.counters) && WentOn(before, trace, false)
      modifies this
      ensures Valid() && Grew(c, ledger.counters) && WentOn(before, trace, false)
      ensures Grew(old(ledger).counters, ledger.counters)
      ensures ledger.flusher == old(ledger).flusher && users == old(users) && nodes == old(nodes)
      ensures old(redis).Keys <= redis.Keys
    {
      Others();
      GrewThenGrew(c, old(ledger).counters, ledger.counters);
    }

    /** The reads of the bytes, with other requests in between. */
    method ReadBytes(t: Target) returns (up: int, down: int)
      requires Valid() && ledger.flusher.Idle? && !(t.OfUser? && Skipped(t.uid))
      modifies this
      ensures Valid() && Grew(old(ledger).counters, ledger.counters) && users == old(users) && nodes == old(nodes)
      ensures WentOn(old(trace), trace, false) && old(redis).Keys <= redis.Keys
      ensures ledger.flusher == GotDownload(t, up, down)
      ensures up >= Pending(old(ledger), t.Owner(), Upload) && down >= Pending(old(ledger), t.Owner(), Download)
    {
      ghost var c, before := ledger.counters, trace;
      OthersSince(c, before);
      up := GetUpload(t);
      OthersSince(c, before);
      down := GetDownload(t, up);
    }

    /** The reads of one iteration. A user without pending bytes is skipped. */
    method ReadCounters(t: Target) returns (skip: bool, up: int, down: int, reqs: int)
      requires Valid() && ledger.flusher.Idle? && !(t.OfUser? && Skipped(t.uid))
      modifies this
      ensures Valid() && Grew(old(ledger).counters, ledger.counters) && users == old(users) && nodes == old(nodes)
      ensures WentOn(old(trace), trace, false) && old(redis).Keys <= redis.Keys
      ensures skip == (t.OfUser? && up + down == 0)
      ensures ledger.flusher == if skip then Idle else GotRequests(t, up, down, reqs)
      ensures up >= Pending(old(ledger), t.Owner(), Upload) && down >= Pending(old(ledger), t.Owner(), Download)
      ensures !skip ==> reqs >= Pending(old(ledger), t.Owner(), Requests)
    {
      ghost var c, before := ledger.counters, trace;
      up, down := ReadBytes(t);
      reqs := 0;
      skip := t.OfUser? && up + down == 0;
      if skip {
        SkipUser();
      } else {
        OthersSince(c, before);
        reqs := GetRequests(t, up, down);
      }
    }

    /** The SQL update, the second read of requests and the drain. */
    method MoveUser(uid: string, up: int, down: int, reqs: int) returns (ok: bool)
      requires Valid() && ledger.flusher == GotRequests(OfUser(uid), up, down, reqs)
      modifies this
      ensures Valid() && ledger.flusher.Idle? && GrewExcept(old(ledger).counters, ledger.counters, uid)
      ensures WentOn(old(trace), trace, !ok) && old(redis).Keys <= redis.Keys
      ensures nodes == old(nodes)
      ensures users == old(users) || users == StoreUser(old(users), uid, up + down, reqs)
      ensures ok ==> users == StoreUser(old(users), uid, up + down, reqs)
    {
      ghost var c, before := ledger.counters, trace;
      var failed: bool := *;
      if failed {
        GiveUp();
        return false;
      }
      OthersSince(c, before);
      UpdateUser(uid, up, down, reqs);
      OthersSince(c, before);
      var again := GetRequestsAgain(uid, up, down, reqs);
      failed := *;
      if failed {
        GiveUp();
        return false;
      }
      OthersSince(c, before);
      GrewThenDrained(c, ledger.counters, uid, up, down, again);
      DecrBy(uid, up, down, again);
      return true;
    }

    /** One iteration of the user half of the flush: what was pending when it began is in SQL when it
        succeeds. A failed SQL update or pipeline ends it. */
    method FlushUser(uid: string) returns (ok: bool)
      requires Valid() && ledger.flusher.Idle? && !Skipped(uid)
      modifies this
      ensures Valid() && ledger.flusher.Idle? && GrewExcept(old(ledger).counters, ledger.counters, uid)
      ensures WentOn(old(trace), trace, !ok) && old(redis).Keys <= redis.Keys
      ensures nodes == old(nodes) && users.Keys == old(users).Keys
      ensures forall u :: u in users && u != uid ==> users[u] == old(users)[u]
      ensures ok && uid in users ==>
                users[uid].used - old(users)[uid].used
                >= Pending(old(ledger), uid, Upload) + Pending(old(ledger), uid, Download)
    {
      var skip, up, down, reqs := ReadCounters(OfUser(uid));
      if skip { return true; }
      ghost var c := ledger.counters;
      ok := MoveUser(uid, up, down, reqs);
      GrewThenGrewExcept(old(ledger).counters, c, ledger.counters, uid);
    }

    /** The SQL update and the drain of a node. */
    method MoveNode(id: nat, up: int, down: int, reqs: int) returns (ok: bool)
      requires Valid() && ledger.flusher == GotRequests(OfNode(id), up, down, reqs)
      requires !(up == 0 && down == 0 && reqs == 0)
      modifies this
      ensures Valid() && ledger.flusher.Idle? && GrewExcept(old(ledger).counters, ledger.counters, NodeOwner(id))
      ensures WentOn(old(trace), trace, !ok) && old(redis).Keys <= redis.Keys
      ensures users == old(users)
      ensures nodes == old(nodes) || nodes == StoreNode(old(nodes), id, up, down, reqs)
      ensures ok ==> nodes == StoreNode(old(nodes), id, up, down, reqs)
    {
      ghost var c, before := ledger.counters, trace;
      var failed: bool := *;
      if failed {
        GiveUp();
        return false;
      }
      OthersSince(c, before);
      UpdateNode(id, up, down, reqs);
      failed := *;
      if failed {
        GiveUp();
        return false;
      }
      OthersSince(c, before);
      GrewThenDrained(c, ledger.counters, NodeOwner(id), up, down, reqs);
      DecrBy(NodeOwner(id), up, down, reqs);
      return true;
    }

    /** One iteration of the node half. */
    method FlushNode(id: nat) returns (ok: bool)
      requires Valid() && ledger.flusher.Idle?
      modifies this
      ensures Valid() && ledger.flusher.Idle? && GrewExcept(old(ledger).counters, ledger.counters, NodeOwner(id))
      ensures WentOn(old(trace), trace, !ok) && old(redis).Keys <= redis.Keys
      ensures users == old(users) && nodes.Keys == old(nodes).Keys
      ensures forall n :: n in nodes && n != id ==> nodes[n] == old(nodes)[n]
      ensures ok && id in nodes ==>
                && nodes[id].upload - old(nodes)[id].upload >= Pending(old(ledger), NodeOwner(id), Upload)
                && nodes[id].download - old(nodes)[id].download >= Pending(old(ledger), NodeOwner(id), Download)
                && nodes[id].requests - old(nodes)[id].requests >= Pending(old(ledger), NodeOwner(id), Requests)
    {
      var _, up, down, reqs := ReadCounters(OfNode(id));
      ghost var c := ledger.counters;
      if up == 0 && down == 0 && reqs == 0 {
        SkipNode(id);
        return true;
      }
      ok := MoveNode(id, up, down, reqs);
      GrewThenGrewExcept(old(ledger).counters, c, ledger.counters, NodeOwner(id));
    }

    /** Counters cover what was read of them and are never negative: the trace holds no clean-up. */
    lemma NonNegative(o: string)
      requires Valid() && WentOn([], trace, true) && start.counters == map[] && start.flusher.Idle?
      ensures Covered(ledger, o)
    {
      IsRun();
      NeverCleared(start, trace, o);
      PendingNonNegative(start, trace, o);
    }

    /** One scanned key, seen from the start of the user half. */
    method FlushKeySince(key: string, ghost users0: map<string, User>, ghost s0: State, ghost keys: set<string>,
                         ghost todo: set<string>)
      returns (ok: bool)
      requires Valid() && ledger.flusher.Idle? && users.Keys == users0.Keys
      requires key in todo && todo <= keys && FlushableKey(key) && forall k :: k in keys ==> MatchesUploadGlob(k)
      requires GrewForSkipped(s0.counters, ledger.counters)
      requires forall k :: k in todo && FlushableKey(k) ==> Untouched(users0, users, s0, ledger, UidOfUploadKey(k))
      requires forall k :: k in keys - todo && FlushableKey(k) ==> Moved(users0, users, s0, UidOfUploadKey(k))
      modifies this
      ensures Valid() && ledger.flusher.Idle? && WentOn(old(trace), trace, !ok)
      ensures nodes == old(nodes) && users.Keys == users0.Keys && old(redis).Keys <= redis.Keys
      ensures GrewForSkipped(s0.counters, ledger.counters)
      ensures ok ==> forall k :: k in todo - {key} && FlushableKey(k) ==>
          Untouched(users0, users, s0, ledger, UidOfUploadKey(k))
      ensures ok ==> forall k :: k in keys - (todo - {key}) && FlushableKey(k) ==>
          Moved(users0, users, s0, UidOfUploadKey(k))
    {
      var uid := UidOfUploadKey(key);
      UploadKeySlicing(key);
      SkippedUids(uid);
      ghost var s1, users1 := ledger, users;
      ok := FlushUser(uid);
      GrewForSkippedToo(s0.counters, s1.counters, ledger.counters, uid);
      if ok {
        UsersAfterFlush(users0, users1, users, s0, s1, ledger, keys, todo, key);
      }
    }

    /** The user half of the flush: on success, whatever was pending when it began, for any user it
        does not skip, is in SQL; counters of skipped owners only grow. */
    method FlushUsers() returns (ok: bool)
      requires Valid() && ledger.flusher.Idle?
      modifies this
      ensures Valid() && ledger.flusher.Idle? && WentOn(old(trace), trace, !ok)
      ensures nodes == old(nodes) && users.Keys == old(users).Keys && old(redis).Keys <= redis.Keys
      ensures GrewForSkipped(old(ledger).counters, ledger.counters)
      ensures ok ==> forall key :: key in old(redis) && FlushableKey(key) ==>
                       Moved(old(users), users, old(ledger), UidOfUploadKey(key))
    {
      ghost var before, s0, users0 := trace, ledger, users;
      var keys := set key | key in redis && MatchesUploadGlob(key);
      var todo := keys;
      while todo != {}
        invariant todo <= keys && Valid() && ledger.flusher.Idle? && WentOn(before, trace, false)
        invariant nodes == old(nodes) && users.Keys == users0.Keys && old(redis).Keys <= redis.Keys
        invariant GrewForSkipped(s0.counters, ledger.counters)
        invariant forall key :: key in todo && FlushableKey(key) ==>
            Untouched(users0, users, s0, ledger, UidOfUploadKey(key))
        invariant forall key :: key in keys - todo && FlushableKey(key) ==>
            Moved(users0, users, s0, UidOfUploadKey(key))
        decreases |todo|
      {
        var key :| key in todo;
        if !("usage:node:" <= key) {
          ok := FlushKeySince(key, users0, s0, keys, todo);
          if !ok { return; }
        }
        todo := todo - {key};
      }
      return true;
    }

    /** One iteration, seen from the start of the node half. */
    method FlushNodeSince(id: nat, ghost nodes0: map<nat, Node>, ghost s0: State, ghost done: set<nat>)
      returns (ok: bool)
      requires Valid() && ledger.flusher.Idle? && nodes.Keys == nodes0.Keys
      requires WentOn([], trace, true) && start.counters == map[] && start.flusher.Idle?
      requires forall n: nat :: n !in done ==> NodeUntouched(nodes0, nodes, s0, ledger, n)
      requires forall n: nat :: n in done ==> NodeMoved(nodes0, nodes, s0, n)
      modifies this
      ensures Valid() && ledger.flusher.Idle? && WentOn(old(trace), trace, !ok)
      ensures users == old(users) && nodes.Keys == nodes0.Keys
      ensures ok ==> forall n: nat :: n !in done + {id} ==> NodeUntouched(nodes0, nodes, s0, ledger, n)
      ensures ok ==> forall n: nat :: n in done + {id} ==> NodeMoved(nodes0, nodes, s0, n)
    {
      ghost var s1, nodes1 := ledger, nodes;
      NonNegative(NodeOwner(id));
      ok := FlushNode(id);
      if ok {
        NodesAfterFlush(nodes0, nodes1, nodes, s0, s1, ledger, done, id);
      }
    }

    /** The node half. Several scanned keys may parse to one node; flushing it again is harmless. */
    method FlushNodeUsage() returns (ok: bool)
      requires Valid() && ledger.flusher.Idle?
      requires WentOn([], trace, true) && start.counters == map[] && start.flusher.Idle?
      modifies this
      ensures Valid() && ledger.flusher.Idle? && WentOn(old(trace), trace, !ok)
      ensures users == old(users) && nodes.Keys == old(nodes).Keys
      ensures ok ==> forall id: nat :: NodeUsageKey(id, Upload) in old(redis) ==>
                       NodeMoved(old(nodes), nodes, old(ledger), id)
    {
      ghost var before, s0, nodes0 := trace, ledger, nodes;
      var keys := set key | key in redis && MatchesNodeUploadGlob(key);
      var todo := keys;
      ghost var done: set<nat> := {};
      while todo != {}
        invariant todo <= keys && Valid() && ledger.flusher.Idle? && WentOn(before, trace, false)
        invariant users == old(users) && nodes.Keys == nodes0.Keys
        invariant forall id: nat :: id !in done ==> NodeUntouched(nodes0, nodes, s0, ledger, id)
        invariant forall id: nat :: id in done ==> NodeMoved(nodes0, nodes, s0, id)
        invariant forall key :: key in keys - todo && ScanNodeId(key).Some? ==> ScanNodeId(key).value in done
        decreases |todo|
      {
        var key :| key in todo;
        match ScanNodeId(key) {
          case None =>
          case Some(id) =>
            ok := FlushNodeSince(id, nodes0, s0, done);
            if !ok { return; }
            done := done + {id};
        }
        todo := todo - {key};
      }
      forall id: nat | NodeUsageKey(id, Upload) in old(redis)
        ensures NodeMoved(nodes0, nodes, s0, id)
      {
        ScanNodeIdInverts(id);
        assert NodeUsageKey(id, Upload) in keys - todo;
      }
      return true;
    }

    /** `FlushUsage`: users first, then nodes; the first failure ends it. Whatever is interleaved,
        success leaves in SQL everything that was pending when the flush was called: for every
        user it does not skip, and for every node. */
    method FlushUsage() returns (ok: bool)
      requires Valid() && ledger.flusher.Idle?
      requires WentOn([], trace, true) && start.counters == map[] && start.flusher.Idle?
      modifies this
      ensures Valid() && ledger.flusher.Idle? && WentOn(old(trace), trace, !ok)
      ensures users.Keys == old(users).Keys && nodes.Keys == old(nodes).Keys
      ensures ok ==> forall key :: key in old(redis) && FlushableKey(key) ==>
                       Moved(old(users), users, old(ledger), UidOfUploadKey(key))
      ensures ok ==> forall id: nat :: NodeUsageKey(id, Upload) in old(redis) ==>
                       NodeMoved(old(nodes), nodes, old(ledger), id)
    {
      ok := FlushUsers();
      if !ok { return; }
      ghost var s1 := ledger;
      ok := FlushNodeUsage();
      if ok {
        forall id: nat | NodeUsageKey(id, Upload) in old(redis)
          ensures NodeMoved(old(nodes), nodes, old(ledger), id)
        {
          assert NodeMoved(old(nodes), nodes, s1, id);
          StillPending(old(ledger), s1, id);
        }
      }
    }

    /** The bytes of the current UTC day: from the current hour back to its first. */
    method TodayTraffic(now: nat) returns (total: int)
      requires Valid() && start.counters == map[]
      requires forall i :: 0 <= i < |trace| && trace[i].Record? ==> trace[i].record.hour <= now
      ensures total == DayBytes(trace, now / 24)
    {
      total := 0;
      var i := 0;
      while i <= now % 24
        invariant 0 <= i <= now % 24 + 1
        invariant total == BackFrom(ledger, now, i)
      {
        total := total + HourGet(hours, now - i);
        i := i + 1;
      }
      IsRun();
      TodayIsDay(start, trace, now);
    }
  }

  /** Owners of node counters are skipped by the user half, so their counters only grew. */
  lemma StillPending(s: State, s': State, id: nat)
    requires GrewForSkipped(s.counters, s'.counters)
    ensures Pending(s', NodeOwner(id), Upload) >= Pending(s, NodeOwner(id), Upload)
    ensures Pending(s', NodeOwner(id), Download) >= Pending(s, NodeOwner(id), Download)
    ensures Pending(s', NodeOwner(id), Requests) >= Pending(s, NodeOwner(id), Requests)
  {
    assert NodeOwner(id)[..5] == "node:";
    assert Skipped(NodeOwner(id));
  }
}
