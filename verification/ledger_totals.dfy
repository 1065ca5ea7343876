/** The four byte totals of the dashboard count the same traffic. */
module LedgerTotals {
  import opened Text
  import opened RedisKeys
  import opened Ledger
  import opened LedgerConservation
  import opened LedgerRuns

  // ---------------------------------------------------------------- bytes by class of record

  function Bytes(r: TrafficRecord): nat {
    r.upload + r.download
  }

  /** All bytes of a run. */
  function AllBytes(steps: seq<Step>): nat {
    if steps == [] then 0 else
      AllBytes(Front(steps)) + match Last(steps) case Record(r) => Bytes(r) case _ => 0
  }

  /** Bytes of the records a classifier puts into one class. */
  function ClassBytes<K(==)>(steps: seq<Step>, class_: TrafficRecord -> K, k: K): nat {
    if steps == [] then 0 else
      ClassBytes(Front(steps), class_, k)
      + match Last(steps) case Record(r) => if class_(r) == k then Bytes(r) else 0 case _ => 0
  }

  /** Bytes of the records whose class is listed. */
  function ListedBytes<K(==)>(steps: seq<Step>, class_: TrafficRecord -> K, keys: seq<K>): nat {
    if steps == [] then 0 else
      ListedBytes(Front(steps), class_, keys)
      + match Last(steps) case Record(r) => if class_(r) in keys then Bytes(r) else 0 case _ => 0
  }

  predicate Distinct<K(==)>(keys: seq<K>) {
    forall i, j :: 0 <= i < j < |keys| ==> keys[i] != keys[j]
  }

  function SumOver<K>(keys: seq<K>, f: K -> int): int {
    if keys == [] then 0 else SumOver(Front(keys), f) + f(Last(keys))
  }

  lemma {:induction false} SumOverSame<K>(keys: seq<K>, f: K -> int, g: K -> int)
    requires forall i :: 0 <= i < |keys| ==> f(keys[i]) == g(keys[i])
    ensures SumOver(keys, f) == SumOver(keys, g)
  {
    if keys != [] {
      SumOverSame(Front(keys), f, g);
    }
  }

  lemma {:induction false} SumOverPlus<K>(keys: seq<K>, f: K -> int, g: K -> int, h: K -> int)
    requires forall i :: 0 <= i < |keys| ==> f(keys[i]) == g(keys[i]) + h(keys[i])
    ensures SumOver(keys, f) == SumOver(keys, g) + SumOver(keys, h)
  {
    if keys != [] {
      SumOverPlus(Front(keys), f, g, h);
    }
  }

  lemma {:induction false} SumOverZero<K>(keys: seq<K>, f: K -> int)
    requires forall i :: 0 <= i < |keys| ==> f(keys[i]) >= 0
    ensures SumOver(keys, f) >= 0
    ensures SumOver(keys, f) == 0 <==> forall i :: 0 <= i < |keys| ==> f(keys[i]) == 0
  {
    if keys != [] {
      SumOverZero(Front(keys), f);
      assert keys[|keys| - 1] == Last(keys);
    }
  }

  lemma {:induction false} ListedSnoc<K>(steps: seq<Step>, class_: TrafficRecord -> K, keys: seq<K>)
    requires keys != [] && Distinct(keys)
    ensures ListedBytes(steps, class_, keys)
         == ListedBytes(steps, class_, Front(keys)) + ClassBytes(steps, class_, Last(keys))
  {
    if steps != [] {
      ListedSnoc(Front(steps), class_, keys);
      assert keys == Front(keys) + [Last(keys)];
      assert Last(keys) !in Front(keys);
    }
  }

  lemma {:induction false} ListedNone<K>(steps: seq<Step>, class_: TrafficRecord -> K)
    ensures ListedBytes(steps, class_, []) == 0
  {
    if steps != [] {
      ListedNone(Front(steps), class_);
    }
  }

  /** Counting class by class over distinct classes counts every listed record once. */
  lemma {:induction false} CountedByClass<K>(steps: seq<Step>, class_: TrafficRecord -> K, keys: seq<K>)
    requires Distinct(keys)
    ensures SumOver(keys, k => ClassBytes(steps, class_, k)) == ListedBytes(steps, class_, keys)
  {
    if keys == [] {
      ListedNone(steps, class_);
    } else {
      CountedByClass(steps, class_, Front(keys));
      ListedSnoc(steps, class_, keys);
      SumOverSame(Front(keys), k => ClassBytes(steps, class_, k), k => ClassBytes(steps, class_, k));
    }
  }

  /** Every record of the run falls into a listed class. */
  predicate Covers<K(==)>(steps: seq<Step>, class_: TrafficRecord -> K, keys: seq<K>) {
    forall i :: 0 <= i < |steps| && steps[i].Record? ==> class_(steps[i].record) in keys
  }

  lemma {:induction false} CoveredIsAll<K>(steps: seq<Step>, class_: TrafficRecord -> K, keys: seq<K>)
    requires Covers(steps, class_, keys)
    ensures ListedBytes(steps, class_, keys) == AllBytes(steps)
  {
    if steps != [] {
      CoveredIsAll(Front(steps), class_, keys);
    }
  }

  // ---------------------------------------------------------------- regions and hours

  function RegionClass(): TrafficRecord -> string {
    (r: TrafficRecord) => RegionMember(r.region)
  }

  function HourClass(): TrafficRecord -> nat {
    (r: TrafficRecord) => r.hour
  }

  function RegionScore(s: State, member: string): int {
    Value(s.counters, Region(member))
  }

  function HourBytes(s: State, hour: nat): int {
    Value(s.counters, Hour(hour))
  }

  lemma AddAllKeepsTotals(c: map<Counter, int>, owner: string, up: int, down: int, reqs: int, key: Counter)
    requires !key.Usage?
    ensures Value(AddAll(c, owner, up, down, reqs), key) == Value(c, key)
  {
  }

  lemma TotalsRecord(s: State, r: TrafficRecord, key: Counter)
    requires !key.Usage?
    ensures Value(Recorded(s, r).counters, key)
         == Value(s.counters, key)
            + (if key == Region(RegionMember(r.region)) || key == Hour(r.hour) then Bytes(r) else 0)
  {
    AddAllKeepsTotals(s.counters, r.uid, r.upload, r.download, RequestUnits(r.requests), key);
    var units := RequestUnits(r.requests);
    AddAllKeepsTotals(ChargeUser(s.counters, r), NodeOwner(r.node), r.upload, r.download, units, key);
  }

  lemma TotalsStep(s: State, step: Step, key: Counter)
    requires !key.Usage?
    ensures Value(Next(s, step).counters, key)
         == Value(s.counters, key)
            + match step
              case Record(r) => if key == Region(RegionMember(r.region)) || key == Hour(r.hour) then Bytes(r) else 0
              case _ => 0
  {
    match step
    case Record(r) => TotalsRecord(s, r, key);
    case Advance =>
      var f := s.flusher;
      if f.Draining() {
        AddAllKeepsTotals(s.counters, f.target.Owner(), -f.up, -f.down, -f.DrainedRequests(), key);
      }
    case _ =>
  }

  /** Region scores and hour counters grow by exactly the bytes of their records, whatever is
      flushed, abandoned, saved or deleted meanwhile. */
  lemma {:induction false} TotalsInRuns(s0: State, steps: seq<Step>, member: string, hour: nat)
    ensures RegionScore(Run(s0, steps), member) == RegionScore(s0, member) + ClassBytes(steps, RegionClass(), member)
    ensures HourBytes(Run(s0, steps), hour) == HourBytes(s0, hour) + ClassBytes(steps, HourClass(), hour)
  {
    if steps != [] {
      TotalsInRuns(s0, Front(steps), member, hour);
      TotalsStep(Run(s0, Front(steps)), Last(steps), Region(member));
      TotalsStep(Run(s0, Front(steps)), Last(steps), Hour(hour));
    }
  }

  /** Bytes of the records whose region is one of these texts. */
  function RegionBytes(steps: seq<Step>, regions: set<string>): nat {
    if steps == [] then 0 else
      RegionBytes(Front(steps), regions)
      + match Last(steps) case Record(r) => if r.region in regions then r.upload + r.download else 0 case _ => 0
  }

  /** By the regions of the records: a named region is scored the bytes of its records, the member for unknown
      ones those of records without a region or of that name, and the empty text is no member. */
  lemma {:induction false} RegionsInRuns(s0: State, steps: seq<Step>, region: string)
    ensures RegionScore(Run(s0, steps), region) == RegionScore(s0, region)
         + if region == "" then 0
           else if region == "__unknown__" then RegionBytes(steps, {"", "__unknown__"})
           else RegionBytes(steps, {region})
  {
    if steps != [] {
      RegionsInRuns(s0, Front(steps), region);
      TotalsStep(Run(s0, Front(steps)), Last(steps), Region(region));
    }
  }

  // ---------------------------------------------------------------- users and nodes

  function UserClass(): TrafficRecord -> string {
    (r: TrafficRecord) => r.uid
  }

  function NodeClass(): TrafficRecord -> nat {
    (r: TrafficRecord) => r.node
  }

  lemma {:induction false} UserClassIsRecorded(steps: seq<Step>, uid: string)
    ensures ClassBytes(steps, UserClass(), uid) == RecordedBytes(steps, uid)
  {
    if steps != [] {
      UserClassIsRecorded(Front(steps), uid);
    }
  }

  lemma {:induction false} NodeClassIsRecorded(steps: seq<Step>, id: nat)
    ensures ClassBytes(steps, NodeClass(), id)
         == RecordedThrough(steps, id, Upload) + RecordedThrough(steps, id, Download)
  {
    if steps != [] {
      NodeClassIsRecorded(Front(steps), id);
    }
  }

  function NodeTotal(s: State, id: nat): int {
    InNode(s, id, Upload) + InNode(s, id, Download)
    + Pending(s, NodeOwner(id), Upload) + Pending(s, NodeOwner(id), Download)
  }

  // ---------------------------------------------------------------- the four totals

  /** Nothing counted yet. */
  predicate Unused(s: State) {
    && s.counters == map[] && s.flusher.Idle? && s.windows == map[]
    && (forall uid :: uid in s.users ==> s.users[uid].used == 0)
    && (forall id :: id in s.nodes ==> s.nodes[id].upload == 0 && s.nodes[id].download == 0)
  }

  /** What flushes hold twice of a user, less what was deleted. */
  function UserExcess(s0: State, steps: seq<Step>, uid: string): int {
    StoredTwiceBytes(s0, steps, uid) + InFlightBytes(Run(s0, steps), uid)
    - ClearedBytes(s0, steps, uid) - Dropped(s0, steps, uid, UsedBytes)
  }

  function DirectedExcess(s0: State, steps: seq<Step>, id: nat, d: Direction): int {
    StoredTwice(s0, steps, OfNode(id), d) + InFlight(Run(s0, steps), OfNode(id), d)
    - Overwritten(s0, steps, id, d) - Cleared(s0, steps, NodeOwner(id), d) - DroppedNode(s0, steps, id, d)
  }

  /** The same for a node, less also what whole-row saves overwrote. */
  function NodeExcess(s0: State, steps: seq<Step>, id: nat): int {
    DirectedExcess(s0, steps, id, Upload) + DirectedExcess(s0, steps, id, Download)
  }

  function UserTotals(s: State): string -> int {
    (uid: string) => UsageOf(s, uid)
  }

  function UserBytes(steps: seq<Step>): string -> int {
    (uid: string) => ClassBytes(steps, UserClass(), uid)
  }

  function NodeTotals(s: State): nat -> int {
    (id: nat) => NodeTotal(s, id)
  }

  function RegionScores(s: State): string -> int {
    (member: string) => RegionScore(s, member)
  }

  function HourTotals(s: State): nat -> int {
    (hour: nat) => HourBytes(s, hour)
  }

  function UserExcesses(s0: State, steps: seq<Step>): string -> int {
    (uid: string) => UserExcess(s0, steps, uid)
  }

  function NodeExcesses(s0: State, steps: seq<Step>): nat -> int {
    (id: nat) => NodeExcess(s0, steps, id)
  }

  lemma UserTotalIs(s0: State, steps: seq<Step>, uid: Uid)
    requires Unused(s0)
    ensures UsageOf(Run(s0, steps), uid) == ClassBytes(steps, UserClass(), uid) + UserExcess(s0, steps, uid)
  {
    BytesConserved(s0, steps, uid);
    UserClassIsRecorded(steps, uid);
  }

  lemma NodeTotalIs(s0: State, steps: seq<Step>, id: nat)
    requires Unused(s0) && id > 0
    ensures NodeTotal(Run(s0, steps), id) == ClassBytes(steps, NodeClass(), id) + NodeExcess(s0, steps, id)
  {
    NodeConserved(s0, steps, id, Upload);
    NodeConserved(s0, steps, id, Download);
    NodeClassIsRecorded(steps, id);
  }

  lemma UserSum(s0: State, steps: seq<Step>, uids: seq<Uid>)
    requires Unused(s0) && Distinct<string>(uids) && Covers<string>(steps, UserClass(), uids)
    ensures SumOver<string>(uids, UserTotals(Run(s0, steps)))
         == AllBytes(steps) + SumOver<string>(uids, UserExcesses(s0, steps))
  {
    var s := Run(s0, steps);
    forall i | 0 <= i < |uids|
      ensures UsageOf(s, uids[i]) == ClassBytes(steps, UserClass(), uids[i]) + UserExcess(s0, steps, uids[i])
    {
      UserTotalIs(s0, steps, uids[i]);
    }
    SumOverPlus<string>(uids, UserTotals(s), UserBytes(steps), UserExcesses(s0, steps));
    CountedByClass<string>(steps, UserClass(), uids);
    SumOverSame<string>(uids, k => ClassBytes(steps, UserClass(), k), UserBytes(steps));
    CoveredIsAll<string>(steps, UserClass(), uids);
  }

  lemma NodeSum(s0: State, steps: seq<Step>, ids: seq<nat>)
    requires Unused(s0) && Distinct(ids) && Covers(steps, NodeClass(), ids)
    requires forall i :: 0 <= i < |ids| ==> ids[i] > 0
    ensures SumOver(ids, NodeTotals(Run(s0, steps))) == AllBytes(steps) + SumOver(ids, NodeExcesses(s0, steps))
  {
    var s := Run(s0, steps);
    forall i | 0 <= i < |ids|
      ensures NodeTotal(s, ids[i]) == ClassBytes(steps, NodeClass(), ids[i]) + NodeExcess(s0, steps, ids[i])
    {
      NodeTotalIs(s0, steps, ids[i]);
    }
    SumOverPlus(ids, NodeTotals(s), k => ClassBytes(steps, NodeClass(), k), NodeExcesses(s0, steps));
    CountedByClass(steps, NodeClass(), ids);
    SumOverSame(ids, k => ClassBytes(steps, NodeClass(), k), k => ClassBytes(steps, NodeClass(), k));
    CoveredIsAll(steps, NodeClass(), ids);
  }

  lemma RegionSum(s0: State, steps: seq<Step>, members: seq<string>)
    requires s0.counters == map[] && Distinct(members) && Covers(steps, RegionClass(), members)
    ensures SumOver(members, RegionScores(Run(s0, steps))) == AllBytes(steps)
  {
    var s := Run(s0, steps);
    forall i | 0 <= i < |members|
      ensures RegionScore(s, members[i]) == ClassBytes(steps, RegionClass(), members[i])
    {
      TotalsInRuns(s0, steps, members[i], 0);
    }
    SumOverSame(members, RegionScores(s), k => ClassBytes(steps, RegionClass(), k));
    CountedByClass(steps, RegionClass(), members);
    CoveredIsAll(steps, RegionClass(), members);
  }

  /** The sum of any distinct hour counters is the bytes recorded in those hours. */
  lemma HourSum(s0: State, steps: seq<Step>, hours: seq<nat>)
    requires s0.counters == map[] && Distinct(hours)
    ensures SumOver(hours, HourTotals(Run(s0, steps))) == ListedBytes(steps, HourClass(), hours)
  {
    var s := Run(s0, steps);
    forall i | 0 <= i < |hours|
      ensures HourBytes(s, hours[i]) == ClassBytes(steps, HourClass(), hours[i])
    {
      TotalsInRuns(s0, steps, "", hours[i]);
    }
    SumOverSame(hours, HourTotals(s), k => ClassBytes(steps, HourClass(), k));
    CountedByClass(steps, HourClass(), hours);
  }

  /** In every run, the totals over all users, all nodes, all regions and all hours are all the bytes ever
      recorded: those of regions and hours exactly, those of users and nodes but for what flushes hold
      twice, what was overwritten and what was deleted. */
  lemma FourTotals(s0: State, steps: seq<Step>,
                   uids: seq<Uid>, ids: seq<nat>, members: seq<string>, hours: seq<nat>)
    requires Unused(s0) && (forall i :: 0 <= i < |ids| ==> ids[i] > 0)
    requires Distinct<string>(uids) && Distinct(ids) && Distinct(members) && Distinct(hours)
    requires Covers<string>(steps, UserClass(), uids) && Covers(steps, NodeClass(), ids)
    requires Covers(steps, RegionClass(), members) && Covers(steps, HourClass(), hours)
    ensures var s, all := Run(s0, steps), AllBytes(steps);
         && SumOver<string>(uids, UserTotals(s)) == all + SumOver<string>(uids, UserExcesses(s0, steps))
         && SumOver(ids, NodeTotals(s)) == all + SumOver(ids, NodeExcesses(s0, steps))
         && SumOver(members, RegionScores(s)) == all && SumOver(hours, HourTotals(s)) == all
  {
    UserSum(s0, steps, uids);
    NodeSum(s0, steps, ids);
    RegionSum(s0, steps, members);
    HourSum(s0, steps, hours);
    CoveredIsAll(steps, HourClass(), hours);
  }

  /** The four totals agree exactly when the excesses of users and those of nodes add up to nothing. */
  lemma FourTotalsAgree(s0: State, steps: seq<Step>,
                        uids: seq<Uid>, ids: seq<nat>, members: seq<string>, hours: seq<nat>)
    requires Unused(s0) && (forall i :: 0 <= i < |ids| ==> ids[i] > 0)
    requires Distinct<string>(uids) && Distinct(ids) && Distinct(members) && Distinct(hours)
    requires Covers<string>(steps, UserClass(), uids) && Covers(steps, NodeClass(), ids)
    requires Covers(steps, RegionClass(), members) && Covers(steps, HourClass(), hours)
    ensures var s := Run(s0, steps);
         SumOver<string>(uids, UserTotals(s)) == SumOver(ids, NodeTotals(s))
           == SumOver(members, RegionScores(s)) == SumOver(hours, HourTotals(s))
         <==> SumOver<string>(uids, UserExcesses(s0, steps)) == 0 && SumOver(ids, NodeExcesses(s0, steps)) == 0
  {
    FourTotals(s0, steps, uids, ids, members, hours);
  }

  /** As long as no listed user is deleted or cleaned up, the total of the users is the recorded one
      exactly when no flush holds, or was abandoned holding, bytes of any of them in both places. */
  lemma UserTotalExactly(s0: State, steps: seq<Step>, uids: seq<Uid>)
    requires Unused(s0) && Distinct<string>(uids) && Covers<string>(steps, UserClass(), uids)
    requires forall i :: 0 <= i < |uids| ==>
               uids[i] in s0.users && ClearCounters(uids[i]) !in steps && DeleteUser(uids[i]) !in steps
    ensures SumOver<string>(uids, UserTotals(Run(s0, steps))) >= AllBytes(steps)
    ensures SumOver<string>(uids, UserTotals(Run(s0, steps))) == AllBytes(steps)
       <==> forall i :: 0 <= i < |uids| ==>
              StoredTwiceBytes(s0, steps, uids[i]) == 0 && InFlightBytes(Run(s0, steps), uids[i]) == 0
  {
    UserSum(s0, steps, uids);
    forall i | 0 <= i < |uids|
      ensures UserExcess(s0, steps, uids[i]) >= 0
      ensures UserExcess(s0, steps, uids[i]) == 0
         <==> StoredTwiceBytes(s0, steps, uids[i]) == 0 && InFlightBytes(Run(s0, steps), uids[i]) == 0
    {
      UserExcessIs(s0, steps, uids[i]);
    }
    SumOverZero<string>(uids, UserExcesses(s0, steps));
  }

  lemma UserExcessIs(s0: State, steps: seq<Step>, uid: Uid)
    requires Unused(s0) && uid in s0.users && ClearCounters(uid) !in steps && DeleteUser(uid) !in steps
    ensures UserExcess(s0, steps, uid) >= 0
    ensures UserExcess(s0, steps, uid) == 0
       <==> StoredTwiceBytes(s0, steps, uid) == 0 && InFlightBytes(Run(s0, steps), uid) == 0
  {
    NeverCleared(s0, steps, uid);
    NeverDeleted(s0, steps, uid);
    TwiceNonNegative(s0, steps, uid);
  }

  // ---------------------------------------------------------------- runs in which they do not agree

  lemma {:induction false} AllAppend(a: seq<Step>, b: seq<Step>)
    ensures AllBytes(a + b) == AllBytes(a) + AllBytes(b)
  {
    if b == [] {
      assert a + b == a;
    } else {
      assert Front(a + b) == a + Front(b) && Last(a + b) == Last(b);
      AllAppend(a, Front(b));
    }
  }

  lemma {:induction false} AllThen(step: Step, n: nat)
    ensures AllBytes(Then(step, n)) == match step case Record(r) => Bytes(r) case _ => 0
  {
    if n == 0 {
      assert Then(step, 0) == [step] && Front([step]) == [];
    } else {
      AllThen(step, n - 1);
      assert Front(Then(step, n)) == Then(step, n - 1);
    }
  }

  lemma ThreeAll(x: Step, k: nat, y: Step, m: nat, z: Step, n: nat)
    ensures AllBytes(Three(x, k, y, m, z, n)) == AllBytes(Then(x, 0)) + AllBytes(Then(y, 0)) + AllBytes(Then(z, 0))
  {
    AllAppend(Then(x, k), Then(y, m));
    AllAppend(Then(x, k) + Then(y, m), Then(z, n));
    AllThen(x, k);
    AllThen(y, m);
    AllThen(z, n);
    AllThen(x, 0);
    AllThen(y, 0);
    AllThen(z, 0);
  }

  /** After an upload, the node has it pending as well. */
  lemma NodePendingAfter(s: State, uid: Uid, id: nat, bytes: nat)
    requires s.counters == map[] && id > 0
    ensures var c := Next(s, Record(Uploaded(uid, id, bytes))).counters;
         && Value(c, Usage(NodeOwner(id), Upload)) == bytes
         && Value(c, Usage(NodeOwner(id), Download)) == 0
         && Value(c, Usage(NodeOwner(id), Requests)) == 1
  {
    SpellsNoNode(uid);
    RecordEffect(s, Uploaded(uid, id, bytes), NodeOwner(id), Upload);
    RecordEffect(s, Uploaded(uid, id, bytes), NodeOwner(id), Download);
    RecordEffect(s, Uploaded(uid, id, bytes), NodeOwner(id), Requests);
  }

  /** An abandoned flush: the users have the bytes twice, the nodes once. */
  lemma AbandonBreaksTotals(uid: Uid, quota: int, id: nat, bytes: nat)
    requires !Skipped(uid) && id > 0 && bytes > 0
    ensures var s0 := Start(uid, quota, id);
         var steps := Three(Record(Uploaded(uid, id, bytes)), 0, Begin(OfUser(uid)), 3, Abandon, 0);
         var s := Run(s0, steps);
         && Unused(s0) && s.flusher.Idle? && AllBytes(steps) == bytes
         && UsageOf(s, uid) == 2 * bytes && NodeTotal(s, id) == bytes
  {
    var s0, r, t := Start(uid, quota, id), Record(Uploaded(uid, id, bytes)), OfUser(uid);
    AbandonedRun(s0, uid, id, bytes);
    NodePendingAfter(s0, uid, id, bytes);
    ThreeAll(r, 0, Begin(t), 3, Abandon, 0);
    AllThen(r, 0);
    AllThen(Begin(t), 0);
    AllThen(Abandon, 0);
  }

  /** The row of the node is loaded, traffic is flushed into it, and the loaded row is saved back. */
  function OverwritingSteps(uid: Uid, id: nat, bytes: nat): seq<Step> {
    Three(Load(0, id), 0, Record(Uploaded(uid, id, bytes)), 0, Begin(OfNode(id)), 4) + Then(Save(0), 0)
  }

  lemma FlushedInWindow(s0: State, uid: Uid, id: nat, bytes: nat)
    requires s0.flusher.Idle? && s0.counters == map[] && s0.windows == map[] && id in s0.nodes && id > 0
    ensures var s := Run(s0, Three(Load(0, id), 0, Record(Uploaded(uid, id, bytes)), 0, Begin(OfNode(id)), 4));
         && s.flusher.Idle? && s.users == s0.users && s.windows == map[0 := Window(id, s0.nodes[id])]
         && NothingPending(s, NodeOwner(id)) && PendingUsage(s, uid) == bytes
  {
    var r, t := Record(Uploaded(uid, id, bytes)), OfNode(id);
    var s2 := Next(Next(s0, Load(0, id)), r);
    LoadedThenRecorded(s0, uid, id, bytes);
    ThreeRun(s0, Load(0, id), 0, r, 0, Begin(t), 4);
    RunAdvances(s2, Begin(t), 4);
    UninterruptedNodeFlush(s2, id);
    NodeFlushSparesUser(s2, id, uid);
  }

  lemma LoadedThenRecorded(s0: State, uid: Uid, id: nat, bytes: nat)
    requires s0.flusher.Idle? && s0.counters == map[] && s0.windows == map[] && id in s0.nodes
    ensures var s1, r := Next(s0, Load(0, id)), Record(Uploaded(uid, id, bytes));
         var s2 := Next(s1, r);
         && AdvancedBy(Next(AdvancedBy(s1, 0), r), 0) == s2
         && s2.flusher.Idle? && s2.users == s0.users && s2.windows == map[0 := Window(id, s0.nodes[id])]
         && PendingUsage(s2, uid) == bytes
  {
    var s1 := Next(s0, Load(0, id));
    AfterUpload(s1, uid, id, bytes);
    IdleStays(s1, 0);
    IdleStays(Next(s1, Record(Uploaded(uid, id, bytes))), 0);
  }

  lemma NodeFlushSparesUser(s: State, id: nat, uid: Uid)
    requires s.flusher.Idle?
    ensures PendingUsage(Run(s, FlushOfNode(id)), uid) == PendingUsage(s, uid)
  {
    SpellsNoNode(uid);
    NodeFlushReaches(s, id);
    var f, o := WithRead(s, OfNode(id)).flusher, NodeOwner(id);
    AddAllEffect(s.counters, o, -f.up, -f.down, -f.reqs, uid, Upload);
    AddAllEffect(s.counters, o, -f.up, -f.down, -f.reqs, uid, Download);
  }

  /** A save over a flush: the users have the bytes, the nodes have none. */
  lemma SaveBreaksTotals(uid: Uid, quota: int, id: nat, bytes: nat)
    requires id > 0 && bytes > 0
    ensures var s0, steps := Start(uid, quota, id), OverwritingSteps(uid, id, bytes);
         var s := Run(s0, steps);
         && Unused(s0) && s.flusher.Idle? && AllBytes(steps) == bytes
         && UsageOf(s, uid) == bytes && NodeTotal(s, id) == 0
  {
    var s0, r, t := Start(uid, quota, id), Record(Uploaded(uid, id, bytes)), OfNode(id);
    var a := Three(Load(0, id), 0, r, 0, Begin(t), 4);
    FlushedInWindow(s0, uid, id, bytes);
    RunAppend(s0, a, Then(Save(0), 0));
    RunAdvances(Run(s0, a), Save(0), 0);
    IdleStays(Next(Run(s0, a), Save(0)), 0);
    ThreeAll(Load(0, id), 0, r, 0, Begin(t), 4);
    AllAppend(a, Then(Save(0), 0));
    AllThen(Load(0, id), 0);
    AllThen(r, 0);
    AllThen(Begin(t), 0);
    AllThen(Save(0), 0);
  }

  // ---------------------------------------------------------------- today

  /** Bytes of the records of one UTC day (hours are counted from the epoch). */
  function DayBytes(steps: seq<Step>, day: nat): nat {
    if steps == [] then 0 else
      DayBytes(Front(steps), day)
      + match Last(steps) case Record(r) => if r.hour / 24 == day then Bytes(r) else 0 case _ => 0
  }

  /** The hours `todayTraffic` adds up: from the current one back to the first of the day. */
  function HoursOfToday(now: nat): seq<nat> {
    seq(now % 24 + 1, i requires 0 <= i <= now % 24 => now - i)
  }

  lemma HoursOfTodayAre(now: nat, hour: nat)
    ensures hour in HoursOfToday(now) <==> hour <= now && hour / 24 == now / 24
    ensures Distinct(HoursOfToday(now))
  {
    if hour <= now && hour / 24 == now / 24 {
      assert HoursOfToday(now)[now - hour] == hour;
    }
  }

  lemma {:induction false} ListedTodayIsDay(steps: seq<Step>, now: nat)
    requires forall i :: 0 <= i < |steps| && steps[i].Record? ==> steps[i].record.hour <= now
    ensures ListedBytes(steps, HourClass(), HoursOfToday(now)) == DayBytes(steps, now / 24)
  {
    if steps != [] {
      ListedTodayIsDay(Front(steps), now);
      if Last(steps).Record? {
        HoursOfTodayAre(now, Last(steps).record.hour);
      }
    }
  }

  /** The loop over the hours of today yields the bytes recorded in the current UTC day so far. */
  lemma TodayIsDay(s0: State, steps: seq<Step>, now: nat)
    requires s0.counters == map[]
    requires forall i :: 0 <= i < |steps| && steps[i].Record? ==> steps[i].record.hour <= now
    ensures BackFrom(Run(s0, steps), now, now % 24 + 1) == DayBytes(steps, now / 24)
  {
    var s := Run(s0, steps);
    HoursOfTodayAre(now, 0);
    HourSum(s0, steps, HoursOfToday(now));
    ListedTodayIsDay(steps, now);
    assert HoursOfToday(now)[..now % 24 + 1] == HoursOfToday(now);
    BackFromIsSum(s, now, now % 24 + 1, HourTotals(s));
  }

  /** The last n hour counters, as the loop adds them up. */
  function BackFrom(s: State, now: nat, n: nat): int
    requires n <= now + 1
  {
    if n == 0 then 0 else BackFrom(s, now, n - 1) + HourBytes(s, now - (n - 1))
  }

  lemma {:induction false} BackFromIsSum(s: State, now: nat, n: nat, f: nat -> int)
    requires n <= now % 24 + 1
    requires forall h :: f(h) == HourBytes(s, h)
    ensures BackFrom(s, now, n) == SumOver(HoursOfToday(now)[..n], f)
  {
    if n > 0 {
      BackFromIsSum(s, now, n - 1, f);
      assert Front(HoursOfToday(now)[..n]) == HoursOfToday(now)[..n - 1];
    }
  }
}
