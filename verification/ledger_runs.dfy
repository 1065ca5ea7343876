/** Particular runs of the ledger: flushes that nothing interrupts, and the shortest runs that lose
    traffic or count it twice. */
module LedgerRuns {
  import opened Text
  import opened RedisKeys
  import opened Ledger
  import opened LedgerConservation

  function PendingUsage(s: State, uid: string): int {
    Pending(s, uid, Upload) + Pending(s, uid, Download)
  }

  predicate NothingPending(s: State, owner: string) {
    Pending(s, owner, Upload) == 0 && Pending(s, owner, Download) == 0 && Pending(s, owner, Requests) == 0
  }

  /** A step followed by commands of the flusher. */
  function Then(step: Step, n: nat): seq<Step> {
    [step] + Advances(n)
  }

  /** One complete flush of a user: five commands after the first read. */
  function FlushOf(uid: string): seq<Step> {
    Then(Begin(OfUser(uid)), 5)
  }

  /** One complete flush of a node: four commands after the first read. */
  function FlushOfNode(id: nat): seq<Step> {
    Then(Begin(OfNode(id)), 4)
  }

  // ---------------------------------------------------------------- flushes that nothing interrupts

  /** The state after the three reads of an iteration. */
  function WithRead(s: State, t: Target): State {
    var o := t.Owner();
    s.(flusher := GotRequests(t, Pending(s, o, Upload), Pending(s, o, Download), Pending(s, o, Requests)))
  }

  lemma ReadStage(s: State, t: Target)
    requires s.flusher.Idle? && (t.OfUser? ==> !Skipped(t.uid) && PendingUsage(s, t.uid) != 0)
    ensures AdvancedBy(Next(s, Begin(t)), 2) == WithRead(s, t)
  {
    var o := t.Owner();
    var s0 := Next(s, Begin(t));
    assert s0 == s.(flusher := GotUpload(t, Pending(s, o, Upload)));
    var s1 := Advanced(s0);
    assert s1 == s.(flusher := GotDownload(t, Pending(s, o, Upload), Pending(s, o, Download)));
    assert AdvancedBy(s0, 0) == s0 && AdvancedBy(s0, 1) == s1;
  }

  /** The state after the rest of an iteration of a user, when nothing interrupts that. */
  function Completed(s: State, uid: string): State
    requires s.flusher.GotRequests?
  {
    var f := s.flusher;
    s.(users := StoreUser(s.users, uid, f.up + f.down, f.reqs),
       counters := AddAll(s.counters, uid, -f.up, -f.down, -Pending(s, uid, Requests)),
       flusher := Idle)
  }

  lemma CompleteStage(s: State, uid: string)
    requires s.flusher.GotRequests? && s.flusher.target == OfUser(uid)
    ensures AdvancedBy(s, 3) == Completed(s, uid)
  {
    var f, users := s.flusher, StoreUser(s.users, uid, s.flusher.up + s.flusher.down, s.flusher.reqs);
    var s1 := s.(users := users, flusher := Stored(f.target, f.up, f.down, f.reqs));
    var s2 := s.(users := users, flusher := Recounted(f.target, f.up, f.down, f.reqs, Pending(s, uid, Requests)));
    assert Advanced(s) == s1 && Advanced(s1) == s2;
    assert AdvancedBy(s, 0) == s && AdvancedBy(s, 1) == s1 && AdvancedBy(s, 2) == s2;
  }

  lemma CompletedEffect(s: State, uid: string)
    requires s.flusher.GotRequests?
    ensures var f, s' := s.flusher, Completed(s, uid);
         && Pending(s', uid, Upload) == Pending(s, uid, Upload) - f.up
         && Pending(s', uid, Download) == Pending(s, uid, Download) - f.down
         && Pending(s', uid, Requests) == 0
  {
    var f, reqs := s.flusher, Pending(s, uid, Requests);
    AddAllEffect(s.counters, uid, -f.up, -f.down, -reqs, uid, Upload);
    AddAllEffect(s.counters, uid, -f.up, -f.down, -reqs, uid, Download);
    AddAllEffect(s.counters, uid, -f.up, -f.down, -reqs, uid, Requests);
  }

  lemma FlushReaches(s: State, uid: string)
    requires s.flusher.Idle? && !Skipped(uid) && PendingUsage(s, uid) != 0
    ensures Run(s, FlushOf(uid)) == Completed(WithRead(s, OfUser(uid)), uid)
  {
    var t := OfUser(uid);
    RunAdvances(s, Begin(t), 5);
    ReadStage(s, t);
    Joined(Next(s, Begin(t)), WithRead(s, t));
    CompleteStage(WithRead(s, t), uid);
  }

  lemma Joined(s: State, read: State)
    requires AdvancedBy(s, 2) == read
    ensures AdvancedBy(s, 3) == AdvancedBy(read, 1)
    ensures AdvancedBy(s, 4) == AdvancedBy(read, 2)
    ensures AdvancedBy(s, 5) == AdvancedBy(read, 3)
  {
    AdvancedPlus(s, 2, 1);
    AdvancedPlus(s, 2, 2);
    AdvancedPlus(s, 2, 3);
  }

  /** A flush that nothing interrupts moves all pending bytes and requests of the user into SQL. */
  lemma UninterruptedFlush(s: State, uid: string)
    requires s.flusher.Idle? && !Skipped(uid) && PendingUsage(s, uid) != 0
    ensures var s' := Run(s, FlushOf(uid));
         && s'.flusher.Idle? && NothingPending(s', uid)
         && s'.users == StoreUser(s.users, uid, PendingUsage(s, uid), Pending(s, uid, Requests))
  {
    FlushReaches(s, uid);
    CompletedEffect(WithRead(s, OfUser(uid)), uid);
  }

  /** A flush of a user without pending bytes changes nothing: pending requests wait for bytes. */
  lemma NoBytesNoFlush(s: State, uid: string)
    requires s.flusher.Idle? && (Skipped(uid) || PendingUsage(s, uid) == 0)
    ensures Run(s, FlushOf(uid)) == s
  {
    var begun := Next(s, Begin(OfUser(uid)));
    RunAdvances(s, Begin(OfUser(uid)), 5);
    if Skipped(uid) {
      IdleStays(s, 5);
    } else {
      SkippedRead(s, uid);
      Joined(begun, s);
      IdleStays(s, 3);
    }
  }

  lemma SkippedRead(s: State, uid: string)
    requires s.flusher.Idle? && !Skipped(uid) && PendingUsage(s, uid) == 0
    ensures AdvancedBy(Next(s, Begin(OfUser(uid))), 2) == s
  {
    var t := OfUser(uid);
    var s0 := Next(s, Begin(t));
    assert s0 == s.(flusher := GotUpload(t, Pending(s, uid, Upload)));
    var s1 := Advanced(s0);
    assert s1 == s.(flusher := GotDownload(t, Pending(s, uid, Upload), Pending(s, uid, Download)));
    assert AdvancedBy(s0, 0) == s0 && AdvancedBy(s0, 1) == s1;
  }

  /** The same for a node: an update and a drain, or neither. */
  function CompletedNode(s: State, id: nat): State
    requires s.flusher.GotRequests?
  {
    var f := s.flusher;
    if f.up == 0 && f.down == 0 && f.reqs == 0 then s.(flusher := Idle)
    else s.(nodes := StoreNode(s.nodes, id, f.up, f.down, f.reqs),
            counters := AddAll(s.counters, NodeOwner(id), -f.up, -f.down, -f.reqs),
            flusher := Idle)
  }

  lemma CompleteNodeStage(s: State, id: nat)
    requires s.flusher.GotRequests? && s.flusher.target == OfNode(id)
    ensures AdvancedBy(s, 2) == CompletedNode(s, id)
  {
    var f, s1 := s.flusher, Advanced(s);
    assert AdvancedBy(s, 0) == s && AdvancedBy(s, 1) == s1;
    if f.up == 0 && f.down == 0 && f.reqs == 0 {
      assert s1 == s.(flusher := Idle);
    } else {
      assert s1 == s.(nodes := StoreNode(s.nodes, id, f.up, f.down, f.reqs),
                      flusher := Stored(f.target, f.up, f.down, f.reqs));
    }
  }

  lemma StoresNothing(nodes: map<nat, Node>, id: nat)
    ensures StoreNode(nodes, id, 0, 0, 0) == nodes
  {
  }

  lemma CompletedNodeEffect(s: State, id: nat)
    requires s.flusher.GotRequests?
    ensures var f, s', o := s.flusher, CompletedNode(s, id), NodeOwner(id);
         && s'.nodes == StoreNode(s.nodes, id, f.up, f.down, f.reqs)
         && Pending(s', o, Upload) == Pending(s, o, Upload) - f.up
         && Pending(s', o, Download) == Pending(s, o, Download) - f.down
         && Pending(s', o, Requests) == Pending(s, o, Requests) - f.reqs
  {
    var f, o := s.flusher, NodeOwner(id);
    if f.up == 0 && f.down == 0 && f.reqs == 0 {
      StoresNothing(s.nodes, id);
    } else {
      AddAllEffect(s.counters, o, -f.up, -f.down, -f.reqs, o, Upload);
      AddAllEffect(s.counters, o, -f.up, -f.down, -f.reqs, o, Download);
      AddAllEffect(s.counters, o, -f.up, -f.down, -f.reqs, o, Requests);
    }
  }

  lemma NodeFlushReaches(s: State, id: nat)
    requires s.flusher.Idle?
    ensures Run(s, FlushOfNode(id)) == CompletedNode(WithRead(s, OfNode(id)), id)
  {
    var t := OfNode(id);
    RunAdvances(s, Begin(t), 4);
    ReadStage(s, t);
    Joined(Next(s, Begin(t)), WithRead(s, t));
    CompleteNodeStage(WithRead(s, t), id);
  }

  /** A flush of a node that nothing interrupts. */
  lemma UninterruptedNodeFlush(s: State, id: nat)
    requires s.flusher.Idle?
    ensures var s', o := Run(s, FlushOfNode(id)), NodeOwner(id);
         && s'.flusher.Idle? && s'.users == s.users && s'.windows == s.windows && NothingPending(s', o)
         && s'.nodes == StoreNode(s.nodes, id, Pending(s, o, Upload), Pending(s, o, Download), Pending(s, o, Requests))
  {
    NodeFlushReaches(s, id);
    CompletedNodeEffect(WithRead(s, OfNode(id)), id);
  }

  /** A node with nothing pending, requests included, is not flushed. */
  lemma NothingNoNodeFlush(s: State, id: nat)
    requires s.flusher.Idle? && NothingPending(s, NodeOwner(id))
    ensures Run(s, FlushOfNode(id)) == s
  {
    NodeFlushReaches(s, id);
  }

  // ---------------------------------------------------------------- clean-ups during a flush

  lemma {:induction false} IdleStays(s: State, n: nat)
    requires s.flusher.Idle?
    ensures AdvancedBy(s, n) == s
  {
    if n > 0 { IdleStays(s, n - 1); }
  }

  /** How many commands of the iteration are left. */
  function CommandsLeft(f: Flusher): nat {
    match f
    case Idle => 0
    case GotUpload(_, _) => 5
    case GotDownload(_, _, _) => 4
    case GotRequests(_, _, _, _) => 3
    case Stored(_, _, _, _) => 2
    case Recounted(_, _, _, _, _) => 1
  }

  /** What the rest of the iteration takes out of counters that hold nothing: bytes as they were read,
      requests only after their second read. */
  function StillDrained(f: Flusher, d: Direction): int {
    match d
    case Upload => if f.Idle? then 0 else f.up
    case Download => if f.Idle? || f.GotUpload? then 0 else f.down
    case Requests => if f.Recounted? then f.again else 0
  }

  lemma AdvancedOnce(s: State)
    ensures AdvancedBy(s, 1) == Advanced(s)
  {
    assert AdvancedBy(s, 0) == s;
  }

  /** The pipeline of DecrBy. */
  lemma DrainStage(s: State, o: string)
    requires s.flusher.Draining() && s.flusher.target.Owner() == o
    ensures var f, s' := s.flusher, Advanced(s);
         && s'.flusher.Idle? && s'.users == s.users
         && Pending(s', o, Upload) == Pending(s, o, Upload) - f.up
         && Pending(s', o, Download) == Pending(s, o, Download) - f.down
         && Pending(s', o, Requests) == Pending(s, o, Requests) - f.DrainedRequests()
  {
    AdvanceEffect(s, o, Upload);
    AdvanceEffect(s, o, Download);
    AdvanceEffect(s, o, Requests);
  }

  /** A flush of this user that is over, or whose counters hold nothing. */
  predicate OnEmpty(s: State, uid: string) {
    s.flusher.Idle?
    || (s.flusher.target == OfUser(uid) && NothingPending(s, uid)
        && s.flusher.up >= 0 && (s.flusher.GotUpload? || s.flusher.down >= 0))
  }

  /** The commands before the drain read zeros and change no counter. */
  lemma ReadsEmpty(s: State, uid: string)
    requires OnEmpty(s, uid) && !s.flusher.Idle? && !s.flusher.Recounted?
    ensures var s' := Advanced(s);
         && s'.counters == s.counters && OnEmpty(s', uid) && CommandsLeft(s'.flusher) < CommandsLeft(s.flusher)
         && forall d :: StillDrained(s'.flusher, d) == StillDrained(s.flusher, d)
  {
  }

  lemma StepOnEmpty(s: State, uid: string, d: Direction) returns (s': State)
    requires OnEmpty(s, uid) && !s.flusher.Idle?
    ensures s' == Advanced(s) && OnEmpty(s', uid) && CommandsLeft(s'.flusher) < CommandsLeft(s.flusher)
    ensures Pending(s', uid, d) - StillDrained(s'.flusher, d) == Pending(s, uid, d) - StillDrained(s.flusher, d)
  {
    s' := Advanced(s);
    if s.flusher.Recounted? {
      DrainStage(s, uid);
    } else {
      ReadsEmpty(s, uid);
    }
  }

  lemma {:induction false} DrainsEmpty(s: State, uid: string, n: nat, d: Direction)
    requires OnEmpty(s, uid) && n >= CommandsLeft(s.flusher)
    ensures Pending(AdvancedBy(s, n), uid, d) == Pending(s, uid, d) - StillDrained(s.flusher, d)
    decreases n
  {
    if s.flusher.Idle? {
      IdleStays(s, n);
    } else {
      var s' := StepOnEmpty(s, uid, d);
      DrainsEmpty(s', uid, n - 1, d);
      AdvancedFirst(s, s', n - 1);
    }
  }

  /** Deleting the counters of a user at any point of the flush of this user leaves them negative by
      what the flush had read and still drains. */
  lemma CleanupDuringFlush(s: State, uid: string, d: Direction)
    requires Covered(s, uid) && !s.flusher.Idle? && s.flusher.target == OfUser(uid)
    ensures Pending(AdvancedBy(Next(s, ClearCounters(uid)), 5), uid, d) == -StillDrained(s.flusher, d)
  {
    WithoutEffect(s.counters, uid, uid, Upload);
    WithoutEffect(s.counters, uid, uid, Download);
    WithoutEffect(s.counters, uid, uid, Requests);
    DrainsEmpty(Next(s, ClearCounters(uid)), uid, 5, d);
  }

  // ---------------------------------------------------------------- what short runs record

  /** A ledger with one user and one node, no traffic and nothing running. */
  function Start(uid: string, quota: int, id: nat): State {
    State(map[], map[uid := User(0, 0, quota, true, None)], map[id := Node(0, 0, 0)], Idle, map[])
  }

  function Uploaded(uid: Uid, id: nat, bytes: nat): TrafficRecord {
    TrafficRecord(uid, id, "", bytes, 0, 1, 0)
  }

  lemma {:induction false} RecordedAppend(a: seq<Step>, b: seq<Step>, uid: string, d: Direction)
    ensures RecordedFor(a + b, uid, d) == RecordedFor(a, uid, d) + RecordedFor(b, uid, d)
  {
    if b == [] {
      assert a + b == a;
    } else {
      assert Front(a + b) == a + Front(b) && Last(a + b) == Last(b);
      RecordedAppend(a, Front(b), uid, d);
    }
  }

  lemma {:induction false} RecordedThen(step: Step, n: nat, uid: string, d: Direction)
    ensures RecordedFor(Then(step, n), uid, d) == StepAmount(step, uid, d)
  {
    if n == 0 {
      assert Then(step, 0) == [step] && Front([step]) == [];
    } else {
      RecordedThen(step, n - 1, uid, d);
      assert Front(Then(step, n)) == Then(step, n - 1);
    }
  }

  lemma {:induction false} ThenHolds(step: Step, n: nat)
    ensures forall x :: x in Then(step, n) ==> x == step || x == Advance
  {
    if n == 0 {
      assert Then(step, 0) == [step];
    } else {
      ThenHolds(step, n - 1);
      assert Then(step, n) == Then(step, n - 1) + [Advance];
    }
  }

  /** Three steps, each followed by commands of the flusher. */
  function Three(x: Step, k: nat, y: Step, m: nat, z: Step, n: nat): seq<Step> {
    Then(x, k) + Then(y, m) + Then(z, n)
  }

  lemma ThreeRun(s: State, x: Step, k: nat, y: Step, m: nat, z: Step, n: nat)
    ensures Run(s, Three(x, k, y, m, z, n))
         == AdvancedBy(Next(AdvancedBy(Next(AdvancedBy(Next(s, x), k), y), m), z), n)
  {
    RunAppend(s, Then(x, k), Then(y, m));
    RunAppend(s, Then(x, k) + Then(y, m), Then(z, n));
    RunAdvances(s, x, k);
    RunAdvances(Run(s, Then(x, k)), y, m);
    RunAdvances(Run(s, Then(x, k) + Then(y, m)), z, n);
  }

  lemma ThreeRecorded(x: Step, k: nat, y: Step, m: nat, z: Step, n: nat, uid: string, d: Direction)
    ensures RecordedFor(Three(x, k, y, m, z, n), uid, d)
         == StepAmount(x, uid, d) + StepAmount(y, uid, d) + StepAmount(z, uid, d)
  {
    RecordedAppend(Then(x, k), Then(y, m), uid, d);
    RecordedAppend(Then(x, k) + Then(y, m), Then(z, n), uid, d);
    RecordedThen(x, k, uid, d);
    RecordedThen(y, m, uid, d);
    RecordedThen(z, n, uid, d);
  }

  lemma ThreeHolds(x: Step, k: nat, y: Step, m: nat, z: Step, n: nat, other: Step)
    requires other != x && other != y && other != z && !other.Advance?
    ensures other !in Three(x, k, y, m, z, n)
  {
    ThenHolds(x, k);
    ThenHolds(y, m);
    ThenHolds(z, n);
  }

  // ---------------------------------------------------------------- runs that lose or gain

  /** The user uploads once. */
  lemma AfterUpload(s: State, uid: Uid, id: nat, bytes: nat)
    ensures var s1 := Next(s, Record(Uploaded(uid, id, bytes)));
         && s1 == s.(counters := s1.counters)
         && Pending(s1, uid, Upload) == Pending(s, uid, Upload) + bytes
         && Pending(s1, uid, Download) == Pending(s, uid, Download)
         && Pending(s1, uid, Requests) == Pending(s, uid, Requests) + 1
  {
    var r := Uploaded(uid, id, bytes);
    RecordEffect(s, r, uid, Upload);
    RecordEffect(s, r, uid, Download);
    RecordEffect(s, r, uid, Requests);
    UserCharge(r, uid, Upload);
    UserCharge(r, uid, Download);
    UserCharge(r, uid, Requests);
  }

  lemma LosingReaches(s1: State, r: Step, uid: string)
    requires s1.flusher.Idle? && !Skipped(uid) && PendingUsage(s1, uid) != 0 && r.Record?
    ensures AdvancedBy(Next(AdvancedBy(Next(s1, Begin(OfUser(uid))), 2), r), 3)
         == Completed(Next(WithRead(s1, OfUser(uid)), r), uid)
  {
    ReadStage(s1, OfUser(uid));
    CompleteStage(Next(WithRead(s1, OfUser(uid)), r), uid);
  }

  lemma LosingEnds(s0: State, uid: Uid, id: nat, bytes: nat)
    requires s0.flusher.Idle? && NothingPending(s0, uid) && !Skipped(uid) && bytes > 0
    ensures var r, t := Record(Uploaded(uid, id, bytes)), OfUser(uid);
         Run(s0, Three(r, 0, Begin(t), 2, r, 3)) == Completed(Next(WithRead(Next(s0, r), t), r), uid)
  {
    var r, t := Record(Uploaded(uid, id, bytes)), OfUser(uid);
    ThreeRun(s0, r, 0, Begin(t), 2, r, 3);
    IdleStays(Next(s0, r), 0);
    AfterUpload(s0, uid, id, bytes);
    LosingReaches(Next(s0, r), r, uid);
  }

  lemma ReadUpload(s0: State, uid: Uid, id: nat, bytes: nat)
    requires s0.flusher.Idle? && NothingPending(s0, uid)
    ensures var r, t := Record(Uploaded(uid, id, bytes)), OfUser(uid);
         var s := Next(WithRead(Next(s0, r), t), r);
         s.flusher == GotRequests(t, bytes, 0, 1) && s.users == s0.users
  {
    var r := Record(Uploaded(uid, id, bytes));
    AfterUpload(s0, uid, id, bytes);
    assert Next(WithRead(Next(s0, r), OfUser(uid)), r).flusher == WithRead(Next(s0, r), OfUser(uid)).flusher;
  }

  lemma UploadCompleted(s: State, uid: string, bytes: nat)
    requires s.flusher == GotRequests(OfUser(uid), bytes, 0, 1)
    ensures var s' := Completed(s, uid);
         s'.flusher.Idle? && s'.users == StoreUser(s.users, uid, bytes, 1) && Pending(s', uid, Requests) == 0
  {
    CompletedEffect(s, uid);
  }

  /** A request between the two reads of requests, which is never added to SQL. */
  lemma LosingRun(s0: State, uid: Uid, id: nat, bytes: nat)
    requires s0.flusher.Idle? && NothingPending(s0, uid) && !Skipped(uid) && bytes > 0
    ensures var r := Record(Uploaded(uid, id, bytes));
         var s := Run(s0, Three(r, 0, Begin(OfUser(uid)), 2, r, 3));
         && s.flusher.Idle? && s.users == StoreUser(s0.users, uid, bytes, 1) && Pending(s, uid, Requests) == 0
  {
    var r, t := Record(Uploaded(uid, id, bytes)), OfUser(uid);
    LosingEnds(s0, uid, id, bytes);
    ReadUpload(s0, uid, id, bytes);
    UploadCompleted(Next(WithRead(Next(s0, r), t), r), uid, bytes);
  }

  lemma RequestIsLost(uid: Uid, quota: int, id: nat, bytes: nat)
    requires !Skipped(uid) && bytes > 0
    ensures var r, s0 := Record(Uploaded(uid, id, bytes)), Start(uid, quota, id);
         var steps := Three(r, 0, Begin(OfUser(uid)), 2, r, 3);
         var s := Run(s0, steps);
         && RecordedFor(steps, uid, Requests) == 2 && s.flusher.Idle?
         && InRow(s, uid, TotalRequests) == 1 && Pending(s, uid, Requests) == 0
         && LostRequests(s0, steps, uid) == 1
  {
    var r, s0, t := Record(Uploaded(uid, id, bytes)), Start(uid, quota, id), OfUser(uid);
    var steps := Three(r, 0, Begin(t), 2, r, 3);
    LosingRun(s0, uid, id, bytes);
    ThreeRecorded(r, 0, Begin(t), 2, r, 3, uid, Requests);
    ThreeHolds(r, 0, Begin(t), 2, r, 3, ClearCounters(uid));
    ThreeHolds(r, 0, Begin(t), 2, r, 3, DeleteUser(uid));
    ThreeHolds(r, 0, Begin(t), 2, r, 3, Abandon);
    NeverCleared(s0, steps, uid);
    NeverDeleted(s0, steps, uid);
    NeverAbandoned(s0, steps, t);
    RequestsConserved(s0, steps, uid);
  }

  lemma AbandonReaches(s1: State, uid: string)
    requires s1.flusher.Idle? && !Skipped(uid) && PendingUsage(s1, uid) != 0
    ensures Next(AdvancedBy(Next(s1, Begin(OfUser(uid))), 3), Abandon)
         == s1.(users := StoreUser(s1.users, uid, PendingUsage(s1, uid), Pending(s1, uid, Requests)))
  {
    var t := OfUser(uid);
    ReadStage(s1, t);
    Joined(Next(s1, Begin(t)), WithRead(s1, t));
    StoreStage(WithRead(s1, t));
  }

  lemma StoreStage(s: State)
    requires s.flusher.GotRequests? && s.flusher.target.OfUser?
    ensures var f := s.flusher;
         AdvancedBy(s, 1) == s.(users := StoreUser(s.users, f.target.uid, f.up + f.down, f.reqs),
                                flusher := Stored(f.target, f.up, f.down, f.reqs))
  {
    var f := s.flusher;
    var s1 := s.(users := StoreUser(s.users, f.target.uid, f.up + f.down, f.reqs),
                 flusher := Stored(f.target, f.up, f.down, f.reqs));
    assert Advanced(s) == s1;
    AdvancedOnce(s);
  }

  /** A flush that fails after its SQL update. */
  lemma AbandonedRun(s0: State, uid: Uid, id: nat, bytes: nat)
    requires s0.flusher.Idle? && NothingPending(s0, uid) && !Skipped(uid) && bytes > 0
    ensures var s := Run(s0, Three(Record(Uploaded(uid, id, bytes)), 0, Begin(OfUser(uid)), 3, Abandon, 0));
         && s.flusher.Idle? && s.users == StoreUser(s0.users, uid, bytes, 1) && PendingUsage(s, uid) == bytes
         && s.nodes == s0.nodes && s.counters == Next(s0, Record(Uploaded(uid, id, bytes))).counters
  {
    var r, t := Record(Uploaded(uid, id, bytes)), OfUser(uid);
    var s1 := Next(s0, r);
    ThreeRun(s0, r, 0, Begin(t), 3, Abandon, 0);
    IdleStays(s1, 0);
    AfterUpload(s0, uid, id, bytes);
    AbandonReaches(s1, uid);
    IdleStays(Next(AdvancedBy(Next(s1, Begin(t)), 3), Abandon), 0);
  }

  /** It leaves the bytes in both places: the user is charged twice. */
  lemma FlushCountsTwice(uid: Uid, quota: int, id: nat, bytes: nat)
    requires !Skipped(uid) && bytes > 0
    ensures var s0 := Start(uid, quota, id);
         var steps := Three(Record(Uploaded(uid, id, bytes)), 0, Begin(OfUser(uid)), 3, Abandon, 0);
         var s := Run(s0, steps);
         && RecordedBytes(steps, uid) == bytes && s.flusher.Idle?
         && UsageOf(s, uid) == 2 * bytes && StoredTwiceBytes(s0, steps, uid) == bytes
  {
    var r, s0, t := Record(Uploaded(uid, id, bytes)), Start(uid, quota, id), OfUser(uid);
    var steps := Three(r, 0, Begin(t), 3, Abandon, 0);
    AbandonedRun(s0, uid, id, bytes);
    ThreeRecorded(r, 0, Begin(t), 3, Abandon, 0, uid, Upload);
    ThreeRecorded(r, 0, Begin(t), 3, Abandon, 0, uid, Download);
    ThreeHolds(r, 0, Begin(t), 3, Abandon, 0, ClearCounters(uid));
    ThreeHolds(r, 0, Begin(t), 3, Abandon, 0, DeleteUser(uid));
    NeverCleared(s0, steps, uid);
    NeverDeleted(s0, steps, uid);
    BytesConserved(s0, steps, uid);
  }

  lemma RecountStage(s: State)
    requires s.flusher.GotRequests? && s.flusher.target.OfUser?
    ensures var f := s.flusher;
         AdvancedBy(s, 2) == s.(users := StoreUser(s.users, f.target.uid, f.up + f.down, f.reqs),
                                flusher := Recounted(f.target, f.up, f.down, f.reqs,
                                                     Pending(s, f.target.uid, Requests)))
  {
    StoreStage(s);
    assert AdvancedBy(s, 2) == Advanced(AdvancedBy(s, 1));
  }

  /** The user is deleted right before the flush drains, and created again. */
  function DeletingSteps(uid: Uid, id: nat, bytes: nat, quota: nat): seq<Step> {
    Three(Record(Uploaded(uid, id, bytes)), 0, Begin(OfUser(uid)), 4, DeleteUser(uid), 0)
    + Then(ClearCounters(uid), 1) + Then(CreateUser(uid, quota, true, None), 0)
  }

  lemma DeletingReaches(s1: State, uid: string)
    requires s1.flusher.Idle? && !Skipped(uid) && PendingUsage(s1, uid) != 0
    ensures var t, up, down := OfUser(uid), Pending(s1, uid, Upload), Pending(s1, uid, Download);
         var reqs := Pending(s1, uid, Requests);
         Next(AdvancedBy(Next(s1, Begin(t)), 4), DeleteUser(uid))
         == s1.(users := s1.users - {uid}, flusher := Recounted(t, up, down, reqs, reqs))
  {
    var t := OfUser(uid);
    ReadStage(s1, t);
    Joined(Next(s1, Begin(t)), WithRead(s1, t));
    RecountStage(WithRead(s1, t));
    DeletedAnyway(s1.users, uid, PendingUsage(s1, uid), Pending(s1, uid, Requests));
  }

  lemma DeletedAnyway(users: map<string, User>, uid: string, bytes: int, reqs: int)
    ensures StoreUser(users, uid, bytes, reqs) - {uid} == users - {uid}
  {
  }

  lemma DeletedState(s0: State, uid: Uid, id: nat, bytes: nat)
    requires s0.flusher.Idle? && NothingPending(s0, uid) && !Skipped(uid) && bytes > 0
    ensures var s := Run(s0, Three(Record(Uploaded(uid, id, bytes)), 0, Begin(OfUser(uid)), 4, DeleteUser(uid), 0));
         s.users == s0.users - {uid} && s.flusher == Recounted(OfUser(uid), bytes, 0, 1, 1)
  {
    var r, t := Record(Uploaded(uid, id, bytes)), OfUser(uid);
    var s1 := Next(s0, r);
    ThreeRun(s0, r, 0, Begin(t), 4, DeleteUser(uid), 0);
    IdleStays(s1, 0);
    AfterUpload(s0, uid, id, bytes);
    DeletingReaches(s1, uid);
    assert AdvancedBy(Next(AdvancedBy(Next(s1, Begin(t)), 4), DeleteUser(uid)), 0)
        == Next(AdvancedBy(Next(s1, Begin(t)), 4), DeleteUser(uid));
  }

  /** A user deleted during the own flush leaves negative counters: the next user of that name starts
      with traffic to spare. */
  lemma SuccessorStartsBelowZero(uid: Uid, quota: int, id: nat, bytes: nat, next: nat)
    requires !Skipped(uid) && bytes > 0
    ensures var s := Run(Start(uid, quota, id), DeletingSteps(uid, id, bytes, next));
         && s.flusher.Idle? && uid in s.users && s.users[uid].quota == next
         && UsageOf(s, uid) + bytes == 0 && Pending(s, uid, Requests) == -1
  {
    var s0 := Start(uid, quota, id);
    var a, b, c := Three(Record(Uploaded(uid, id, bytes)), 0, Begin(OfUser(uid)), 4, DeleteUser(uid), 0),
                   Then(ClearCounters(uid), 1), Then(CreateUser(uid, next, true, None), 0);
    DeletedState(s0, uid, id, bytes);
    RunAppend(s0, a, b);
    RunAppend(s0, a + b, c);
    CleanedState(Run(s0, a), uid, bytes);
    RunAdvances(Run(s0, a + b), CreateUser(uid, next, true, None), 0);
    CreatedState(Run(s0, a + b), uid, next);
  }

  lemma CleanedState(s: State, uid: string, bytes: nat)
    requires s.flusher == Recounted(OfUser(uid), bytes, 0, 1, 1) && uid !in s.users
    ensures var s' := Run(s, Then(ClearCounters(uid), 1));
         && s'.flusher.Idle? && uid !in s'.users
         && Pending(s', uid, Upload) + bytes == 0 && Pending(s', uid, Download) == 0 && Pending(s', uid, Requests) == -1
  {
    var cleared := Next(s, ClearCounters(uid));
    RunAdvances(s, ClearCounters(uid), 1);
    AdvancedOnce(cleared);
    WithoutEffect(s.counters, uid, uid, Upload);
    WithoutEffect(s.counters, uid, uid, Download);
    WithoutEffect(s.counters, uid, uid, Requests);
    DrainStage(cleared, uid);
  }

  lemma CreatedState(s: State, uid: string, quota: nat)
    requires uid !in s.users
    ensures var s' := AdvancedBy(Next(s, CreateUser(uid, quota, true, None)), 0);
         && s' == s.(users := s.users[uid := User(0, 0, quota, true, None)])
         && UsageOf(s', uid) == PendingUsage(s, uid)
  {
  }

  /** The node carries traffic, and an admin deletes a user who is called like its counters. */
  function NamesakeSteps(uid: Uid, id: nat, bytes: nat): seq<Step> {
    var o := NodeOwner(id);
    Three(Record(Uploaded(uid, id, bytes)), 0, CreateUser(o, 0, true, None), 0, DeleteUser(o), 0)
    + Then(ClearCounters(o), 0)
  }

  lemma NamesakeEnds(s: State, uid: Uid, id: nat, bytes: nat)
    requires NodeOwner(id) !in s.users
    ensures Run(s, NamesakeSteps(uid, id, bytes))
         == Next(Next(s, Record(Uploaded(uid, id, bytes))), ClearCounters(NodeOwner(id)))
  {
    var o, r := NodeOwner(id), Record(Uploaded(uid, id, bytes));
    var a := Three(r, 0, CreateUser(o, 0, true, None), 0, DeleteUser(o), 0);
    var s1 := Next(s, r);
    RunAppend(s, a, Then(ClearCounters(o), 0));
    ThreeRun(s, r, 0, CreateUser(o, 0, true, None), 0, DeleteUser(o), 0);
    RunAdvances(Run(s, a), ClearCounters(o), 0);
    CreatedAndDeleted(s1, o);
    assert forall x :: AdvancedBy(x, 0) == x;
  }

  lemma CreatedAndDeleted(s: State, uid: string)
    requires uid !in s.users
    ensures Next(Next(s, CreateUser(uid, 0, true, None)), DeleteUser(uid)) == s
  {
    assert s.users[uid := User(0, 0, 0, true, None)] - {uid} == s.users;
  }

  lemma {:induction false} ThroughAppend(a: seq<Step>, b: seq<Step>, id: nat, d: Direction)
    ensures RecordedThrough(a + b, id, d) == RecordedThrough(a, id, d) + RecordedThrough(b, id, d)
  {
    if b == [] {
      assert a + b == a;
    } else {
      assert Front(a + b) == a + Front(b) && Last(a + b) == Last(b);
      ThroughAppend(a, Front(b), id, d);
    }
  }

  lemma ThroughOne(step: Step, id: nat, d: Direction)
    ensures RecordedThrough(Then(step, 0), id, d)
         == match step case Record(r) => (if r.node == id then Amount(r, d) else 0) case _ => 0
  {
    assert Then(step, 0) == [step] && Front([step]) == [];
  }

  lemma NamesakeRecorded(uid: Uid, id: nat, bytes: nat)
    ensures RecordedThrough(NamesakeSteps(uid, id, bytes), id, Upload) == bytes
  {
    var o, r := NodeOwner(id), Record(Uploaded(uid, id, bytes));
    var a, b, c, d := Then(r, 0), Then(CreateUser(o, 0, true, None), 0), Then(DeleteUser(o), 0),
        Then(ClearCounters(o), 0);
    ThroughAppend(a, b, id, Upload);
    ThroughAppend(a + b, c, id, Upload);
    ThroughAppend(a + b + c, d, id, Upload);
    ThroughOne(r, id, Upload);
    ThroughOne(CreateUser(o, 0, true, None), id, Upload);
    ThroughOne(DeleteUser(o), id, Upload);
    ThroughOne(ClearCounters(o), id, Upload);
  }

  /** What was pending for the node is gone. */
  lemma NamesakeClearsNode(uid: Uid, quota: int, id: nat, bytes: nat)
    requires id > 0 && bytes > 0
    ensures var s0, steps, o := Start(uid, quota, id), NamesakeSteps(uid, id, bytes), NodeOwner(id);
         var s := Run(s0, steps);
         && RecordedThrough(steps, id, Upload) == bytes
         && InNode(s, id, Upload) + Pending(s, o, Upload) == 0
         && Pending(s, uid, Upload) == bytes
  {
    var s0 := Start(uid, quota, id);
    NamesakeEnds(s0, uid, id, bytes);
    NamesakeRecorded(uid, id, bytes);
    AfterUpload(s0, uid, id, bytes);
    NodeCleared(Next(s0, Record(Uploaded(uid, id, bytes))), uid, id);
  }

  lemma NodeCleared(s: State, uid: Uid, id: nat)
    ensures var s', o := Next(s, ClearCounters(NodeOwner(id))), NodeOwner(id);
         s'.nodes == s.nodes && Pending(s', o, Upload) == 0 && Pending(s', uid, Upload) == Pending(s, uid, Upload)
  {
    SpellsNoNode(uid);
    WithoutEffect(s.counters, NodeOwner(id), NodeOwner(id), Upload);
    WithoutEffect(s.counters, NodeOwner(id), uid, Upload);
  }
}
