/** What every run of the ledger conserves: recorded bytes and requests are in SQL, in Redis, or in
    one of the losses named here, and nowhere else. */
module LedgerConservation {
  import opened Text
  import opened RedisKeys
  import opened Ledger

  // ---------------------------------------------------------------- what a run recorded

  /** Recorded for a user, summed over the run. */
  function RecordedFor(steps: seq<Step>, uid: string, d: Direction): nat {
    if steps == [] then 0 else RecordedFor(Front(steps), uid, d) + StepAmount(Last(steps), uid, d)
  }

  function StepAmount(step: Step, uid: string, d: Direction): nat {
    match step
    case Record(r) => if r.uid == uid then Amount(r, d) else 0
    case _ => 0
  }

  /** Recorded through a node, summed over the run. */
  function RecordedThrough(steps: seq<Step>, id: nat, d: Direction): nat {
    if steps == [] then 0 else
      RecordedThrough(Front(steps), id, d)
      + match Last(steps)
        case Record(r) => if r.node == id then Amount(r, d) else 0
        case _ => 0
  }

  function RecordedBytes(steps: seq<Step>, uid: string): nat {
    RecordedFor(steps, uid, Upload) + RecordedFor(steps, uid, Download)
  }

  // ---------------------------------------------------------------- amounts held twice

  /** Already added to SQL, not yet taken out of Redis. */
  function InFlight(s: State, t: Target, d: Direction): int {
    var f := s.flusher;
    if (f.Stored? || f.Recounted?) && f.target == t then Pick(d, f.up, f.down, f.reqs) else 0
  }

  function InFlightBytes(s: State, uid: string): int {
    InFlight(s, OfUser(uid), Upload) + InFlight(s, OfUser(uid), Download)
  }

  /** Left in both places by flushes abandoned between their SQL update and their DecrBy. */
  function StoredTwice(s0: State, steps: seq<Step>, t: Target, d: Direction): int {
    if steps == [] then 0 else
      StoredTwice(s0, Front(steps), t, d)
      + if Last(steps).Abandon? then InFlight(Run(s0, Front(steps)), t, d) else 0
  }

  function StoredTwiceBytes(s0: State, steps: seq<Step>, uid: string): int {
    StoredTwice(s0, steps, OfUser(uid), Upload) + StoredTwice(s0, steps, OfUser(uid), Download)
  }

  // ---------------------------------------------------------------- amounts deleted

  function StepCleared(s: State, step: Step, o: string, d: Direction): int {
    if step.ClearCounters? && step.owner == o then Pending(s, o, d) else 0
  }

  /** Pending when the counters of the owner were deleted. */
  function Cleared(s0: State, steps: seq<Step>, o: string, d: Direction): int {
    if steps == [] then 0 else
      Cleared(s0, Front(steps), o, d) + StepCleared(Run(s0, Front(steps)), Last(steps), o, d)
  }

  function ClearedBytes(s0: State, steps: seq<Step>, o: string): int {
    Cleared(s0, steps, o, Upload) + Cleared(s0, steps, o, Download)
  }

  // ---------------------------------------------------------------- what the flusher has read

  /** Counters of this owner are non-negative and cover everything the flusher read of them. */
  predicate Covered(s: State, o: string) {
    var f := s.flusher;
    && Pending(s, o, Upload) >= 0 && Pending(s, o, Download) >= 0 && Pending(s, o, Requests) >= 0
    && (!f.Idle? && f.target.Owner() == o ==>
          && 0 <= f.up <= Pending(s, o, Upload)
          && (!f.GotUpload? ==> 0 <= f.down <= Pending(s, o, Download))
          && (f.GotRequests? || f.Stored? || f.Recounted? ==> 0 <= f.reqs <= Pending(s, o, Requests))
          && (f.Recounted? ==> f.reqs <= f.again <= Pending(s, o, Requests)))
  }

  /** What the flusher holds of this owner after its reads so far. */
  function ReadOf(s: State, o: string, d: Direction): int {
    var f := s.flusher;
    if f.Idle? || f.target.Owner() != o then 0
    else match d
      case Upload => f.up
      case Download => if f.GotUpload? then 0 else f.down
      case Requests =>
        if f.GotUpload? || f.GotDownload? then 0 else if f.Recounted? then f.again else f.reqs
  }

  /** The flusher has read nothing of this owner but zeros. */
  predicate ReadNothing(s: State, o: string) {
    ReadOf(s, o, Upload) == 0 && ReadOf(s, o, Download) == 0 && ReadOf(s, o, Requests) == 0
  }

  lemma CoveredDrain(s: State, o: string)
    requires Covered(s, o) && s.flusher.Draining()
    ensures Covered(Advanced(s), o)
  {
    AdvanceEffect(s, o, Upload);
    AdvanceEffect(s, o, Download);
    AdvanceEffect(s, o, Requests);
    assert Advanced(s).flusher.Idle?;
  }

  lemma CoveredAdvance(s: State, o: string)
    requires Covered(s, o)
    ensures Covered(Advanced(s), o)
  {
    if s.flusher.Draining() {
      CoveredDrain(s, o);
    } else {
      assert Advanced(s).counters == s.counters;
    }
  }

  lemma CoveredRecord(s: State, r: TrafficRecord, o: string)
    requires Covered(s, o)
    ensures Covered(Recorded(s, r), o)
  {
    RecordEffect(s, r, o, Upload);
    RecordEffect(s, r, o, Download);
    RecordEffect(s, r, o, Requests);
    assert Recorded(s, r).flusher == s.flusher;
  }

  lemma CoveredStep(s: State, step: Step, o: string)
    requires Covered(s, o)
    requires !(step.ClearCounters? && step.owner == o)
    ensures Covered(Next(s, step), o)
  {
    match step
    case Advance => CoveredAdvance(s, o);
    case Record(r) => CoveredRecord(s, r, o);
    case ClearCounters(owner) =>
      WithoutEffect(s.counters, owner, o, Upload);
      WithoutEffect(s.counters, owner, o, Download);
      WithoutEffect(s.counters, owner, o, Requests);
    case _ => assert Next(s, step).counters == s.counters;
  }

  /** A clean-up is harmless exactly when the flusher has read nothing of the owner but zeros. */
  lemma ClearHarmlessExactly(s: State, o: string)
    requires Covered(s, o)
    ensures Covered(Next(s, ClearCounters(o)), o) <==> ReadNothing(s, o)
  {
    WithoutEffect(s.counters, o, o, Upload);
    WithoutEffect(s.counters, o, o, Download);
    WithoutEffect(s.counters, o, o, Requests);
  }

  /** No clean-up of this owner comes after the flusher read something of it. */
  predicate Harmless(s0: State, steps: seq<Step>, o: string) {
    steps == []
    || (Harmless(s0, Front(steps), o)
        && (Last(steps) == ClearCounters(o) ==> ReadNothing(Run(s0, Front(steps)), o)))
  }

  /** Covered in every state of the run. */
  predicate CoveredThroughout(s0: State, steps: seq<Step>, o: string) {
    Covered(Run(s0, steps), o) && (steps == [] || CoveredThroughout(s0, Front(steps), o))
  }

  /** Pending counters stay non-negative and cover what the flusher read, whatever is interleaved and
      wherever flushes are abandoned, exactly as long as every clean-up is harmless. */
  lemma {:induction false} PendingNonNegative(s0: State, steps: seq<Step>, o: string)
    requires Covered(s0, o)
    ensures CoveredThroughout(s0, steps, o) <==> Harmless(s0, steps, o)
    ensures Harmless(s0, steps, o) ==> Covered(Run(s0, steps), o)
  {
    if steps != [] {
      var s, step := Run(s0, Front(steps)), Last(steps);
      PendingNonNegative(s0, Front(steps), o);
      if Covered(s, o) {
        if step == ClearCounters(o) {
          ClearHarmlessExactly(s, o);
        } else {
          CoveredStep(s, step, o);
        }
      }
    }
  }

  /** Runs that never delete the counters of the owner. */
  lemma {:induction false} NeverCleared(s0: State, steps: seq<Step>, o: string)
    requires ClearCounters(o) !in steps
    ensures Harmless(s0, steps, o)
    ensures forall d :: Cleared(s0, steps, o, d) == 0
  {
    if steps != [] {
      NeverCleared(s0, Front(steps), o);
      assert Last(steps) in steps;
    }
  }

  // ---------------------------------------------------------------- the row of a user

  /** The two columns a flush adds to. */
  datatype Column = UsedBytes | TotalRequests

  /** The column in the row of the user; nothing when there is no row. */
  function InRow(s: State, uid: string, c: Column): int {
    if uid !in s.users then 0 else if c.UsedBytes? then s.users[uid].used else s.users[uid].requests
  }

  /** The usage `Authenticate` enforces the quota on: the SQL column plus the pending counters. */
  function UsageOf(s: State, uid: string): int {
    InRow(s, uid, UsedBytes) + Pending(s, uid, Upload) + Pending(s, uid, Download)
  }

  /** What the SQL update of this step is about to add for the user. */
  function StoredForUser(s: State, step: Step, uid: string, d: Direction): int {
    var f := s.flusher;
    if step.Advance? && f.GotRequests? && f.target == OfUser(uid) then Pick(d, f.up, f.down, f.reqs) else 0
  }

  function StoredInto(s: State, step: Step, uid: string, c: Column): int {
    if c.UsedBytes? then StoredForUser(s, step, uid, Upload) + StoredForUser(s, step, uid, Download)
    else StoredForUser(s, step, uid, Requests)
  }

  function StepDropped(s: State, step: Step, uid: string, c: Column): int {
    match step
    case DeleteUser(u) => if u == uid then InRow(s, uid, c) else 0
    case Advance => if uid in s.users then 0 else StoredInto(s, step, uid, c)
    case _ => 0
  }

  /** Lost with the row of the user: what it held when it was deleted, and what updates without a row
      did not store. */
  function Dropped(s0: State, steps: seq<Step>, uid: string, c: Column): int {
    if steps == [] then 0 else
      Dropped(s0, Front(steps), uid, c) + StepDropped(Run(s0, Front(steps)), Last(steps), uid, c)
  }

  lemma UserRowStep(s: State, step: Step, uid: string, c: Column)
    ensures InRow(Next(s, step), uid, c)
         == InRow(s, uid, c) + StoredInto(s, step, uid, c) - StepDropped(s, step, uid, c)
  {
    match step
    case Advance =>
      if !s.flusher.GotRequests? {
        assert Advanced(s).users == s.users;
      }
    case _ =>
  }

  // ---------------------------------------------------------------- bytes of a user

  lemma OwnTarget(t: Target, uid: Uid)
    ensures t.Owner() == uid <==> t == OfUser(uid)
  {
    SpellsNoNode(uid);
    if t.OfNode? {
      assert t.Owner() == NodeOwner(t.id);
    }
  }

  lemma UserCharge(r: TrafficRecord, uid: Uid, d: Direction)
    ensures Charge(r, uid, d) == StepAmount(Record(r), uid, d)
  {
    SpellsNoNode(uid);
    assert uid != NodeOwner(r.node);
  }

  /** What the pipeline of DecrBy is about to take out of the counters of the user. */
  function DrainedForUser(s: State, step: Step, uid: string, d: Direction): int {
    var f := s.flusher;
    if step.Advance? && f.Recounted? && f.target == OfUser(uid) then Pick(d, f.up, f.down, f.again) else 0
  }

  lemma UserPendingEffect(s: State, step: Step, uid: Uid, d: Direction)
    ensures Pending(Next(s, step), uid, d)
         == Pending(s, uid, d) + StepAmount(step, uid, d)
            - DrainedForUser(s, step, uid, d) - StepCleared(s, step, uid, d)
  {
    PendingEffect(s, step, uid, d);
    match step
    case Record(r) => UserCharge(r, uid, d);
    case Advance => UserDrained(s, uid, d);
    case _ =>
  }

  lemma UserDrained(s: State, uid: Uid, d: Direction)
    ensures Drained(s, uid, d) == DrainedForUser(s, Advance, uid, d)
  {
    if !s.flusher.Idle? {
      OwnTarget(s.flusher.target, uid);
    }
  }

  lemma UserInFlightStep(s: State, step: Step, uid: string, d: Direction)
    requires d != Requests
    ensures InFlight(Next(s, step), OfUser(uid), d)
         == InFlight(s, OfUser(uid), d) + StoredForUser(s, step, uid, d) - DrainedForUser(s, step, uid, d)
            - (if step.Abandon? then InFlight(s, OfUser(uid), d) else 0)
  {
  }

  lemma BytesStep(s: State, step: Step, uid: Uid)
    ensures UsageOf(Next(s, step), uid) - InFlightBytes(Next(s, step), uid)
         == UsageOf(s, uid) - InFlightBytes(s, uid)
            + StepAmount(step, uid, Upload) + StepAmount(step, uid, Download)
            + (if step.Abandon? then InFlightBytes(s, uid) else 0)
            - StepCleared(s, step, uid, Upload) - StepCleared(s, step, uid, Download)
            - StepDropped(s, step, uid, UsedBytes)
  {
    UserPendingEffect(s, step, uid, Upload);
    UserPendingEffect(s, step, uid, Download);
    UserRowStep(s, step, uid, UsedBytes);
    UserInFlightStep(s, step, uid, Upload);
    UserInFlightStep(s, step, uid, Download);
  }

  /** SQL plus pending, plus what was deleted, is what was there before, plus everything recorded since,
      plus what flushes hold twice: exactly, in every run. */
  lemma {:induction false} BytesConserved(s0: State, steps: seq<Step>, uid: Uid)
    requires s0.flusher.Idle?
    ensures var s := Run(s0, steps);
         UsageOf(s, uid) + ClearedBytes(s0, steps, uid) + Dropped(s0, steps, uid, UsedBytes)
         == UsageOf(s0, uid) + RecordedBytes(steps, uid) + StoredTwiceBytes(s0, steps, uid) + InFlightBytes(s, uid)
  {
    if steps != [] {
      BytesConserved(s0, Front(steps), uid);
      BytesStep(Run(s0, Front(steps)), Last(steps), uid);
    }
  }

  lemma {:induction false} TwiceNonNegative(s0: State, steps: seq<Step>, uid: string)
    requires Covered(s0, uid) && Harmless(s0, steps, uid)
    ensures StoredTwiceBytes(s0, steps, uid) >= 0
    ensures InFlightBytes(Run(s0, steps), uid) >= 0
  {
    PendingNonNegative(s0, steps, uid);
    if steps != [] {
      TwiceNonNegative(s0, Front(steps), uid);
    }
  }

  /** Usage, plus what was deleted, is never below what was recorded, and equal to it exactly when no
      flush is, or was abandoned, between its SQL update of this user and its DecrBy while it held bytes. */
  lemma UsageNeverBelowRecorded(s0: State, steps: seq<Step>, uid: Uid)
    requires s0.flusher.Idle? && Covered(s0, uid) && Harmless(s0, steps, uid)
    ensures var s := Run(s0, steps);
         var accounted := UsageOf(s, uid) + ClearedBytes(s0, steps, uid) + Dropped(s0, steps, uid, UsedBytes);
         && accounted >= UsageOf(s0, uid) + RecordedBytes(steps, uid)
         && (accounted == UsageOf(s0, uid) + RecordedBytes(steps, uid)
             <==> StoredTwiceBytes(s0, steps, uid) == 0 && InFlightBytes(s, uid) == 0)
  {
    BytesConserved(s0, steps, uid);
    TwiceNonNegative(s0, steps, uid);
  }

  lemma KeepsRow(s: State, step: Step, uid: string)
    requires uid in s.users && step != DeleteUser(uid)
    ensures uid in Next(s, step).users
    ensures forall c :: StepDropped(s, step, uid, c) == 0
  {
  }

  /** Runs that never delete this user, who exists. */
  lemma {:induction false} NeverDeleted(s0: State, steps: seq<Step>, uid: string)
    requires uid in s0.users && DeleteUser(uid) !in steps
    ensures uid in Run(s0, steps).users
    ensures forall c :: Dropped(s0, steps, uid, c) == 0
  {
    if steps != [] {
      NeverDeleted(s0, Front(steps), uid);
      assert Last(steps) in steps;
      KeepsRow(Run(s0, Front(steps)), Last(steps), uid);
    }
  }

  /** Runs in which no flush is abandoned. */
  lemma {:induction false} NeverAbandoned(s0: State, steps: seq<Step>, t: Target)
    requires Abandon !in steps
    ensures forall d :: StoredTwice(s0, steps, t, d) == 0
  {
    if steps != [] {
      NeverAbandoned(s0, Front(steps), t);
      assert Last(steps) in steps;
    }
  }

  lemma NeverTargetStep(s: State, step: Step, uid: string)
    requires Skipped(uid) && (s.flusher.Idle? || s.flusher.target != OfUser(uid))
    ensures var f := Next(s, step).flusher; f.Idle? || f.target != OfUser(uid)
  {
  }

  lemma {:induction false} NeverTarget(s0: State, steps: seq<Step>, uid: string)
    requires s0.flusher.Idle? && Skipped(uid)
    ensures var f := Run(s0, steps).flusher; f.Idle? || f.target != OfUser(uid)
  {
    if steps != [] {
      NeverTarget(s0, Front(steps), uid);
      NeverTargetStep(Run(s0, Front(steps)), Last(steps), uid);
    }
  }

  /** Whatever a user the flush skips sends, the row stays as it is: all of it counts as pending forever. */
  lemma {:induction false} SkippedNeverStored(s0: State, steps: seq<Step>, uid: string, c: Column)
    requires s0.flusher.Idle? && Skipped(uid) && uid in s0.users && DeleteUser(uid) !in steps
    ensures InRow(Run(s0, steps), uid, c) == InRow(s0, uid, c)
  {
    if steps != [] {
      SkippedNeverStored(s0, Front(steps), uid, c);
      NeverTarget(s0, Front(steps), uid);
      NeverDeleted(s0, Front(steps), uid);
      assert Last(steps) in steps;
      UserRowStep(Run(s0, Front(steps)), Last(steps), uid, c);
    }
  }

  // ---------------------------------------------------------------- requests of a user

  predicate CountingRequests(s: State, uid: string) {
    var f := s.flusher;
    (f.GotRequests? || f.Stored? || f.Recounted?) && f.target == OfUser(uid)
  }

  function StepBetween(s: State, step: Step, uid: string, between: int): int {
    var s' := Next(s, step);
    if !CountingRequests(s', uid) then 0
    else if s'.flusher.Recounted? then between
    else between + StepAmount(step, uid, Requests) - StepCleared(s, step, uid, Requests)
  }

  /** How far the request counter of the user moved between the two reads of the iteration that is
      running: by records, and back by a clean-up. */
  function BetweenReads(s0: State, steps: seq<Step>, uid: string): int {
    if steps == [] then 0 else
      StepBetween(Run(s0, Front(steps)), Last(steps), uid, BetweenReads(s0, Front(steps), uid))
  }

  /** Requests taken out of Redis but never added to SQL. */
  function LostRequests(s0: State, steps: seq<Step>, uid: string): int {
    if steps == [] then 0 else
      var f := Run(s0, Front(steps)).flusher;
      LostRequests(s0, Front(steps), uid)
      + if Last(steps).Advance? && f.Recounted? && f.target == OfUser(uid)
        then BetweenReads(s0, Front(steps), uid) else 0
  }

  /** What the flusher read, plus what came between, is what is there. */
  predicate ReadsAgree(s: State, uid: string, between: int) {
    var f := s.flusher;
    if !CountingRequests(s, uid) then between == 0
    else (if f.Recounted? then f.again else Pending(s, uid, Requests)) == f.reqs + between
  }

  lemma ReadsAgreeStep(s: State, step: Step, uid: Uid, between: int)
    requires ReadsAgree(s, uid, between)
    ensures ReadsAgree(Next(s, step), uid, StepBetween(s, step, uid, between))
  {
    UserPendingEffect(s, step, uid, Requests);
    match step
    case Advance =>
      if !s.flusher.Draining() {
        assert Advanced(s).counters == s.counters;
      }
    case Begin(_) =>
    case _ => assert Next(s, step).flusher == s.flusher || Next(s, step).flusher.Idle?;
  }

  lemma {:induction false} ReadsAgreeInRuns(s0: State, steps: seq<Step>, uid: Uid)
    requires s0.flusher.Idle?
    ensures ReadsAgree(Run(s0, steps), uid, BetweenReads(s0, steps, uid))
  {
    if steps != [] {
      ReadsAgreeInRuns(s0, Front(steps), uid);
      ReadsAgreeStep(Run(s0, Front(steps)), Last(steps), uid, BetweenReads(s0, Front(steps), uid));
    }
  }

  /** In flight the amount of the first read counts, and the second read is what is drained. */
  lemma RequestsInFlightStep(s: State, step: Step, uid: string)
    ensures var t := OfUser(uid);
         InFlight(Next(s, step), t, Requests)
         == InFlight(s, t, Requests) + StoredForUser(s, step, uid, Requests)
            - (if step.Advance? && s.flusher.Recounted? then InFlight(s, t, Requests) else 0)
            - (if step.Abandon? then InFlight(s, t, Requests) else 0)
  {
  }

  lemma RequestsStep(s: State, step: Step, uid: Uid)
    ensures var t, s', f := OfUser(uid), Next(s, step), s.flusher;
         InRow(s', uid, TotalRequests) + Pending(s', uid, Requests) - InFlight(s', t, Requests)
         == InRow(s, uid, TotalRequests) + Pending(s, uid, Requests) - InFlight(s, t, Requests)
            + StepAmount(step, uid, Requests)
            + (if step.Abandon? then InFlight(s, t, Requests) else 0)
            - (if step.Advance? && f.Recounted? && f.target == t then f.again - f.reqs else 0)
            - StepCleared(s, step, uid, Requests) - StepDropped(s, step, uid, TotalRequests)
  {
    UserPendingEffect(s, step, uid, Requests);
    UserRowStep(s, step, uid, TotalRequests);
    RequestsInFlightStep(s, step, uid);
  }

  /** Total requests in SQL, plus pending, plus lost and deleted, account for every recorded request; the
      lost ones are exactly those recorded between the two reads of a flush that completed. */
  lemma {:induction false} RequestsConserved(s0: State, steps: seq<Step>, uid: Uid)
    requires s0.flusher.Idle?
    ensures var s := Run(s0, steps);
         InRow(s, uid, TotalRequests) + Pending(s, uid, Requests) + LostRequests(s0, steps, uid)
         + Cleared(s0, steps, uid, Requests) + Dropped(s0, steps, uid, TotalRequests)
         == InRow(s0, uid, TotalRequests) + Pending(s0, uid, Requests) + RecordedFor(steps, uid, Requests)
            + StoredTwice(s0, steps, OfUser(uid), Requests) + InFlight(s, OfUser(uid), Requests)
  {
    if steps != [] {
      var s, step := Run(s0, Front(steps)), Last(steps);
      RequestsConserved(s0, Front(steps), uid);
      ReadsAgreeInRuns(s0, Front(steps), uid);
      RequestsStep(s, step, uid);
    }
  }

  // ---------------------------------------------------------------- the row of a node

  /** The column in the row of the node; nothing when there is no row. */
  function InNode(s: State, id: nat, d: Direction): int {
    if id in s.nodes then s.nodes[id].Get(d) else 0
  }

  /** What the SQL update of this step is about to add for the node. */
  function StoredNow(s: State, step: Step, id: nat, d: Direction): int {
    var f := s.flusher;
    if step.Advance? && f.GotRequests? && f.target == OfNode(id) then Pick(d, f.up, f.down, f.reqs) else 0
  }

  function StepDroppedNode(s: State, step: Step, id: nat, d: Direction): int {
    match step
    case DeleteNode(n) => if n == id then InNode(s, id, d) else 0
    case Advance => if id in s.nodes then 0 else StoredNow(s, step, id, d)
    case _ => 0
  }

  /** Lost with the row of the node, as for users. */
  function DroppedNode(s0: State, steps: seq<Step>, id: nat, d: Direction): int {
    if steps == [] then 0 else
      DroppedNode(s0, Front(steps), id, d) + StepDroppedNode(Run(s0, Front(steps)), Last(steps), id, d)
  }

  predicate Saves(s: State, step: Step, id: nat) {
    step.Save? && step.window in s.windows && s.windows[step.window].node == id
  }

  /** How far the row of the node has moved since this window read it: by flushes, and back by a
      deletion and by other windows that were saved in the meantime. */
  function Drift(s0: State, steps: seq<Step>, w: nat, d: Direction): int {
    if steps == [] then 0 else
      var s, step := Run(s0, Front(steps)), Last(steps);
      if w !in s.windows || w !in Next(s, step).windows then 0
      else
        var id := s.windows[w].node;
        Drift(s0, Front(steps), w, d) + StoredNow(s, step, id, d) - StepDroppedNode(s, step, id, d)
        - if Saves(s, step, id) then Drift(s0, Front(steps), step.window, d) else 0
  }

  /** Flushed amounts wiped from the row by whole-row saves, less what saves of deleted rows brought back. */
  function Overwritten(s0: State, steps: seq<Step>, id: nat, d: Direction): int {
    if steps == [] then 0 else
      var s, step := Run(s0, Front(steps)), Last(steps);
      Overwritten(s0, Front(steps), id, d)
      + if Saves(s, step, id) then Drift(s0, Front(steps), step.window, d) else 0
  }

  /** Every window that is open: the row is the one it read, plus the drift since. */
  predicate WindowsAgree(s0: State, steps: seq<Step>, id: nat, d: Direction) {
    var s := Run(s0, steps);
    forall w :: w in s.windows && s.windows[w].node == id ==>
      InNode(s, id, d) == s.windows[w].row.Get(d) + Drift(s0, steps, w, d)
  }

  /** How one step moves the row of a node. */
  lemma NodeRowStep(s: State, step: Step, id: nat, d: Direction)
    ensures InNode(Next(s, step), id, d)
         == if Saves(s, step, id) then s.windows[step.window].row.Get(d)
            else InNode(s, id, d) + StoredNow(s, step, id, d) - StepDroppedNode(s, step, id, d)
  {
    match step
    case Advance =>
      if !s.flusher.GotRequests? {
        assert Advanced(s).nodes == s.nodes;
      }
    case _ =>
  }

  lemma {:induction false} WindowsAgreeInRuns(s0: State, steps: seq<Step>, id: nat, d: Direction)
    requires s0.windows == map[]
    ensures WindowsAgree(s0, steps, id, d)
  {
    if steps != [] {
      var s, step := Run(s0, Front(steps)), Last(steps);
      var s' := Next(s, step);
      WindowsAgreeInRuns(s0, Front(steps), id, d);
      NodeRowStep(s, step, id, d);
      assert s' == Run(s0, steps);
      forall w | w in s'.windows && s'.windows[w].node == id
        ensures InNode(s', id, d) == s'.windows[w].row.Get(d) + Drift(s0, steps, w, d)
      {
        if w in s.windows {
          assert s'.windows[w] == s.windows[w];
        } else {
          assert step == Load(w, id);
        }
      }
    }
  }

  // ---------------------------------------------------------------- counters of a node

  /** Only the node itself is flushed under its owner name, and nodes are counted once. */
  predicate FlushesOwnName(s: State, id: nat) {
    var f := s.flusher;
    && (!f.Idle? && f.target.Owner() == NodeOwner(id) ==> f.target == OfNode(id))
    && (!f.Idle? && f.target.OfNode? ==> !f.Recounted?)
  }

  lemma NodePendingEffect(s: State, step: Step, id: nat, d: Direction)
    requires id > 0 && FlushesOwnName(s, id)
    ensures Pending(Next(s, step), NodeOwner(id), d)
         == Pending(s, NodeOwner(id), d)
            + (if step.Record? && step.record.node == id then Amount(step.record, d) else 0)
            - (if step.Advance? then DrainedNow(s, id, d) else 0)
            - StepCleared(s, step, NodeOwner(id), d)
  {
    PendingEffect(s, step, NodeOwner(id), d);
    if step.Record? {
      SpellsNoNode(step.record.uid);
      assert step.record.uid != NodeOwner(id);
      if NodeOwner(step.record.node) == NodeOwner(id) {
        NodeOwnerInjective(step.record.node, id);
      }
    }
  }

  /** What the pipeline of DecrBy takes out of the counters of this node. */
  function DrainedNow(s: State, id: nat, d: Direction): int {
    if s.flusher.Stored? && s.flusher.target == OfNode(id) then InFlight(s, OfNode(id), d) else 0
  }

  lemma FlushesOwnNameStep(s: State, step: Step, id: nat)
    requires FlushesOwnName(s, id)
    ensures FlushesOwnName(Next(s, step), id)
  {
    match step
    case Begin(t) =>
      assert Skipped(NodeOwner(id)) by {
        assert NodeOwner(id)[..5] == "node:";
      }
      if t.OfNode? && t.Owner() == NodeOwner(id) {
        NodeOwnerInjective(t.id, id);
      }
    case _ =>
  }

  lemma {:induction false} FlushesOwnNameInRuns(s0: State, steps: seq<Step>, id: nat)
    requires s0.flusher.Idle?
    ensures FlushesOwnName(Run(s0, steps), id)
  {
    if steps != [] {
      FlushesOwnNameInRuns(s0, Front(steps), id);
      FlushesOwnNameStep(Run(s0, Front(steps)), Last(steps), id);
    }
  }

  lemma NodeInFlightStep(s: State, step: Step, id: nat, d: Direction)
    requires FlushesOwnName(s, id)
    ensures InFlight(Next(s, step), OfNode(id), d)
         == InFlight(s, OfNode(id), d) + StoredNow(s, step, id, d)
            - (if step.Advance? then DrainedNow(s, id, d) else 0)
            - (if step.Abandon? then InFlight(s, OfNode(id), d) else 0)
  {
  }

  /** Node counters are read once, so the node flush loses nothing of any of the three: row, plus pending,
      plus what whole-row saves overwrote and what was deleted, account for everything recorded. */
  lemma {:induction false} NodeConserved(s0: State, steps: seq<Step>, id: nat, d: Direction)
    requires id > 0 && s0.windows == map[] && s0.flusher.Idle?
    ensures var s, o := Run(s0, steps), NodeOwner(id);
         InNode(s, id, d) + Pending(s, o, d) + Overwritten(s0, steps, id, d)
         + Cleared(s0, steps, o, d) + DroppedNode(s0, steps, id, d)
         == InNode(s0, id, d) + Pending(s0, o, d) + RecordedThrough(steps, id, d)
            + StoredTwice(s0, steps, OfNode(id), d) + InFlight(s, OfNode(id), d)
  {
    if steps != [] {
      var s, step := Run(s0, Front(steps)), Last(steps);
      NodeConserved(s0, Front(steps), id, d);
      WindowsAgreeInRuns(s0, Front(steps), id, d);
      FlushesOwnNameInRuns(s0, Front(steps), id);
      NodeRowStep(s, step, id, d);
      NodePendingEffect(s, step, id, d);
      NodeInFlightStep(s, step, id, d);
    }
  }
}
