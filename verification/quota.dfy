/** Admission against the quota, on a ledger that is being flushed at the same time. */
module Quota {
  import opened Text
  import opened RedisKeys
  import opened Ledger
  import opened LedgerConservation
  import opened LedgerRuns

  datatype Admission =
    | Admitted(user: User)
    | UnknownUser
    | UserDisabled
    | UserExpired
    | WrongPassword
    | QuotaExceeded

  /** The branches of `Authenticate`, given the row it read and the pending bytes it read. */
  function Admit(row: Option<User>, now: int, passwordOk: bool, pending: int): Admission {
    match row
    case None => UnknownUser
    case Some(user) =>
      if !user.enabled then UserDisabled
      else if user.expiredAt.Some? && now > user.expiredAt.value then UserExpired
      else if !passwordOk then WrongPassword
      else if user.quota > 0 && user.used + pending >= user.quota then QuotaExceeded
      else Admitted(user)
  }

  function Row(s: State, uid: string): Option<User> {
    if uid in s.users then Some(s.users[uid]) else None
  }

  /** Authentication when the row and the counters are read from one state. */
  function Authenticate(s: State, uid: string, now: int, passwordOk: bool): Admission {
    Admit(Row(s, uid), now, passwordOk, PendingUsage(s, uid))
  }

  /** Who gets in, and why not: the checks in their order, by the row and the usage. */
  lemma AuthenticateExactly(s: State, uid: string, now: int, passwordOk: bool)
    ensures var a := Authenticate(s, uid, now, passwordOk);
         if uid !in s.users then a == UnknownUser
         else
           var user := s.users[uid];
           var expired := user.expiredAt.Some? && user.expiredAt.value < now;
           && (a == UserDisabled <==> !user.enabled)
           && (a == UserExpired <==> user.enabled && expired)
           && (a == WrongPassword <==> user.enabled && !expired && !passwordOk)
           && (a == QuotaExceeded <==> user.enabled && !expired && passwordOk && 0 < user.quota <= UsageOf(s, uid))
           && (a == Admitted(user) <==>
                 user.enabled && !expired && passwordOk && (user.quota <= 0 || UsageOf(s, uid) < user.quota))
  {
  }

  /** Read from one state, even in the middle of a flush, no user whose recorded bytes reach a positive
      quota gets in, whatever was interleaved and abandoned before, as long as clean-ups were harmless. */
  lemma QuotaEnforced(s0: State, steps: seq<Step>, uid: Uid, now: int, passwordOk: bool)
    requires s0.flusher.Idle? && Covered(s0, uid) && Harmless(s0, steps, uid)
    ensures var s := Run(s0, steps);
         var deleted := ClearedBytes(s0, steps, uid) + Dropped(s0, steps, uid, UsedBytes);
         uid in s.users && 0 < s.users[uid].quota <= UsageOf(s0, uid) + RecordedBytes(steps, uid) - deleted ==>
           !Authenticate(s, uid, now, passwordOk).Admitted?
  {
    UsageNeverBelowRecorded(s0, steps, uid);
  }

  // ---------------------------------------------------------------- reads from different states

  /** Taken out of the counters of an owner by the flushes of a run. */
  function DrainedIn(s0: State, steps: seq<Step>, o: string, d: Direction): int {
    if steps == [] then 0 else
      DrainedIn(s0, Front(steps), o, d)
      + if Last(steps).Advance? then Drained(Run(s0, Front(steps)), o, d) else 0
  }

  lemma {:induction false} PendingInRuns(s0: State, steps: seq<Step>, uid: Uid, d: Direction)
    ensures Pending(Run(s0, steps), uid, d)
         == Pending(s0, uid, d) + RecordedFor(steps, uid, d) - DrainedIn(s0, steps, uid, d) - Cleared(s0, steps, uid, d)
  {
    if steps != [] {
      var s, step := Run(s0, Front(steps)), Last(steps);
      PendingInRuns(s0, Front(steps), uid, d);
      PendingEffect(s, step, uid, d);
      if step.Record? {
        UserCharge(step.record, uid, d);
      }
    }
  }

  /** The row is read after `before`, the upload counter after `gap1` more steps and the download
      counter after `gap2` more, as the three commands of `Authenticate` do it. */
  function AuthenticateSplit(s0: State, before: seq<Step>, gap1: seq<Step>, gap2: seq<Step>,
                             uid: string, now: int, passwordOk: bool): Admission
  {
    var s1 := Run(s0, before);
    var s2 := Run(s1, gap1);
    Admit(Row(s1, uid), now, passwordOk, Pending(s2, uid, Upload) + Pending(Run(s2, gap2), uid, Download))
  }

  /** What left a counter during a run, less what came in. */
  function Missed(s: State, steps: seq<Step>, uid: string, d: Direction): int {
    DrainedIn(s, steps, uid, d) + Cleared(s, steps, uid, d) - RecordedFor(steps, uid, d)
  }

  /** What split reads miss: of each counter, what left it between the read of the row and its own. */
  function MissedBySplit(s1: State, gap1: seq<Step>, gap2: seq<Step>, uid: string): int {
    Missed(s1, gap1, uid, Upload) + Missed(s1, gap1, uid, Download) + Missed(Run(s1, gap1), gap2, uid, Download)
  }

  /** What split reads see: the usage when the row was read, less exactly what they miss. */
  lemma SplitReadsSee(s1: State, gap1: seq<Step>, gap2: seq<Step>, uid: Uid)
    ensures var s2 := Run(s1, gap1);
         InRow(s1, uid, UsedBytes) + Pending(s2, uid, Upload) + Pending(Run(s2, gap2), uid, Download)
         == UsageOf(s1, uid) - MissedBySplit(s1, gap1, gap2, uid)
  {
    PendingInRuns(s1, gap1, uid, Upload);
    PendingInRuns(s1, gap1, uid, Download);
    PendingInRuns(Run(s1, gap1), gap2, uid, Download);
  }

  /** The right password of a user who is enabled and not expired. */
  predicate Eligible(s: State, uid: string, now: int, passwordOk: bool) {
    && uid in s.users && s.users[uid].enabled && passwordOk
    && (s.users[uid].expiredAt.Some? ==> now <= s.users[uid].expiredAt.value)
  }

  /** Whom split reads let in: a user below the quota by more than what they miss is counted as. At or
      over the quota that is exactly a user of whom more left the counters than the overshoot. */
  lemma SplitAdmitsExactly(s0: State, before: seq<Step>, gap1: seq<Step>, gap2: seq<Step>,
                           uid: Uid, now: int, passwordOk: bool)
    ensures var s1 := Run(s0, before);
         AuthenticateSplit(s0, before, gap1, gap2, uid, now, passwordOk).Admitted?
         <==> Eligible(s1, uid, now, passwordOk)
              && (s1.users[uid].quota > 0 ==>
                    MissedBySplit(s1, gap1, gap2, uid) > UsageOf(s1, uid) - s1.users[uid].quota)
  {
    SplitReadsSee(Run(s0, before), gap1, gap2, uid);
  }

  /** Split reads are safe as long as no more leaves the counters between them than comes in. */
  lemma SplitQuotaEnforced(s0: State, before: seq<Step>, gap1: seq<Step>, gap2: seq<Step>,
                           uid: Uid, now: int, passwordOk: bool)
    requires s0.flusher.Idle? && Covered(s0, uid) && Harmless(s0, before, uid)
    requires MissedBySplit(Run(s0, before), gap1, gap2, uid) <= 0
    ensures var s1 := Run(s0, before);
         var deleted := ClearedBytes(s0, before, uid) + Dropped(s0, before, uid, UsedBytes);
         uid in s1.users && 0 < s1.users[uid].quota <= UsageOf(s0, uid) + RecordedBytes(before, uid) - deleted ==>
           !AuthenticateSplit(s0, before, gap1, gap2, uid, now, passwordOk).Admitted?
  {
    UsageNeverBelowRecorded(s0, before, uid);
    SplitReadsSee(Run(s0, before), gap1, gap2, uid);
  }

  /** A flush that runs between the read of the row and the reads of the counters hides every
      pending byte: an enabled user over quota is admitted when the SQL column alone is below it. */
  lemma FlushHidesBytes(s: State, uid: string, now: int)
    requires s.flusher.Idle? && uid in s.users && !Skipped(uid)
    requires s.users[uid].enabled && s.users[uid].expiredAt.None?
    requires 0 <= s.users[uid].used < s.users[uid].quota <= UsageOf(s, uid)
    ensures Authenticate(s, uid, now, true) == QuotaExceeded
    ensures Authenticate(Run(s, FlushOf(uid)), uid, now, true) == QuotaExceeded
    ensures AuthenticateSplit(s, [], FlushOf(uid), [], uid, now, true).Admitted?
  {
    UninterruptedFlush(s, uid);
    assert Run(s, []) == s;
    assert Run(Run(s, FlushOf(uid)), []) == Run(s, FlushOf(uid));
  }
}
