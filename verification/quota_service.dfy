/** The quota service over string-keyed Redis counters and sticky keys. */
module QuotaService {
  import opened Text
  import opened RedisKeys
  import Ledger
  import opened LedgerRuns
  import opened Quota
  import opened StatsService
  import L = Limiter
  import opened SystemRuns

  /** The number keys `CleanupUserRuntime` deletes. */
  function RuntimeKeys(uid: string): set<string> {
    {ConnKey(uid), UsageKey(uid, Upload), UsageKey(uid, Download), UsageKey(uid, Requests)}
  }

  /** No clean-up touches a number key of another user. */
  lemma RuntimeKeysApart(uid: string, other: string)
    requires uid != other
    ensures RuntimeKeys(uid) !! RuntimeKeys(other)
  {
    if ConnKey(uid) == ConnKey(other) { ConnKeyInjective(uid, other); }
    forall d: Direction, e: Direction
      ensures UsageKey(uid, d) != UsageKey(other, e)
      ensures ConnKey(uid) != UsageKey(other, e) && ConnKey(other) != UsageKey(uid, d)
    {
      if UsageKey(uid, d) == UsageKey(other, e) { UsageKeyInjective(uid, d, other, e); }
      assert ConnKey(uid)[0] == ConnKey(other)[0] == 'c';
      assert UsageKey(uid, d)[0] == UsageKey(other, e)[0] == 'u';
    }
  }

  /** To the usage counters the clean-up of a user does what the clean-up step of the ledger does. */
  lemma CleanupClearsUser(redis: map<string, int>, s: Ledger.State, uid: string)
    requires Mirrors(redis, s.counters)
    ensures Mirrors(redis - RuntimeKeys(uid), Ledger.Next(s, Ledger.ClearCounters(uid)).counters)
  {
    forall o: string, d: Direction
      ensures UsageKey(o, d) !in {ConnKey(uid)}
    {
      assert ConnKey(uid)[0] == 'c' && UsageKey(o, d)[0] == 'u';
    }
    MirrorClear(redis, s.counters, uid, {ConnKey(uid)});
    assert RuntimeKeys(uid)
        == {UsageKey(uid, Upload), UsageKey(uid, Download), UsageKey(uid, Requests)} + {ConnKey(uid)};
  }

  /** Commands of other requests, in any state. */
  predicate NoneOf(steps: seq<L.Step>, r: nat) {
    forall i :: 0 <= i < |steps| ==> !L.Names(steps[i], r)
  }

  lemma RunSnoc(max: int, s: L.State, steps: seq<L.Step>, step: L.Step)
    ensures L.Run(max, s, steps + [step]) == L.Next(max, L.Run(max, s, steps), step)
  {
    assert Front(steps + [step]) == steps;
  }

  /** A request that read the counter is not moved by others. */
  lemma {:induction false} StillReleasing(max: int, s: L.State, steps: seq<L.Step>, r: nat)
    requires NoneOf(steps, r) && r in s.releasing
    ensures var t := L.Run(max, s, steps); r in t.releasing && t.releasing[r] == s.releasing[r]
  {
    if steps != [] { StillReleasing(max, s, Front(steps), r); }
  }

  lemma {:induction false} StillRejecting(max: int, s: L.State, steps: seq<L.Step>, r: nat)
    requires NoneOf(steps, r) && r in s.rejecting
    ensures r in L.Run(max, s, steps).rejecting
  {
    if steps != [] { StillRejecting(max, s, Front(steps), r); }
  }

  class Service {
    var users: map<string, Ledger.User>
    var redis: map<string, int>
    var sticky: map<string, nat>

    constructor (users: map<string, Ledger.User>)
      ensures this.users == users && redis == map[] && sticky == map[]
    {
      this.users := users;
      redis, sticky := map[], map[];
    }

    method UserPendingUsage(uid: string) returns (pending: int)
      ensures pending == Get(redis, UsageKey(uid, Upload)) + Get(redis, UsageKey(uid, Download))
    {
      var upload := Get(redis, UsageKey(uid, Upload));
      var download := Get(redis, UsageKey(uid, Download));
      return upload + download;
    }

    /** `Authenticate`, on counters that mirror a ledger: the decision the quota theorems are about. */
    method AuthenticateUser(uid: string, now: int, passwordOk: bool, ghost s: Ledger.State)
      returns (admission: Admission)
      requires users == s.users && Mirrors(redis, s.counters)
      ensures admission == Authenticate(s, uid, now, passwordOk)
    {
      if uid !in users { return UnknownUser; }
      var user := users[uid];
      if !user.enabled { return UserDisabled; }
      if user.expiredAt.Some? && now > user.expiredAt.value { return UserExpired; }
      if !passwordOk { return WrongPassword; }
      var pending := UserPendingUsage(uid);
      assert pending == PendingUsage(s, uid);
      if user.quota > 0 && user.used + pending >= user.quota { return QuotaExceeded; }
      return Admitted(user);
    }

    /** Any commands of other requests of the user come in between. */
    method Others(uid: string, max: int, s: L.State, r: nat) returns (t: L.State, ghost steps: seq<L.Step>)
      requires Get(redis, ConnKey(uid)) == s.counter
      modifies this`redis
      ensures NoneOf(steps, r) && t == L.Run(max, s, steps) && Get(redis, ConnKey(uid)) == t.counter
      ensures redis - {ConnKey(uid)} == old(redis) - {ConnKey(uid)}
    {
      t, steps := s, [];
      var n: nat := *;
      while n > 0
        invariant NoneOf(steps, r) && t == L.Run(max, s, steps) && Get(redis, ConnKey(uid)) == t.counter
        invariant redis - {ConnKey(uid)} == old(redis) - {ConnKey(uid)}
      {
        var step := AnyStep(r);
        RunSnoc(max, s, steps, step);
        t, steps := L.Next(max, t, step), steps + [step];
        redis := redis[ConnKey(uid) := t.counter];
        n := n - 1;
      }
    }

    method AnyStep(r: nat) returns (step: L.Step)
      ensures !L.Names(step, r)
    {
      assert !L.Names(L.Cleanup, r);
      step :| !L.Names(step, r);
    }

    /** INCR, and DECR again when that exceeds the limit, with commands of others in between: two commands
        of the limiter. */
    method Acquire(uid: string, max: int, s: L.State, r: nat)
      returns (ok: bool, t: L.State, ghost between: seq<L.Step>)
      requires Get(redis, ConnKey(uid)) == s.counter && s.Fresh(r)
      modifies this`redis
      ensures NoneOf(between, r)
      ensures var arrived := L.Next(max, s, L.Arrive(r));
           && ok == (r in arrived.admitted)
           && t == if ok then arrived else L.Next(max, L.Run(max, arrived, between), L.Undo(r))
      ensures Get(redis, ConnKey(uid)) == t.counter
      ensures redis - {ConnKey(uid)} == old(redis) - {ConnKey(uid)}
    {
      between := [];
      redis := Incr(redis, ConnKey(uid), 1);
      assert redis - {ConnKey(uid)} == old(redis) - {ConnKey(uid)};
      var current := redis[ConnKey(uid)];
      t := L.Next(max, s, L.Arrive(r));
      ok := true;
      if max > 0 && current > max {
        ghost var arrived := t;
        t, between := Others(uid, max, t, r);
        StillRejecting(max, arrived, between, r);
        redis := Incr(redis, ConnKey(uid), -1);
        assert redis - {ConnKey(uid)} == old(redis) - {ConnKey(uid)};
        t := L.Next(max, t, L.Undo(r));
        ok := false;
      }
    }

    /** GET, then DEL at one or below and DECR above, with commands of others in between: the two commands
        of a release. */
    method Release(uid: string, max: int, s: L.State, r: nat) returns (t: L.State, ghost between: seq<L.Step>)
      requires Get(redis, ConnKey(uid)) == s.counter && r in s.admitted && r !in s.releasing
      modifies this`redis
      ensures NoneOf(between, r)
      ensures t == L.Next(max, L.Run(max, L.Next(max, s, L.Read(r)), between), L.Finish(r))
      ensures Get(redis, ConnKey(uid)) == t.counter
      ensures redis - {ConnKey(uid)} == old(redis) - {ConnKey(uid)}
    {
      var current := Get(redis, ConnKey(uid));
      ghost var read := L.Next(max, s, L.Read(r));
      t, between := Others(uid, max, L.Next(max, s, L.Read(r)), r);
      StillReleasing(max, read, between, r);
      t := L.Next(max, t, L.Finish(r));
      if current <= 1 {
        redis := redis - {ConnKey(uid)};
        return;
      }
      redis := Incr(redis, ConnKey(uid), -1);
    }

    /** Deletes the runtime numbers of a user and the sessions its pattern matches, nothing else. */
    method CleanupUserRuntime(uid: string)
      modifies this`redis, this`sticky
      ensures redis == old(redis) - RuntimeKeys(uid)
      ensures forall k :: k in redis
                     <==> && k in old(redis) && k != ConnKey(uid)
                          && k != UsageKey(uid, Upload) && k != UsageKey(uid, Download) && k != UsageKey(uid, Requests)
      ensures sticky == WithoutSessions(old(sticky), uid)
      ensures forall k :: k in sticky <==> k in old(sticky) && !Glob("sticky:" + uid + ":*", k)
    {
      var keys := {ConnKey(uid), UsageKey(uid, Upload), UsageKey(uid, Download), UsageKey(uid, Requests)};
      var stickyKeys := set k | k in sticky && Glob(SessionsOf(uid), k);
      redis := redis - keys;
      sticky := sticky - stickyKeys;
    }
  }
}
