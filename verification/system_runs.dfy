/** Runs of whole operations: imports, deletions, checks, toggles, picks, clean-ups, expiries and
    restarts of Redis, in any order. */
module SystemRuns {
  import opened Text
  import opened RedisKeys
  import opened NodeCache
  import opened Catalog
  import opened CatalogInvariants
  import opened SubscriptionGraph
  import opened Selector

  datatype Op =
    | AddSubscription(sub: nat)
    | SyncSubscription(sub: nat, fetched: Option<seq<Parsed>>, budget: nat)
    | ImportManual(items: seq<Parsed>, budget: nat)
    | DropSubscription(sub: nat, budget: nat)
    | RemoveNode(id: nat, unlinkFails: bool, deleteFails: bool)
    | ToggleNode(id: nat, disabled: bool)
    | CheckNode(id: nat, probe: Probe)
    | FlushNode(id: nat, traffic: Traffic)
    | PickNode(uid: string, filters: Filters, choice: nat)
    | CleanupUser(uid: string)
    | ExpireRow(id: nat)
    | ExpireSession(key: string)
    | Restart

  datatype Env = Env(digest: string -> string, maxFailCount: int)

  function WithoutSessions(sticky: map<string, nat>, uid: string): map<string, nat> {
    map k | k in sticky && !Glob(SessionsOf(uid), k) :: sticky[k]
  }

  ghost function Apply(env: Env, s: Sys, op: Op): Sys {
    match op
    case AddSubscription(sub) => s.(db := s.db.(subs := s.db.subs + {sub}))
    case SyncSubscription(sub, fetched, budget) => Sync(s, sub, fetched, budget).sys
    case ImportManual(items, budget) => Persist(s, items, None, budget).sys
    case DropSubscription(sub, budget) => DeleteSubscription(s, sub, budget).sys
    case RemoveNode(id, unlinkFails, deleteFails) => DeleteNode(s, id, unlinkFails, deleteFails)
    case ToggleNode(id, disabled) => Toggle(s, id, disabled)
    case CheckNode(id, probe) => Check(s, id, probe, env.maxFailCount)
    case FlushNode(id, traffic) => AddTraffic(s, id, traffic)
    case PickNode(uid, f, choice) => Pick(s, SessionKey(env.digest, uid, f), f, choice).0
    case CleanupUser(uid) => WithSticky(s, WithoutSessions(s.cache.sticky, uid))
    case ExpireRow(id) => s.(cache := Expired(s.cache, id))
    case ExpireSession(key) => WithSticky(s, s.cache.sticky - {key})
    case Restart => s.(cache := Cache(map[], {}, map[]))
  }

  ghost function Run(env: Env, s: Sys, ops: seq<Op>): Sys {
    if ops == [] then s else Apply(env, Run(env, s, Front(ops)), Last(ops))
  }

  /** Imports of protocols without a colon, and no node deleted after its links could not be. */
  predicate Tame(op: Op) {
    match op
    case SyncSubscription(_, fetched, _) => fetched.Some? ==> Accepted(fetched.value)
    case ImportManual(items, _) => Accepted(items)
    case RemoveNode(_, unlinkFails, deleteFails) => unlinkFails ==> deleteFails
    case _ => true
  }

  predicate AllTame(ops: seq<Op>) {
    forall i :: 0 <= i < |ops| ==> Tame(ops[i])
  }

  predicate ExpiryFree(ops: seq<Op>) {
    forall i :: 0 <= i < |ops| ==> !ops[i].ExpireRow?
  }

  // ---------------------------------------------------------------- the invariant over runs

  lemma CheckSound(env: Env, s: Sys, id: nat, probe: Probe, exact: bool, slack: Slack := TIGHT)
    requires Sound(s, exact, slack)
    ensures Sound(Check(s, id, probe, env.maxFailCount), exact, slack)
  {
    if id in s.db.nodes {
      match probe
      case NoTransport =>
      case ProbeFailed => SaveRowSound(s, id, Failed(s.db.nodes[id], env.maxFailCount), exact, slack);
      case ProbeOk(p) => SaveRowSound(s, id, Recovered(s.db.nodes[id], p), exact, slack);
    }
  }

  lemma ToggleSound(s: Sys, id: nat, disabled: bool, exact: bool, slack: Slack := TIGHT)
    requires Sound(s, exact, slack)
    ensures Sound(Toggle(s, id, disabled), exact, slack)
  {
    if id in s.db.nodes {
      SaveRowSound(s, id, s.db.nodes[id].(disabled := disabled), exact, slack);
    }
  }

  lemma ExpirySound(s: Sys, id: nat, exact: bool, slack: Slack := TIGHT)
    requires Sound(s, exact, slack)
    ensures Sound(s.(cache := Expired(s.cache, id)), exact, slack.(stale := slack.stale + LeftBehind(s.cache, id)))
  {
    ExpiredFindable(s.cache, id);
    if exact { ExpiredExplained(s.cache, id, slack); }
  }

  lemma RestartSound(s: Sys, exact: bool, slack: Slack := TIGHT)
    requires Sound(s, exact, slack)
    ensures Sound(s.(cache := Cache(map[], {}, map[])), exact, slack)
  {
  }

  lemma FewerSessionsSound(s: Sys, sticky: map<string, nat>, exact: bool, slack: Slack := TIGHT)
    requires Sound(s, exact, slack) && forall k :: k in sticky ==> k in s.cache.sticky && sticky[k] == s.cache.sticky[k]
    ensures Sound(WithSticky(s, sticky), exact, slack)
  {
    StickySound(s, sticky, exact, slack);
  }

  /** The pairs of the index an operation leaves behind: those of a cached row that expires. */
  function Leaves(s: Sys, op: Op): set<Pair> {
    match op
    case ExpireRow(id) => LeftBehind(s.cache, id)
    case _ => {}
  }

  function WithLeft(slack: Slack, s: Sys, op: Op): Slack {
    slack.(stale := slack.stale + Leaves(s, op))
  }

  /** Every operation keeps the invariant, with the slack it started with and what it leaves behind. */
  lemma ApplySound(env: Env, s: Sys, op: Op, exact: bool, slack: Slack := TIGHT)
    requires Sound(s, exact, slack) && Tame(op)
    ensures Sound(Apply(env, s, op), exact, WithLeft(slack, s, op))
  {
    if op.ExpireRow? {
      ExpirySound(s, op.id, exact, slack);
    } else {
      assert slack.stale + {} == slack.stale;
      ApplySoundOthers(env, s, op, exact, slack);
    }
  }

  lemma ApplySoundOthers(env: Env, s: Sys, op: Op, exact: bool, slack: Slack)
    requires Sound(s, exact, slack) && Tame(op) && !op.ExpireRow?
    ensures Sound(Apply(env, s, op), exact, slack)
  {
    match op
    case AddSubscription(sub) => SubsDoNotMatter(s, s.db.subs + {sub}, exact, slack);
    case SyncSubscription(sub, fetched, budget) => SyncSound(s, sub, fetched, budget, exact, slack);
    case ImportManual(items, budget) => PersistEffect(s, items, None, budget, exact, slack);
    case DropSubscription(sub, budget) => DeleteExactly(s, sub, budget, exact, slack);
    case RemoveNode(id, unlinkFails, deleteFails) => DeleteNodeSound(s, id, unlinkFails, deleteFails, exact, slack);
    case ToggleNode(id, disabled) => ToggleSound(s, id, disabled, exact, slack);
    case CheckNode(id, probe) => CheckSound(env, s, id, probe, exact, slack);
    case FlushNode(id, traffic) => AddTrafficSound(s, id, traffic, exact, slack);
    case PickNode(uid, f, choice) => PickSoundBut(s, SessionKey(env.digest, uid, f), f, choice, exact, slack);
    case CleanupUser(uid) => FewerSessionsSound(s, WithoutSessions(s.cache.sticky, uid), exact, slack);
    case ExpireSession(key) => FewerSessionsSound(s, s.cache.sticky - {key}, exact, slack);
    case Restart => RestartSound(s, exact, slack);
  }

  /** All that expired rows left behind in a run. */
  ghost function LeftIn(env: Env, s0: Sys, ops: seq<Op>): set<Pair> {
    if ops == [] then {} else LeftIn(env, s0, Front(ops)) + Leaves(Run(env, s0, Front(ops)), Last(ops))
  }

  lemma {:induction false} NothingLeftIn(env: Env, s0: Sys, ops: seq<Op>)
    requires ExpiryFree(ops)
    ensures LeftIn(env, s0, ops) == {}
  {
    if ops != [] {
      NothingLeftIn(env, s0, Front(ops));
      assert !Last(ops).ExpireRow?;
    }
  }

  /** Over every run: links point at nodes and are unique, rows are unique, the cache agrees with SQL
      but for traffic, sessions are pinned to available nodes, every cached row is in all its sets; and
      in no other, those aside that rows which expired in the run were in when they did. */
  lemma {:induction false} SoundWithLeft(env: Env, s0: Sys, ops: seq<Op>)
    requires Sound(s0, true) && AllTame(ops)
    ensures Sound(Run(env, s0, ops), true, Slack({}, {}, {}, LeftIn(env, s0, ops)))
  {
    if ops != [] {
      SoundWithLeft(env, s0, Front(ops));
      ApplySound(env, Run(env, s0, Front(ops)), Last(ops), true, Slack({}, {}, {}, LeftIn(env, s0, Front(ops))));
    }
  }

  /** In particular the index is exact as long as no cached row expired. */
  lemma SoundInRuns(env: Env, s0: Sys, ops: seq<Op>)
    requires Sound(s0, true) && AllTame(ops)
    ensures Sound(Run(env, s0, ops), ExpiryFree(ops))
  {
    SoundWithLeft(env, s0, ops);
    if ExpiryFree(ops) { NothingLeftIn(env, s0, ops); }
  }

  /** Whatever the fast path yields although the query rejects it was left in one of the asked sets by a
      row of the node that expired earlier in the run. */
  lemma UnsoundWasLeft(env: Env, s0: Sys, ops: seq<Op>, f: Filters, id: nat)
    requires Sound(s0, true) && AllTame(ops)
    requires var s := Run(env, s0, ops); id in FastPath(s.cache, f) && id !in Query(s.db, f)
    ensures exists k :: k in Sets(f) && (k, id) in LeftIn(env, s0, ops)
  {
    var s := Run(env, s0, ops);
    SoundWithLeft(env, s0, ops);
    FastPathIsListed(s.cache, f, id);
    var row := s.cache.cached[id];
    PlacedInAll(row, f);
    IndexedAndQuery(row, f);
    assert SameRow(row, s.db.nodes[id]);
    var k :| k in Sets(f) && k !in Placed(row);
    assert (k, id) in s.cache.index;
  }

  /** Membership in the sets, spelled out. */
  lemma IndexInRuns(env: Env, s0: Sys, ops: seq<Op>, id: nat, value: string)
    requires Sound(s0, true) && AllTame(ops) && ExpiryFree(ops) && value != ""
    ensures var c := Run(env, s0, ops).cache;
         && ((HEALTHY, id) in c.index <==> id in c.cached && c.cached[id].healthy && !c.cached[id].disabled)
         && ((RegionKey(value), id) in c.index
             <==> id in c.cached
                  && (c.cached[id].profile.detectedRegion == value
                      || (c.cached[id].profile.detectedRegion == "" && c.cached[id].expectedRegion == value)))
         && ((CityKey(value), id) in c.index <==> id in c.cached && c.cached[id].profile.city == value)
         && ((AsnKey(value), id) in c.index <==> id in c.cached && c.cached[id].profile.asn == value)
         && ((IspKey(value), id) in c.index <==> id in c.cached && c.cached[id].profile.isp == value)
  {
    SoundInRuns(env, s0, ops);
    SoundIsCoherent(Run(env, s0, ops));
    var c := Run(env, s0, ops).cache;
    if id in c.cached { PlacedUnder(c.cached[id], value); }
  }

  /** After a successful check a node is in exactly the sets of what the check learned, whatever sets it
      was in before, and in `healthy_nodes` unless it is disabled. */
  lemma CheckMovesNode(env: Env, s: Sys, id: nat, p: Profile, value: string)
    requires Sound(s, true) && id in s.db.nodes && value != ""
    ensures var c := Check(s, id, ProbeOk(p), env.maxFailCount).cache;
         && ((HEALTHY, id) in c.index <==> !s.db.nodes[id].disabled)
         && ((RegionKey(value), id) in c.index
             <==> p.detectedRegion == value || (p.detectedRegion == "" && s.db.nodes[id].expectedRegion == value))
         && ((CityKey(value), id) in c.index <==> p.city == value)
         && ((AsnKey(value), id) in c.index <==> p.asn == value)
         && ((IspKey(value), id) in c.index <==> p.isp == value)
  {
    var row := Recovered(s.db.nodes[id], p);
    CheckSound(env, s, id, ProbeOk(p), true);
    SoundIsCoherent(Check(s, id, ProbeOk(p), env.maxFailCount));
    PlacedUnder(row, value);
    assert Check(s, id, ProbeOk(p), env.maxFailCount).cache.cached[id] == row;
  }

  /** After a successful check row and cached row are the old row with what the check learned: every field
      of it, no failures, healthy; and nothing else is changed. */
  lemma CheckStores(s: Sys, id: nat, p: Profile, max: int)
    requires id in s.db.nodes
    ensures var t, old_ := Check(s, id, ProbeOk(p), max), s.db.nodes[id];
         && t.db == s.db.(nodes := s.db.nodes[id := Node(old_.addr, old_.config, old_.expectedRegion, p, true,
                                                         old_.disabled, 0, old_.subscription, old_.traffic)])
         && id in t.cache.cached && t.cache.cached[id] == t.db.nodes[id]
         && forall m :: m != id ==> (m in t.cache.cached <==> m in s.cache.cached)
                                    && (m in s.cache.cached ==> t.cache.cached[m] == s.cache.cached[m])
  {
  }

  /** After a failed one the row has one more failure, is healthy only if it was and the limit is not reached,
      and is as before otherwise. */
  lemma FailedCheckStores(s: Sys, id: nat, max: int)
    requires id in s.db.nodes
    ensures var t, old_ := Check(s, id, ProbeFailed, max), s.db.nodes[id];
         && t.db == s.db.(nodes := s.db.nodes[id := Node(old_.addr, old_.config, old_.expectedRegion, old_.profile,
                                                         old_.healthy && old_.failCount + 1 < max, old_.disabled,
                                                         old_.failCount + 1, old_.subscription, old_.traffic)])
         && id in t.cache.cached && t.cache.cached[id] == t.db.nodes[id]
  {
  }

  /** A flush writes the traffic columns of the row in SQL, and nothing else anywhere. */
  lemma FlushStores(s: Sys, id: nat, t: Traffic)
    requires id in s.db.nodes
    ensures var old_ := s.db.nodes[id];
         AddTraffic(s, id, t)
         == Sys(s.db.(nodes := s.db.nodes[id := Node(old_.addr, old_.config, old_.expectedRegion, old_.profile,
                                                     old_.healthy, old_.disabled, old_.failCount, old_.subscription,
                                                     t)]), s.cache)
  {
  }

  /** After a toggle row and cached row are disabled as asked, and as before otherwise; sessions of a node
      that is not available are gone. */
  lemma ToggleStores(s: Sys, id: nat, disabled: bool)
    requires id in s.db.nodes
    ensures var t, old_ := Toggle(s, id, disabled), s.db.nodes[id];
         && t.db == s.db.(nodes := s.db.nodes[id := Node(old_.addr, old_.config, old_.expectedRegion, old_.profile,
                                                         old_.healthy, disabled, old_.failCount, old_.subscription,
                                                         old_.traffic)])
         && id in t.cache.cached && t.cache.cached[id] == t.db.nodes[id]
         && forall k :: k in t.cache.sticky
                        <==> k in s.cache.sticky && (s.cache.sticky[k] == id ==> old_.healthy && !disabled)
  {
  }

  /** The branch of `Pick` that deletes a stale key is never taken. */
  lemma StaleBranchDead(env: Env, s0: Sys, ops: seq<Op>, f: Filters, key: string)
    requires Sound(s0, true) && AllTame(ops)
    ensures Cleared(Run(env, s0, ops), f, key) == Run(env, s0, ops)
  {
    SoundInRuns(env, s0, ops);
    NeverStale(Run(env, s0, ops), f, key);
  }

  // ---------------------------------------------------------------- sessions stay where they are

  predicate Pinned(s: Sys, key: string, id: nat) {
    key in s.cache.sticky && s.cache.sticky[key] == id
  }

  predicate IsAvailable(s: Sys, id: nat) {
    id in s.db.nodes && s.db.nodes[id].Available()
  }

  lemma ImportOneKeepsSession(s: Sys, item: Parsed, sub: Option<nat>, key: string, id: nat, exact: bool)
    requires Sound(s, exact) && ':' !in item.addr.protocol && Pinned(s, key, id)
    requires ImportOne(s, item, sub).Some?
    ensures Pinned(ImportOne(s, item, sub).value.0, key, id)
  {
    var (t, m) := ImportOne(s, item, sub).value;
    ImportOneSound(s, item, sub, exact);
    if m == id {
      assert Kept(s.db.nodes[id], t.db.nodes[id]);
    }
  }

  lemma PersistKeepsSession(s: Sys, items: seq<Parsed>, sub: Option<nat>, budget: nat, key: string, id: nat,
                            exact: bool)
    requires Sound(s, exact) && Accepted(items) && Pinned(s, key, id)
    ensures Pinned(Persist(s, items, sub, budget).sys, key, id)
  {
    var inv := (t: Sys, ids: seq<nat>) => Sound(t, exact) && Pinned(t, key, id);
    forall t: Sys, ids: seq<nat> | |ids| < |items| && inv(t, ids)
      ensures match ImportOne(t, items[|ids|], sub) case None => true case Some((u, m)) => inv(u, ids + [m])
    {
      if ImportOne(t, items[|ids|], sub).Some? {
        ImportOneSound(t, items[|ids|], sub, exact);
        ImportOneKeepsSession(t, items[|ids|], sub, key, id, exact);
      }
    }
    assert items[..|items|] == items;
    PersistInduction(s, items, sub, budget, |items|, inv);
  }

  lemma PruneNextKeepsSession(done: Outcome, l: nat, keep: seq<nat>, key: string, id: nat)
    requires id in done.sys.db.nodes ==> Pinned(done.sys, key, id)
    ensures var t := PruneNext(done, l, keep).sys;
         id in t.db.nodes ==> Pinned(t, key, id)
  {
    if done.ok && l in done.sys.db.links && done.sys.db.links[l].node !in keep {
      PruneOneCases(done.sys, l, done.budget);
    }
  }

  lemma PruneKeepsSession(s: Sys, todo: seq<nat>, keep: seq<nat>, budget: nat, key: string, id: nat)
    requires id in s.db.nodes ==> Pinned(s, key, id)
    ensures var t := Prune(s, todo, keep, budget).sys;
         id in t.db.nodes ==> Pinned(t, key, id)
  {
    var inv := (done: Outcome, k: nat) => id in done.sys.db.nodes ==> Pinned(done.sys, key, id);
    forall done: Outcome, k: nat | k < |todo| && inv(done, k)
      ensures inv(PruneNext(done, todo[k], keep), k + 1)
    {
      PruneNextKeepsSession(done, todo[k], keep, key, id);
    }
    assert todo[..|todo|] == todo;
    PruneInduction(s, todo, keep, budget, |todo|, inv);
  }

  lemma SyncKeepsSession(s: Sys, sub: nat, fetched: Option<seq<Parsed>>, budget: nat, key: string, id: nat, exact: bool)
    requires Sound(s, exact) && (fetched.Some? ==> Accepted(fetched.value)) && Pinned(s, key, id)
    ensures var t := Sync(s, sub, fetched, budget).sys;
         id in t.db.nodes ==> Pinned(t, key, id)
  {
    if budget > 0 && fetched.Some? {
      PersistKeepsSession(s, fetched.value, Some(sub), budget - 1, key, id, exact);
      PruneImportedKeepsSession(Persist(s, fetched.value, Some(sub), budget - 1), sub, key, id);
    }
  }

  lemma PruneImportedKeepsSession(imported: Import, sub: nat, key: string, id: nat)
    requires Pinned(imported.sys, key, id)
    ensures var t := PruneImported(imported, sub).sys;
         id in t.db.nodes ==> Pinned(t, key, id)
  {
    if imported.budget > 0 {
      var todo := LinksOf(imported.sys.db, sub, imported.sys.db.nextLink);
      PruneKeepsSession(imported.sys, todo, imported.ids, imported.budget - 1, key, id);
    }
  }

  lemma {:induction false} DropKeepsSession(s: Sys, todo: seq<nat>, budget: nat, key: string, id: nat)
    requires id in s.db.nodes ==> Pinned(s, key, id)
    ensures var t := DropUnlinked(s, todo, budget).sys;
         id in t.db.nodes ==> Pinned(t, key, id)
  {
    if todo != [] {
      DropKeepsSession(s, Front(todo), budget, key, id);
    }
  }

  lemma SaveKeepsSession(s: Sys, m: nat, row: Node, key: string, id: nat)
    requires Pinned(s, key, id) && IsAvailable(SaveRow(s, m, row), id)
    ensures Pinned(SaveRow(s, m, row), key, id)
  {
  }

  lemma PickKeepsSession(s: Sys, other: string, f: Filters, choice: nat, key: string, id: nat, exact: bool)
    requires Sound(s, exact) && Pinned(s, key, id)
    ensures Pinned(Pick(s, other, f, choice).0, key, id)
  {
    PickSound(s, other, f, choice, exact);
  }

  lemma CheckKeepsSession(s: Sys, m: nat, probe: Probe, max: int, key: string, id: nat)
    requires Pinned(s, key, id) && IsAvailable(Check(s, m, probe, max), id)
    ensures Pinned(Check(s, m, probe, max), key, id)
  {
    if m in s.db.nodes {
      match probe
      case NoTransport =>
      case ProbeFailed => SaveKeepsSession(s, m, Failed(s.db.nodes[m], max), key, id);
      case ProbeOk(p) => SaveKeepsSession(s, m, Recovered(s.db.nodes[m], p), key, id);
    }
  }

  lemma ToggleKeepsSession(s: Sys, m: nat, disabled: bool, key: string, id: nat)
    requires Pinned(s, key, id) && IsAvailable(Toggle(s, m, disabled), id)
    ensures Pinned(Toggle(s, m, disabled), key, id)
  {
  }

  lemma RemoveKeepsSession(s: Sys, m: nat, unlinkFails: bool, deleteFails: bool, key: string, id: nat)
    requires Pinned(s, key, id) && IsAvailable(DeleteNode(s, m, unlinkFails, deleteFails), id)
    ensures Pinned(DeleteNode(s, m, unlinkFails, deleteFails), key, id)
  {
  }

  lemma DeleteKeepsSession(s: Sys, sub: nat, budget: nat, key: string, id: nat)
    requires Pinned(s, key, id) && IsAvailable(DeleteSubscription(s, sub, budget).sys, id)
    ensures Pinned(DeleteSubscription(s, sub, budget).sys, key, id)
  {
    if budget >= 2 {
      DropKeepsSession(s.(db := WithoutLinksOf(s.db, sub)), NodesOf(s.db, sub, s.db.nextNode), budget - 2, key, id);
    }
  }

  /** The operation takes no session of this key away by itself. */
  predicate Spares(op: Op, key: string) {
    match op
    case CleanupUser(uid) => !Glob(SessionsOf(uid), key)
    case ExpireSession(k) => k != key
    case Restart => false
    case _ => true
  }

  lemma ApplyKeepsSession(env: Env, s: Sys, op: Op, key: string, id: nat, exact: bool)
    requires Sound(s, exact) && Tame(op) && Spares(op, key)
    requires Pinned(s, key, id) && IsAvailable(Apply(env, s, op), id)
    ensures Pinned(Apply(env, s, op), key, id)
  {
    match op
    case SyncSubscription(sub, fetched, budget) => SyncKeepsSession(s, sub, fetched, budget, key, id, exact);
    case ImportManual(items, budget) => PersistKeepsSession(s, items, None, budget, key, id, exact);
    case DropSubscription(sub, budget) => DeleteKeepsSession(s, sub, budget, key, id);
    case RemoveNode(m, unlinkFails, deleteFails) => RemoveKeepsSession(s, m, unlinkFails, deleteFails, key, id);
    case ToggleNode(m, disabled) => ToggleKeepsSession(s, m, disabled, key, id);
    case CheckNode(m, probe) => CheckKeepsSession(s, m, probe, env.maxFailCount, key, id);
    case PickNode(uid, f, choice) => PickKeepsSession(s, SessionKey(env.digest, uid, f), f, choice, key, id, exact);
    case _ =>
  }

  /** The node is available after every operation of the run, and none takes the session away. */
  ghost predicate Undisturbed(env: Env, s0: Sys, ops: seq<Op>, key: string, id: nat) {
    && (forall i :: 0 <= i < |ops| ==> Spares(ops[i], key))
    && (forall n :: 0 <= n <= |ops| ==> IsAvailable(Run(env, s0, ops[..n]), id))
  }

  lemma UndisturbedFront(env: Env, s0: Sys, ops: seq<Op>, key: string, id: nat)
    requires ops != [] && Undisturbed(env, s0, ops, key, id)
    ensures Undisturbed(env, s0, Front(ops), key, id) && IsAvailable(Run(env, s0, ops), id)
  {
    assert ops[..|ops|] == ops;
    forall n | 0 <= n <= |Front(ops)|
      ensures IsAvailable(Run(env, s0, Front(ops)[..n]), id)
    {
      assert Front(ops)[..n] == ops[..n];
    }
  }

  lemma {:induction false} SessionKept(env: Env, s0: Sys, ops: seq<Op>, key: string, id: nat)
    requires Sound(s0, true) && AllTame(ops) && Pinned(s0, key, id) && Undisturbed(env, s0, ops, key, id)
    ensures Pinned(Run(env, s0, ops), key, id)
  {
    if ops != [] {
      UndisturbedFront(env, s0, ops, key, id);
      SessionKept(env, s0, Front(ops), key, id);
      SoundInRuns(env, s0, Front(ops));
      ApplyKeepsSession(env, Run(env, s0, Front(ops)), Last(ops), key, id, ExpiryFree(Front(ops)));
    }
  }

  /** Once a pick bound a user, filters and session id to a node, every later pick with the same
      three returns that node, whatever else happens and is chosen, until the node becomes
      unavailable or the session is taken away. */
  lemma SameNodeWhileAvailable(env: Env, s0: Sys, uid: string, f: Filters, choice: nat, ops: seq<Op>, again: nat)
    requires Sound(s0, true) && AllTame(ops) && f.sid != ""
    requires Pick(s0, SessionKey(env.digest, uid, f), f, choice).1.Some?
    requires var key := SessionKey(env.digest, uid, f);
          Undisturbed(env, Pick(s0, key, f, choice).0, ops, key, Pick(s0, key, f, choice).1.value)
    ensures var key := SessionKey(env.digest, uid, f);
          Pick(Run(env, Pick(s0, key, f, choice).0, ops), key, f, again).1 == Pick(s0, key, f, choice).1
  {
    var key := SessionKey(env.digest, uid, f);
    var s1, id := Pick(s0, key, f, choice).0, Pick(s0, key, f, choice).1.value;
    PickSound(s0, key, f, choice, true);
    SessionKept(env, s1, ops, key, id);
    AvailableAtEnd(env, s1, ops, key, id);
    PinnedPick(Run(env, s1, ops), key, f, again, id);
  }

  lemma AvailableAtEnd(env: Env, s: Sys, ops: seq<Op>, key: string, id: nat)
    requires Undisturbed(env, s, ops, key, id)
    ensures IsAvailable(Run(env, s, ops), id)
  {
    assert ops[..|ops|] == ops;
  }

  lemma PinnedPick(s: Sys, key: string, f: Filters, choice: nat, id: nat)
    requires Pinned(s, key, id) && IsAvailable(s, id) && f.sid != ""
    ensures Pick(s, key, f, choice).1 == Some(id)
  {
  }

  /** Cleaning up after a user without pattern characters takes the session exactly when it is of this
      user, or the uid spells its key. */
  lemma OthersSpareSession(env: Env, s: Sys, other: string, uid: Uid, f: Filters)
    requires Literal(other)
    ensures var key, t := SessionKey(env.digest, uid, f), Apply(env, s, CleanupUser(other));
         && (key in t.cache.sticky
             <==> key in s.cache.sticky
                  && other != uid && !SpellsSession(other, uid, env.digest(HashInput(f)), f.sid))
         && (key in t.cache.sticky ==> t.cache.sticky[key] == s.cache.sticky[key])
         && t.db == s.db && t.cache.cached == s.cache.cached && t.cache.index == s.cache.index
  {
    SessionsOfOneUser(other, uid, env.digest(HashInput(f)), f.sid);
  }

  // ---------------------------------------------------------------- health

  /** Failures since the last success, all of them when there was none. */
  function FailuresSince(h: seq<bool>): nat {
    if h == [] || Last(h) then 0 else 1 + FailuresSince(Front(h))
  }

  /** The outcomes after one more operation. */
  function OneMoreOutcome(op: Op, id: nat, h: seq<bool>): seq<bool> {
    match op
    case CheckNode(m, ProbeOk(_)) => if m == id then h + [true] else h
    case CheckNode(m, ProbeFailed) => if m == id then h + [false] else h
    case _ => h
  }

  /** The outcomes of the checks of a row since it was created. */
  ghost function Outcomes(env: Env, s0: Sys, ops: seq<Op>, id: nat): seq<bool> {
    if ops == [] || id !in Run(env, s0, ops).db.nodes then []
    else OneMoreOutcome(Last(ops), id, Outcomes(env, s0, Front(ops), id))
  }

  /** The row after these outcomes. */
  predicate HealthIs(n: Node, h: seq<bool>, max: int) {
    && n.failCount == FailuresSince(h)
    && (n.healthy <==> true in h && (FailuresSince(h) == 0 || FailuresSince(h) < max))
  }

  lemma FreshHealth(n: Node, max: int)
    requires Unchecked(n)
    ensures HealthIs(n, [], max)
  {
  }

  lemma FailedHealth(n: Node, h: seq<bool>, max: int)
    requires HealthIs(n, h, max)
    ensures HealthIs(Failed(n, max), h + [false], max)
  {
    assert Front(h + [false]) == h;
  }

  lemma RecoveredHealth(n: Node, p: Profile, h: seq<bool>, max: int)
    ensures HealthIs(Recovered(n, p), h + [true], max)
  {
  }

  /** Every row is an old one with the health it had, or unchecked. */
  ghost predicate HealthCarried(db: Db, db': Db) {
    forall n :: n in db'.nodes ==>
      if n in db.nodes then
        db'.nodes[n].healthy == db.nodes[n].healthy && db'.nodes[n].failCount == db.nodes[n].failCount
      else Unchecked(db'.nodes[n])
  }

  lemma DeletedCarried(s: Sys, sub: nat, budget: nat)
    ensures HealthCarried(s.db, DeleteSubscription(s, sub, budget).sys.db)
  {
    if budget >= 2 {
      DropUnlinkedRows(s.(db := WithoutLinksOf(s.db, sub)), NodesOf(s.db, sub, s.db.nextNode), budget - 2);
    }
  }

  /** Nothing but a check changes the health of a row: imports, syncs, deletions, toggles and picks
      leave it alone. */
  lemma ApplyCarries(env: Env, s: Sys, op: Op, exact: bool)
    requires Sound(s, exact) && Tame(op) && !op.CheckNode?
    ensures HealthCarried(s.db, Apply(env, s, op).db)
  {
    match op
    case SyncSubscription(sub, fetched, budget) => SyncSound(s, sub, fetched, budget, exact);
    case ImportManual(items, budget) => PersistEffect(s, items, None, budget, exact);
    case DropSubscription(sub, budget) => DeletedCarried(s, sub, budget);
    case PickNode(uid, f, choice) => PickSound(s, SessionKey(env.digest, uid, f), f, choice, exact);
    case _ =>
  }

  lemma CheckHealth(s: Sys, m: nat, probe: Probe, id: nat, h: seq<bool>, max: int)
    requires id in s.db.nodes && HealthIs(s.db.nodes[id], h, max)
    ensures var t := Check(s, m, probe, max);
         && id in t.db.nodes
         && HealthIs(t.db.nodes[id], if m == id && !probe.NoTransport? then h + [probe.ProbeOk?] else h, max)
  {
    if m == id {
      match probe
      case NoTransport =>
      case ProbeFailed => FailedHealth(s.db.nodes[id], h, max);
      case ProbeOk(p) => RecoveredHealth(s.db.nodes[id], p, h, max);
    }
  }

  /** Over every run that starts with unchecked rows: the fail count of a row is the number of failed
      checks since its last success, and it is healthy exactly when some check succeeded and that
      number is zero or below the limit; whatever is imported, toggled or deleted in between. */
  lemma {:induction false} HealthInRuns(env: Env, s0: Sys, ops: seq<Op>, id: nat)
    requires Sound(s0, true) && AllTame(ops) && forall n :: n in s0.db.nodes ==> Unchecked(s0.db.nodes[n])
    requires id in Run(env, s0, ops).db.nodes
    ensures HealthIs(Run(env, s0, ops).db.nodes[id], Outcomes(env, s0, ops, id), env.maxFailCount)
  {
    if ops == [] {
      FreshHealth(s0.db.nodes[id], env.maxFailCount);
    } else {
      var s, op, h := Run(env, s0, Front(ops)), Last(ops), Outcomes(env, s0, Front(ops), id);
      SoundInRuns(env, s0, Front(ops));
      if id in s.db.nodes { HealthInRuns(env, s0, Front(ops), id); }
      HealthStep(env, s, op, id, h, ExpiryFree(Front(ops)));
    }
  }

  lemma HealthStep(env: Env, s: Sys, op: Op, id: nat, h: seq<bool>, exact: bool)
    requires Sound(s, exact) && Tame(op) && id in Apply(env, s, op).db.nodes
    requires if id in s.db.nodes then HealthIs(s.db.nodes[id], h, env.maxFailCount) else h == []
    ensures HealthIs(Apply(env, s, op).db.nodes[id], OneMoreOutcome(op, id, h), env.maxFailCount)
  {
    if op.CheckNode? {
      CheckHealth(s, op.id, op.probe, id, h, env.maxFailCount);
    } else {
      ApplyCarries(env, s, op, exact);
      if id !in s.db.nodes { FreshHealth(Apply(env, s, op).db.nodes[id], env.maxFailCount); }
    }
  }
}
