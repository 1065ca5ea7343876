/** The health check and the admin handlers that change one node. */
module NodeServices {
  import opened Text
  import RedisKeys
  import opened NodeCache
  import opened NodeStore
  import opened Catalog
  import opened CatalogInvariants
  import opened SubscriptionGraph
  import opened SystemRuns
  import opened SqlTables

  /** A failed probe whose row could not be saved: the error is ignored and the row cached anyway. */
  function CachedOnly(s: Sys, id: nat, row: Node): Sys {
    Sys(s.db, Cached(s.cache, id, row))
  }

  /** `CheckOne` when the save of the row works or not. */
  function Checked(s: Sys, id: nat, probe: Probe, max: int, saved: bool): Sys {
    if saved || id !in s.db.nodes then Check(s, id, probe, max)
    else if probe.ProbeFailed? then CachedOnly(s, id, Failed(s.db.nodes[id], max))
    else s
  }

  /** A check keeps the cache in agreement with SQL exactly when it does not record a failure it
      could not save. */
  lemma CheckedAgrees(env: Env, s: Sys, id: nat, probe: Probe, saved: bool, exact: bool)
    requires Sound(s, exact)
    ensures Agrees(Checked(s, id, probe, env.maxFailCount, saved))
       <==> !(!saved && probe.ProbeFailed? && id in s.db.nodes)
  {
    var t := Checked(s, id, probe, env.maxFailCount, saved);
    if !saved && probe.ProbeFailed? && id in s.db.nodes {
      assert t.cache.cached[id].failCount != t.db.nodes[id].failCount;
    } else {
      CheckSound(env, s, id, probe, exact);
    }
  }

  function CheckedAll(s: Sys, ids: seq<nat>, probes: seq<Probe>, max: int): Sys
    requires |ids| == |probes|
  {
    if ids == [] then s else Check(CheckedAll(s, Front(ids), Front(probes), max), Last(ids), Last(probes), max)
  }

  /** How many ids had a healthy row right after their own check. */
  function CountHealthy(s: Sys, ids: seq<nat>, probes: seq<Probe>, max: int): nat
    requires |ids| == |probes|
  {
    if ids == [] then 0
    else
      var t := CheckedAll(s, ids, probes, max);
      CountHealthy(s, Front(ids), Front(probes), max)
      + if Last(ids) in t.db.nodes && t.db.nodes[Last(ids)].healthy then 1 else 0
  }

  /** How many ids have no row or a probe that did not succeed. */
  function CountFailed(s: Sys, ids: seq<nat>, probes: seq<Probe>): nat
    requires |ids| == |probes|
  {
    if ids == [] then 0
    else CountFailed(s, Front(ids), Front(probes)) + if Last(ids) in s.db.nodes && Last(probes).ProbeOk? then 0 else 1
  }

  lemma {:induction false} ChecksKeepRows(s: Sys, ids: seq<nat>, probes: seq<Probe>, max: int)
    requires |ids| == |probes|
    ensures CheckedAll(s, ids, probes, max).db.nodes.Keys == s.db.nodes.Keys
  {
    if ids != [] { ChecksKeepRows(s, Front(ids), Front(probes), max); }
  }

  datatype Summary = Summary(total: nat, healthy: nat, unhealthy: nat, failed: nat)

  class HealthService {
    const db: Tables
    const store: Store
    const maxFailCount: int

    function State(): Sys
      reads db, store
    {
      Sys(db.State(), store.State())
    }

    constructor (db: Tables, store: Store, maxFailCount: int)
      ensures this.db == db && this.store == store && this.maxFailCount == maxFailCount
    {
      this.db, this.store, this.maxFailCount := db, store, maxFailCount;
    }

    /** `CheckOne`, given the outcome of the probe. */
    method CheckOne(id: nat, probe: Probe) returns (ok: bool)
      modifies db, store
      ensures State() == Checked(old(State()), id, probe, maxFailCount, old(db.budget) > 0)
      ensures db.budget <= old(db.budget) <= db.budget + 1
      ensures ok == (id in old(db.nodes) && probe.ProbeOk? && old(db.budget) > 0)
    {
      var found := db.FirstNode(id);
      if found.None? { return false; }
      var node := found.value;
      match probe {
        case NoTransport =>
          return false;
        case ProbeFailed =>
          MarkFailure(id, node);
          return false;
        case ProbeOk(profile) =>
          node := node.(profile := profile);
          node := node.(failCount := 0);
          node := node.(healthy := true);
          ok := db.SaveNode(id, node);
          if !ok { return; }
          store.CacheNode(id, node);
      }
    }

    method MarkFailure(id: nat, read: Node)
      modifies db, store
      ensures db.budget <= old(db.budget) <= db.budget + 1
      ensures State() == if old(db.budget) > 0 then SaveRow(old(State()), id, Failed(read, maxFailCount))
                         else CachedOnly(old(State()), id, Failed(read, maxFailCount))
    {
      var node := read.(failCount := read.failCount + 1);
      node := node.(healthy := node.healthy && node.failCount < maxFailCount);
      var _ := db.SaveNode(id, node);
      store.CacheNode(id, node);
    }

    /** `CheckNodes`: every id is counted once, as healthy or as unhealthy. */
    method CheckNodes(ids: seq<nat>, probes: seq<Probe>) returns (summary: Summary)
      requires |ids| == |probes| && db.budget >= |ids|
      modifies db, store
      ensures State() == CheckedAll(old(State()), ids, probes, maxFailCount)
      ensures summary.total == |ids| == summary.healthy + summary.unhealthy
      ensures summary.healthy == CountHealthy(old(State()), ids, probes, maxFailCount)
      ensures summary.failed == CountFailed(old(State()), ids, probes)
    {
      summary := Summary(|ids|, 0, 0, 0);
      for i := 0 to |ids|
        invariant State() == CheckedAll(old(State()), ids[..i], probes[..i], maxFailCount)
        invariant summary.total == |ids| && summary.healthy + summary.unhealthy == i
        invariant summary.healthy == CountHealthy(old(State()), ids[..i], probes[..i], maxFailCount)
        invariant summary.failed == CountFailed(old(State()), ids[..i], probes[..i])
        invariant db.budget >= |ids| - i
      {
        assert Front(ids[..i + 1]) == ids[..i] && Front(probes[..i + 1]) == probes[..i];
        ChecksKeepRows(old(State()), ids[..i], probes[..i], maxFailCount);
        var ok := CheckOne(ids[i], probes[i]);
        if !ok { summary := summary.(failed := summary.failed + 1); }
        var node := db.FirstNode(ids[i]);
        if node.Some? && node.value.healthy {
          summary := summary.(healthy := summary.healthy + 1);
        } else {
          summary := summary.(unhealthy := summary.unhealthy + 1);
        }
      }
      assert ids[..|ids|] == ids && probes[..|probes|] == probes;
    }
  }

  class AdminServer {
    const db: Tables
    const store: Store

    function State(): Sys
      reads db, store
    {
      Sys(db.State(), store.State())
    }

    constructor (db: Tables, store: Store)
      ensures this.db == db && this.store == store
    {
      this.db, this.store := db, store;
    }

    method ToggleNodeDisabled(id: nat, disabled: bool) returns (ok: bool)
      modifies db, store
      ensures ok == (id in old(db.nodes) && old(db.budget) > 0)
      ensures State() == if ok then Toggle(old(State()), id, disabled) else old(State())
    {
      var found := db.FirstNode(id);
      if found.None? { return false; }
      var node := found.value.(disabled := disabled);
      ok := db.SaveNode(id, node);
      if !ok { return; }
      store.CacheNode(id, node);
    }

    /** The links go first, and whether they did is not looked at. */
    method DeleteNode(id: nat) returns (ok: bool, ghost unlinked: bool)
      modifies db, store
      ensures ok == (id in old(db.nodes) && old(db.budget) > 0)
      ensures State() == Catalog.DeleteNode(old(State()), id, !unlinked, old(db.budget) == 0)
      ensures store.usage == if ok then old(store.usage) - RedisKeys.NodeUsageKeys(id) else old(store.usage)
    {
      unlinked := false;
      var found := db.FirstNode(id);
      if found.None? { return false, false; }
      var done := db.DeleteLinksOfNode(id);
      unlinked := done;
      ok := db.DeleteNode(id);
      if !ok { return; }
      store.RemoveNode(id, found.value);
    }
  }
}
