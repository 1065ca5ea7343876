/** The Redis copy of the nodes: cached rows, the inverted index of set members, and the sticky
    sessions. Redis sets are modelled as pairs of key and member. */
module NodeCache {
  import opened Text

  // ---------------------------------------------------------------- nodes

  datatype Address = Address(protocol: string, host: string, port: int)

  /** What an import writes besides the address and the expected region. */
  datatype Config = Config(username: string, password: string, tls: bool, tlsSkipVerify: bool,
                           serverName: string, tag: string, rawJson: string)

  /** What a health check learns. */
  datatype Profile = Profile(detectedRegion: string, city: string, country: string,
                             asn: string, org: string, isp: string, exitIp: string)

  datatype Traffic = Traffic(upload: int, download: int, requests: int)

  datatype Node = Node(addr: Address, config: Config, expectedRegion: string, profile: Profile,
                       healthy: bool, disabled: bool, failCount: int, subscription: nat, traffic: Traffic)
  {
    predicate Available() {
      healthy && !disabled
    }

    /** The region a node is indexed under. */
    function Region(): string {
      if profile.detectedRegion == "" then expectedRegion else profile.detectedRegion
    }
  }

  type Pair = (string, nat)

  datatype Cache = Cache(cached: map<nat, Node>, index: set<Pair>, sticky: map<string, nat>)

  // ---------------------------------------------------------------- keys

  const HEALTHY := "healthy_nodes"

  function RegionKey(region: string): string { "region:" + region }

  function CityKey(city: string): string { "city:" + city }

  function AsnKey(asn: string): string { "asn:" + asn }

  function IspKey(isp: string): string { "isp:" + isp }

  /** The key of an attribute, unless it is empty. */
  function Under(prefix: string, value: string): seq<string> {
    if value != "" then [prefix + value] else []
  }

  /** The index keys of a node: one for each of the four attributes that is not empty. */
  function IndexKeys(n: Node): seq<string> {
    Under("region:", n.Region()) + Under("city:", n.profile.city) + Under("asn:", n.profile.asn)
    + Under("isp:", n.profile.isp)
  }

  /** All sets a node belongs to. */
  function Placed(n: Node): seq<string> {
    IndexKeys(n) + if n.Available() then [HEALTHY] else []
  }

  function Pairs(keys: seq<string>, id: nat): set<Pair> {
    set k | k in keys :: (k, id)
  }

  lemma PairsOfSum(a: seq<string>, b: seq<string>, id: nat)
    ensures Pairs(a + b, id) == Pairs(a, id) + Pairs(b, id)
  {
  }

  /** The pairs of a node, attribute by attribute. */
  lemma PairsOfIndexKeys(n: Node, id: nat)
    ensures Pairs(IndexKeys(n), id)
         == Pairs(Under("region:", n.Region()), id) + Pairs(Under("city:", n.profile.city), id)
            + Pairs(Under("asn:", n.profile.asn), id) + Pairs(Under("isp:", n.profile.isp), id)
  {
    var r, c := Under("region:", n.Region()), Under("city:", n.profile.city);
    var a, i := Under("asn:", n.profile.asn), Under("isp:", n.profile.isp);
    PairsOfSum(r, c, id);
    PairsOfSum(r + c, a, id);
    PairsOfSum(r + c + a, i, id);
  }

  /** The key families are kept apart by their first letter, so each attribute has its own sets. */
  lemma PlacedUnder(n: Node, value: string)
    requires value != ""
    ensures RegionKey(value) in Placed(n)
       <==> n.profile.detectedRegion == value || (n.profile.detectedRegion == "" && n.expectedRegion == value)
    ensures CityKey(value) in Placed(n) <==> n.profile.city == value
    ensures AsnKey(value) in Placed(n) <==> n.profile.asn == value
    ensures IspKey(value) in Placed(n) <==> n.profile.isp == value
    ensures HEALTHY in Placed(n) <==> n.healthy && !n.disabled
  {
    Prefixed("region:", n.Region(), value);
    Prefixed("city:", n.profile.city, value);
    Prefixed("asn:", n.profile.asn, value);
    Prefixed("isp:", n.profile.isp, value);
    FirstLetters(n);
    assert RegionKey(value)[0] == 'r' && CityKey(value)[0] == 'c' && AsnKey(value)[0] == 'a' && IspKey(value)[0] == 'i';
  }

  lemma Prefixed(p: string, a: string, b: string)
    ensures p + a == p + b <==> a == b
  {
    assert (p + a)[|p|..] == a && (p + b)[|p|..] == b;
  }

  lemma FirstLetters(n: Node)
    ensures forall k :: k in IndexKeys(n) ==> k != [] && k[0] in {'r', 'c', 'a', 'i'}
    ensures forall k :: k in IndexKeys(n) && k[0] == 'r' ==> n.Region() != "" && k == RegionKey(n.Region())
    ensures forall k :: k in IndexKeys(n) && k[0] == 'c' ==> n.profile.city != "" && k == CityKey(n.profile.city)
    ensures forall k :: k in IndexKeys(n) && k[0] == 'a' ==> n.profile.asn != "" && k == AsnKey(n.profile.asn)
    ensures forall k :: k in IndexKeys(n) && k[0] == 'i' ==> n.profile.isp != "" && k == IspKey(n.profile.isp)
  {
  }

  // ---------------------------------------------------------------- operations

  function Unpinned(sticky: map<string, nat>, id: nat): map<string, nat> {
    map k | k in sticky && sticky[k] != id :: sticky[k]
  }

  /** The cache after `CacheNode`. */
  function Cached(c: Cache, id: nat, n: Node): Cache {
    var previous := if id in c.cached then IndexKeys(c.cached[id]) else [];
    Cache(c.cached[id := n],
          (c.index - Pairs(previous + [HEALTHY], id)) + Pairs(Placed(n), id),
          if n.Available() then c.sticky else Unpinned(c.sticky, id))
  }

  /** The cache after `RemoveNode` was given this row. */
  function Removed(c: Cache, id: nat, row: Node): Cache {
    Cache(c.cached - {id}, c.index - Pairs(IndexKeys(row) + [HEALTHY], id), Unpinned(c.sticky, id))
  }

  /** The 24 hour expiry of one cached row; the sets it is in do not expire. */
  function Expired(c: Cache, id: nat): Cache {
    c.(cached := c.cached - {id})
  }

  // ---------------------------------------------------------------- coherence

  /** A node is in a set exactly when its cached row has that key. */
  ghost predicate Coherent(c: Cache) {
    forall k: string, id: nat :: (k, id) in c.index <==> id in c.cached && k in Placed(c.cached[id])
  }

  /** A cached row is in all its current sets. */
  ghost predicate Findable(c: Cache) {
    forall k: string, id: nat :: id in c.cached && k in Placed(c.cached[id]) ==> (k, id) in c.index
  }

  /** What an invariant does not speak of: nodes whose cached row may differ from the table, nodes that
      sessions may be pinned to although they are not available, nodes that may be in sets they do not
      belong to, and pairs of the index that were left behind. */
  datatype Slack = Slack(loose: set<nat>, pins: set<nat>, odd: set<nat>, stale: set<Pair>)

  const TIGHT := Slack({}, {}, {}, {})

  /** Every pair of the index is one of its cached row, or excused. */
  ghost predicate Explained(c: Cache, slack: Slack) {
    forall k: string, id: nat :: (k, id) in c.index ==>
      (id in c.cached && k in Placed(c.cached[id])) || id in slack.odd || (k, id) in slack.stale
  }

  lemma ExplainedIsCoherent(c: Cache)
    ensures Findable(c) && Explained(c, TIGHT) <==> Coherent(c)
  {
  }

  lemma CachedExplained(c: Cache, id: nat, n: Node, slack: Slack)
    requires Explained(c, slack)
    ensures Explained(Cached(c, id, n), slack)
  {
    var c' := Cached(c, id, n);
    forall k: string, m: nat | (k, m) in c'.index
      ensures (m in c'.cached && k in Placed(c'.cached[m])) || m in slack.odd || (k, m) in slack.stale
    {
      if m == id && id in c.cached && (k, m) in c.index {
        assert k in Placed(c.cached[id]) ==> k in IndexKeys(c.cached[id]) + [HEALTHY];
      }
    }
  }

  /** A removal leaves nothing unexplained behind when the row it is given has the cached index keys. */
  lemma RemovedExplained(c: Cache, id: nat, row: Node, slack: Slack)
    requires Explained(c, slack)
    requires id !in slack.odd && id in c.cached ==> forall k :: k in IndexKeys(c.cached[id]) ==> k in IndexKeys(row)
    ensures Explained(Removed(c, id, row), slack)
  {
    var c' := Removed(c, id, row);
    forall k: string, m: nat | (k, m) in c'.index
      ensures (m in c'.cached && k in Placed(c'.cached[m])) || m in slack.odd || (k, m) in slack.stale
    {
      assert (k, m) in c.index;
      if m == id && id in c.cached {
        assert k in Placed(c.cached[id]) ==> k in IndexKeys(c.cached[id]) + [HEALTHY];
      }
    }
  }

  /** The pairs an expired row leaves behind. */
  function LeftBehind(c: Cache, id: nat): set<Pair> {
    if id in c.cached then Pairs(Placed(c.cached[id]), id) else {}
  }

  lemma ExpiredExplained(c: Cache, id: nat, slack: Slack)
    requires Explained(c, slack)
    ensures Explained(Expired(c, id), slack.(stale := slack.stale + LeftBehind(c, id)))
  {
  }

  /** The sets of a node after its row was cached, by the fields of the row: the detected region counts, the
      expected one only where none was detected. */
  lemma CachedPlaces(c: Cache, id: nat, n: Node, value: string)
    requires Coherent(c) && value != ""
    ensures var c' := Cached(c, id, n);
         && id in c'.cached && c'.cached[id] == n
         && ((HEALTHY, id) in c'.index <==> n.healthy && !n.disabled)
         && ((RegionKey(value), id) in c'.index
             <==> n.profile.detectedRegion == value || (n.profile.detectedRegion == "" && n.expectedRegion == value))
         && ((CityKey(value), id) in c'.index <==> n.profile.city == value)
         && ((AsnKey(value), id) in c'.index <==> n.profile.asn == value)
         && ((IspKey(value), id) in c'.index <==> n.profile.isp == value)
    ensures forall k: string, m: nat :: m != id ==> ((k, m) in Cached(c, id, n).index <==> (k, m) in c.index)
  {
    CachedCoherent(c, id, n);
    PlacedUnder(n, value);
  }

  /** A removal that is given the cached row takes the node out of the sets of its fields, and no other node. */
  lemma RemovedPlaces(c: Cache, id: nat, row: Node)
    requires Coherent(c) && (id in c.cached ==> IndexKeys(c.cached[id]) == IndexKeys(row))
    ensures var c' := Removed(c, id, row);
         && id !in c'.cached && (forall k: string :: (k, id) !in c'.index)
         && (forall k: string, m: nat :: m != id ==> ((k, m) in c'.index <==> (k, m) in c.index))
         && (forall k :: k in c'.sticky <==> k in c.sticky && c.sticky[k] != id)
  {
    RemovedCoherent(c, id, row);
  }

  /** Caching any row keeps the index coherent, whatever row was cached before. */
  lemma CachedCoherent(c: Cache, id: nat, n: Node)
    requires Coherent(c)
    ensures Coherent(Cached(c, id, n))
  {
    var c' := Cached(c, id, n);
    forall k: string, m: nat
      ensures (k, m) in c'.index <==> m in c'.cached && k in Placed(c'.cached[m])
    {
      if m == id && id in c.cached {
        assert k in Placed(c.cached[id]) ==> k in IndexKeys(c.cached[id]) + [HEALTHY];
      }
    }
  }

  lemma CachedFindable(c: Cache, id: nat, n: Node)
    requires Findable(c)
    ensures Findable(Cached(c, id, n))
  {
    var c' := Cached(c, id, n);
    forall k: string, m: nat | m in c'.cached && k in Placed(c'.cached[m])
      ensures (k, m) in c'.index
    {
    }
  }

  /** Removing keeps the index coherent exactly when the given row carries every index key of the
      cached one. */
  lemma RemovedCoherent(c: Cache, id: nat, row: Node)
    requires Coherent(c)
    ensures Coherent(Removed(c, id, row))
       <==> (id in c.cached ==> forall k :: k in IndexKeys(c.cached[id]) ==> k in IndexKeys(row))
  {
    var c' := Removed(c, id, row);
    FirstLetters(row);
    if id in c.cached {
      FirstLetters(c.cached[id]);
      var old_ := c.cached[id];
      if Coherent(c') {
        forall k | k in IndexKeys(old_)
          ensures k in IndexKeys(row)
        {
          assert k in Placed(old_);
          assert (k, id) in c.index && (k, id) !in c'.index;
          assert (k, id) in Pairs(IndexKeys(row) + [HEALTHY], id);
          assert k != HEALTHY;
        }
      }
      if forall k :: k in IndexKeys(old_) ==> k in IndexKeys(row) {
        forall k: string, m: nat
          ensures (k, m) in c'.index <==> m in c'.cached && k in Placed(c'.cached[m])
        {
        }
      }
    } else {
      forall k: string, m: nat
        ensures (k, m) in c'.index <==> m in c'.cached && k in Placed(c'.cached[m])
      {
      }
    }
  }

  lemma RemovedFindable(c: Cache, id: nat, row: Node)
    requires Findable(c)
    ensures Findable(Removed(c, id, row))
  {
    var c' := Removed(c, id, row);
    forall k: string, m: nat | m in c'.cached && k in Placed(c'.cached[m])
      ensures (k, m) in c'.index
    {
    }
  }

  lemma ExpiredFindable(c: Cache, id: nat)
    requires Findable(c)
    ensures Findable(Expired(c, id))
  {
  }

  /** After one row expired and a new one was cached, the index is coherent again exactly when the
      new row kept every index key of the expired one: the others stay behind. */
  lemma ExpiryLeavesStaleEntries(c: Cache, id: nat, n: Node)
    requires Coherent(c) && id in c.cached
    ensures Coherent(Cached(Expired(c, id), id, n))
       <==> forall k :: k in IndexKeys(c.cached[id]) ==> k in IndexKeys(n)
    ensures forall k :: k in IndexKeys(c.cached[id]) ==> (k, id) in Cached(Expired(c, id), id, n).index
  {
    var old_ := c.cached[id];
    var c' := Cached(Expired(c, id), id, n);
    FirstLetters(old_);
    FirstLetters(n);
    forall k | k in IndexKeys(old_)
      ensures (k, id) in c'.index && k != HEALTHY
    {
      assert k in Placed(old_);
    }
    if Coherent(c') {
      forall k | k in IndexKeys(old_)
        ensures k in IndexKeys(n)
      {
        assert (k, id) in c'.index;
      }
    }
    if forall k :: k in IndexKeys(old_) ==> k in IndexKeys(n) {
      forall k: string, m: nat
        ensures (k, m) in c'.index <==> m in c'.cached && k in Placed(c'.cached[m])
      {
        if m == id {
          assert k in Placed(old_) ==> k in IndexKeys(old_) + [HEALTHY];
        }
      }
    }
  }
}
