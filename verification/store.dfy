/** The Redis store: node rows, index sets and sticky keys, changed by single commands, by one
    pipeline per operation, and by a scan-and-delete loop. */
module NodeStore {
  import opened Text
  import opened NodeCache
  import RedisKeys

  class Store {
    var cached: map<nat, Node>
    var index: set<Pair>
    var sticky: map<string, nat>
    var usage: map<string, int>

    function State(): Cache
      reads this
    {
      Cache(cached, index, sticky)
    }

    constructor ()
      ensures State() == Cache(map[], {}, map[]) && usage == map[]
    {
      cached, index, sticky, usage := map[], {}, map[], map[];
    }

    method LoadNode(id: nat) returns (node: Option<Node>)
      ensures node == if id in cached then Some(cached[id]) else None
    {
      node := if id in cached then Some(cached[id]) else None;
    }

    /** The keys in the order they are appended. */
    method NodeIndexKeys(node: Node) returns (keys: seq<string>)
      ensures keys == IndexKeys(node)
    {
      keys := [];
      var region := node.profile.detectedRegion;
      if region == "" { region := node.expectedRegion; }
      if region != "" { keys := keys + [RegionKey(region)]; }
      if node.profile.city != "" { keys := keys + [CityKey(node.profile.city)]; }
      if node.profile.asn != "" { keys := keys + [AsnKey(node.profile.asn)]; }
      if node.profile.isp != "" { keys := keys + [IspKey(node.profile.isp)]; }
    }

    method SAdd(key: string, id: nat)
      modifies this`index
      ensures index == old(index) + {(key, id)}
    {
      index := index + {(key, id)};
    }

    method SRem(key: string, id: nat)
      modifies this`index
      ensures index == old(index) - {(key, id)}
    {
      index := index - {(key, id)};
    }

    /** A key that is only a family prefix stands for an empty attribute and is left alone. */
    method ReplaceSetMembership(key: string, id: nat, shouldAdd: bool)
      modifies this`index
      ensures key in ["region:", "city:", "asn:", "isp:"] ==> index == old(index)
      ensures key !in ["region:", "city:", "asn:", "isp:"] ==>
                index == if shouldAdd then old(index) + {(key, id)} else old(index) - {(key, id)}
    {
      if key == "region:" || key == "city:" || key == "asn:" || key == "isp:" {
        return;
      }
      if shouldAdd {
        SAdd(key, id);
        return;
      }
      SRem(key, id);
    }

    /** One attribute: added under its key unless it is empty. */
    method PlaceUnder(prefix: string, value: string, id: nat)
      requires prefix in ["region:", "city:", "asn:", "isp:"]
      modifies this`index
      ensures index == old(index) + Pairs(Under(prefix, value), id)
    {
      ReplaceSetMembership(prefix + value, id, value != "");
      if value == "" {
        assert prefix + value == prefix;
      } else {
        var key := prefix + value;
        assert key !in ["region:", "city:", "asn:", "isp:"] by {
          forall other | other in ["region:", "city:", "asn:", "isp:"]
            ensures key != other
          {
            FamilyKeyIsLonger(prefix, value, other);
          }
        }
        assert Pairs([key], id) == {(key, id)};
      }
    }

    /** The four attributes of a row. */
    method PlaceNode(id: nat, node: Node)
      modifies this`index
      ensures index == old(index) + Pairs(IndexKeys(node), id)
    {
      var region := node.profile.detectedRegion;
      if region == "" { region := node.expectedRegion; }
      PlaceUnder("region:", region, id);
      PlaceUnder("city:", node.profile.city, id);
      PlaceUnder("asn:", node.profile.asn, id);
      PlaceUnder("isp:", node.profile.isp, id);
      PairsOfIndexKeys(node, id);
    }

    /** Caches a row: the pipeline replaces the memberships of the row cached before, and sticky
        sessions on a row that is not available are dropped. */
    method CacheNode(id: nat, node: Node)
      modifies this`cached, this`index, this`sticky
      ensures State() == Cached(old(State()), id, node)
    {
      var previous := LoadNode(id);
      cached := cached[id := node];
      if node.healthy && !node.disabled {
        SAdd(HEALTHY, id);
      } else {
        SRem(HEALTHY, id);
      }
      if previous.Some? {
        var keys := NodeIndexKeys(previous.value);
        RemoveFrom(keys, id);
      }
      PipelineIsCached(old(State()), id, node, index);
      PlaceNode(id, node);
      if !node.healthy || node.disabled {
        CleanupStickyForNode(id);
      }
    }

    /** SRem for each key of a list. */
    method RemoveFrom(keys: seq<string>, id: nat)
      modifies this`index
      ensures index == old(index) - Pairs(keys, id)
    {
      for i := 0 to |keys|
        invariant index == old(index) - Pairs(keys[..i], id)
      {
        SRem(keys[i], id);
        assert keys[..i + 1] == keys[..i] + [keys[i]];
      }
      assert keys[..|keys|] == keys;
    }

    /** One attribute: removed from its key unless it is empty. */
    method RemoveUnder(prefix: string, value: string, id: nat)
      modifies this`index
      ensures index == old(index) - Pairs(Under(prefix, value), id)
    {
      if value != "" {
        SRem(prefix + value, id);
        assert Pairs([prefix + value], id) == {(prefix + value, id)};
      }
    }

    /** Forgets a node: its row, the memberships the given row stands for, its three usage counters and
        its sticky sessions. */
    method RemoveNode(id: nat, node: Node)
      modifies this
      ensures State() == Removed(old(State()), id, node)
      ensures usage == old(usage) - RedisKeys.NodeUsageKeys(id)
    {
      cached := cached - {id};
      SRem(HEALTHY, id);
      var region := node.profile.detectedRegion;
      if region == "" { region := node.expectedRegion; }
      RemoveUnder("region:", region, id);
      RemoveUnder("city:", node.profile.city, id);
      RemoveUnder("asn:", node.profile.asn, id);
      RemoveUnder("isp:", node.profile.isp, id);
      PairsOfIndexKeys(node, id);
      PairsOfSum(IndexKeys(node), [HEALTHY], id);
      assert Pairs([HEALTHY], id) == {(HEALTHY, id)};
      assert index == old(index) - Pairs(IndexKeys(node) + [HEALTHY], id);
      usage := usage - {RedisKeys.NodeUsageKey(id, RedisKeys.Upload), RedisKeys.NodeUsageKey(id, RedisKeys.Download),
                        RedisKeys.NodeUsageKey(id, RedisKeys.Requests)};
      CleanupStickyForNode(id);
    }

    /** Scans the sticky keys, collects those that hold the node, and deletes exactly these. */
    method CleanupStickyForNode(id: nat)
      modifies this`sticky
      ensures sticky == Unpinned(old(sticky), id)
    {
      var keys := sticky.Keys;
      var toDelete: set<string> := {};
      while keys != {}
        invariant keys <= sticky.Keys
        invariant forall k :: k in toDelete <==> k in sticky.Keys - keys && sticky[k] == id
        decreases |keys|
      {
        var key :| key in keys;
        if sticky[key] == id {
          toDelete := toDelete + {key};
        }
        keys := keys - {key};
      }
      sticky := sticky - toDelete;
    }
  }

  lemma FamilyKeyIsLonger(prefix: string, value: string, other: string)
    requires prefix in ["region:", "city:", "asn:", "isp:"] && other in ["region:", "city:", "asn:", "isp:"]
    requires value != ""
    ensures prefix + value != other
  {
    assert (prefix + value)[|prefix| - 1] == ':';
    assert prefix[0] == (prefix + value)[0];
    if prefix == other {
      assert |prefix + value| > |other|;
    }
  }

  /** The pipeline, command by command, yields the specified index. */
  lemma PipelineIsCached(c: Cache, id: nat, node: Node, cleared: set<Pair>)
    requires var flagged := if node.Available() then c.index + {(HEALTHY, id)} else c.index - {(HEALTHY, id)};
             cleared == if id in c.cached then flagged - Pairs(IndexKeys(c.cached[id]), id) else flagged
    ensures cleared + Pairs(IndexKeys(node), id) == Cached(c, id, node).index
  {
    var previous := if id in c.cached then IndexKeys(c.cached[id]) else [];
    if id in c.cached {
      FirstLetters(c.cached[id]);
    }
    assert HEALTHY !in previous;
    PairsOfSum(previous, [HEALTHY], id);
    PairsOfSum(IndexKeys(node), if node.Available() then [HEALTHY] else [], id);
    SetSteps(c.index, Pairs(previous, id), Pairs([HEALTHY], id), Pairs(IndexKeys(node), id), node.Available());
    assert Pairs([HEALTHY], id) == {(HEALTHY, id)};
  }

  lemma SetSteps(index: set<Pair>, previous: set<Pair>, flag: set<Pair>, keys: set<Pair>, available: bool)
    requires previous !! flag
    ensures ((if available then index + flag else index - flag) - previous) + keys
         == (index - (previous + flag)) + (keys + if available then flag else {})
  {
  }
}
