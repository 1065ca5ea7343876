/** What every operation on the tables and the Redis copy keeps: keys stay unique, links point at
    nodes, the cache agrees with SQL, sessions are pinned to available nodes only. */
module CatalogInvariants {
  import opened Text
  import opened NodeCache
  import opened Catalog

  // ---------------------------------------------------------------- invariants

  /** Row ids are below the next one, protocols hold no colon, and no two rows share host and port. */
  ghost predicate RowsOk(db: Db) {
    && (forall id :: id in db.nodes ==> id < db.nextNode && ':' !in db.nodes[id].addr.protocol)
    && (forall i, j :: i in db.nodes && j in db.nodes && SameSpot(db.nodes[i].addr, db.nodes[j].addr) ==> i == j)
  }

  /** Links point at existing nodes, and there is at most one for a subscription and a node. */
  ghost predicate LinksOk(db: Db) {
    && (forall l :: l in db.links ==> l < db.nextLink && db.links[l].node in db.nodes)
    && (forall l, m :: l in db.links && m in db.links && db.links[l] == db.links[m] ==> l == m)
  }

  /** Equal but for the traffic columns, which the flush changes in SQL only. */
  predicate SameRow(a: Node, b: Node) {
    a.(traffic := b.traffic) == b
  }

  /** Rows of these nodes aside, a cached row is the row of the table but for its traffic. */
  ghost predicate Agrees(s: Sys, loose: set<nat> := {}) {
    forall id :: id in s.cache.cached && id !in loose ==>
        id in s.db.nodes && SameRow(s.cache.cached[id], s.db.nodes[id])
  }

  /** Sessions on these nodes aside, sessions are pinned to available nodes. */
  ghost predicate StickyOk(s: Sys, pins: set<nat> := {}) {
    forall k :: k in s.cache.sticky && s.cache.sticky[k] !in pins ==>
      s.cache.sticky[k] in s.db.nodes && s.db.nodes[s.cache.sticky[k]].Available()
  }

  /** The invariant of the whole system, which may be slack for some nodes. Every cached row is in all
      its sets; with `exact`, no row is in any other set, those left behind by an expired row aside. */
  ghost predicate Sound(s: Sys, exact: bool, slack: Slack := TIGHT) {
    && RowsOk(s.db) && LinksOk(s.db)
    && Agrees(s, slack.loose) && StickyOk(s, slack.pins) && slack.loose <= slack.pins
    && Findable(s.cache) && (exact ==> slack.loose <= slack.odd && Explained(s.cache, slack))
  }

  lemma SoundIsCoherent(s: Sys)
    requires Sound(s, true)
    ensures Coherent(s.cache)
  {
    ExplainedIsCoherent(s.cache);
  }

  /** What holds with less slack holds with more. */
  lemma SoundWithMore(s: Sys, exact: bool, slack: Slack, more: Slack)
    requires Sound(s, exact, slack) && slack.loose <= more.loose <= more.pins && more.loose <= more.odd
    requires slack.pins <= more.pins && slack.odd <= more.odd && slack.stale <= more.stale
    ensures Sound(s, exact, more)
  {
  }

  // ---------------------------------------------------------------- cache steps

  lemma SameRowSamePlaces(a: Node, b: Node)
    requires SameRow(a, b)
    ensures IndexKeys(a) == IndexKeys(b) && Placed(a) == Placed(b) && a.Available() == b.Available()
  {
  }

  /** Saving a row in SQL and caching it, for a row that is new or keeps its address. */
  lemma CacheRowSound(db: Db, c: Cache, id: nat, row: Node, exact: bool, slack: Slack := TIGHT)
    requires Sound(Sys(db, c), exact, slack)
    requires id in db.nodes ==> row.addr == db.nodes[id].addr
    ensures var s := Sys(db.(nodes := db.nodes[id := row]), Cached(c, id, row));
         && Agrees(s, slack.loose) && StickyOk(s, slack.pins)
         && Findable(s.cache) && (exact ==> Explained(s.cache, slack))
  {
    CachedFindable(c, id, row);
    if exact { CachedExplained(c, id, row, slack); }
    CachedAgrees(db, c, id, row, slack.loose);
    CachedSticky(db, c, id, row, slack.pins);
  }

  lemma CachedAgrees(db: Db, c: Cache, id: nat, row: Node, loose: set<nat>)
    requires Agrees(Sys(db, c), loose)
    ensures Agrees(Sys(db.(nodes := db.nodes[id := row]), Cached(c, id, row)), loose)
  {
    var s' := Sys(db.(nodes := db.nodes[id := row]), Cached(c, id, row));
    forall m | m in s'.cache.cached && m !in loose
      ensures m in s'.db.nodes && SameRow(s'.cache.cached[m], s'.db.nodes[m])
    {
      if m != id { assert m in c.cached; }
    }
  }

  lemma CachedSticky(db: Db, c: Cache, id: nat, row: Node, pins: set<nat>)
    requires StickyOk(Sys(db, c), pins)
    ensures StickyOk(Sys(db.(nodes := db.nodes[id := row]), Cached(c, id, row)), pins)
  {
  }

  /** The removal given the SQL row: its index fields are those of the cached row. */
  lemma DropNodeSound(s: Sys, id: nat, exact: bool, slack: Slack := TIGHT)
    requires Sound(s, exact, slack) && id in s.db.nodes && !IsLinked(s.db, id)
    ensures Sound(DropNode(s, id), exact, slack)
  {
    var row := s.db.nodes[id];
    RemovedFindable(s.cache, id, row);
    if exact {
      if id in s.cache.cached && id !in slack.odd { SameRowSamePlaces(s.cache.cached[id], row); }
      RemovedExplained(s.cache, id, row, slack);
    }
    DropNodeKeeps(s, id, slack.loose, slack.pins);
  }

  lemma DropNodeKeeps(s: Sys, id: nat, loose: set<nat>, pins: set<nat>)
    requires RowsOk(s.db) && LinksOk(s.db) && Agrees(s, loose) && StickyOk(s, pins)
    requires id in s.db.nodes && !IsLinked(s.db, id)
    ensures var s' := DropNode(s, id);
         RowsOk(s'.db) && LinksOk(s'.db) && Agrees(s', loose) && StickyOk(s', pins)
  {
    var s' := DropNode(s, id);
    forall l | l in s'.db.links
      ensures s'.db.links[l].node in s'.db.nodes
    {
      assert s.db.links[l].node != id;
    }
  }

  /** Fewer links, or other subscriptions: nodes and cache are not touched. */
  lemma FewerLinksSound(s: Sys, db: Db, exact: bool, slack: Slack := TIGHT)
    requires Sound(s, exact, slack)
    requires db.nodes == s.db.nodes && db.nextNode == s.db.nextNode && db.nextLink >= s.db.nextLink
    requires forall l :: l in db.links ==> l in s.db.links && db.links[l] == s.db.links[l]
    ensures Sound(Sys(db, s.cache), exact, slack)
  {
    assert LinksOk(db);
  }

  lemma SaveRowSound(s: Sys, id: nat, row: Node, exact: bool, slack: Slack := TIGHT)
    requires Sound(s, exact, slack) && id in s.db.nodes && row.addr == s.db.nodes[id].addr
    ensures Sound(SaveRow(s, id, row), exact, slack)
  {
    CacheRowSound(s.db, s.cache, id, row, exact, slack);
    SavedRows(s.db, id, row);
  }

  lemma SavedRows(db: Db, id: nat, row: Node)
    requires RowsOk(db) && LinksOk(db) && id in db.nodes && row.addr == db.nodes[id].addr
    ensures RowsOk(db.(nodes := db.nodes[id := row])) && LinksOk(db.(nodes := db.nodes[id := row]))
  {
  }

  /** Traffic lands in SQL only: the cached row then differs in its traffic columns. */
  lemma AddTrafficSound(s: Sys, id: nat, t: Traffic, exact: bool, slack: Slack := TIGHT)
    requires Sound(s, exact, slack)
    ensures Sound(AddTraffic(s, id, t), exact, slack)
  {
    if id in s.db.nodes {
      SavedRows(s.db, id, s.db.nodes[id].(traffic := t));
    }
  }

  // ---------------------------------------------------------------- upsert

  /** The key of a stored row is the key of an address only when the row has that address. */
  lemma KeyFinds(db: Db, addr: Address, id: nat)
    requires RowsOk(db) && ':' !in addr.protocol
    requires id in db.nodes && NodeKey(db.nodes[id].addr) == NodeKey(addr)
    ensures db.nodes[id].addr == addr && Find(db, addr).Some?
  {
    NodeKeyInjective(db.nodes[id].addr, addr);
  }

  /** A row holds this host and port under another protocol. */
  ghost predicate SpotTaken(db: Db, addr: Address) {
    exists id :: id in db.nodes && SameSpot(db.nodes[id].addr, addr) && db.nodes[id].addr.protocol != addr.protocol
  }

  lemma TakenIsSpotTaken(db: Db, addr: Address)
    requires RowsOk(db) && ':' !in addr.protocol && Find(db, addr).None?
    ensures Taken(db, addr) <==> SpotTaken(db, addr)
  {
    forall id | id in db.nodes
      ensures NodeKey(db.nodes[id].addr) != NodeKey(addr)
      ensures SameSpot(db.nodes[id].addr, addr) ==> db.nodes[id].addr.protocol != addr.protocol
    {
      if NodeKey(db.nodes[id].addr) == NodeKey(addr) { KeyFinds(db, addr, id); }
      assert db.nodes[id].addr != addr;
    }
  }

  lemma FoundIsNotSpotTaken(db: Db, addr: Address)
    requires RowsOk(db) && Find(db, addr).Some?
    ensures !SpotTaken(db, addr)
  {
    var found := Find(db, addr).value;
    forall id | id in db.nodes && SameSpot(db.nodes[id].addr, addr)
      ensures db.nodes[id].addr.protocol == addr.protocol
    {
      assert SameSpot(db.nodes[id].addr, db.nodes[found].addr);
    }
  }

  /** An upsert is rejected exactly when a row holds the same host and port under another protocol;
      the unique index on the printed key never rejects anything by itself. */
  lemma UpsertRejects(db: Db, item: Parsed, sub: Option<nat>)
    requires RowsOk(db) && ':' !in item.addr.protocol
    ensures Upsert(db, item, sub).None? <==> SpotTaken(db, item.addr)
  {
    if Find(db, item.addr).Some? {
      FoundIsNotSpotTaken(db, item.addr);
    } else {
      TakenIsSpotTaken(db, item.addr);
    }
  }

  /** A row that was never checked or disabled. */
  predicate Unchecked(n: Node) {
    !n.healthy && !n.disabled && n.failCount == 0
  }

  /** A row nothing is known of yet, with no traffic. */
  predicate Fresh(n: Node) {
    Unchecked(n) && n.profile == Profile("", "", "", "", "", "", "") && n.traffic == Traffic(0, 0, 0)
  }

  /** What an import does not touch in an existing row. */
  predicate Kept(a: Node, b: Node) {
    && a.addr == b.addr && a.profile == b.profile && a.traffic == b.traffic
    && a.healthy == b.healthy && a.disabled == b.disabled && a.failCount == b.failCount
  }

  /** Every row is still there with what imports do not touch. */
  ghost predicate Survive(db: Db, db': Db) {
    forall id :: id in db.nodes ==> id in db'.nodes && Kept(db.nodes[id], db'.nodes[id])
  }

  lemma UpsertEffect(db: Db, item: Parsed, sub: Option<nat>)
    requires RowsOk(db) && LinksOk(db) && ':' !in item.addr.protocol && Upsert(db, item, sub).Some?
    ensures var (db', id) := Upsert(db, item, sub).value;
         && RowsOk(db') && LinksOk(db') && Survive(db, db')
         && id in db'.nodes && Writes(db'.nodes[id], item, sub)
         && db' == db.(nodes := db.nodes[id := db'.nodes[id]], nextNode := db'.nextNode)
         && db'.nextNode == db.nextNode + (if id in db.nodes then 0 else 1)
         && (id !in db.nodes ==> id == db.nextNode && Fresh(db'.nodes[id]))
         && (sub.None? ==> db'.nodes[id].subscription == if id in db.nodes then db.nodes[id].subscription else 0)
  {
    var (db', id) := Upsert(db, item, sub).value;
    if Find(db, item.addr).Some? {
      SavedRows(db, id, Refreshed(db.nodes[id], item, sub));
    } else {
      InsertedRows(db, item, sub);
    }
  }

  lemma InsertedRows(db: Db, item: Parsed, sub: Option<nat>)
    requires RowsOk(db) && LinksOk(db) && ':' !in item.addr.protocol && !Taken(db, item.addr)
    ensures var db' := db.(nodes := db.nodes[db.nextNode := NewNode(item, sub)], nextNode := db.nextNode + 1);
         RowsOk(db') && LinksOk(db') && db.nextNode !in db.nodes && Fresh(NewNode(item, sub))
  {
    forall i | i in db.nodes
      ensures !SameSpot(db.nodes[i].addr, item.addr)
    {
    }
  }

  lemma LinkedEffect(db: Db, sub: Option<nat>, node: nat)
    requires LinksOk(db) && node in db.nodes
    ensures var db' := Linked(db, sub, node);
         && LinksOk(db') && db'.nodes == db.nodes && db'.nextNode == db.nextNode && db'.subs == db.subs
         && (forall x: nat, n: nat :: HasLink(db', x, n) <==> HasLink(db, x, n) || (sub == Some(x) && n == node))
  {
    var db' := Linked(db, sub, node);
    if db' != db {
      assert db.nextLink in db'.links && db'.links[db.nextLink] == Link(sub.value, node);
      forall x: nat, n: nat
        ensures HasLink(db', x, n) <==> HasLink(db, x, n) || (sub == Some(x) && n == node)
      {
        if HasLink(db, x, n) {
          var l :| l in db.links && db.links[l] == Link(x, n);
          assert db'.links[l] == Link(x, n);
        }
      }
    }
  }

  // ---------------------------------------------------------------- imports

  /** What a successful import of one entry did. */
  ghost predicate Imported(db: Db, db': Db, item: Parsed, sub: Option<nat>, id: nat) {
    && Survive(db, db') && db'.subs == db.subs
    && db'.nodes.Keys == db.nodes.Keys + {id} && Writes(db'.nodes[id], item, sub)
    && (id !in db.nodes ==> Fresh(db'.nodes[id]))
    && (forall n :: n in db.nodes && n != id ==> db'.nodes[n] == db.nodes[n])
    && (forall x: nat, n: nat :: HasLink(db', x, n) <==> HasLink(db, x, n) || (sub == Some(x) && n == id))
  }

  lemma ImportOneSound(s: Sys, item: Parsed, sub: Option<nat>, exact: bool, slack: Slack := TIGHT)
    requires Sound(s, exact, slack) && ':' !in item.addr.protocol && ImportOne(s, item, sub).Some?
    ensures var (s', id) := ImportOne(s, item, sub).value;
         Sound(s', exact, slack) && Imported(s.db, s'.db, item, sub, id)
  {
    var (db, id) := Upsert(s.db, item, sub).value;
    UpsertEffect(s.db, item, sub);
    LinkedEffect(db, sub, id);
    CacheRowSound(s.db, s.cache, id, db.nodes[id], exact, slack);
    var db' := Linked(db, sub, id);
    assert db'.nodes == s.db.nodes[id := db.nodes[id]];
    assert forall x: nat, n: nat :: HasLink(db, x, n) <==> HasLink(s.db, x, n);
  }

  lemma ImportOneFails(s: Sys, item: Parsed, sub: Option<nat>)
    requires RowsOk(s.db) && LinksOk(s.db) && ':' !in item.addr.protocol
    ensures ImportOne(s, item, sub).None? <==> Upsert(s.db, item, sub).None?
  {
    if Upsert(s.db, item, sub).Some? { UpsertEffect(s.db, item, sub); }
  }
}
