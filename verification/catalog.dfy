/** The SQL tables of nodes, links and subscriptions beside the Redis copy, and what the services do
    to both. SQL statements whose error is returned may fail: `budget` is the number of such
    statements that succeed before the first failure. */
module Catalog {
  import opened Text
  import opened NodeCache

  datatype Link = Link(sub: nat, node: nat)

  datatype Db = Db(nodes: map<nat, Node>, nextNode: nat, links: map<nat, Link>, nextLink: nat, subs: set<nat>)

  datatype Sys = Sys(db: Db, cache: Cache)

  /** One entry of a parsed subscription body or of a manual import. */
  datatype Parsed = Parsed(addr: Address, config: Config, expectedRegion: string)

  // ---------------------------------------------------------------- unique keys

  /** `fmt.Sprintf("%s://%s:%d", ...)` */
  function NodeKey(a: Address): string {
    a.protocol + "://" + a.host + ":" + Itoa(a.port)
  }

  /** Protocols are accepted in any case and with surrounding white space, and stored as given. */
  predicate IsSupported(protocol: string) {
    SupportedName(ToLower(TrimSpace(protocol)))
  }

  predicate SupportedName(name: string) {
    || name == "http" || name == "socks" || name == "socks5" || name == "ss" || name == "shadowsocks"
    || name == "trojan" || name == "vless" || name == "vmess"
  }

  lemma SupportedNames(name: string)
    requires SupportedName(name)
    ensures ':' !in name
  {
  }

  /** What is accepted: one of eight names, in any case, with nothing but white space around it. */
  lemma SupportedExactly(protocol: string)
    ensures IsSupported(protocol)
       <==> exists core, name: string, i: nat ::
              && CoreAt(protocol, core, i) && SameLetters(core, name)
              && name in {"http", "socks", "socks5", "ss", "shadowsocks", "trojan", "vless", "vmess"}
  {
    if IsSupported(protocol) {
      var i := TrimSpaceCuts(protocol);
      NameIs(TrimSpace(protocol), ToLower(TrimSpace(protocol)));
    }
    forall core, name: string, i: nat | CoreAt(protocol, core, i) && SameLetters(core, name)
                                && name in {"http", "socks", "socks5", "ss", "shadowsocks", "trojan", "vless", "vmess"}
      ensures IsSupported(protocol)
    {
      TrimSpaceFinds(protocol, core, i);
      NameIs(core, name);
    }
  }

  lemma NameIs(core: string, name: string)
    requires name in {"http", "socks", "socks5", "ss", "shadowsocks", "trojan", "vless", "vmess"}
    ensures SupportedName(name) && name != []
    ensures ToLower(core) == name <==> SameLetters(core, name)
  {
    ToLowerIs(core, name);
  }

  lemma SupportedHasNoColon(protocol: string)
    requires IsSupported(protocol)
    ensures ':' !in protocol
  {
    SupportedNames(ToLower(TrimSpace(protocol)));
    if ':' in TrimSpace(protocol) { ToLowerKeepsPresent(TrimSpace(protocol), ':'); }
    TrimKeepsChar(protocol, ':');
  }

  /** The printed key determines protocol, host and port: the protocol holds no colon, the port
      none either, and the host may hold any number. */
  lemma NodeKeyInjective(a: Address, b: Address)
    requires ':' !in a.protocol && ':' !in b.protocol
    requires NodeKey(a) == NodeKey(b)
    ensures a == b
  {
    var p, q := Itoa(a.port), Itoa(b.port);
    ItoaHoldsNoColon(a.port);
    ItoaHoldsNoColon(b.port);
    KeyParts(a.protocol, a.host, p, b.protocol, b.host, q);
    ItoaInjective(a.port, b.port);
  }

  lemma KeyParts(x: string, h: string, p: string, y: string, g: string, q: string)
    requires ':' !in x && ':' !in y && ':' !in p && ':' !in q
    requires x + "://" + h + ":" + p == y + "://" + g + ":" + q
    ensures x == y && h == g && p == q
  {
    var tailA, tailB := h + ":" + p, g + ":" + q;
    assert x + "://" + h + ":" + p == x + [':'] + ("//" + tailA);
    assert y + "://" + g + ":" + q == y + [':'] + ("//" + tailB);
    CutJoined(x, ':', "//" + tailA);
    CutJoined(y, ':', "//" + tailB);
    assert ("//" + tailA)[2..] == tailA && ("//" + tailB)[2..] == tailB;
    LastColon(h, p, g, q);
  }

  lemma LastColon(h: string, p: string, g: string, q: string)
    requires ':' !in p && ':' !in q
    requires h + ":" + p == g + ":" + q
    ensures h == g && p == q
  {
    var s, t := h + ":" + p, g + ":" + q;
    AfterLastColon(h, p);
    AfterLastColon(g, q);
    assert |h| == |g| by {
      assert s[|h|] == ':' && s[|g|] == ':';
    }
    assert s[..|h|] == h && t[..|g|] == g;
    assert s[|h| + 1..] == p && t[|g| + 1..] == q;
  }

  lemma AfterLastColon(h: string, p: string)
    requires ':' !in p
    ensures (h + ":" + p)[|h|] == ':'
    ensures forall i :: |h| < i < |h + ":" + p| ==> (h + ":" + p)[i] != ':'
  {
  }

  // ---------------------------------------------------------------- upsert

  predicate SameSpot(a: Address, b: Address) {
    a.host == b.host && a.port == b.port
  }

  ghost function Find(db: Db, addr: Address): (r: Option<nat>)
    ensures r.Some? ==> r.value in db.nodes && db.nodes[r.value].addr == addr
    ensures r.None? ==> forall id :: id in db.nodes ==> db.nodes[id].addr != addr
  {
    if id: nat :| id in db.nodes && db.nodes[id].addr == addr then Some(id) else None
  }

  /** Another row holds the node_key, or the host and port, of this address. */
  ghost predicate Taken(db: Db, addr: Address) {
    exists id :: id in db.nodes && (NodeKey(db.nodes[id].addr) == NodeKey(addr) || SameSpot(db.nodes[id].addr, addr))
  }

  /** The columns an import overwrites in an existing row. */
  function Refreshed(n: Node, item: Parsed, sub: Option<nat>): Node {
    n.(config := item.config, expectedRegion := item.expectedRegion,
       subscription := if sub.Some? then sub.value else n.subscription)
  }

  /** The row holds what the import of this entry writes. */
  predicate Writes(n: Node, item: Parsed, sub: Option<nat>) {
    && n.addr == item.addr && n.config == item.config && n.expectedRegion == item.expectedRegion
    && (sub.Some? ==> n.subscription == sub.value)
  }

  function NewNode(item: Parsed, sub: Option<nat>): Node {
    Node(item.addr, item.config, item.expectedRegion, Profile("", "", "", "", "", "", ""),
         false, false, 0, if sub.Some? then sub.value else 0, Traffic(0, 0, 0))
  }

  /** `INSERT ... ON CONFLICT (protocol, host, port) DO UPDATE`: the other two unique indexes still
      reject the insert. */
  ghost function Upsert(db: Db, item: Parsed, sub: Option<nat>): Option<(Db, nat)> {
    match Find(db, item.addr)
    case Some(id) => Some((db.(nodes := db.nodes[id := Refreshed(db.nodes[id], item, sub)]), id))
    case None =>
      if Taken(db, item.addr) then None
      else Some((db.(nodes := db.nodes[db.nextNode := NewNode(item, sub)], nextNode := db.nextNode + 1), db.nextNode))
  }

  predicate HasLink(db: Db, sub: nat, node: nat) {
    exists l :: l in db.links && db.links[l] == Link(sub, node)
  }

  predicate IsLinked(db: Db, node: nat) {
    exists l :: l in db.links && db.links[l].node == node
  }

  /** `FirstOrCreate` of a link row. */
  function Linked(db: Db, sub: Option<nat>, node: nat): Db {
    if sub.None? || HasLink(db, sub.value, node) then db
    else db.(links := db.links[db.nextLink := Link(sub.value, node)], nextLink := db.nextLink + 1)
  }

  /** Import of one entry: upsert, link, cache. */
  ghost function ImportOne(s: Sys, item: Parsed, sub: Option<nat>): Option<(Sys, nat)> {
    match Upsert(s.db, item, sub)
    case None => None
    case Some((db, id)) =>
      if id in db.nodes then Some((Sys(Linked(db, sub, id), Cached(s.cache, id, db.nodes[id])), id)) else None
  }

  datatype Import = Import(sys: Sys, ids: seq<nat>, ok: bool, budget: nat)

  /** The next entry of a list that has been imported so far without a failure. */
  ghost function ImportNext(done: Import, item: Parsed, sub: Option<nat>): Import {
    if !done.ok then done
    else if done.budget == 0 then done.(ok := false)
    else match ImportOne(done.sys, item, sub)
      case None => done.(ok := false, budget := done.budget - 1)
      case Some((s, id)) => Import(s, done.ids + [id], true, done.budget - 1)
  }

  /** `persistParsedNodes`: the first entry that fails ends it. */
  ghost function Persist(s: Sys, items: seq<Parsed>, sub: Option<nat>, budget: nat): Import {
    if items == [] then Import(s, [], true, budget)
    else ImportNext(Persist(s, Front(items), sub, budget), Last(items), sub)
  }

  // ---------------------------------------------------------------- deletion

  datatype Outcome = Outcome(sys: Sys, ok: bool, budget: nat)

  function DropNode(s: Sys, id: nat): Sys
    requires id in s.db.nodes
  {
    Sys(s.db.(nodes := s.db.nodes - {id}), Removed(s.cache, id, s.db.nodes[id]))
  }

  function WithoutLink(s: Sys, l: nat): Sys {
    s.(db := s.db.(links := s.db.links - {l}))
  }

  /** One link that is no longer imported: the link goes, and with its last link the node goes. */
  function PruneOne(s: Sys, l: nat, budget: nat): Outcome
    requires l in s.db.links
  {
    var node := s.db.links[l].node;
    var s1 := WithoutLink(s, l);
    if budget == 0 then Outcome(s, false, 0)
    else if budget == 1 then Outcome(s1, false, 0)
    else if IsLinked(s1.db, node) || node !in s1.db.nodes then Outcome(s1, true, budget - 2)
    else if budget == 2 then Outcome(s1, false, 0)
    else Outcome(DropNode(s1, node), true, budget - 3)
  }

  /** The next link of the loop of `pruneSubscriptionNodes`. */
  function PruneNext(done: Outcome, l: nat, keep: seq<nat>): Outcome {
    if !done.ok || l !in done.sys.db.links || done.sys.db.links[l].node in keep then done
    else PruneOne(done.sys, l, done.budget)
  }

  /** `pruneSubscriptionNodes` over the links it read. */
  function Prune(s: Sys, todo: seq<nat>, keep: seq<nat>, budget: nat): Outcome {
    if todo == [] then Outcome(s, true, budget)
    else PruneNext(Prune(s, Front(todo), keep, budget), Last(todo), keep)
  }

  /** The link rows of a subscription, in row order. */
  function LinksOf(db: Db, sub: nat, n: nat): (ls: seq<nat>)
    ensures forall i :: 0 <= i < |ls| ==> ls[i] < n && ls[i] in db.links && db.links[ls[i]].sub == sub
    ensures forall l :: l < n && l in db.links && db.links[l].sub == sub ==> l in ls
    ensures forall i, j :: 0 <= i < j < |ls| ==> ls[i] < ls[j]
  {
    if n == 0 then []
    else
      var ls := LinksOf(db, sub, n - 1);
      if n - 1 in db.links && db.links[n - 1].sub == sub then ls + [n - 1] else ls
  }

  /** The nodes a subscription links, in row order. */
  function NodesOf(db: Db, sub: nat, n: nat): (ids: seq<nat>)
    ensures forall i :: 0 <= i < |ids| ==> ids[i] < n && ids[i] in db.nodes && HasLink(db, sub, ids[i])
    ensures forall id :: id < n && id in db.nodes && HasLink(db, sub, id) ==> id in ids
    ensures forall i, j :: 0 <= i < j < |ids| ==> ids[i] < ids[j]
  {
    if n == 0 then []
    else
      var ids := NodesOf(db, sub, n - 1);
      if n - 1 in db.nodes && HasLink(db, sub, n - 1) then ids + [n - 1] else ids
  }

  datatype SyncResult = SyncResult(sys: Sys, imported: Option<seq<nat>>)

  /** `pruneSubscriptionNodes`, after its links were read. */
  function PruneAll(s: Sys, sub: nat, keep: seq<nat>, budget: nat): Outcome {
    Prune(s, LinksOf(s.db, sub, s.db.nextLink), keep, budget)
  }

  /** The second half of `Sync`: pruning, and the time stamp. */
  function PruneImported(imported: Import, sub: nat): SyncResult {
    var s := imported.sys;
    if !imported.ok || imported.budget == 0 then SyncResult(s, None)
    else
      var pruned := PruneAll(s, sub, imported.ids, imported.budget - 1);
      if !pruned.ok || pruned.budget == 0 then SyncResult(pruned.sys, None)
      else SyncResult(pruned.sys, Some(imported.ids))
  }

  /** `Sync`; `fetched` is what fetching and parsing yielded, if anything. */
  ghost function Sync(s: Sys, sub: nat, fetched: Option<seq<Parsed>>, budget: nat): SyncResult {
    if budget == 0 || sub !in s.db.subs || fetched.None? then SyncResult(s, None)
    else PruneImported(Persist(s, fetched.value, Some(sub), budget - 1), sub)
  }

  function WithoutLinksOf(db: Db, sub: nat): Db {
    db.(links := map l | l in db.links && db.links[l].sub != sub :: db.links[l])
  }

  /** The next node of the loop of `Delete`: counted, and deleted when no link is left. */
  function DropNext(done: Outcome, id: nat): Outcome {
    var s := done.sys;
    if !done.ok then done
    else if done.budget == 0 then Outcome(s, false, 0)
    else if IsLinked(s.db, id) || id !in s.db.nodes then Outcome(s, true, done.budget - 1)
    else if done.budget == 1 then Outcome(s, false, 0)
    else Outcome(DropNode(s, id), true, done.budget - 2)
  }

  /** The loop of `Delete` over the nodes the subscription linked. */
  function DropUnlinked(s: Sys, todo: seq<nat>, budget: nat): Outcome {
    if todo == [] then Outcome(s, true, budget)
    else DropNext(DropUnlinked(s, Front(todo), budget), Last(todo))
  }

  /** `Delete` of a subscription. */
  function DeleteSubscription(s: Sys, sub: nat, budget: nat): Outcome {
    if budget < 2 then Outcome(s, false, 0)
    else
      var todo := NodesOf(s.db, sub, s.db.nextNode);
      var dropped := DropUnlinked(s.(db := WithoutLinksOf(s.db, sub)), todo, budget - 2);
      if !dropped.ok || dropped.budget == 0 then Outcome(dropped.sys, false, 0)
      else Outcome(dropped.sys.(db := dropped.sys.db.(subs := dropped.sys.db.subs - {sub})), true, dropped.budget - 1)
  }

  /** Admin deletion of a node. The error of the first statement, which deletes the links, is ignored. */
  function DeleteNode(s: Sys, id: nat, unlinkFails: bool, deleteFails: bool): Sys {
    if id !in s.db.nodes then s
    else
      var s1 := if unlinkFails then s
                else s.(db := s.db.(links := map l | l in s.db.links && s.db.links[l].node != id :: s.db.links[l]));
      if deleteFails then s1 else DropNode(s1, id)
  }

  // ---------------------------------------------------------------- row updates

  /** A whole-row save followed by `CacheNode`. */
  function SaveRow(s: Sys, id: nat, row: Node): Sys {
    Sys(s.db.(nodes := s.db.nodes[id := row]), Cached(s.cache, id, row))
  }

  datatype Probe = NoTransport | ProbeFailed | ProbeOk(profile: Profile)

  /** The row after a failed probe. */
  function Failed(n: Node, maxFailCount: int): Node {
    n.(failCount := n.failCount + 1, healthy := n.healthy && n.failCount + 1 < maxFailCount)
  }

  function Recovered(n: Node, p: Profile): Node {
    n.(profile := p, failCount := 0, healthy := true)
  }

  /** `CheckOne`, with the outcome of the probe as input. */
  function Check(s: Sys, id: nat, probe: Probe, maxFailCount: int): Sys {
    if id !in s.db.nodes then s
    else match probe
      case NoTransport => s
      case ProbeFailed => SaveRow(s, id, Failed(s.db.nodes[id], maxFailCount))
      case ProbeOk(p) => SaveRow(s, id, Recovered(s.db.nodes[id], p))
  }

  function Toggle(s: Sys, id: nat, disabled: bool): Sys {
    if id in s.db.nodes then SaveRow(s, id, s.db.nodes[id].(disabled := disabled)) else s
  }

  /** The node half of the traffic flush changes the row in SQL only. */
  function AddTraffic(s: Sys, id: nat, t: Traffic): Sys {
    if id in s.db.nodes
    then s.(db := s.db.(nodes := s.db.nodes[id := s.db.nodes[id].(traffic := t)]))
    else s
  }
}
