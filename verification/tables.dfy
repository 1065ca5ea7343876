/** The SQL tables, changed statement by statement. A statement whose error the services return may
    fail: `budget` is how many more of them succeed before one fails. */
module SqlTables {
  import opened Text
  import opened NodeCache
  import opened Catalog
  import opened CatalogInvariants

  datatype LinkRow = LinkRow(id: nat, node: nat)

  datatype NodeRow = NodeRow(id: nat, node: Node)

  class Tables {
    var nodes: map<nat, Node>
    var nextNode: nat
    var links: map<nat, Link>
    var nextLink: nat
    var subs: set<nat>
    var budget: nat

    function State(): Db
      reads this
    {
      Db(nodes, nextNode, links, nextLink, subs)
    }

    constructor (budget: nat)
      ensures State() == Db(map[], 1, map[], 1, {}) && this.budget == budget
    {
      nodes, nextNode, links, nextLink, subs := map[], 1, map[], 1, {};
      this.budget := budget;
    }

    /** Whether the next statement succeeds. */
    method Statement() returns (ok: bool)
      modifies this`budget
      ensures ok == (old(budget) > 0) && budget == if ok then old(budget) - 1 else 0
    {
      ok := budget > 0;
      if ok { budget := budget - 1; }
    }

    // ------------------------------------------------------------ nodes

    method FindNode(addr: Address) returns (id: Option<nat>)
      requires RowsOk(State())
      ensures id == Find(State(), addr)
    {
      if i: nat :| i in nodes && nodes[i].addr == addr {
        ghost var found := Find(State(), addr);
        assert found.Some? && SameSpot(nodes[i].addr, nodes[found.value].addr);
        return Some(i);
      }
      return None;
    }

    method FirstNode(id: nat) returns (node: Option<Node>)
      ensures node == if id in nodes then Some(nodes[id]) else None
    {
      node := if id in nodes then Some(nodes[id]) else None;
    }

    /** The insert, its conflict target, and the other two unique indexes. */
    method InsertNode(item: Parsed, sub: Option<nat>) returns (ok: bool)
      requires RowsOk(State())
      modifies this
      ensures budget == if old(budget) == 0 then 0 else old(budget) - 1
      ensures ok == (old(budget) > 0 && Upsert(old(State()), item, sub).Some?)
      ensures State() == if ok then Upsert(old(State()), item, sub).value.0 else old(State())
    {
      ok := Statement();
      if !ok { return; }
      var found := FindNode(item.addr);
      match found {
        case Some(id) =>
          nodes := nodes[id := Refreshed(nodes[id], item, sub)];
        case None =>
          if id: nat :|
            id in nodes && (NodeKey(nodes[id].addr) == NodeKey(item.addr) || SameSpot(nodes[id].addr, item.addr)) {
            return false;
          }
          nodes, nextNode := nodes[nextNode := NewNode(item, sub)], nextNode + 1;
      }
    }

    method SaveNode(id: nat, node: Node) returns (ok: bool)
      modifies this`nodes, this`budget
      ensures ok == (old(budget) > 0) && budget == if ok then old(budget) - 1 else 0
      ensures nodes == if ok then old(nodes)[id := node] else old(nodes)
    {
      ok := Statement();
      if ok { nodes := nodes[id := node]; }
    }

    method DeleteNode(id: nat) returns (ok: bool)
      modifies this`nodes, this`budget
      ensures ok == (old(budget) > 0) && budget == if ok then old(budget) - 1 else 0
      ensures nodes == if ok then old(nodes) - {id} else old(nodes)
    {
      ok := Statement();
      if ok { nodes := nodes - {id}; }
    }

    /** The nodes a subscription links, each once. */
    method NodesOfSubscription(sub: nat) returns (ok: bool, rows: seq<NodeRow>)
      modifies this`budget
      ensures ok == (old(budget) > 0) && budget == if ok then old(budget) - 1 else 0
      ensures ok ==> |rows| == |NodesOf(State(), sub, nextNode)|
      ensures ok ==> forall i :: 0 <= i < |rows| ==>
                && rows[i].id == NodesOf(State(), sub, nextNode)[i]
                && rows[i].id in nodes && rows[i].node == nodes[rows[i].id]
    {
      rows := [];
      ok := Statement();
      if !ok { return; }
      var ids := NodesOf(State(), sub, nextNode);
      for i := 0 to |ids|
        invariant |rows| == i
        invariant forall j :: 0 <= j < i ==>
            rows[j].id == ids[j] && rows[j].id in nodes && rows[j].node == nodes[rows[j].id]
      {
        rows := rows + [NodeRow(ids[i], nodes[ids[i]])];
      }
    }

    // ------------------------------------------------------------ links

    /** The link is created unless it is there. */
    method FirstOrCreateLink(sub: nat, node: nat)
      modifies this`links, this`nextLink
      ensures State() == Linked(old(State()), Some(sub), node)
    {
      if l: nat :| l in links && links[l] == Link(sub, node) {
        assert HasLink(State(), sub, node);
        return;
      }
      assert !HasLink(State(), sub, node);
      links, nextLink := links[nextLink := Link(sub, node)], nextLink + 1;
    }

    method LinksOfSubscription(sub: nat) returns (ok: bool, rows: seq<LinkRow>)
      modifies this`budget
      ensures ok == (old(budget) > 0) && budget == if ok then old(budget) - 1 else 0
      ensures ok ==> |rows| == |LinksOf(State(), sub, nextLink)|
      ensures ok ==> forall i :: 0 <= i < |rows| ==>
                && rows[i].id == LinksOf(State(), sub, nextLink)[i]
                && rows[i].id in links && rows[i].node == links[rows[i].id].node
    {
      rows := [];
      ok := Statement();
      if !ok { return; }
      var ids := LinksOf(State(), sub, nextLink);
      for i := 0 to |ids|
        invariant |rows| == i
        invariant forall j :: 0 <= j < i ==>
            rows[j].id == ids[j] && rows[j].id in links && rows[j].node == links[rows[j].id].node
      {
        rows := rows + [LinkRow(ids[i], links[ids[i]].node)];
      }
    }

    method DeleteLink(id: nat) returns (ok: bool)
      modifies this`links, this`budget
      ensures ok == (old(budget) > 0) && budget == if ok then old(budget) - 1 else 0
      ensures links == if ok then old(links) - {id} else old(links)
    {
      ok := Statement();
      if ok { links := links - {id}; }
    }

    method DeleteLinksOfSubscription(sub: nat) returns (ok: bool)
      modifies this`links, this`budget
      ensures ok == (old(budget) > 0) && budget == if ok then old(budget) - 1 else 0
      ensures State() == if ok then WithoutLinksOf(old(State()), sub) else old(State())
    {
      ok := Statement();
      if ok { links := map l | l in links && links[l].sub != sub :: links[l]; }
    }

    /** The error of this statement is ignored by its caller: it fails at any time, on its own. */
    method DeleteLinksOfNode(node: nat) returns (ok: bool)
      modifies this`links
      ensures links == if ok then map l | l in old(links) && old(links)[l].node != node :: old(links)[l] else old(links)
    {
      ok := *;
      if ok { links := map l | l in links && links[l].node != node :: links[l]; }
    }

    method CountLinks(node: nat) returns (ok: bool, count: nat)
      modifies this`budget
      ensures ok == (old(budget) > 0) && budget == if ok then old(budget) - 1 else 0
      ensures ok ==> (count == 0 <==> !IsLinked(State(), node))
    {
      count := 0;
      ok := Statement();
      if !ok { return; }
      var found := set l | l in links && links[l].node == node;
      count := |found|;
      if IsLinked(State(), node) {
        var l :| l in links && links[l].node == node;
        assert l in found;
      }
    }

    // ------------------------------------------------------------ subscriptions

    method FirstSubscription(sub: nat) returns (ok: bool)
      modifies this`budget
      ensures ok == (old(budget) > 0 && sub in subs) && budget == if old(budget) > 0 then old(budget) - 1 else 0
    {
      ok := Statement();
      ok := ok && sub in subs;
    }

    /** The time stamp of the last sync is not modelled. */
    method TouchSubscription(sub: nat) returns (ok: bool)
      modifies this`budget
      ensures ok == (old(budget) > 0) && budget == if ok then old(budget) - 1 else 0
    {
      ok := Statement();
    }

    method DeleteSubscription(sub: nat) returns (ok: bool)
      modifies this`subs, this`budget
      ensures ok == (old(budget) > 0) && budget == if ok then old(budget) - 1 else 0
      ensures subs == if ok then old(subs) - {sub} else old(subs)
    {
      ok := Statement();
      if ok { subs := subs - {sub}; }
    }
  }
}
