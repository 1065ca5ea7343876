/** The selector over the tables and the Redis store. */
module SelectorService {
  import opened Text
  import opened NodeCache
  import opened NodeStore
  import opened Catalog
  import opened CatalogInvariants
  import opened Selector
  import opened SqlTables

  predicate Holds(rows: seq<NodeRow>, id: nat) {
    exists i :: 0 <= i < |rows| && rows[i].id == id
  }

  lemma HoldsOneMore(rows: seq<NodeRow>, row: NodeRow, id: nat)
    ensures Holds(rows + [row], id) <==> Holds(rows, id) || id == row.id
  {
    var more := rows + [row];
    assert more[|rows|] == row;
    if i :| 0 <= i < |rows| && rows[i].id == id { assert more[i].id == id; }
  }

  /** These rows are the candidates, each as it was read. */
  ghost predicate Lists(rows: seq<NodeRow>, s: Sys, f: Filters) {
    && (forall i :: 0 <= i < |rows| ==>
         rows[i].id in Candidates(s, f) && rows[i].node == CandidateRow(s, f, rows[i].id))
    && (forall id :: id in Candidates(s, f) ==> Holds(rows, id))
  }

  /** A cached row that passes the second look. */
  predicate Loads(c: Cache, row: NodeRow, f: Filters) {
    row.id in c.cached && row.node == c.cached[row.id] && PassesAgain(row.node, f)
  }

  class Service {
    const db: Tables
    const store: Store
    const digest: string -> string

    function State(): Sys
      reads db, store
    {
      Sys(db.State(), store.State())
    }

    constructor (db: Tables, store: Store, digest: string -> string)
      ensures this.db == db && this.store == store && this.digest == digest
    {
      this.db, this.store, this.digest := db, store, digest;
    }

    /** SINTER, and SMEMBERS when there is one key. */
    method Intersect(keys: seq<string>) returns (ids: set<nat>)
      requires keys != []
      ensures ids == Common(store.index, keys)
    {
      ids := Members(store.index, keys[0]);
      for i := 1 to |keys|
        invariant forall id ::
            id in ids <==> id in Members(store.index, keys[0]) && forall k :: k in keys[..i] ==> (k, id) in store.index
      {
        ids := set id | id in ids && (keys[i], id) in store.index;
        assert keys[..i + 1] == keys[..i] + [keys[i]];
      }
      assert keys[..|keys|] == keys;
    }

    method MatchNodeIds(f: Filters) returns (ids: Option<set<nat>>)
      ensures ids == Selector.MatchNodeIds(store.index, f)
    {
      var sets := [HEALTHY];
      if f.region != "" && f.state == "" { sets := sets + [RegionKey(f.region)]; }
      if f.state != "" { return None; }
      if f.city != "" { sets := sets + [CityKey(f.city)]; }
      if f.asn != "" { sets := sets + [AsnKey(f.asn)]; }
      if f.isp != "" { sets := sets + [IspKey(f.isp)]; }
      assert sets == Sets(f);
      var members := Intersect(sets);
      return Some(members);
    }

    /** The loop over the members of the sets. */
    method LoadMatches(ids: set<nat>, f: Filters) returns (rows: seq<NodeRow>)
      ensures forall i :: 0 <= i < |rows| ==> rows[i].id in ids && Loads(store.State(), rows[i], f)
      ensures forall id :: id in ids && id in store.cached && PassesAgain(store.cached[id], f) ==> Holds(rows, id)
    {
      rows := [];
      var todo := ids;
      while todo != {}
        invariant todo <= ids
        invariant forall i :: 0 <= i < |rows| ==> rows[i].id in ids && Loads(store.State(), rows[i], f)
        invariant forall id :: id in ids - todo && id in store.cached && PassesAgain(store.cached[id], f) ==>
            Holds(rows, id)
        decreases |todo|
      {
        var id :| id in todo;
        var node := store.LoadNode(id);
        if node.Some? && node.value.healthy && !node.value.disabled {
          if f.isp == "" || node.value.profile.isp == f.isp || node.value.profile.org == f.isp {
            forall m: nat
              ensures Holds(rows + [NodeRow(id, node.value)], m) <==> Holds(rows, m) || m == id
            {
              HoldsOneMore(rows, NodeRow(id, node.value), m);
            }
            rows := rows + [NodeRow(id, node.value)];
          }
        }
        todo := todo - {id};
      }
    }

    /** The rows of the SQL query, in any order. */
    method FindMatches(f: Filters) returns (rows: seq<NodeRow>)
      ensures forall i :: 0 <= i < |rows| ==> rows[i].id in Query(db.State(), f) && rows[i].node == db.nodes[rows[i].id]
      ensures forall id :: id in Query(db.State(), f) ==> Holds(rows, id)
    {
      rows := [];
      var todo := Query(db.State(), f);
      while todo != {}
        invariant todo <= Query(db.State(), f)
        invariant forall i :: 0 <= i < |rows| ==>
            rows[i].id in Query(db.State(), f) && rows[i].node == db.nodes[rows[i].id]
        invariant forall id :: id in Query(db.State(), f) - todo ==> Holds(rows, id)
        decreases |todo|
      {
        var id :| id in todo;
        forall m: nat
          ensures Holds(rows + [NodeRow(id, db.nodes[id])], m) <==> Holds(rows, m) || m == id
        {
          HoldsOneMore(rows, NodeRow(id, db.nodes[id]), m);
        }
        rows := rows + [NodeRow(id, db.nodes[id])];
        todo := todo - {id};
      }
    }

    method ListCandidates(f: Filters) returns (rows: seq<NodeRow>)
      ensures Lists(rows, State(), f)
    {
      var ids := MatchNodeIds(f);
      if ids.Some? {
        rows := LoadMatches(ids.value, f);
        if |rows| > 0 {
          assert rows[0].id in FastPath(store.State(), f);
          return;
        }
      }
      assert FastPath(store.State(), f) == {};
      rows := FindMatches(f);
    }

    /** `Pick`: the sticky node, or a random candidate that is then pinned. */
    method PickNode(uid: string, f: Filters) returns (node: Option<NodeRow>, ghost choice: nat)
      modifies store`sticky
      ensures Pick(old(State()), SessionKey(digest, uid, f), f, choice)
           == (State(), if node.Some? then Some(node.value.id) else None)
      ensures node.Some? && Agrees(State()) ==>
          node.value.id in db.nodes && SameRow(node.value.node, db.nodes[node.value.id])
    {
      choice := 0;
      var key := SessionKey(digest, uid, f);
      if f.sid != "" && key in store.sticky {
        var id := store.sticky[key];
        var row := db.FirstNode(id);
        if row.Some? && row.value.healthy && !row.value.disabled {
          return Some(NodeRow(id, row.value)), 0;
        }
        store.sticky := store.sticky - {key};
      }
      assert State() == Cleared(old(State()), f, key);
      var rows := ListCandidates(f);
      ghost var s1 := State();
      if |rows| == 0 {
        assert Candidates(s1, f) == {};
        return None, 0;
      }
      var n: nat :| n < |rows|;
      choice := rows[n].id;
      if f.sid != "" {
        store.sticky := store.sticky[key := rows[n].id];
      }
      assert State() == Bound(s1, f, key, choice);
      node := Some(rows[n]);
      if Agrees(State()) { CandidatesAvailable(s1, f, choice); }
    }
  }
}
