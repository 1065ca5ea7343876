/** Subscriptions as reference counts on nodes: what syncing, importing and deleting do to links and
    nodes, on success and on every early return. */
module SubscriptionGraph {
  import opened Text
  import opened NodeCache
  import opened Catalog
  import opened CatalogInvariants

  /** Protocols without colons; every supported protocol is one (Catalog.SupportedHasNoColon). */
  predicate Accepted(items: seq<Parsed>) {
    forall i :: 0 <= i < |items| ==> ':' !in items[i].addr.protocol
  }

  function Ids(ids: seq<nat>): set<nat> {
    set n | n in ids
  }

  // ---------------------------------------------------------------- imports

  /** Whatever the outcome: the invariant holds, no row or link is gone, no row lost its health,
      disabled flag, fail count, profile or traffic, and only links of this subscription are new. */
  ghost predicate Extended(db: Db, db': Db, sub: Option<nat>) {
    && Survive(db, db') && db'.subs == db.subs
    && (forall x: nat, n: nat :: HasLink(db, x, n) ==> HasLink(db', x, n))
    && (forall x: nat, n: nat :: HasLink(db', x, n) && sub != Some(x) ==> HasLink(db, x, n))
  }

  lemma ExtendedTwice(a: Db, b: Db, c: Db, sub: Option<nat>)
    requires Extended(a, b, sub) && Extended(b, c, sub)
    ensures Extended(a, c, sub)
  {
    forall id | id in a.nodes
      ensures id in c.nodes && Kept(a.nodes[id], c.nodes[id])
    {
      assert Kept(a.nodes[id], b.nodes[id]);
    }
  }

  /** What a successful import did: one row for each entry, linked; all other rows and links as before. */
  ghost predicate ImportedAll(db: Db, db': Db, items: seq<Parsed>, sub: Option<nat>, ids: seq<nat>) {
    && |ids| == |items|
    && (forall i :: 0 <= i < |ids| ==> ids[i] in db'.nodes && db'.nodes[ids[i]].addr == items[i].addr)
    && db'.nodes.Keys == db.nodes.Keys + Ids(ids)
    && (forall n :: n in db.nodes && n !in ids ==> db'.nodes[n] == db.nodes[n])
    && (forall n :: n in ids && n !in db.nodes ==> Fresh(db'.nodes[n]))
    && (forall x: nat, n: nat :: HasLink(db', x, n) <==> HasLink(db, x, n) || (sub == Some(x) && n in ids))
  }

  /** Every imported row holds what the last entry for it says. */
  ghost predicate Written(db: Db, items: seq<Parsed>, sub: Option<nat>, ids: seq<nat>) {
    && |ids| == |items|
    && (forall i :: 0 <= i < |ids| && ids[i] !in ids[i + 1..] ==>
         ids[i] in db.nodes && Writes(db.nodes[ids[i]], items[i], sub))
  }

  lemma WrittenOneMore(b: Db, c: Db, items: seq<Parsed>, sub: Option<nat>, id: nat, ids: seq<nat>)
    requires items != [] && Written(b, Front(items), sub, ids) && Imported(b, c, Last(items), sub, id)
    ensures Written(c, items, sub, ids + [id])
  {
    var all := ids + [id];
    forall i | 0 <= i < |all| && all[i] !in all[i + 1..]
      ensures all[i] in c.nodes && Writes(c.nodes[all[i]], items[i], sub)
    {
      if i < |ids| {
        assert all[i + 1..] == ids[i + 1..] + [id];
        assert id in all[i + 1..];
        assert Writes(b.nodes[ids[i]], items[i], sub);
      }
    }
  }

  /** Every row is an old one with what imports do not touch, or fresh. */
  ghost predicate Carried(db: Db, db': Db) {
    forall n :: n in db'.nodes ==> if n in db.nodes then Kept(db.nodes[n], db'.nodes[n]) else Fresh(db'.nodes[n])
  }

  lemma ImportedIsCarried(db: Db, db': Db, items: seq<Parsed>, sub: Option<nat>, ids: seq<nat>)
    requires Survive(db, db') && ImportedAll(db, db', items, sub, ids)
    ensures Carried(db, db')
  {
  }

  /** What holds after some entries of the list. */
  ghost predicate Progress(s: Sys, items: seq<Parsed>, sub: Option<nat>, exact: bool, slack: Slack, t: Sys,
                           ids: seq<nat>) {
    && |ids| <= |items| && Sound(t, exact, slack) && Extended(s.db, t.db, sub)
    && ImportedAll(s.db, t.db, items[..|ids|], sub, ids) && Written(t.db, items[..|ids|], sub, ids)
  }

  lemma ImportedNothing(s: Sys, items: seq<Parsed>, sub: Option<nat>, exact: bool, slack: Slack := TIGHT)
    requires Sound(s, exact, slack)
    ensures Progress(s, items, sub, exact, slack, s, [])
  {
    assert Ids([]) == {};
  }

  lemma StayFresh(b: Db, c: Db)
    requires Survive(b, c)
    ensures forall n :: n in b.nodes ==>
              n in c.nodes && c.nodes[n].addr == b.nodes[n].addr && (Fresh(b.nodes[n]) ==> Fresh(c.nodes[n]))
  {
    forall n | n in b.nodes
      ensures n in c.nodes && c.nodes[n].addr == b.nodes[n].addr && (Fresh(b.nodes[n]) ==> Fresh(c.nodes[n]))
    {
      assert Kept(b.nodes[n], c.nodes[n]);
    }
  }

  lemma ImportedOneMore(a: Db, b: Db, c: Db, items: seq<Parsed>, sub: Option<nat>, id: nat, ids: seq<nat>)
    requires items != [] && ImportedAll(a, b, Front(items), sub, ids) && Imported(b, c, Last(items), sub, id)
    ensures ImportedAll(a, c, items, sub, ids + [id])
  {
    ImportedIds(a, b, c, ids, id);
    ImportedAddresses(b, c, items, ids, id);
    ImportedRows(a, b, c, ids, id);
    ImportedLinks(a, b, c, sub, ids, id);
  }

  lemma ImportedRows(a: Db, b: Db, c: Db, ids: seq<nat>, id: nat)
    requires Survive(b, c) && b.nodes.Keys == a.nodes.Keys + Ids(ids) && c.nodes.Keys == b.nodes.Keys + {id}
    requires forall n :: n in a.nodes && n !in ids ==> b.nodes[n] == a.nodes[n]
    requires forall n :: n in ids && n !in a.nodes ==> Fresh(b.nodes[n])
    requires forall n :: n in b.nodes && n != id ==> c.nodes[n] == b.nodes[n]
    requires id !in b.nodes ==> Fresh(c.nodes[id])
    ensures forall n :: n in a.nodes && n !in ids + [id] ==> c.nodes[n] == a.nodes[n]
    ensures forall n :: n in ids + [id] && n !in a.nodes ==> Fresh(c.nodes[n])
  {
    StayFresh(b, c);
  }

  lemma ImportedLinks(a: Db, b: Db, c: Db, sub: Option<nat>, ids: seq<nat>, id: nat)
    requires forall x: nat, n: nat :: HasLink(b, x, n) <==> HasLink(a, x, n) || (sub == Some(x) && n in ids)
    requires forall x: nat, n: nat :: HasLink(c, x, n) <==> HasLink(b, x, n) || (sub == Some(x) && n == id)
    ensures forall x: nat, n: nat :: HasLink(c, x, n) <==> HasLink(a, x, n) || (sub == Some(x) && n in ids + [id])
  {
  }

  lemma ImportedIds(a: Db, b: Db, c: Db, ids: seq<nat>, id: nat)
    requires b.nodes.Keys == a.nodes.Keys + Ids(ids) && c.nodes.Keys == b.nodes.Keys + {id}
    ensures c.nodes.Keys == a.nodes.Keys + Ids(ids + [id])
  {
    assert Ids(ids + [id]) == Ids(ids) + {id};
  }

  lemma ImportedAddresses(b: Db, c: Db, items: seq<Parsed>, ids: seq<nat>, id: nat)
    requires |items| == |ids| + 1 && Survive(b, c) && id in c.nodes && c.nodes[id].addr == Last(items).addr
    requires forall i :: 0 <= i < |ids| ==> ids[i] in b.nodes && b.nodes[ids[i]].addr == items[i].addr
    ensures var all := ids + [id];
         forall i :: 0 <= i < |all| ==> all[i] in c.nodes && c.nodes[all[i]].addr == items[i].addr
  {
    var all := ids + [id];
    forall i | 0 <= i < |all|
      ensures all[i] in c.nodes && c.nodes[all[i]].addr == items[i].addr
    {
      if i < |ids| { assert Kept(b.nodes[ids[i]], c.nodes[ids[i]]); }
    }
  }

  lemma ExtendedOnce(a: Db, b: Db, item: Parsed, sub: Option<nat>, id: nat)
    requires Imported(a, b, item, sub, id)
    ensures Extended(a, b, sub)
  {
  }

  lemma ProgressStep(s: Sys, items: seq<Parsed>, sub: Option<nat>, exact: bool, slack: Slack, t: Sys, ids: seq<nat>,
                     u: Sys, id: nat)
    requires Progress(s, items, sub, exact, slack, t, ids) && |ids| < |items|
    requires Sound(u, exact, slack) && Imported(t.db, u.db, items[|ids|], sub, id)
    ensures Progress(s, items, sub, exact, slack, u, ids + [id])
  {
    var more := items[..|ids| + 1];
    assert Front(more) == items[..|ids|];
    ImportedOneMore(s.db, t.db, u.db, more, sub, id, ids);
    WrittenOneMore(t.db, u.db, more, sub, id, ids);
    ExtendedOnce(t.db, u.db, items[|ids|], sub, id);
    ExtendedTwice(s.db, t.db, u.db, sub);
  }

  /** Every import of an entry keeps this. */
  ghost predicate KeptByImports(items: seq<Parsed>, sub: Option<nat>, inv: (Sys, seq<nat>) -> bool) {
    forall t: Sys, ids: seq<nat> {:trigger inv(t, ids), ImportOne(t, items[|ids|], sub)} ::
      |ids| < |items| && inv(t, ids) ==>
      match ImportOne(t, items[|ids|], sub) case None => true case Some((u, id)) => inv(u, ids + [id])
  }

  lemma ImportNextKeeps(done: Import, items: seq<Parsed>, sub: Option<nat>, n: nat, inv: (Sys, seq<nat>) -> bool)
    requires n < |items| && KeptByImports(items, sub, inv)
    requires inv(done.sys, done.ids) && |done.ids| <= n && (done.ok ==> |done.ids| == n)
    ensures var r := ImportNext(done, items[n], sub);
         inv(r.sys, r.ids) && |r.ids| <= n + 1 && (r.ok ==> |r.ids| == n + 1)
  {
  }

  lemma {:induction false} ImportInduction(s: Sys, items: seq<Parsed>, sub: Option<nat>, budget: nat,
                                           n: nat, inv: (Import, nat) -> bool)
    requires n <= |items| && inv(Import(s, [], true, budget), 0)
    requires forall done: Import, k: nat {:trigger inv(done, k)} ::
               k < |items| && inv(done, k) ==> inv(ImportNext(done, items[k], sub), k + 1)
    ensures inv(Persist(s, items[..n], sub, budget), n)
  {
    if n > 0 {
      ImportInduction(s, items, sub, budget, n - 1, inv);
      assert Front(items[..n]) == items[..n - 1];
    }
  }

  /** An invariant that every import of an entry keeps holds when the loop ends, however it ends. */
  lemma PersistInduction(s: Sys, items: seq<Parsed>, sub: Option<nat>, budget: nat,
                         n: nat, inv: (Sys, seq<nat>) -> bool)
    requires n <= |items| && inv(s, []) && KeptByImports(items, sub, inv)
    ensures var r := Persist(s, items[..n], sub, budget);
         inv(r.sys, r.ids) && |r.ids| <= n && (r.ok ==> |r.ids| == n)
  {
    var loop := (done: Import, k: nat) =>
      inv(done.sys, done.ids) && |done.ids| <= k && (done.ok ==> |done.ids| == k);
    forall done: Import, k: nat | k < |items| && loop(done, k)
      ensures loop(ImportNext(done, items[k], sub), k + 1)
    {
      ImportNextKeeps(done, items, sub, k, inv);
    }
    ImportInduction(s, items, sub, budget, n, loop);
  }

  lemma ImportKeepsProgress(s: Sys, items: seq<Parsed>, sub: Option<nat>, exact: bool, slack: Slack, t: Sys,
                            ids: seq<nat>)
    requires Accepted(items) && Progress(s, items, sub, exact, slack, t, ids) && |ids| < |items|
    ensures match ImportOne(t, items[|ids|], sub)
            case None => true
            case Some((u, id)) => Progress(s, items, sub, exact, slack, u, ids + [id])
  {
    if ImportOne(t, items[|ids|], sub).Some? {
      var (u, id) := ImportOne(t, items[|ids|], sub).value;
      ImportOneSound(t, items[|ids|], sub, exact, slack);
      ProgressStep(s, items, sub, exact, slack, t, ids, u, id);
    }
  }

  /** Importing keeps the invariant whatever happens; a list that was imported to its end has one
      row for each entry, linked. */
  lemma PersistEffect(s: Sys, items: seq<Parsed>, sub: Option<nat>, budget: nat, exact: bool, slack: Slack := TIGHT)
    requires Sound(s, exact, slack) && Accepted(items)
    ensures var r := Persist(s, items, sub, budget);
         && Sound(r.sys, exact, slack) && Extended(s.db, r.sys.db, sub) && Carried(s.db, r.sys.db)
         && (r.ok ==> ImportedAll(s.db, r.sys.db, items, sub, r.ids) && Written(r.sys.db, items, sub, r.ids))
  {
    var inv := (t: Sys, ids: seq<nat>) => Progress(s, items, sub, exact, slack, t, ids);
    ImportedNothing(s, items, sub, exact, slack);
    forall t: Sys, ids: seq<nat> | |ids| < |items| && inv(t, ids)
      ensures match ImportOne(t, items[|ids|], sub) case None => true case Some((u, id)) => inv(u, ids + [id])
    {
      ImportKeepsProgress(s, items, sub, exact, slack, t, ids);
    }
    assert items[..|items|] == items;
    PersistInduction(s, items, sub, budget, |items|, inv);
    var r := Persist(s, items, sub, budget);
    ImportedIsCarried(s.db, r.sys.db, items[..|r.ids|], sub, r.ids);
  }

  // ---------------------------------------------------------------- pruning

  /** What is left after the links were pruned: links that are kept or not of this subscription, and
      every row that is still linked or was not dropped by this subscription. */
  ghost predicate Pruned(db: Db, db': Db, todo: seq<nat>, keep: seq<nat>) {
    && (forall l :: l in db'.links <==> l in db.links && (l in todo ==> db.links[l].node in keep))
    && (forall l :: l in db'.links ==> db'.links[l] == db.links[l])
    && (forall n :: n in db'.nodes <==>
          n in db.nodes && !(DroppedBy(db, todo, keep, n) && !IsLinked(db', n)))
    && (forall n :: n in db'.nodes ==> db'.nodes[n] == db.nodes[n])
    && db'.nextNode == db.nextNode && db'.nextLink == db.nextLink && db'.subs == db.subs
  }

  /** One of these links pointed at the node, which is not to be kept. */
  ghost predicate DroppedBy(db: Db, todo: seq<nat>, keep: seq<nat>, n: nat) {
    n !in keep && exists l :: l in todo && l in db.links && db.links[l].node == n
  }

  /** Rows and links only went away, and no row went that was not dropped here or is still linked. */
  ghost predicate Shrunk(db: Db, db': Db) {
    && (forall l :: l in db'.links ==> l in db.links && db'.links[l] == db.links[l])
    && (forall n :: n in db'.nodes ==> n in db.nodes && db'.nodes[n] == db.nodes[n])
    && (forall n :: n in db.nodes && IsLinked(db', n) ==> n in db'.nodes)
    && db'.subs == db.subs
  }

  /** The ways pruning one link can end. */
  lemma PruneOneCases(s: Sys, l: nat, budget: nat)
    requires l in s.db.links
    ensures var node, s1, t := s.db.links[l].node, WithoutLink(s, l), PruneOne(s, l, budget).sys;
         t == s || t == s1 || (node in s1.db.nodes && !IsLinked(s1.db, node) && t == DropNode(s1, node))
  {
  }

  lemma LinkGoneSound(s: Sys, l: nat, exact: bool, slack: Slack := TIGHT)
    requires Sound(s, exact, slack) && l in s.db.links
    ensures Sound(WithoutLink(s, l), exact, slack) && Shrunk(s.db, WithoutLink(s, l).db)
  {
    FewerLinksSound(s, WithoutLink(s, l).db, exact, slack);
  }

  lemma NodeGoneShrinks(s: Sys, id: nat)
    requires id in s.db.nodes && !IsLinked(s.db, id) && LinksOk(s.db)
    ensures Shrunk(s.db, DropNode(s, id).db)
  {
  }

  lemma PrunedOneSound(s: Sys, l: nat, t: Sys, exact: bool, slack: Slack := TIGHT)
    requires Sound(s, exact, slack) && l in s.db.links
    requires var node, s1 := s.db.links[l].node, WithoutLink(s, l);
         t == s || t == s1 || (node in s1.db.nodes && !IsLinked(s1.db, node) && t == DropNode(s1, node))
    ensures Sound(t, exact, slack) && Shrunk(s.db, t.db)
  {
    var node, s1 := s.db.links[l].node, WithoutLink(s, l);
    LinkGoneSound(s, l, exact, slack);
    if t != s && t != s1 {
      DropNodeSound(s1, node, exact, slack);
      NodeGoneShrinks(s1, node);
      ShrunkTwice(s.db, s1.db, t.db);
    }
  }

  lemma ShrunkTwice(a: Db, b: Db, c: Db)
    requires Shrunk(a, b) && Shrunk(b, c)
    ensures Shrunk(a, c)
  {
    forall n | n in a.nodes && IsLinked(c, n)
      ensures n in c.nodes
    {
      var l :| l in c.links && c.links[l].node == n;
      assert b.links[l].node == n;
    }
  }

  lemma PruneNextSound(done: Outcome, l: nat, keep: seq<nat>, exact: bool, slack: Slack := TIGHT)
    requires Sound(done.sys, exact, slack)
    ensures var t := PruneNext(done, l, keep).sys;
         Sound(t, exact, slack) && Shrunk(done.sys.db, t.db)
  {
    if done.ok && l in done.sys.db.links && done.sys.db.links[l].node !in keep {
      PruneOneCases(done.sys, l, done.budget);
      PrunedOneSound(done.sys, l, PruneOne(done.sys, l, done.budget).sys, exact, slack);
    }
  }

  /** An invariant that every link of the loop keeps holds when it ends, however it ends. */
  lemma {:induction false} PruneInduction(s: Sys, todo: seq<nat>, keep: seq<nat>, budget: nat,
                                          n: nat, inv: (Outcome, nat) -> bool)
    requires n <= |todo| && inv(Outcome(s, true, budget), 0)
    requires forall done: Outcome, k: nat {:trigger inv(done, k)} ::
               k < |todo| && inv(done, k) ==> inv(PruneNext(done, todo[k], keep), k + 1)
    ensures inv(Prune(s, todo[..n], keep, budget), n)
  {
    if n > 0 {
      PruneInduction(s, todo, keep, budget, n - 1, inv);
      assert Front(todo[..n]) == todo[..n - 1];
    }
  }

  /** Pruning keeps the invariant and every row that is still linked, wherever it stops. */
  lemma PruneSound(s: Sys, todo: seq<nat>, keep: seq<nat>, budget: nat, exact: bool, slack: Slack := TIGHT)
    requires Sound(s, exact, slack)
    ensures var t := Prune(s, todo, keep, budget).sys;
         Sound(t, exact, slack) && Shrunk(s.db, t.db)
  {
    var inv := (done: Outcome, k: nat) => Sound(done.sys, exact, slack) && Shrunk(s.db, done.sys.db);
    forall done: Outcome, k: nat | k < |todo| && inv(done, k)
      ensures inv(PruneNext(done, todo[k], keep), k + 1)
    {
      PruneNextSound(done, todo[k], keep, exact, slack);
      ShrunkTwice(s.db, done.sys.db, PruneNext(done, todo[k], keep).sys.db);
    }
    assert todo[..|todo|] == todo;
    PruneInduction(s, todo, keep, budget, |todo|, inv);
  }

  /** One link gone, and its node unless another link points at it. */
  ghost predicate OneGone(db: Db, db': Db, l: nat)
    requires l in db.links
  {
    && db'.links == db.links - {l}
    && db'.nodes == (if IsLinked(db', db.links[l].node) then db.nodes else db.nodes - {db.links[l].node})
    && db'.nextNode == db.nextNode && db'.nextLink == db.nextLink && db'.subs == db.subs
  }

  lemma PruneOneLinks(s: Sys, l: nat, budget: nat)
    requires LinksOk(s.db) && l in s.db.links && PruneOne(s, l, budget).ok
    ensures OneGone(s.db, PruneOne(s, l, budget).sys.db, l)
    ensures LinksOk(PruneOne(s, l, budget).sys.db)
  {
    var s1, node := WithoutLink(s, l), s.db.links[l].node;
    assert s1.db.links == s.db.links - {l};
  }

  /** Distinct links that are there. */
  ghost predicate Listed(db: Db, todo: seq<nat>) {
    && (forall l :: l in todo ==> l in db.links)
    && (forall i, j :: 0 <= i < j < |todo| ==> todo[i] != todo[j])
  }

  lemma LinksOfListed(db: Db, sub: nat)
    ensures Listed(db, LinksOf(db, sub, db.nextLink))
  {
  }

  /** The loop over distinct links prunes exactly what it should. */
  lemma PruneEffect(s: Sys, todo: seq<nat>, keep: seq<nat>, budget: nat)
    requires LinksOk(s.db) && Listed(s.db, todo)
    requires Prune(s, todo, keep, budget).ok
    ensures Pruned(s.db, Prune(s, todo, keep, budget).sys.db, todo, keep)
  {
    var inv := (done: Outcome, k: nat) =>
      k <= |todo| && (done.ok ==> LinksOk(done.sys.db) && Pruned(s.db, done.sys.db, todo[..k], keep));
    forall done: Outcome, k: nat | k < |todo| && inv(done, k)
      ensures inv(PruneNext(done, todo[k], keep), k + 1)
    {
      PruneStep(s.db, done, todo, keep, k);
    }
    assert todo[..|todo|] == todo;
    PruneInduction(s, todo, keep, budget, |todo|, inv);
  }

  lemma PruneStep(db: Db, done: Outcome, todo: seq<nat>, keep: seq<nat>, k: nat)
    requires Listed(db, todo) && k < |todo|
    requires done.ok ==> LinksOk(done.sys.db) && Pruned(db, done.sys.db, todo[..k], keep)
    ensures var r := PruneNext(done, todo[k], keep);
         r.ok ==> LinksOk(r.sys.db) && Pruned(db, r.sys.db, todo[..k + 1], keep)
  {
    var more := todo[..k + 1];
    assert Front(more) == todo[..k] && Last(more) == todo[k];
    if PruneNext(done, todo[k], keep).ok {
      PruneNextEffect(db, done, more, keep);
    }
  }

  lemma PruneNextEffect(db: Db, done: Outcome, todo: seq<nat>, keep: seq<nat>)
    requires todo != [] && (forall l :: l in todo ==> l in db.links) && Last(todo) !in Front(todo)
    requires done.ok && LinksOk(done.sys.db) && Pruned(db, done.sys.db, Front(todo), keep)
    requires PruneNext(done, Last(todo), keep).ok
    ensures var t := PruneNext(done, Last(todo), keep).sys;
         LinksOk(t.db) && Pruned(db, t.db, todo, keep)
  {
    var l := Last(todo);
    assert l in done.sys.db.links && done.sys.db.links[l] == db.links[l];
    if db.links[l].node in keep {
      KeepsOneMore(db, done.sys.db, todo, keep);
    } else {
      PruneOneLinks(done.sys, l, done.budget);
      PrunesOneMore(db, done.sys.db, PruneOne(done.sys, l, done.budget).sys.db, todo, keep);
    }
  }

  /** A link that is kept drops nothing. */
  lemma KeepsOneMore(a: Db, b: Db, todo: seq<nat>, keep: seq<nat>)
    requires todo != [] && (forall l :: l in todo ==> l in a.links) && a.links[Last(todo)].node in keep
    requires Pruned(a, b, Front(todo), keep)
    ensures Pruned(a, b, todo, keep)
  {
    assert todo == Front(todo) + [Last(todo)];
    forall n: nat
      ensures DroppedBy(a, todo, keep, n) <==> DroppedBy(a, Front(todo), keep, n)
    {
    }
  }

  lemma PrunesOneMore(a: Db, b: Db, c: Db, todo: seq<nat>, keep: seq<nat>)
    requires todo != [] && (forall l :: l in todo ==> l in a.links) && a.links[Last(todo)].node !in keep
    requires Last(todo) !in Front(todo) && Pruned(a, b, Front(todo), keep) && OneGone(b, c, Last(todo))
    ensures Pruned(a, c, todo, keep)
  {
    var l0, node := Last(todo), a.links[Last(todo)].node;
    assert todo == Front(todo) + [l0];
    forall n: nat
      ensures n in c.nodes <==> n in a.nodes && !(DroppedBy(a, todo, keep, n) && !IsLinked(c, n))
    {
      assert DroppedBy(a, todo, keep, n) <==> n == node || DroppedBy(a, Front(todo), keep, n);
      assert IsLinked(c, n) ==> IsLinked(b, n) by {
        if IsLinked(c, n) {
          var l :| l in c.links && c.links[l].node == n;
          assert b.links[l].node == n;
        }
      }
      if n != node && IsLinked(b, n) {
        var l :| l in b.links && b.links[l].node == n;
        assert l in c.links && c.links[l].node == n;
      }
    }
  }

  // ---------------------------------------------------------------- sync

  /** Another subscription links the node. */
  ghost predicate LinkedByOther(db: Db, sub: nat, n: nat) {
    exists x: nat :: x != sub && HasLink(db, x, n)
  }

  lemma PruneAllSound(s: Sys, sub: nat, keep: seq<nat>, budget: nat, exact: bool, slack: Slack := TIGHT)
    requires Sound(s, exact, slack)
    ensures var t := PruneAll(s, sub, keep, budget).sys;
         Sound(t, exact, slack) && Shrunk(s.db, t.db)
  {
    PruneSound(s, LinksOf(s.db, sub, s.db.nextLink), keep, budget, exact, slack);
  }

  lemma PruneImportedSound(imported: Import, sub: nat, exact: bool, slack: Slack := TIGHT)
    requires Sound(imported.sys, exact, slack)
    ensures var t := PruneImported(imported, sub).sys;
         Sound(t, exact, slack) && Shrunk(imported.sys.db, t.db)
  {
    PruneImportedEnds(imported, sub);
    if imported.ok && imported.budget > 0 {
      PruneAllSound(imported.sys, sub, imported.ids, imported.budget - 1, exact, slack);
    }
  }

  lemma PruneImportedEnds(imported: Import, sub: nat)
    ensures PruneImported(imported, sub).sys
         == if imported.ok && imported.budget > 0
            then PruneAll(imported.sys, sub, imported.ids, imported.budget - 1).sys else imported.sys
  {
  }

  /** Whatever goes wrong and wherever it stops, a sync keeps the invariant and what rows carried. */
  lemma SyncSound(s: Sys, sub: nat, fetched: Option<seq<Parsed>>, budget: nat, exact: bool, slack: Slack := TIGHT)
    requires Sound(s, exact, slack) && (fetched.Some? ==> Accepted(fetched.value))
    ensures var t := Sync(s, sub, fetched, budget).sys;
         Sound(t, exact, slack) && t.db.subs == s.db.subs && Carried(s.db, t.db)
  {
    if budget > 0 && fetched.Some? {
      PersistEffect(s, fetched.value, Some(sub), budget - 1, exact, slack);
      PruneImportedSound(Persist(s, fetched.value, Some(sub), budget - 1), sub, exact, slack);
    }
  }

  /** A sync that stops while it imports has deleted no row and no link. */
  lemma FailedImportPrunesNothing(s: Sys, sub: nat, items: seq<Parsed>, budget: nat, exact: bool, slack: Slack := TIGHT)
    requires Sound(s, exact, slack) && Accepted(items) && budget > 0
    requires !Persist(s, items, Some(sub), budget - 1).ok
    ensures var r := Sync(s, sub, Some(items), budget);
         r.imported.None? && Extended(s.db, r.sys.db, Some(sub))
  {
    PersistEffect(s, items, Some(sub), budget - 1, exact, slack);
  }

  /** The links of the subscription and what they pointed at, after the import. */
  lemma LinksBeforePruning(s: Sys, t: Sys, sub: nat, items: seq<Parsed>, ids: seq<nat>, n: nat)
    requires LinksOk(t.db) && ImportedAll(s.db, t.db, items, Some(sub), ids)
    ensures DroppedBy(t.db, LinksOf(t.db, sub, t.db.nextLink), ids, n) <==> n !in ids && HasLink(s.db, sub, n)
  {
    var todo := LinksOf(t.db, sub, t.db.nextLink);
    if n !in ids && HasLink(s.db, sub, n) {
      assert HasLink(t.db, sub, n);
      var l :| l in t.db.links && t.db.links[l] == Link(sub, n);
      assert l in todo;
    }
    if DroppedBy(t.db, todo, ids, n) {
      var l :| l in todo && l in t.db.links && t.db.links[l].node == n;
      assert t.db.links[l] == Link(sub, n);
    }
  }

  lemma LinksAfterPruning(a: Db, b: Db, sub: nat, ids: seq<nat>, x: nat, n: nat)
    requires LinksOk(a) && Pruned(a, b, LinksOf(a, sub, a.nextLink), ids)
    ensures HasLink(b, x, n) <==> HasLink(a, x, n) && (x == sub ==> n in ids)
  {
    var todo := LinksOf(a, sub, a.nextLink);
    if HasLink(b, x, n) {
      var l :| l in b.links && b.links[l] == Link(x, n);
      assert a.links[l] == Link(x, n);
      if x == sub { assert l in todo; }
    }
    if HasLink(a, x, n) && (x == sub ==> n in ids) {
      var l :| l in a.links && a.links[l] == Link(x, n);
      assert l in b.links && b.links[l] == Link(x, n);
    }
  }

  lemma LinkedIs(db: Db, n: nat)
    ensures IsLinked(db, n) <==> exists x: nat :: HasLink(db, x, n)
  {
    if IsLinked(db, n) {
      var l :| l in db.links && db.links[l].node == n;
      assert db.links[l] == Link(db.links[l].sub, n);
      assert HasLink(db, db.links[l].sub, n);
    }
  }

  /** The links after a sync: of this subscription, exactly the imported nodes; of the others, what
      was there. */
  ghost predicate SyncedLinks(db: Db, db': Db, sub: nat, ids: seq<nat>) {
    forall x: nat, n: nat :: HasLink(db', x, n) <==> if x == sub then n in ids else HasLink(db, x, n)
  }

  /** The rows after a sync: gone are exactly those the subscription linked, does not import any
      more, and no other subscription links. */
  ghost predicate SyncedNodes(db: Db, db': Db, sub: nat, ids: seq<nat>) {
    forall n: nat :: n in db'.nodes <==>
      (n in db.nodes || n in ids) && !(n !in ids && HasLink(db, sub, n) && !LinkedByOther(db, sub, n))
  }

  /** The rows that are there before and after keep what imports and pruning do not touch. */
  ghost predicate SyncedRows(db: Db, db': Db, ids: seq<nat>) {
    && (forall n :: n in db.nodes && n in db'.nodes ==> Kept(db.nodes[n], db'.nodes[n]))
    && (forall n :: n in db'.nodes && n !in db.nodes ==> Fresh(db'.nodes[n]))
  }

  /** A successful sync. There is one imported row for each entry, with its address; since no two
      links agree in subscription and node (LinksOk), each is linked exactly once. */
  lemma SyncExactly(s: Sys, sub: nat, items: seq<Parsed>, budget: nat, exact: bool, slack: Slack := TIGHT)
    requires Sound(s, exact, slack) && Accepted(items) && Sync(s, sub, Some(items), budget).imported.Some?
    ensures var r := Sync(s, sub, Some(items), budget);
         && Synced(s.db, r.sys.db, sub, items, r.imported.value) && Sound(r.sys, exact, slack)
         && Written(r.sys.db, items, Some(sub), r.imported.value)
  {
    var imported := Persist(s, items, Some(sub), budget - 1);
    PersistEffect(s, items, Some(sub), budget - 1, exact, slack);
    PruneImportedSound(imported, sub, exact, slack);
    PruneImportedExactly(s, imported, sub, items);
    StillWritten(imported.sys.db, PruneImported(imported, sub).sys.db, items, Some(sub), imported.ids);
  }

  lemma StillWritten(a: Db, b: Db, items: seq<Parsed>, sub: Option<nat>, ids: seq<nat>)
    requires Written(a, items, sub, ids) && Shrunk(a, b) && forall i :: 0 <= i < |ids| ==> ids[i] in b.nodes
    ensures Written(b, items, sub, ids)
  {
  }

  /** All of it. */
  ghost predicate Synced(db: Db, db': Db, sub: nat, items: seq<Parsed>, ids: seq<nat>) {
    && |ids| == |items| && (forall i :: 0 <= i < |ids| ==>
        ids[i] in db'.nodes && db'.nodes[ids[i]].addr == items[i].addr)
    && SyncedLinks(db, db', sub, ids) && SyncedNodes(db, db', sub, ids) && SyncedRows(db, db', ids)
  }

  lemma PruneImportedExactly(s: Sys, imported: Import, sub: nat, items: seq<Parsed>)
    requires LinksOk(imported.sys.db) && Extended(s.db, imported.sys.db, Some(sub))
    requires ImportedAll(s.db, imported.sys.db, items, Some(sub), imported.ids)
    requires PruneImported(imported, sub).imported.Some?
    ensures var r := PruneImported(imported, sub);
         Synced(s.db, r.sys.db, sub, items, r.imported.value)
  {
    PruneImportedEffect(imported, sub);
    SyncedParts(s, imported.sys, PruneImported(imported, sub).sys.db, sub, items, imported.ids);
  }

  lemma PruneImportedEffect(imported: Import, sub: nat)
    requires LinksOk(imported.sys.db) && PruneImported(imported, sub).imported.Some?
    ensures var r, db := PruneImported(imported, sub), imported.sys.db;
         Pruned(db, r.sys.db, LinksOf(db, sub, db.nextLink), imported.ids) && r.imported.value == imported.ids
  {
    PruneImportedIs(imported, sub);
    PruneAllEffect(imported.sys, sub, imported.ids, imported.budget - 1);
  }

  lemma PruneImportedIs(imported: Import, sub: nat)
    requires PruneImported(imported, sub).imported.Some?
    ensures imported.budget > 0
    ensures var r, p := PruneImported(imported, sub), PruneAll(imported.sys, sub, imported.ids, imported.budget - 1);
         p.ok && r.sys == p.sys && r.imported.value == imported.ids
  {
  }

  lemma PruneAllEffect(s: Sys, sub: nat, keep: seq<nat>, budget: nat)
    requires LinksOk(s.db) && PruneAll(s, sub, keep, budget).ok
    ensures Pruned(s.db, PruneAll(s, sub, keep, budget).sys.db, LinksOf(s.db, sub, s.db.nextLink), keep)
  {
    LinksOfListed(s.db, sub);
    PruneEffect(s, LinksOf(s.db, sub, s.db.nextLink), keep, budget);
  }

  lemma SyncedParts(s: Sys, t: Sys, db': Db, sub: nat, items: seq<Parsed>, ids: seq<nat>)
    requires LinksOk(t.db) && Extended(s.db, t.db, Some(sub)) && ImportedAll(s.db, t.db, items, Some(sub), ids)
    requires Pruned(t.db, db', LinksOf(t.db, sub, t.db.nextLink), ids)
    ensures Synced(s.db, db', sub, items, ids)
  {
    SyncedLinksHold(s, t, db', sub, items, ids);
    SyncedNodesHold(s, t, db', sub, items, ids);
    SyncedRowsHold(s, t, db', sub, items, ids);
  }

  lemma SyncedLinksHold(s: Sys, t: Sys, db': Db, sub: nat, items: seq<Parsed>, ids: seq<nat>)
    requires LinksOk(t.db) && ImportedAll(s.db, t.db, items, Some(sub), ids)
    requires Pruned(t.db, db', LinksOf(t.db, sub, t.db.nextLink), ids)
    ensures SyncedLinks(s.db, db', sub, ids)
  {
    forall x: nat, n: nat
      ensures HasLink(db', x, n) <==> if x == sub then n in ids else HasLink(s.db, x, n)
    {
      LinksAfterPruning(t.db, db', sub, ids, x, n);
    }
  }

  lemma SyncedNodesHold(s: Sys, t: Sys, db': Db, sub: nat, items: seq<Parsed>, ids: seq<nat>)
    requires LinksOk(t.db) && ImportedAll(s.db, t.db, items, Some(sub), ids)
    requires Pruned(t.db, db', LinksOf(t.db, sub, t.db.nextLink), ids) && SyncedLinks(s.db, db', sub, ids)
    ensures SyncedNodes(s.db, db', sub, ids)
    ensures forall i :: 0 <= i < |ids| ==> ids[i] in db'.nodes && db'.nodes[ids[i]].addr == items[i].addr
  {
    forall n: nat
      ensures n in db'.nodes
         <==> (n in s.db.nodes || n in ids) && !(n !in ids && HasLink(s.db, sub, n) && !LinkedByOther(s.db, sub, n))
    {
      LinksBeforePruning(s, t, sub, items, ids, n);
      LinkedIs(db', n);
      if n !in ids && LinkedByOther(s.db, sub, n) {
        var x: nat :| x != sub && HasLink(s.db, x, n);
        assert HasLink(db', x, n);
      }
    }
  }

  lemma SyncedRowsHold(s: Sys, t: Sys, db': Db, sub: nat, items: seq<Parsed>, ids: seq<nat>)
    requires LinksOk(t.db) && Extended(s.db, t.db, Some(sub)) && ImportedAll(s.db, t.db, items, Some(sub), ids)
    requires Pruned(t.db, db', LinksOf(t.db, sub, t.db.nextLink), ids)
    ensures SyncedRows(s.db, db', ids)
  {
    forall n | n in s.db.nodes && n in db'.nodes
      ensures Kept(s.db.nodes[n], db'.nodes[n])
    {
      assert Kept(s.db.nodes[n], t.db.nodes[n]);
    }
  }

  // ---------------------------------------------------------------- when an import fails

  /** The same host and port under different protocols. */
  predicate Conflict(a: Address, b: Address) {
    SameSpot(a, b) && a.protocol != b.protocol
  }

  /** No entry conflicts with a stored row or with an earlier entry. */
  ghost predicate ConflictFree(db: Db, items: seq<Parsed>) {
    && (forall i :: 0 <= i < |items| ==> !SpotTaken(db, items[i].addr))
    && (forall i, j :: 0 <= i < j < |items| ==> !Conflict(items[i].addr, items[j].addr))
  }

  lemma ConflictFreeSnoc(db: Db, items: seq<Parsed>)
    requires items != []
    ensures ConflictFree(db, items)
       <==> ConflictFree(db, Front(items)) && !SpotTaken(db, Last(items).addr)
            && forall i :: 0 <= i < |items| - 1 ==> !Conflict(items[i].addr, Last(items).addr)
  {
  }

  lemma SpotTakenAfter(a: Db, b: Db, items: seq<Parsed>, sub: Option<nat>, ids: seq<nat>, addr: Address)
    requires Survive(a, b) && ImportedAll(a, b, items, sub, ids)
    ensures SpotTaken(b, addr) <==> SpotTaken(a, addr) || exists i :: 0 <= i < |items| && Conflict(items[i].addr, addr)
  {
    if SpotTaken(a, addr) {
      var id :| id in a.nodes && SameSpot(a.nodes[id].addr, addr) && a.nodes[id].addr.protocol != addr.protocol;
      assert Kept(a.nodes[id], b.nodes[id]);
    }
    if i :| 0 <= i < |items| && Conflict(items[i].addr, addr) {
      assert b.nodes[ids[i]].addr == items[i].addr;
    }
    if SpotTaken(b, addr) {
      var id :| id in b.nodes && SameSpot(b.nodes[id].addr, addr) && b.nodes[id].addr.protocol != addr.protocol;
      if id in ids {
        var i :| 0 <= i < |ids| && ids[i] == id;
        assert Conflict(items[i].addr, addr);
      } else {
        assert Kept(a.nodes[id], b.nodes[id]);
      }
    }
  }

  lemma ImportNextFails(done: Import, item: Parsed, sub: Option<nat>)
    requires RowsOk(done.sys.db) && LinksOk(done.sys.db) && ':' !in item.addr.protocol && done.budget > 0
    ensures ImportNext(done, item, sub).ok <==> done.ok && !SpotTaken(done.sys.db, item.addr)
    ensures ImportNext(done, item, sub).ok ==> ImportNext(done, item, sub).budget == done.budget - 1
  {
    UpsertRejects(done.sys.db, item, sub);
    ImportOneFails(done.sys, item, sub);
  }

  /** With no SQL fault, an import runs to its end exactly when no entry has the host and port of a
      stored row, or of an earlier entry, under another protocol. */
  lemma {:induction false} PersistFailsExactly(s: Sys, items: seq<Parsed>, sub: Option<nat>, budget: nat, exact: bool,
                                               slack: Slack := TIGHT)
    requires Sound(s, exact, slack) && Accepted(items) && budget >= |items|
    ensures Persist(s, items, sub, budget).ok <==> ConflictFree(s.db, items)
    ensures Persist(s, items, sub, budget).ok ==> Persist(s, items, sub, budget).budget == budget - |items|
  {
    if items != [] {
      var done := Persist(s, Front(items), sub, budget);
      PersistFailsExactly(s, Front(items), sub, budget, exact, slack);
      PersistEffect(s, Front(items), sub, budget, exact, slack);
      PersistFailsNext(s.db, done, items, sub);
    }
  }

  lemma PersistFailsNext(db: Db, done: Import, items: seq<Parsed>, sub: Option<nat>)
    requires items != [] && ':' !in Last(items).addr.protocol
    requires done.ok <==> ConflictFree(db, Front(items))
    requires done.ok ==> done.budget > 0 && RowsOk(done.sys.db) && LinksOk(done.sys.db)
                         && Survive(db, done.sys.db) && ImportedAll(db, done.sys.db, Front(items), sub, done.ids)
    ensures var r := ImportNext(done, Last(items), sub);
         (r.ok <==> ConflictFree(db, items)) && (r.ok ==> r.budget == done.budget - 1)
  {
    if done.ok {
      ImportNextFails(done, Last(items), sub);
      FreeSpot(db, done.sys.db, items, sub, done.ids);
    } else {
      ConflictFreeSnoc(db, items);
    }
  }

  lemma FreeSpot(a: Db, b: Db, items: seq<Parsed>, sub: Option<nat>, ids: seq<nat>)
    requires items != [] && ConflictFree(a, Front(items))
    requires Survive(a, b) && ImportedAll(a, b, Front(items), sub, ids)
    ensures !SpotTaken(b, Last(items).addr) <==> ConflictFree(a, items)
  {
    ConflictFreeSnoc(a, items);
    SpotTakenAfter(a, b, Front(items), sub, ids, Last(items).addr);
  }

  // ---------------------------------------------------------------- when a sync succeeds

  lemma PruneOneCompletes(s: Sys, l: nat, budget: nat)
    requires l in s.db.links && budget >= 3
    ensures PruneOne(s, l, budget).ok && PruneOne(s, l, budget).budget >= budget - 3
  {
  }

  /** With no SQL fault pruning gets to its end: no link takes more than three statements. */
  lemma {:induction false} PruneCompletes(s: Sys, todo: seq<nat>, keep: seq<nat>, budget: nat)
    requires budget >= 3 * |todo|
    ensures Prune(s, todo, keep, budget).ok
    ensures Prune(s, todo, keep, budget).budget >= budget - 3 * |todo|
  {
    if todo != [] {
      var done := Prune(s, Front(todo), keep, budget);
      PruneCompletes(s, Front(todo), keep, budget);
      if Last(todo) in done.sys.db.links && done.sys.db.links[Last(todo)].node !in keep {
        PruneOneCompletes(done.sys, Last(todo), done.budget);
      }
    }
  }

  /** How many statements follow the import of a sync: the links, up to three for each, the time stamp. */
  ghost function StatementsAfter(imported: Import, sub: nat): nat {
    2 + 3 * |LinksOf(imported.sys.db, sub, imported.sys.db.nextLink)|
  }

  lemma PruneImportedCompletes(imported: Import, sub: nat)
    requires imported.budget >= StatementsAfter(imported, sub)
    ensures PruneImported(imported, sub).imported == if imported.ok then Some(imported.ids) else None
  {
    if imported.ok {
      var todo := LinksOf(imported.sys.db, sub, imported.sys.db.nextLink);
      PruneCompletes(imported.sys, todo, imported.ids, imported.budget - 1);
    }
  }

  /** With no SQL fault a sync succeeds exactly when the subscription is there, something was fetched and no
      entry conflicts with a stored row or with an earlier entry. */
  lemma SyncSucceedsExactly(s: Sys, sub: nat, fetched: Option<seq<Parsed>>, budget: nat, exact: bool)
    requires Sound(s, exact) && (fetched.Some? ==> Accepted(fetched.value)) && budget > 0
    requires fetched.Some? ==>
               var imported := Persist(s, fetched.value, Some(sub), budget - 1);
               budget >= 1 + |fetched.value| + StatementsAfter(imported, sub)
    ensures Sync(s, sub, fetched, budget).imported.Some?
       <==> sub in s.db.subs && fetched.Some? && ConflictFree(s.db, fetched.value)
  {
    if fetched.Some? {
      var imported := ImportOf(s, fetched.value, sub, budget - 1, exact);
      if sub in s.db.subs {
        SyncIs(s, sub, fetched.value, budget, imported);
        if imported.ok { PruneImportedCompletes(imported, sub); }
      }
    }
  }

  lemma ImportOf(s: Sys, items: seq<Parsed>, sub: nat, budget: nat, exact: bool) returns (r: Import)
    requires Sound(s, exact) && Accepted(items) && budget >= |items|
    ensures r == Persist(s, items, Some(sub), budget)
    ensures r.ok <==> ConflictFree(s.db, items)
    ensures r.ok ==> r.budget == budget - |items|
  {
    PersistFailsExactly(s, items, Some(sub), budget, exact);
    r := Persist(s, items, Some(sub), budget);
  }

  lemma SyncIs(s: Sys, sub: nat, items: seq<Parsed>, budget: nat, imported: Import)
    requires budget > 0 && sub in s.db.subs && imported == Persist(s, items, Some(sub), budget - 1)
    ensures Sync(s, sub, Some(items), budget) == PruneImported(imported, sub)
  {
  }

  /** A sync of an unknown subscription, or of one that could not be fetched or parsed, changes nothing. */
  lemma RefusedSyncChangesNothing(s: Sys, sub: nat, fetched: Option<seq<Parsed>>, budget: nat)
    requires sub !in s.db.subs || fetched.None?
    ensures Sync(s, sub, fetched, budget).sys == s && Sync(s, sub, fetched, budget).imported.None?
  {
  }

  /** Every one of these nodes is cached. */
  predicate AllCached(s: Sys, ids: seq<nat>) {
    forall i :: 0 <= i < |ids| ==> ids[i] in s.cache.cached
  }

  /** Imported rows are cached, also those of an import that failed later on. */
  lemma ImportsAreCached(s: Sys, items: seq<Parsed>, sub: Option<nat>, budget: nat)
    ensures var r := Persist(s, items, sub, budget); AllCached(r.sys, r.ids)
  {
    var inv := (t: Sys, ids: seq<nat>) => AllCached(t, ids);
    forall t: Sys, ids: seq<nat> | |ids| < |items| && inv(t, ids)
      ensures match ImportOne(t, items[|ids|], sub) case None => true case Some((u, id)) => inv(u, ids + [id])
    {
      ImportOneCaches(t, items[|ids|], sub);
    }
    assert items[..|items|] == items;
    PersistInduction(s, items, sub, budget, |items|, inv);
  }

  lemma ImportOneCaches(s: Sys, item: Parsed, sub: Option<nat>)
    ensures match ImportOne(s, item, sub)
            case None => true
            case Some((t, id)) =>
              t.cache.cached.Keys == s.cache.cached.Keys + {id} && t.cache.cached[id] == t.db.nodes[id]
  {
  }

  /** After a successful sync so are all imported rows, with what is in the table. */
  lemma SyncedAreCached(s: Sys, sub: nat, items: seq<Parsed>, budget: nat, exact: bool)
    requires Sound(s, exact) && Accepted(items) && Sync(s, sub, Some(items), budget).imported.Some?
    ensures var r := Sync(s, sub, Some(items), budget);
         forall i :: 0 <= i < |r.imported.value| ==>
           var id := r.imported.value[i];
           id in r.sys.cache.cached && id in r.sys.db.nodes && SameRow(r.sys.cache.cached[id], r.sys.db.nodes[id])
  {
    SyncKeepsImportsCached(s, sub, items, budget);
    SyncSound(s, sub, Some(items), budget, exact);
    CachedAgreesWithTable(Sync(s, sub, Some(items), budget).sys, exact);
  }

  lemma CachedAgreesWithTable(s: Sys, exact: bool)
    requires Sound(s, exact)
    ensures forall id :: id in s.cache.cached ==> id in s.db.nodes && SameRow(s.cache.cached[id], s.db.nodes[id])
  {
  }

  lemma SyncKeepsImportsCached(s: Sys, sub: nat, items: seq<Parsed>, budget: nat)
    requires Sync(s, sub, Some(items), budget).imported.Some?
    ensures var r := Sync(s, sub, Some(items), budget); AllCached(r.sys, r.imported.value)
  {
    var imported := Persist(s, items, Some(sub), budget - 1);
    ImportsAreCached(s, items, Some(sub), budget - 1);
    SyncIs(s, sub, items, budget, imported);
    PruneImportedKeepsCached(imported, sub);
  }

  lemma PruneImportedKeepsCached(imported: Import, sub: nat)
    requires AllCached(imported.sys, imported.ids) && PruneImported(imported, sub).imported.Some?
    ensures var r := PruneImported(imported, sub); AllCached(r.sys, r.imported.value)
  {
    PruneImportedIs(imported, sub);
    var todo := LinksOf(imported.sys.db, sub, imported.sys.db.nextLink);
    PruneKeepsCached(imported.sys, todo, imported.ids, imported.budget - 1);
  }

  lemma PruneKeepsCached(s: Sys, todo: seq<nat>, keep: seq<nat>, budget: nat)
    requires AllCached(s, keep)
    ensures AllCached(Prune(s, todo, keep, budget).sys, keep)
  {
    var inv := (done: Outcome, k: nat) => AllCached(done.sys, keep);
    forall done: Outcome, k: nat | k < |todo| && inv(done, k)
      ensures inv(PruneNext(done, todo[k], keep), k + 1)
    {
      if done.ok && todo[k] in done.sys.db.links && done.sys.db.links[todo[k]].node !in keep {
        PruneOneCases(done.sys, todo[k], done.budget);
      }
    }
    assert todo[..|todo|] == todo;
    PruneInduction(s, todo, keep, budget, |todo|, inv);
  }

  // ---------------------------------------------------------------- deleting a subscription

  lemma DropNextSound(done: Outcome, id: nat, exact: bool, slack: Slack := TIGHT)
    requires Sound(done.sys, exact, slack)
    ensures var t := DropNext(done, id).sys;
         Sound(t, exact, slack) && Shrunk(done.sys.db, t.db) && t.db.links == done.sys.db.links
  {
    if id in done.sys.db.nodes && !IsLinked(done.sys.db, id) {
      DropNodeSound(done.sys, id, exact, slack);
      NodeGoneShrinks(done.sys, id);
    }
  }

  /** Some of the listed nodes went, all of them unlinked; none that no link points at is left when
      the loop got there. */
  ghost predicate Dropped(db: Db, db': Db, todo: seq<nat>, ok: bool) {
    && db'.links == db.links && db'.subs == db.subs
    && (forall n :: n in db'.nodes ==> n in db.nodes && db'.nodes[n] == db.nodes[n])
    && (forall n :: n in db.nodes && n !in db'.nodes ==> n in todo && !IsLinked(db, n))
    && (ok ==> forall n :: n in todo && n in db'.nodes ==> IsLinked(db, n))
  }

  lemma DropNextEffect(db: Db, done: Outcome, todo: seq<nat>)
    requires todo != [] && Dropped(db, done.sys.db, Front(todo), done.ok)
    ensures var r := DropNext(done, Last(todo));
         Dropped(db, r.sys.db, todo, r.ok)
  {
    assert todo == Front(todo) + [Last(todo)];
    var r := DropNext(done, Last(todo));
    assert r.sys.db.nodes == done.sys.db.nodes || r.sys.db.nodes == done.sys.db.nodes - {Last(todo)};
  }

  lemma {:induction false} DropUnlinkedRows(s: Sys, todo: seq<nat>, budget: nat)
    ensures var r := DropUnlinked(s, todo, budget);
         Dropped(s.db, r.sys.db, todo, r.ok)
  {
    if todo != [] {
      var done := DropUnlinked(s, Front(todo), budget);
      DropUnlinkedRows(s, Front(todo), budget);
      DropNextEffect(s.db, done, todo);
    }
  }

  lemma {:induction false} DropUnlinkedEffect(s: Sys, todo: seq<nat>, budget: nat, exact: bool, slack: Slack := TIGHT)
    requires Sound(s, exact, slack)
    ensures var r := DropUnlinked(s, todo, budget);
         Sound(r.sys, exact, slack) && Dropped(s.db, r.sys.db, todo, r.ok)
  {
    DropUnlinkedRows(s, todo, budget);
    if todo != [] {
      var done := DropUnlinked(s, Front(todo), budget);
      DropUnlinkedEffect(s, Front(todo), budget, exact, slack);
      DropNextSound(done, Last(todo), exact, slack);
    }
  }

  lemma WithoutLinksOfIs(db: Db, sub: nat, n: nat)
    ensures IsLinked(WithoutLinksOf(db, sub), n) <==> LinkedByOther(db, sub, n)
    ensures forall x: nat :: HasLink(WithoutLinksOf(db, sub), x, n) <==> x != sub && HasLink(db, x, n)
  {
    var db' := WithoutLinksOf(db, sub);
    forall x: nat
      ensures HasLink(db', x, n) <==> x != sub && HasLink(db, x, n)
    {
      if x != sub && HasLink(db, x, n) {
        var l :| l in db.links && db.links[l] == Link(x, n);
        assert l in db'.links;
      }
    }
    LinkedIs(db', n);
  }

  /** What a completed deletion leaves: no link of the subscription, every link of the others, and
      every row but those only this subscription linked, unchanged. */
  ghost predicate Deleted(db: Db, db': Db, sub: nat) {
    && db'.subs == db.subs - {sub}
    && db'.links == WithoutLinksOf(db, sub).links
    && (forall n: nat :: n in db'.nodes <==> n in db.nodes && !(HasLink(db, sub, n) && !LinkedByOther(db, sub, n)))
    && (forall n :: n in db'.nodes ==> db'.nodes[n] == db.nodes[n])
  }

  lemma DeletionStarts(s: Sys, sub: nat, exact: bool, slack: Slack := TIGHT)
    requires Sound(s, exact, slack)
    ensures Sound(s.(db := WithoutLinksOf(s.db, sub)), exact, slack)
  {
    FewerLinksSound(s, WithoutLinksOf(s.db, sub), exact, slack);
  }

  /** Deleting a subscription keeps the invariant and every node another subscription links,
      wherever it stops; when it completes, it deleted exactly what it should. */
  lemma DeleteExactly(s: Sys, sub: nat, budget: nat, exact: bool, slack: Slack := TIGHT)
    requires Sound(s, exact, slack)
    ensures var r := DeleteSubscription(s, sub, budget);
         && Sound(r.sys, exact, slack)
         && (forall n: nat :: n in s.db.nodes && LinkedByOther(s.db, sub, n) ==>
               n in r.sys.db.nodes && r.sys.db.nodes[n] == s.db.nodes[n])
         && (r.ok ==> Deleted(s.db, r.sys.db, sub))
  {
    if budget >= 2 {
      var todo, s1 := NodesOf(s.db, sub, s.db.nextNode), s.(db := WithoutLinksOf(s.db, sub));
      var dropped := DropUnlinked(s1, todo, budget - 2);
      DeletionStarts(s, sub, exact, slack);
      DropUnlinkedEffect(s1, todo, budget - 2, exact, slack);
      DroppedIsDeleted(s.db, dropped.sys.db, sub, todo, dropped.ok);
      if dropped.ok && dropped.budget > 0 {
        SubsDoNotMatter(dropped.sys, dropped.sys.db.subs - {sub}, exact, slack);
      }
    }
  }

  lemma {:induction false} DropCompletes(s: Sys, todo: seq<nat>, budget: nat)
    requires budget >= 2 * |todo|
    ensures DropUnlinked(s, todo, budget).ok && DropUnlinked(s, todo, budget).budget >= budget - 2 * |todo|
  {
    if todo != [] {
      DropCompletes(s, Front(todo), budget);
    }
  }

  /** With no SQL fault a deletion completes: it takes three statements and no more than two for each node the
      subscription links. */
  lemma DeleteCompletes(s: Sys, sub: nat, budget: nat)
    requires budget >= 3 + 2 * |NodesOf(s.db, sub, s.db.nextNode)|
    ensures DeleteSubscription(s, sub, budget).ok
  {
    var s1, todo := s.(db := WithoutLinksOf(s.db, sub)), NodesOf(s.db, sub, s.db.nextNode);
    DropCompletes(s1, todo, budget - 2);
    var dropped := DropUnlinked(s1, todo, budget - 2);
    assert dropped.ok && dropped.budget > 0;
  }

  /** A deletion whose first statements fail changes nothing. */
  lemma RefusedDeletionChangesNothing(s: Sys, sub: nat, budget: nat)
    requires budget < 2
    ensures DeleteSubscription(s, sub, budget).sys == s && !DeleteSubscription(s, sub, budget).ok
  {
  }

  lemma SubsDoNotMatter(s: Sys, subs: set<nat>, exact: bool, slack: Slack := TIGHT)
    requires Sound(s, exact, slack)
    ensures Sound(s.(db := s.db.(subs := subs)), exact, slack)
  {
  }

  lemma DroppedIsDeleted(db: Db, db': Db, sub: nat, todo: seq<nat>, ok: bool)
    requires RowsOk(db) && todo == NodesOf(db, sub, db.nextNode) && Dropped(WithoutLinksOf(db, sub), db', todo, ok)
    ensures forall n: nat :: n in db.nodes && LinkedByOther(db, sub, n) ==>
        n in db'.nodes && db'.nodes[n] == db.nodes[n]
    ensures ok ==> Deleted(db, db'.(subs := db'.subs - {sub}), sub)
  {
    forall n: nat | n in db.nodes
      ensures LinkedByOther(db, sub, n) ==> n in db'.nodes
      ensures ok ==> (n in db'.nodes <==> !(HasLink(db, sub, n) && !LinkedByOther(db, sub, n)))
    {
      WithoutLinksOfIs(db, sub, n);
      assert n in todo <==> HasLink(db, sub, n);
    }
  }

  // ---------------------------------------------------------------- deleting a node

  function Unlinked(db: Db, id: nat): Db {
    db.(links := map l | l in db.links && db.links[l].node != id :: db.links[l])
  }

  lemma DeleteNodeSound(s: Sys, id: nat, unlinkFails: bool, deleteFails: bool, exact: bool, slack: Slack := TIGHT)
    requires Sound(s, exact, slack) && (unlinkFails ==> deleteFails || !IsLinked(s.db, id))
    ensures Sound(DeleteNode(s, id, unlinkFails, deleteFails), exact, slack)
  {
    if id in s.db.nodes {
      var s1 := if unlinkFails then s else s.(db := Unlinked(s.db, id));
      FewerLinksSound(s, s1.db, exact, slack);
      if !deleteFails { DropNodeSound(s1, id, exact, slack); }
    }
  }

  /** The handler ignores the error of deleting the links: links are left without a node exactly
      when that statement failed, the node was deleted, and it was linked. */
  lemma DanglingExactly(s: Sys, id: nat, unlinkFails: bool, deleteFails: bool, exact: bool, slack: Slack := TIGHT)
    requires Sound(s, exact, slack) && id in s.db.nodes
    ensures LinksOk(DeleteNode(s, id, unlinkFails, deleteFails).db)
       <==> !(unlinkFails && !deleteFails && IsLinked(s.db, id))
  {
    if unlinkFails && !deleteFails && IsLinked(s.db, id) {
      var l :| l in s.db.links && s.db.links[l].node == id;
      assert l in DeleteNode(s, id, unlinkFails, deleteFails).db.links;
    } else {
      DeleteNodeSound(s, id, unlinkFails, deleteFails, exact, slack);
    }
  }

  /** What deleting a node does, by which of its two statements work: its links go with the first, its row and
      everything the cache has of it with the second. */
  lemma DeleteNodeExactly(s: Sys, id: nat, unlinkFails: bool, deleteFails: bool)
    requires Sound(s, true) && id in s.db.nodes
    ensures var t := DeleteNode(s, id, unlinkFails, deleteFails);
         && (forall l :: l in t.db.links <==> l in s.db.links && (s.db.links[l].node == id ==> unlinkFails))
         && (forall l :: l in t.db.links ==> t.db.links[l] == s.db.links[l])
         && (forall n :: n in t.db.nodes <==> n in s.db.nodes && (n == id ==> deleteFails))
         && (forall n :: n in t.db.nodes ==> t.db.nodes[n] == s.db.nodes[n])
         && t.db.subs == s.db.subs && (deleteFails ==> t.cache == s.cache)
         && (!deleteFails ==> id !in t.cache.cached && (forall k: string :: (k, id) !in t.cache.index)
                              && (forall k :: k in t.cache.sticky ==> t.cache.sticky[k] != id))
  {
    SoundIsCoherent(s);
    if id in s.cache.cached { SameRowSamePlaces(s.cache.cached[id], s.db.nodes[id]); }
    RemovedPlaces(s.cache, id, s.db.nodes[id]);
  }
}
