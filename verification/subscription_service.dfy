/** The subscription service over the tables and the Redis store: the loops of the source, proved to
    do what SubscriptionGraph is about. */
module SubscriptionService {
  import opened Text
  import opened NodeCache
  import opened NodeStore
  import opened Catalog
  import opened CatalogInvariants
  import opened SubscriptionGraph
  import opened SqlTables

  // ---------------------------------------------------------------- manual input

  datatype ManualInput = ManualInput(protocol: string, host: string, port: int, username: string, password: string,
                                     tag: string)

  /** The region guess and the JSON text are not modelled. */
  datatype Guess = Guess(region: string -> string, json: (string, string, int, string) -> string)

  /** The protocol as it is stored, in lower case and trimmed; none given is "http". */
  function ManualProtocol(input: ManualInput): string {
    var protocol := ToLower(TrimSpace(input.protocol));
    if protocol == "" then "http" else protocol
  }

  predicate ValidInput(input: ManualInput) {
    && (ToLower(TrimSpace(input.protocol)) == "" || IsSupported(ToLower(TrimSpace(input.protocol))))
    && TrimSpace(input.host) != "" && input.port > 0
  }

  lemma HttpIsSupported()
    ensures IsSupported("http")
  {
    TrimmedIsFixed("http");
    assert ToLower("http") == "http";
  }

  function ManualNode(guess: Guess, input: ManualInput): Parsed {
    var protocol, host := ManualProtocol(input), TrimSpace(input.host);
    var tag := if TrimSpace(input.tag) == "" then host + ":" + Itoa(input.port) else TrimSpace(input.tag);
    Parsed(Address(protocol, host, input.port),
           Config(TrimSpace(input.username), TrimSpace(input.password), false, false, "", tag,
                  guess.json(protocol, host, input.port, tag)),
           guess.region(tag))
  }

  /** One entry, if it is valid. */
  function ManualEntry(guess: Guess): ManualInput -> Option<Parsed> {
    (input: ManualInput) => if ValidInput(input) then Some(ManualNode(guess, input)) else None
  }

  lemma EntryIs(guess: Guess, input: ManualInput)
    ensures ManualEntry(guess)(input) == if ValidInput(input) then Some(ManualNode(guess, input)) else None
  {
  }

  /** By the fields of the input: what makes an entry valid, and what is stored of it. */
  lemma EntryFields(guess: Guess, input: ManualInput)
    ensures var entry, protocol := ManualEntry(guess)(input), ToLower(TrimSpace(input.protocol));
         && (entry.Some?
             <==> (protocol == "" || IsSupported(protocol)) && TrimSpace(input.host) != "" && input.port >= 1)
         && (entry.Some? ==>
               var item := entry.value;
               && item.addr.protocol == (if protocol == "" then "http" else protocol)
               && item.addr.host == TrimSpace(input.host) && item.addr.port == input.port
               && item.config.username == TrimSpace(input.username)
               && item.config.password == TrimSpace(input.password)
               && !item.config.tls && !item.config.tlsSkipVerify && item.config.serverName == ""
               && (TrimSpace(input.tag) != "" ==> item.config.tag == TrimSpace(input.tag))
               && (TrimSpace(input.tag) == "" ==> item.config.tag == item.addr.host + ":" + Itoa(input.port))
               && item.config.rawJson == guess.json(item.addr.protocol, item.addr.host, input.port, item.config.tag)
               && item.expectedRegion == guess.region(item.config.tag))
  {
  }

  /** All entries, or none when one is not valid. */
  function ManualNodes(guess: Guess, inputs: seq<ManualInput>): Option<seq<Parsed>> {
    Collect(ManualEntry(guess), inputs, |inputs|)
  }

  /** An import goes on exactly when every entry is valid, and then has each at its place. */
  lemma ManualNodesAre(guess: Guess, inputs: seq<ManualInput>)
    ensures var items := ManualNodes(guess, inputs);
         && (items.Some? <==> forall i :: 0 <= i < |inputs| ==> ManualEntry(guess)(inputs[i]).Some?)
         && (items.Some? ==> forall i :: 0 <= i < |inputs| ==> ManualEntry(guess)(inputs[i]) == Some(items.value[i]))
  {
    CollectIs(ManualEntry(guess), inputs, |inputs|);
  }

  lemma ManualNodesAccepted(guess: Guess, inputs: seq<ManualInput>)
    requires ManualNodes(guess, inputs).Some?
    ensures Accepted(ManualNodes(guess, inputs).value)
  {
    var f, items := ManualEntry(guess), ManualNodes(guess, inputs).value;
    CollectIs(f, inputs, |inputs|);
    forall i | 0 <= i < |items|
      ensures ':' !in items[i].addr.protocol
    {
      assert f(inputs[i]) == Some(items[i]);
      EntryAccepted(guess, inputs[i], items[i]);
    }
  }

  lemma EntryAccepted(guess: Guess, input: ManualInput, item: Parsed)
    requires ManualEntry(guess)(input) == Some(item)
    ensures ':' !in item.addr.protocol
  {
    ManualNodeAccepted(guess, input);
  }

  lemma ManualNodeAccepted(guess: Guess, input: ManualInput)
    requires ValidInput(input)
    ensures ':' !in ManualNode(guess, input).addr.protocol
  {
    if ToLower(TrimSpace(input.protocol)) != "" {
      SupportedHasNoColon(ToLower(TrimSpace(input.protocol)));
    }
  }

  // ---------------------------------------------------------------- loops that stop

  lemma {:induction false} PersistStops(s: Sys, items: seq<Parsed>, sub: Option<nat>, budget: nat, n: nat)
    requires n <= |items| && !Persist(s, items[..n], sub, budget).ok
    ensures Persist(s, items, sub, budget) == Persist(s, items[..n], sub, budget)
    decreases |items|
  {
    if n < |items| {
      assert Front(items)[..n] == items[..n];
      PersistStops(s, Front(items), sub, budget, n);
    } else {
      assert items[..n] == items;
    }
  }

  lemma {:induction false} PruneStops(s: Sys, todo: seq<nat>, keep: seq<nat>, budget: nat, n: nat)
    requires n <= |todo| && !Prune(s, todo[..n], keep, budget).ok
    ensures Prune(s, todo, keep, budget) == Prune(s, todo[..n], keep, budget)
    decreases |todo|
  {
    if n < |todo| {
      assert Front(todo)[..n] == todo[..n];
      PruneStops(s, Front(todo), keep, budget, n);
    } else {
      assert todo[..n] == todo;
    }
  }

  lemma {:induction false} DropStops(s: Sys, todo: seq<nat>, budget: nat, n: nat)
    requires n <= |todo| && !DropUnlinked(s, todo[..n], budget).ok
    ensures DropUnlinked(s, todo, budget) == DropUnlinked(s, todo[..n], budget)
    decreases |todo|
  {
    if n < |todo| {
      assert Front(todo)[..n] == todo[..n];
      DropStops(s, Front(todo), budget, n);
    } else {
      assert todo[..n] == todo;
    }
  }

  lemma PersistSnoc(s: Sys, items: seq<Parsed>, sub: Option<nat>, budget: nat, n: nat)
    requires n < |items|
    ensures Persist(s, items[..n + 1], sub, budget) == ImportNext(Persist(s, items[..n], sub, budget), items[n], sub)
  {
    assert Front(items[..n + 1]) == items[..n];
  }

  lemma PruneSnoc(s: Sys, todo: seq<nat>, keep: seq<nat>, budget: nat, n: nat)
    requires n < |todo|
    ensures Prune(s, todo[..n + 1], keep, budget) == PruneNext(Prune(s, todo[..n], keep, budget), todo[n], keep)
  {
    assert Front(todo[..n + 1]) == todo[..n];
  }

  lemma DropSnoc(s: Sys, todo: seq<nat>, budget: nat, n: nat)
    requires n < |todo|
    ensures DropUnlinked(s, todo[..n + 1], budget) == DropNext(DropUnlinked(s, todo[..n], budget), todo[n])
  {
    assert Front(todo[..n + 1]) == todo[..n];
  }

  lemma DeleteSound(s: Sys, sub: nat, budget: nat)
    requires Sound(s, false)
    ensures Sound(DeleteSubscription(s, sub, budget).sys, false)
  {
    DeleteExactly(s, sub, budget, false);
  }

  // ---------------------------------------------------------------- the service

  class Service {
    const db: Tables
    const store: Store
    const guess: Guess

    function State(): Sys
      reads db, store
    {
      Sys(db.State(), store.State())
    }

    ghost predicate Valid()
      reads db, store
    {
      Sound(State(), false)
    }

    constructor (db: Tables, store: Store, guess: Guess)
      ensures this.db == db && this.store == store && this.guess == guess
    {
      this.db, this.store, this.guess := db, store, guess;
    }

    /** One entry: the upsert, the link, the cached row. */
    method ImportNode(item: Parsed, sub: Option<nat>, ghost ids: seq<nat>) returns (ok: bool, id: nat)
      requires Valid() && ':' !in item.addr.protocol
      modifies db, store
      ensures var r := ImportNext(Import(old(State()), ids, true, old(db.budget)), item, sub);
           && State() == r.sys && db.budget == r.budget && ok == r.ok && (ok ==> r.ids == ids + [id])
    {
      id := 0;
      ghost var s := State();
      ok := db.InsertNode(item, sub);
      if !ok { return; }
      UpsertEffect(s.db, item, sub);
      FoundAgain(s.db, item, sub);
      var found := db.FindNode(item.addr);
      match found {
        case Some(persisted) =>
          if sub.Some? {
            db.FirstOrCreateLink(sub.value, persisted);
          }
          store.CacheNode(persisted, db.nodes[persisted]);
          id := persisted;
        case None =>
      }
    }

    /** `persistParsedNodes`. */
    method PersistParsedNodes(items: seq<Parsed>, sub: Option<nat>) returns (ok: bool, ids: seq<nat>)
      requires Valid() && Accepted(items)
      modifies db, store
      ensures var r := Persist(old(State()), items, sub, old(db.budget));
           && State() == r.sys && db.budget == r.budget && ok == r.ok && (ok ==> ids == r.ids)
      ensures Valid()
    {
      ghost var s, budget := State(), db.budget;
      ids := [];
      for i := 0 to |items|
        invariant Persist(s, items[..i], sub, budget) == Import(State(), ids, true, db.budget)
      {
        PersistEffect(s, items[..i], sub, budget, false);
        PersistSnoc(s, items, sub, budget, i);
        var done, id := ImportNode(items[i], sub, ids);
        if !done {
          PersistStops(s, items, sub, budget, i + 1);
          PersistEffect(s, items, sub, budget, false);
          return false, [];
        }
        ids := ids + [id];
      }
      assert items[..|items|] == items;
      PersistEffect(s, items, sub, budget, false);
      ok := true;
    }

    /** `ImportManualNodes`: the first invalid entry ends it before anything is stored. */
    method ImportManualNodes(inputs: seq<ManualInput>) returns (ok: bool, ids: seq<nat>)
      requires Valid()
      modifies db, store
      ensures Valid()
      ensures match ManualNodes(guess, inputs)
              case None => !ok && State() == old(State()) && db.budget == old(db.budget)
              case Some(items) =>
                var r := Persist(old(State()), items, None, old(db.budget));
                && State() == r.sys && db.budget == r.budget && ok == r.ok && (ok ==> ids == r.ids)
    {
      var items := ParseInputs(inputs);
      if items.None? { return false, []; }
      ManualNodesAccepted(guess, inputs);
      ok, ids := PersistParsedNodes(items.value, None);
    }

    /** The loop over the entries. */
    method ParseInputs(inputs: seq<ManualInput>) returns (items: Option<seq<Parsed>>)
      ensures items == ManualNodes(guess, inputs)
    {
      ghost var f := ManualEntry(guess);
      var nodes := [];
      for i := 0 to |inputs|
        invariant Collect(f, inputs, i) == Some(nodes)
      {
        var item := ParseInput(inputs[i]);
        CollectSnoc(f, inputs, i, nodes);
        if item.None? { return None; }
        nodes := nodes + [item.value];
      }
      return Some(nodes);
    }

    method ParseInput(input: ManualInput) returns (item: Option<Parsed>)
      ensures item == ManualEntry(guess)(input)
    {
      EntryIs(guess, input);
      var ok := CheckInput(input);
      if !ok { return None; }
      var protocol, host, tag := ManualProtocol(input), TrimSpace(input.host), TrimSpace(input.tag);
      if tag == "" { tag := host + ":" + Itoa(input.port); }
      return Some(Parsed(Address(protocol, host, input.port),
                         Config(TrimSpace(input.username), TrimSpace(input.password), false, false, "", tag,
                                guess.json(protocol, host, input.port, tag)),
                         guess.region(tag)));
    }

    /** Protocol, host and port of one entry. */
    method CheckInput(input: ManualInput) returns (ok: bool)
      ensures ok == ValidInput(input)
    {
      var protocol := ToLower(TrimSpace(input.protocol));
      if protocol == "" {
        protocol := "http";
        HttpIsSupported();
      }
      if !IsSupported(protocol) { return false; }
      var host := TrimSpace(input.host);
      if host == "" || input.port <= 0 { return false; }
      return true;
    }

    /** A link that is no longer imported, and its node when that was the last link. */
    method PruneLink(link: LinkRow) returns (ok: bool)
      requires link.id in db.links && db.links[link.id].node == link.node
      modifies db, store
      ensures var r := PruneOne(old(State()), link.id, old(db.budget));
           State() == r.sys && db.budget == r.budget && ok == r.ok
      ensures ok ==> db.links == old(db.links) - {link.id}
    {
      ok := db.DeleteLink(link.id);
      if !ok { return; }
      assert State() == WithoutLink(old(State()), link.id);
      var count;
      ok, count := db.CountLinks(link.node);
      if !ok { return; }
      if count == 0 {
        var node := db.FirstNode(link.node);
        if node.Some? {
          ok := db.DeleteNode(link.node);
          if !ok { return; }
          store.RemoveNode(link.node, node.value);
        }
      }
    }

    /** The ids to keep, as a set. */
    method KeepSet(ids: seq<nat>) returns (keep: set<nat>)
      ensures forall n :: n in keep <==> n in ids
    {
      keep := {};
      for i := 0 to |ids|
        invariant forall n :: n in keep <==> n in ids[..i]
      {
        keep := keep + {ids[i]};
        assert ids[..i + 1] == ids[..i] + [ids[i]];
      }
      assert ids[..|ids|] == ids;
    }

    /** `pruneSubscriptionNodes`. */
    method PruneSubscriptionNodes(sub: nat, ids: seq<nat>) returns (ok: bool)
      requires Valid()
      modifies db, store
      ensures old(db.budget) == 0 ==> !ok && State() == old(State()) && db.budget == 0
      ensures old(db.budget) > 0 ==>
                var r := PruneAll(old(State()), sub, ids, old(db.budget) - 1);
                State() == r.sys && db.budget == r.budget && ok == r.ok
    {
      var rows;
      LinksOfListed(db.State(), sub);
      ok, rows := db.LinksOfSubscription(sub);
      if !ok { return; }
      var keep := KeepSet(ids);
      ok := PruneLinks(rows, keep, LinksOf(db.State(), sub, db.nextLink), ids);
    }

    /** The loop over the links. */
    method PruneLinks(rows: seq<LinkRow>, keep: set<nat>, ghost todo: seq<nat>, ghost ids: seq<nat>) returns (ok: bool)
      requires |todo| == |rows| && Listed(db.State(), todo) && forall n :: n in keep <==> n in ids
      requires forall i :: 0 <= i < |rows| ==>
          rows[i].id == todo[i] && rows[i].id in db.links && rows[i].node == db.links[rows[i].id].node
      modifies db, store
      ensures var r := Prune(old(State()), todo, ids, old(db.budget));
           State() == r.sys && db.budget == r.budget && ok == r.ok
    {
      ghost var s, budget := State(), db.budget;
      for i := 0 to |rows|
        invariant Prune(s, todo[..i], ids, budget) == Outcome(State(), true, db.budget)
        invariant forall j :: i <= j < |rows| ==> rows[j].id in db.links && db.links[rows[j].id].node == rows[j].node
      {
        PruneSnoc(s, todo, ids, budget, i);
        if rows[i].node in keep { continue; }
        assert forall j :: i < j < |rows| ==> rows[j].id != rows[i].id by {
          assert forall j :: i < j < |rows| ==> todo[j] != todo[i];
        }
        ok := PruneLink(rows[i]);
        if !ok {
          PruneStops(s, todo, ids, budget, i + 1);
          return;
        }
      }
      assert todo[..|rows|] == todo;
      ok := true;
    }

    /** `Sync`, given what fetching and parsing yielded. */
    method SyncNodes(sub: nat, fetched: Option<seq<Parsed>>) returns (imported: Option<seq<nat>>)
      requires Valid() && (fetched.Some? ==> Accepted(fetched.value))
      modifies db, store
      ensures SyncResult(State(), imported) == Sync(old(State()), sub, fetched, old(db.budget))
      ensures Valid()
    {
      SyncSound(State(), sub, fetched, db.budget, false);
      var ok := db.FirstSubscription(sub);
      if !ok { return None; }
      if fetched.None? { return None; }
      var ids;
      ok, ids := PersistParsedNodes(fetched.value, Some(sub));
      if !ok { return None; }
      imported := FinishSync(sub, ids);
    }

    /** The pruning and the time stamp that end a sync. */
    method FinishSync(sub: nat, ids: seq<nat>) returns (imported: Option<seq<nat>>)
      requires Valid()
      modifies db, store
      ensures SyncResult(State(), imported) == PruneImported(Import(old(State()), ids, true, old(db.budget)), sub)
    {
      var ok := PruneSubscriptionNodes(sub, ids);
      if !ok { return None; }
      ok := db.TouchSubscription(sub);
      if !ok { return None; }
      return Some(ids);
    }

    /** One node the subscription linked: deleted when no link is left. */
    method DropIfUnlinked(row: NodeRow) returns (ok: bool)
      requires row.id in db.nodes && db.nodes[row.id] == row.node
      modifies db, store
      ensures var r := DropNext(Outcome(old(State()), true, old(db.budget)), row.id);
           State() == r.sys && db.budget == r.budget && ok == r.ok
      ensures db.nodes == old(db.nodes) || db.nodes == old(db.nodes) - {row.id}
    {
      var count;
      ok, count := db.CountLinks(row.id);
      if !ok { return; }
      if count == 0 {
        ok := db.DeleteNode(row.id);
        if !ok { return; }
        store.RemoveNode(row.id, row.node);
      }
    }

    /** `Delete`. */
    method DeleteSubscription(sub: nat) returns (ok: bool)
      requires Valid()
      modifies db, store
      ensures var r := Catalog.DeleteSubscription(old(State()), sub, old(db.budget));
           State() == r.sys && ok == r.ok
      ensures Valid()
    {
      DeleteSound(State(), sub, db.budget);
      ghost var r := Catalog.DeleteSubscription(State(), sub, db.budget);
      ok := DeleteRows(sub);
      assert State() == r.sys;
    }

    method DeleteRows(sub: nat) returns (ok: bool)
      modifies db, store
      ensures var r := Catalog.DeleteSubscription(old(State()), sub, old(db.budget));
           State() == r.sys && ok == r.ok
    {
      ghost var s := State();
      var rows;
      ok, rows := db.NodesOfSubscription(sub);
      if !ok { return; }
      ok := db.DeleteLinksOfSubscription(sub);
      if !ok { return; }
      ok := DropNodes(rows, NodesOf(s.db, sub, s.db.nextNode));
      if !ok { return; }
      ok := db.DeleteSubscription(sub);
    }

    /** The loop over the nodes. */
    method DropNodes(rows: seq<NodeRow>, ghost todo: seq<nat>) returns (ok: bool)
      requires |todo| == |rows| && forall i, j :: 0 <= i < j < |todo| ==> todo[i] < todo[j]
      requires forall i :: 0 <= i < |rows| ==>
          rows[i].id == todo[i] && rows[i].id in db.nodes && rows[i].node == db.nodes[rows[i].id]
      modifies db, store
      ensures var r := DropUnlinked(old(State()), todo, old(db.budget));
           State() == r.sys && db.budget == r.budget && ok == r.ok
    {
      ghost var s, budget := State(), db.budget;
      for i := 0 to |rows|
        invariant DropUnlinked(s, todo[..i], budget) == Outcome(State(), true, db.budget)
        invariant forall j :: i <= j < |rows| ==> rows[j].id in db.nodes && db.nodes[rows[j].id] == rows[j].node
      {
        DropSnoc(s, todo, budget, i);
        assert forall j :: i < j < |rows| ==> rows[j].id != rows[i].id by {
          assert forall j :: i < j < |rows| ==> todo[i] < todo[j];
        }
        ok := DropIfUnlinked(rows[i]);
        if !ok {
          DropStops(s, todo, budget, i + 1);
          return;
        }
      }
      assert todo[..|rows|] == todo;
      ok := true;
    }
  }

  /** The row an upsert wrote is the one its address finds. */
  lemma FoundAgain(db: Db, item: Parsed, sub: Option<nat>)
    requires RowsOk(db) && LinksOk(db) && ':' !in item.addr.protocol && Upsert(db, item, sub).Some?
    ensures var (db', id) := Upsert(db, item, sub).value;
         RowsOk(db') && Find(db', item.addr) == Some(id)
  {
    var (db', id) := Upsert(db, item, sub).value;
    UpsertEffect(db, item, sub);
    assert SameSpot(db'.nodes[id].addr, item.addr);
    var found := Find(db', item.addr);
    assert found.Some?;
    assert SameSpot(db'.nodes[found.value].addr, db'.nodes[id].addr);
  }
}
