/** Checks and toggles command by command, overlapping with each other and with everything else: the row
    is read, saved, the cached row is read, the pipeline is sent, and the sessions of a node that is no
    longer available are looked up and deleted. */
module Overlaps {
  import opened Text
  import opened NodeCache
  import opened Catalog
  import opened CatalogInvariants
  import opened SubscriptionGraph
  import opened Selector
  import opened SystemRuns

  // ---------------------------------------------------------------- steps

  /** How far a check or toggle has come with its row. */
  datatype Stage =
    | Loaded
    | Saved
    | Peeked(previous: Option<Node>)
    | Piped
    | Scanned(found: set<string>)

  /** The row of a check or toggle that is under way. */
  datatype Window = Window(id: nat, row: Node, stage: Stage) {
    /** Its row was saved and is not cached yet. */
    predicate Saving() {
      stage.Saved? || stage.Peeked?
    }

    predicate Pending() {
      !stage.Loaded?
    }
  }

  datatype World = World(sys: Sys, windows: map<nat, Window>)

  /** What is done to the row before it is saved. */
  datatype Change = Probed(probe: Probe) | Flagged(disabled: bool)

  datatype Move =
    | Whole(op: Op)
    | Load(w: nat, id: nat)
    | Save(w: nat, change: Change)
    | Peek(w: nat)
    | Exec(w: nat)
    | Scan(w: nat)
    | Drop(w: nat)

  /** The row to save, unless the probe could not be set up. */
  function Changed(row: Node, change: Change, max: int): Option<Node> {
    match change
    case Probed(NoTransport) => None
    case Probed(ProbeFailed) => Some(Failed(row, max))
    case Probed(ProbeOk(p)) => Some(Recovered(row, p))
    case Flagged(disabled) => Some(row.(disabled := disabled))
  }

  /** Saving a row that is gone inserts it again, which the unique indexes reject when another row took
      its place. */
  ghost predicate Rejected(db: Db, w: Window) {
    w.id !in db.nodes && Taken(db, w.row.addr)
  }

  function WithRow(s: Sys, id: nat, row: Node): Sys {
    s.(db := s.db.(nodes := s.db.nodes[id := row]))
  }

  /** The save. A rejected one ends a toggle and a successful check; a failed check goes on to cache its
      row all the same. */
  ghost function SaveOf(v: World, w: nat, change: Change, max: int): World
    requires w in v.windows
  {
    var win := v.windows[w];
    match Changed(win.row, change, max)
    case None => v.(windows := v.windows - {w})
    case Some(row) =>
      var saved := v.windows[w := Window(win.id, row, Saved)];
      if !Rejected(v.sys.db, win) then World(WithRow(v.sys, win.id, row), saved)
      else if change == Probed(ProbeFailed) then v.(windows := saved)
      else v.(windows := v.windows - {w})
  }

  function Entry(c: Cache, id: nat): Option<Node> {
    if id in c.cached then Some(c.cached[id]) else None
  }

  /** The pipeline of `CacheNode`, which takes the node out of the sets of the row it read before. */
  function CachedOver(c: Cache, id: nat, row: Node, previous: Option<Node>): Cache {
    var keys := if previous.Some? then IndexKeys(previous.value) else [];
    Cache(c.cached[id := row], (c.index - Pairs(keys + [HEALTHY], id)) + Pairs(Placed(row), id), c.sticky)
  }

  /** With nothing in between, the commands are the caching the other modules take as one step. */
  lemma CachedIsSteps(c: Cache, id: nat, row: Node)
    ensures var piped := CachedOver(c, id, row, Entry(c, id));
         Cached(c, id, row) == if row.Available() then piped else piped.(sticky := Unpinned(piped.sticky, id))
  {
  }

  function ExecOf(v: World, w: nat): World
    requires w in v.windows && v.windows[w].stage.Peeked?
  {
    var win := v.windows[w];
    World(v.sys.(cache := CachedOver(v.sys.cache, win.id, win.row, win.stage.previous)),
          if win.row.Available() then v.windows - {w} else v.windows[w := win.(stage := Piped)])
  }

  function PinsOf(sticky: map<string, nat>, id: nat): set<string> {
    set k | k in sticky && sticky[k] == id
  }

  /** One command; a command of a check that has not come so far changes nothing. */
  ghost function Next(env: Env, v: World, move: Move): World {
    match move
    case Whole(op) => v.(sys := Apply(env, v.sys, op))
    case Load(w, id) =>
      if id in v.sys.db.nodes && w !in v.windows
      then v.(windows := v.windows[w := Window(id, v.sys.db.nodes[id], Loaded)]) else v
    case Save(w, change) =>
      if w in v.windows && v.windows[w].stage.Loaded? then SaveOf(v, w, change, env.maxFailCount) else v
    case Peek(w) =>
      if w in v.windows && v.windows[w].stage.Saved?
      then v.(windows := v.windows[w := v.windows[w].(stage := Peeked(Entry(v.sys.cache, v.windows[w].id)))]) else v
    case Exec(w) => if w in v.windows && v.windows[w].stage.Peeked? then ExecOf(v, w) else v
    case Scan(w) =>
      if w in v.windows && v.windows[w].stage.Piped?
      then
        var pins := PinsOf(v.sys.cache.sticky, v.windows[w].id);
        v.(windows := v.windows[w := v.windows[w].(stage := Scanned(pins))])
      else v
    case Drop(w) =>
      if w in v.windows && v.windows[w].stage.Scanned?
      then World(WithSticky(v.sys, v.sys.cache.sticky - v.windows[w].stage.found), v.windows - {w}) else v
  }

  ghost function Run(env: Env, v: World, moves: seq<Move>): World {
    if moves == [] then v else Next(env, Run(env, v, Front(moves)), Last(moves))
  }

  // ---------------------------------------------------------------- ids are never reused

  /** A later table: no id that was given out before stands for another address. */
  ghost predicate Aged(db: Db, db': Db) {
    && db.nextNode <= db'.nextNode
    && (forall id :: id in db'.nodes && id < db.nextNode ==> id in db.nodes && db'.nodes[id].addr == db.nodes[id].addr)
  }

  lemma AgedTwice(a: Db, b: Db, c: Db)
    requires Aged(a, b) && Aged(b, c)
    ensures Aged(a, c)
  {
    forall id | id in c.nodes && id < a.nextNode
      ensures id in a.nodes && c.nodes[id].addr == a.nodes[id].addr
    {
      assert id in b.nodes;
    }
  }

  lemma ImportOneAges(s: Sys, item: Parsed, sub: Option<nat>)
    requires RowsOk(s.db) && LinksOk(s.db) && ':' !in item.addr.protocol && ImportOne(s, item, sub).Some?
    ensures Aged(s.db, ImportOne(s, item, sub).value.0.db)
  {
    var (db, id) := Upsert(s.db, item, sub).value;
    UpsertEffect(s.db, item, sub);
    LinkedEffect(db, sub, id);
    if id in s.db.nodes { assert Kept(s.db.nodes[id], db.nodes[id]); }
  }

  lemma PersistAges(s: Sys, items: seq<Parsed>, sub: Option<nat>, budget: nat, exact: bool, slack: Slack := TIGHT)
    requires Sound(s, exact, slack) && Accepted(items)
    ensures Aged(s.db, Persist(s, items, sub, budget).sys.db)
  {
    var inv := (t: Sys, ids: seq<nat>) => Sound(t, exact, slack) && Aged(s.db, t.db);
    forall t: Sys, ids: seq<nat> | |ids| < |items| && inv(t, ids)
      ensures match ImportOne(t, items[|ids|], sub) case None => true case Some((u, m)) => inv(u, ids + [m])
    {
      if ImportOne(t, items[|ids|], sub).Some? {
        ImportOneSound(t, items[|ids|], sub, exact, slack);
        ImportOneAges(t, items[|ids|], sub);
        AgedTwice(s.db, t.db, ImportOne(t, items[|ids|], sub).value.0.db);
      }
    }
    assert items[..|items|] == items;
    PersistInduction(s, items, sub, budget, |items|, inv);
  }

  lemma PruneNextAges(done: Outcome, l: nat, keep: seq<nat>)
    ensures Aged(done.sys.db, PruneNext(done, l, keep).sys.db)
  {
    if done.ok && l in done.sys.db.links && done.sys.db.links[l].node !in keep {
      PruneOneCases(done.sys, l, done.budget);
    }
  }

  lemma PruneAges(s: Sys, todo: seq<nat>, keep: seq<nat>, budget: nat)
    ensures Aged(s.db, Prune(s, todo, keep, budget).sys.db)
  {
    var inv := (done: Outcome, k: nat) => Aged(s.db, done.sys.db);
    forall done: Outcome, k: nat | k < |todo| && inv(done, k)
      ensures inv(PruneNext(done, todo[k], keep), k + 1)
    {
      PruneNextAges(done, todo[k], keep);
      AgedTwice(s.db, done.sys.db, PruneNext(done, todo[k], keep).sys.db);
    }
    assert todo[..|todo|] == todo;
    PruneInduction(s, todo, keep, budget, |todo|, inv);
  }

  lemma PruneImportedAges(imported: Import, sub: nat)
    ensures Aged(imported.sys.db, PruneImported(imported, sub).sys.db)
  {
    if imported.ok && imported.budget > 0 {
      var s := imported.sys;
      PruneAges(s, LinksOf(s.db, sub, s.db.nextLink), imported.ids, imported.budget - 1);
    }
  }

  lemma SyncAges(s: Sys, sub: nat, fetched: Option<seq<Parsed>>, budget: nat, exact: bool, slack: Slack := TIGHT)
    requires Sound(s, exact, slack) && (fetched.Some? ==> Accepted(fetched.value))
    ensures Aged(s.db, Sync(s, sub, fetched, budget).sys.db)
  {
    if budget > 0 && fetched.Some? {
      var imported := Persist(s, fetched.value, Some(sub), budget - 1);
      PersistAges(s, fetched.value, Some(sub), budget - 1, exact, slack);
      PruneImportedAges(imported, sub);
      AgedTwice(s.db, imported.sys.db, PruneImported(imported, sub).sys.db);
    }
  }

  lemma {:induction false} DropAges(s: Sys, todo: seq<nat>, budget: nat)
    ensures Aged(s.db, DropUnlinked(s, todo, budget).sys.db)
  {
    if todo != [] {
      DropAges(s, Front(todo), budget);
    }
  }

  lemma DeleteAges(s: Sys, sub: nat, budget: nat)
    ensures Aged(s.db, DeleteSubscription(s, sub, budget).sys.db)
  {
    if budget >= 2 {
      DropAges(s.(db := WithoutLinksOf(s.db, sub)), NodesOf(s.db, sub, s.db.nextNode), budget - 2);
    }
  }

  lemma PickAges(s: Sys, key: string, f: Filters, choice: nat, exact: bool, slack: Slack := TIGHT)
    requires Sound(s, exact, slack)
    ensures Aged(s.db, Pick(s, key, f, choice).0.db)
  {
    PickSoundBut(s, key, f, choice, exact, slack);
  }

  lemma ApplyAges(env: Env, s: Sys, op: Op, exact: bool, slack: Slack := TIGHT)
    requires Sound(s, exact, slack) && Tame(op)
    ensures Aged(s.db, Apply(env, s, op).db)
  {
    match op
    case SyncSubscription(sub, fetched, budget) => SyncAges(s, sub, fetched, budget, exact, slack);
    case ImportManual(items, budget) => PersistAges(s, items, None, budget, exact, slack);
    case DropSubscription(sub, budget) => DeleteAges(s, sub, budget);
    case PickNode(uid, f, choice) => PickAges(s, SessionKey(env.digest, uid, f), f, choice, exact, slack);
    case _ =>
  }

  // ---------------------------------------------------------------- what is under way, what is spoiled

  function SavingIds(v: World): set<nat> {
    set w | w in v.windows && v.windows[w].Saving() :: v.windows[w].id
  }

  function PendingIds(v: World): set<nat> {
    set w | w in v.windows && v.windows[w].Pending() :: v.windows[w].id
  }

  predicate Own(move: Move, w: nat) {
    match move
    case Whole(_) => false
    case _ => move.w == w
  }

  /** The row of the table is what it was, but for its traffic. */
  predicate SameSql(s: Sys, t: Sys, id: nat) {
    && (id in s.db.nodes <==> id in t.db.nodes)
    && (id in s.db.nodes && id in t.db.nodes ==> SameRow(s.db.nodes[id], t.db.nodes[id]))
  }

  /** The cached row and the sets of the node are what they were. */
  ghost predicate SameEntry(s: Sys, t: Sys, id: nat) {
    && Entry(s.cache, id) == Entry(t.cache, id)
    && forall k: string :: (k, id) in s.cache.index <==> (k, id) in t.cache.index
  }

  predicate NoNewPins(s: Sys, t: Sys, id: nat) {
    PinsOf(t.cache.sticky, id) <= PinsOf(s.cache.sticky, id)
  }

  /** Nodes whose row of the table this move changes between the save of another check or toggle and its
      caching, or that a failed check goes on to cache although its save was rejected. */
  ghost function SpoilsRow(v: World, v': World, move: Move): set<nat> {
    (set w | w in v.windows && v.windows[w].Saving() && !Own(move, w) && !SameSql(v.sys, v'.sys, v.windows[w].id)
       :: v.windows[w].id)
    + match move
      case Save(w, _) =>
        if w in v.windows && v.windows[w].stage.Loaded? && w in v'.windows && Rejected(v.sys.db, v.windows[w])
        then {v.windows[w].id} else {}
      case _ => {}
  }

  /** Nodes whose cache entry this move changes between the save of another check or toggle and its
      caching. */
  ghost function SpoilsEntry(v: World, v': World, move: Move): set<nat> {
    set w | w in v.windows && v.windows[w].Saving() && !Own(move, w) && !SameEntry(v.sys, v'.sys, v.windows[w].id)
      :: v.windows[w].id
  }

  /** Nodes this move pins a session to between the scan of another check or toggle and its deletion. */
  ghost function SpoilsPins(v: World, v': World, move: Move): set<nat> {
    set w | w in v.windows && v.windows[w].stage.Scanned? && !Own(move, w) && !NoNewPins(v.sys, v'.sys, v.windows[w].id)
      :: v.windows[w].id
  }

  /** What a run has spoiled so far. */
  datatype Spoils = Spoils(rows: set<nat>, entries: set<nat>, pins: set<nat>, left: set<Pair>)

  function LeftBy(v: World, move: Move): set<Pair> {
    match move
    case Whole(op) => Leaves(v.sys, op)
    case _ => {}
  }

  ghost function Spoiled(env: Env, v0: World, moves: seq<Move>): Spoils {
    if moves == [] then Spoils({}, {}, {}, {})
    else Worse(Spoiled(env, v0, Front(moves)), env, Run(env, v0, Front(moves)), Last(moves))
  }

  ghost function Worse(p: Spoils, env: Env, v: World, move: Move): Spoils {
    var v' := Next(env, v, move);
    Spoils(p.rows + SpoilsRow(v, v', move),
           p.entries + SpoilsRow(v, v', move) + SpoilsEntry(v, v', move),
           p.pins + SpoilsRow(v, v', move) + SpoilsPins(v, v', move),
           p.left + LeftBy(v, move))
  }

  /** The invariant speaks of every node but those under way and those spoiled. */
  function SlackOf(v: World, p: Spoils): Slack {
    Slack(p.rows + SavingIds(v), p.pins + PendingIds(v), p.entries + SavingIds(v), p.left)
  }

  // ---------------------------------------------------------------- the invariant

  /** The window holds a row that was in the table: its id was given out, and still stands for its
      address if the row is there. */
  predicate WindowOk(db: Db, w: Window) {
    && w.id < db.nextNode && ':' !in w.row.addr.protocol
    && (w.id in db.nodes ==> db.nodes[w.id].addr == w.row.addr)
  }

  ghost predicate ExplainedOn(c: Cache, id: nat, left: set<Pair>) {
    forall k: string :: (k, id) in c.index ==> (id in c.cached && k in Placed(c.cached[id])) || (k, id) in left
  }

  /** What a check or toggle can rely on at its stage, unless it was spoiled. */
  ghost predicate StageOk(s: Sys, w: Window, p: Spoils) {
    && (w.Saving() && w.id !in p.rows ==> w.id in s.db.nodes && SameRow(w.row, s.db.nodes[w.id]))
    && (w.Saving() && w.id !in p.entries ==> ExplainedOn(s.cache, w.id, p.left))
    && (w.stage.Peeked? && w.id !in p.entries ==> w.stage.previous == Entry(s.cache, w.id))
    && (w.stage.Scanned? && w.id !in p.pins ==> PinsOf(s.cache.sticky, w.id) <= w.stage.found)
  }

  /** Two windows on one node were opened on the same address. */
  ghost predicate SameAddress(v: World) {
    forall w, x :: w in v.windows && x in v.windows && v.windows[w].id == v.windows[x].id ==>
      v.windows[w].row.addr == v.windows[x].row.addr
  }

  ghost predicate WindowsOk(v: World, p: Spoils) {
    && SameAddress(v)
    && (forall w :: w in v.windows ==> WindowOk(v.sys.db, v.windows[w]))
    && (forall w :: w in v.windows ==> StageOk(v.sys, v.windows[w], p))
  }

  ghost predicate WorldOk(v: World, p: Spoils) {
    && p.rows <= p.entries && p.rows <= p.pins
    && Sound(v.sys, true, SlackOf(v, p)) && WindowsOk(v, p)
  }

  // ---------------------------------------------------------------- other people's moves

  lemma SpoilsGrow(p: Spoils, env: Env, v: World, move: Move)
    requires p.rows <= p.entries && p.rows <= p.pins
    ensures var q := Worse(p, env, v, move);
         && p.rows <= q.rows && p.entries <= q.entries && p.pins <= q.pins && p.left <= q.left
         && q.rows <= q.entries && q.rows <= q.pins
  {
  }

  /** A window that is not moved itself keeps what it relies on, unless the move spoils it. */
  lemma StageKept(p: Spoils, env: Env, v: World, move: Move, w: nat)
    requires w in v.windows && !Own(move, w) && StageOk(v.sys, v.windows[w], p)
    ensures StageOk(Next(env, v, move).sys, v.windows[w], Worse(p, env, v, move))
  {
    var v', win := Next(env, v, move), v.windows[w];
    if win.Saving() {
      assert win.id !in SpoilsRow(v, v', move) ==> SameSql(v.sys, v'.sys, win.id);
      assert win.id !in SpoilsEntry(v, v', move) ==> SameEntry(v.sys, v'.sys, win.id);
    }
    if win.stage.Scanned? {
      assert win.id !in SpoilsPins(v, v', move) ==> NoNewPins(v.sys, v'.sys, win.id);
    }
  }

  lemma WindowAges(a: Db, b: Db, w: Window)
    requires WindowOk(a, w) && Aged(a, b)
    ensures WindowOk(b, w)
  {
  }

  lemma WholeOk(env: Env, v: World, op: Op, p: Spoils)
    requires WorldOk(v, p) && Tame(op)
    ensures WorldOk(Next(env, v, Whole(op)), Worse(p, env, v, Whole(op)))
  {
    var move, q := Whole(op), Worse(p, env, v, Whole(op));
    SpoilsGrow(p, env, v, move);
    ApplySound(env, v.sys, op, true, SlackOf(v, p));
    SoundWithMore(Apply(env, v.sys, op), true, WithLeft(SlackOf(v, p), v.sys, op), SlackOf(Next(env, v, move), q));
    ApplyAges(env, v.sys, op, true, SlackOf(v, p));
    forall w | w in v.windows
      ensures WindowOk(Apply(env, v.sys, op).db, v.windows[w]) && StageOk(Apply(env, v.sys, op), v.windows[w], q)
    {
      WindowAges(v.sys.db, Apply(env, v.sys, op).db, v.windows[w]);
      StageKept(p, env, v, move, w);
    }
  }

  // ---------------------------------------------------------------- its own moves

  lemma ChangedKeepsAddress(row: Node, change: Change, max: int)
    ensures match Changed(row, change, max) case None => true case Some(r) => r.addr == row.addr
  {
  }

  lemma BroughtBackRows(db: Db, id: nat, row: Node)
    requires RowsOk(db) && LinksOk(db) && id !in db.nodes && id < db.nextNode && ':' !in row.addr.protocol
    requires !Taken(db, row.addr)
    ensures RowsOk(db.(nodes := db.nodes[id := row])) && LinksOk(db.(nodes := db.nodes[id := row]))
  {
    forall i | i in db.nodes
      ensures !SameSpot(db.nodes[i].addr, row.addr)
    {
    }
  }

  /** A save that is not rejected keeps the tables in order, also when it brings back a row. */
  lemma SaveKeepsTables(db: Db, w: Window, row: Node)
    requires RowsOk(db) && LinksOk(db) && WindowOk(db, w) && row.addr == w.row.addr && !Rejected(db, w)
    ensures RowsOk(db.(nodes := db.nodes[w.id := row])) && LinksOk(db.(nodes := db.nodes[w.id := row]))
  {
    if w.id in db.nodes { SavedRows(db, w.id, row); } else { BroughtBackRows(db, w.id, row); }
  }

  /** A save touches one row: the invariant holds with slack for it. */
  lemma RowSavedSound(s: Sys, w: Window, row: Node, slack: Slack)
    requires Sound(s, true, slack) && WindowOk(s.db, w) && row.addr == w.row.addr && !Rejected(s.db, w)
    requires w.id in slack.loose && w.id in slack.pins
    ensures Sound(WithRow(s, w.id, row), true, slack)
  {
    SaveKeepsTables(s.db, w, row);
  }

  /** In a sound world a node's sets are explained by its cached row, also while its row is being saved,
      unless its entry was spoiled. */
  lemma ExplainedHere(v: World, p: Spoils, id: nat)
    requires WorldOk(v, p) && id !in p.entries
    ensures ExplainedOn(v.sys.cache, id, p.left)
  {
    if id in SavingIds(v) {
      var w :| w in v.windows && v.windows[w].Saving() && v.windows[w].id == id;
      assert StageOk(v.sys, v.windows[w], p);
    }
  }

  /** A move that changes nothing. */
  lemma IdleOk(p: Spoils, env: Env, v: World, move: Move)
    requires WorldOk(v, p) && Next(env, v, move) == v
    ensures WorldOk(v, Worse(p, env, v, move))
  {
    var q := Worse(p, env, v, move);
    SpoilsGrow(p, env, v, move);
    SoundWithMore(v.sys, true, SlackOf(v, p), SlackOf(v, q));
    forall w | w in v.windows
      ensures StageOk(v.sys, v.windows[w], q)
    {
      StageWithMore(v.sys, v.windows[w], p, q);
    }
  }

  lemma StageWithMore(s: Sys, w: Window, p: Spoils, q: Spoils)
    requires StageOk(s, w, p) && p.rows <= q.rows && p.entries <= q.entries && p.pins <= q.pins && p.left <= q.left
    ensures StageOk(s, w, q)
  {
  }

  /** Only this window moves on, or ends. */
  predicate OnlyMoves(v: World, v': World, w: nat) {
    && w in v.windows && v'.windows.Keys <= v.windows.Keys
    && (forall x :: x in v.windows && x != w ==> x in v'.windows && v'.windows[x] == v.windows[x])
    && (w in v'.windows ==> v'.windows[w].id == v.windows[w].id && v'.windows[w].row.addr == v.windows[w].row.addr)
  }

  lemma SavingFollows(v: World, v': World, w: nat)
    requires OnlyMoves(v, v', w)
    ensures SavingIds(v) <= SavingIds(v') + {v.windows[w].id}
    ensures (v.windows[w].Saving() ==> w in v'.windows && v'.windows[w].Saving()) ==> SavingIds(v) <= SavingIds(v')
  {
    forall id | id in SavingIds(v)
      ensures id in SavingIds(v') ||
          (id == v.windows[w].id && v.windows[w].Saving() && !(w in v'.windows && v'.windows[w].Saving()))
    {
      var x :| x in v.windows && v.windows[x].Saving() && v.windows[x].id == id;
      if x != w { assert v'.windows[x].Saving() && v'.windows[x].id == id; }
    }
  }

  lemma PendingFollows(v: World, v': World, w: nat)
    requires OnlyMoves(v, v', w)
    ensures PendingIds(v) <= PendingIds(v') + {v.windows[w].id}
    ensures (v.windows[w].Pending() ==> w in v'.windows && v'.windows[w].Pending()) ==> PendingIds(v) <= PendingIds(v')
  {
    forall id | id in PendingIds(v)
      ensures id in PendingIds(v') ||
          (id == v.windows[w].id && v.windows[w].Pending() && !(w in v'.windows && v'.windows[w].Pending()))
    {
      var x :| x in v.windows && v.windows[x].Pending() && v.windows[x].id == id;
      if x != w { assert v'.windows[x].Pending() && v'.windows[x].id == id; }
    }
  }

  lemma SavingIsPending(v: World)
    ensures SavingIds(v) <= PendingIds(v)
  {
  }

  /** More is spoiled, and a row that is spoiled is spoiled in every respect. */
  predicate Grown(p: Spoils, q: Spoils) {
    && p.rows <= q.rows && p.entries <= q.entries && p.pins <= q.pins && p.left <= q.left
    && q.rows <= q.entries && q.rows <= q.pins
  }

  /** The invariant of the system stays while a window moves on without leaving its phase. */
  lemma StillSound(v: World, v': World, w: nat, p: Spoils, q: Spoils)
    requires Sound(v.sys, true, SlackOf(v, p)) && Grown(p, q) && OnlyMoves(v, v', w)
    requires v.windows[w].Saving() ==> w in v'.windows && v'.windows[w].Saving()
    requires v.windows[w].Pending() ==> w in v'.windows && v'.windows[w].Pending()
    ensures Sound(v.sys, true, SlackOf(v', q))
  {
    SavingFollows(v, v', w);
    PendingFollows(v, v', w);
    SavingIsPending(v');
    SoundWithMore(v.sys, true, SlackOf(v, p), SlackOf(v', q));
  }

  /** The windows stay in order. */
  lemma WindowsFollow(v: World, v': World, w: nat, q: Spoils)
    requires OnlyMoves(v, v', w) && SameAddress(v)
    requires forall x :: x in v.windows ==> WindowOk(v'.sys.db, v.windows[x])
    requires forall x :: x in v.windows && x != w ==> StageOk(v'.sys, v.windows[x], q)
    requires w in v'.windows ==> StageOk(v'.sys, v'.windows[w], q)
    ensures WindowsOk(v', q)
  {
    forall x | x in v'.windows
      ensures WindowOk(v'.sys.db, v'.windows[x]) && StageOk(v'.sys, v'.windows[x], q)
    {
      assert WindowOk(v'.sys.db, v.windows[x]);
    }
  }

  /** What a move of a window leaves to show: the system is sound with the new slack, and the window has
      what it relies on. */
  lemma OwnMoveOk(p: Spoils, env: Env, v: World, move: Move, w: nat)
    requires WindowsOk(v, p) && p.rows <= p.entries && p.rows <= p.pins
    requires !move.Whole? && move.w == w && OnlyMoves(v, Next(env, v, move), w)
    requires var v' := Next(env, v, move);
          forall x :: x in v.windows ==> WindowOk(v'.sys.db, v.windows[x])
    requires var v', q := Next(env, v, move), Worse(p, env, v, move);
          Sound(v'.sys, true, SlackOf(v', q)) && (w in v'.windows ==> StageOk(v'.sys, v'.windows[w], q))
    ensures WorldOk(Next(env, v, move), Worse(p, env, v, move))
  {
    SpoilsGrow(p, env, v, move);
    forall x | x in v.windows && x != w
      ensures StageOk(Next(env, v, move).sys, v.windows[x], Worse(p, env, v, move))
    {
      StageKept(p, env, v, move, x);
    }
    WindowsFollow(v, Next(env, v, move), w, Worse(p, env, v, move));
  }

  lemma LoadOk(p: Spoils, env: Env, v: World, w: nat, id: nat)
    requires WorldOk(v, p) && id in v.sys.db.nodes && w !in v.windows
    ensures WorldOk(Next(env, v, Load(w, id)), Worse(p, env, v, Load(w, id)))
  {
    var move := Load(w, id);
    SpoilsGrow(p, env, v, move);
    LoadedSound(v, Next(env, v, move), w, p, Worse(p, env, v, move));
    LoadedWindows(v, Next(env, v, move), w, id, p, Worse(p, env, v, move));
  }

  lemma LoadedWindows(v: World, v': World, w: nat, id: nat, p: Spoils, q: Spoils)
    requires WindowsOk(v, p) && RowsOk(v.sys.db) && Grown(p, q) && id in v.sys.db.nodes && w !in v.windows
    requires v' == v.(windows := v.windows[w := Window(id, v.sys.db.nodes[id], Loaded)])
    ensures WindowsOk(v', q)
  {
    forall x | x in v'.windows
      ensures WindowOk(v'.sys.db, v'.windows[x]) && StageOk(v'.sys, v'.windows[x], q)
    {
      if x != w { StageWithMore(v.sys, v.windows[x], p, q); }
    }
    forall x, y | x in v'.windows && y in v'.windows && v'.windows[x].id == v'.windows[y].id
      ensures v'.windows[x].row.addr == v'.windows[y].row.addr
    {
      assert x != w ==> WindowOk(v.sys.db, v.windows[x]);
      assert y != w ==> WindowOk(v.sys.db, v.windows[y]);
    }
  }

  lemma LoadedSound(v: World, v': World, w: nat, p: Spoils, q: Spoils)
    requires Sound(v.sys, true, SlackOf(v, p)) && Grown(p, q) && w !in v.windows
    requires forall x :: x in v.windows ==> x in v'.windows && v'.windows[x] == v.windows[x]
    ensures Sound(v.sys, true, SlackOf(v', q))
  {
    forall id | id in SavingIds(v)
      ensures id in SavingIds(v')
    {
      var x :| x in v.windows && v.windows[x].Saving() && v.windows[x].id == id;
      assert v'.windows[x].Saving();
    }
    forall id | id in PendingIds(v)
      ensures id in PendingIds(v')
    {
      var x :| x in v.windows && v.windows[x].Pending() && v.windows[x].id == id;
      assert v'.windows[x].Pending();
    }
    SavingIsPending(v');
    SoundWithMore(v.sys, true, SlackOf(v, p), SlackOf(v', q));
  }

  /** A check or toggle that ends without having saved anything. */
  lemma GivenUpOk(p: Spoils, env: Env, v: World, w: nat, change: Change)
    requires WorldOk(v, p) && w in v.windows && v.windows[w].stage.Loaded?
    requires Next(env, v, Save(w, change)) == v.(windows := v.windows - {w})
    ensures WorldOk(Next(env, v, Save(w, change)), Worse(p, env, v, Save(w, change)))
  {
    var move := Save(w, change);
    SpoilsGrow(p, env, v, move);
    StillSound(v, Next(env, v, move), w, p, Worse(p, env, v, move));
    OwnMoveOk(p, env, v, move, w);
  }

  /** A failed check whose save was rejected goes on to cache a row that is not in the table. */
  lemma RejectedOk(p: Spoils, env: Env, v: World, w: nat, change: Change, row: Node)
    requires WorldOk(v, p) && w in v.windows && v.windows[w].stage.Loaded? && Rejected(v.sys.db, v.windows[w])
    requires row.addr == v.windows[w].row.addr
    requires Next(env, v, Save(w, change)) == v.(windows := v.windows[w := Window(v.windows[w].id, row, Saved)])
    ensures WorldOk(Next(env, v, Save(w, change)), Worse(p, env, v, Save(w, change)))
  {
    var move := Save(w, change);
    SpoilsGrow(p, env, v, move);
    StillSound(v, Next(env, v, move), w, p, Worse(p, env, v, move));
    assert v.windows[w].id in SpoilsRow(v, Next(env, v, move), move);
    OwnMoveOk(p, env, v, move, w);
  }

  lemma SavedOk(p: Spoils, env: Env, v: World, w: nat, change: Change, row: Node)
    requires WorldOk(v, p) && w in v.windows && v.windows[w].stage.Loaded? && !Rejected(v.sys.db, v.windows[w])
    requires row.addr == v.windows[w].row.addr
    requires Next(env, v, Save(w, change))
          == World(WithRow(v.sys, v.windows[w].id, row), v.windows[w := Window(v.windows[w].id, row, Saved)])
    ensures WorldOk(Next(env, v, Save(w, change)), Worse(p, env, v, Save(w, change)))
  {
    var move, win := Save(w, change), v.windows[w];
    SpoilsGrow(p, env, v, move);
    SavedSound(v, Next(env, v, move), w, row, p, Worse(p, env, v, move));
    SavedStage(p, Worse(p, env, v, move), v, win.id, row);
    SavedWindows(v, w, row);
    OwnMoveOk(p, env, v, move, w);
  }

  lemma SavedSound(v: World, v': World, w: nat, row: Node, p: Spoils, q: Spoils)
    requires Sound(v.sys, true, SlackOf(v, p)) && Grown(p, q) && w in v.windows && v.windows[w].stage.Loaded?
    requires WindowOk(v.sys.db, v.windows[w]) && !Rejected(v.sys.db, v.windows[w]) && row.addr == v.windows[w].row.addr
    requires v' == World(WithRow(v.sys, v.windows[w].id, row), v.windows[w := Window(v.windows[w].id, row, Saved)])
    ensures Sound(v'.sys, true, SlackOf(v', q))
  {
    StillSound(v, v', w, p, q);
    assert v'.windows[w].Saving() && v'.windows[w].Pending();
    RowSavedSound(v.sys, v.windows[w], row, SlackOf(v', q));
  }

  lemma SavedStage(p: Spoils, q: Spoils, v: World, id: nat, row: Node)
    requires WorldOk(v, p) && p.entries <= q.entries && p.left <= q.left
    ensures StageOk(WithRow(v.sys, id, row), Window(id, row, Saved), q)
  {
    if id !in q.entries { ExplainedHere(v, p, id); }
  }

  lemma SavedWindows(v: World, w: nat, row: Node)
    requires SameAddress(v) && (forall x :: x in v.windows ==> WindowOk(v.sys.db, v.windows[x]))
    requires w in v.windows && row.addr == v.windows[w].row.addr
    ensures forall x :: x in v.windows ==> WindowOk(WithRow(v.sys, v.windows[w].id, row).db, v.windows[x])
  {
  }

  lemma SaveOk(p: Spoils, env: Env, v: World, w: nat, change: Change)
    requires WorldOk(v, p) && w in v.windows && v.windows[w].stage.Loaded?
    ensures WorldOk(Next(env, v, Save(w, change)), Worse(p, env, v, Save(w, change)))
  {
    var win := v.windows[w];
    ChangedKeepsAddress(win.row, change, env.maxFailCount);
    match Changed(win.row, change, env.maxFailCount)
    case None => GivenUpOk(p, env, v, w, change);
    case Some(row) =>
      if !Rejected(v.sys.db, win) {
        SavedOk(p, env, v, w, change, row);
      } else if change == Probed(ProbeFailed) {
        RejectedOk(p, env, v, w, change, row);
      } else {
        GivenUpOk(p, env, v, w, change);
      }
  }

  lemma PeekOk(p: Spoils, env: Env, v: World, w: nat)
    requires WorldOk(v, p) && w in v.windows && v.windows[w].stage.Saved?
    ensures WorldOk(Next(env, v, Peek(w)), Worse(p, env, v, Peek(w)))
  {
    SpoilsGrow(p, env, v, Peek(w));
    StillSound(v, Next(env, v, Peek(w)), w, p, Worse(p, env, v, Peek(w)));
    StageWithMore(v.sys, v.windows[w], p, Worse(p, env, v, Peek(w)));
    OwnMoveOk(p, env, v, Peek(w), w);
  }

  lemma ScanOk(p: Spoils, env: Env, v: World, w: nat)
    requires WorldOk(v, p) && w in v.windows && v.windows[w].stage.Piped?
    ensures WorldOk(Next(env, v, Scan(w)), Worse(p, env, v, Scan(w)))
  {
    SpoilsGrow(p, env, v, Scan(w));
    StillSound(v, Next(env, v, Scan(w)), w, p, Worse(p, env, v, Scan(w)));
    OwnMoveOk(p, env, v, Scan(w), w);
  }

  /** The deletion takes every session of the node that was found; unless one was pinned meanwhile, none
      is left. */
  lemma DropOk(p: Spoils, env: Env, v: World, w: nat)
    requires WorldOk(v, p) && w in v.windows && v.windows[w].stage.Scanned?
    ensures WorldOk(Next(env, v, Drop(w)), Worse(p, env, v, Drop(w)))
  {
    SpoilsGrow(p, env, v, Drop(w));
    DropSound(v, Next(env, v, Drop(w)), w, p, Worse(p, env, v, Drop(w)));
    OwnMoveOk(p, env, v, Drop(w), w);
  }

  lemma DropSound(v: World, v': World, w: nat, p: Spoils, q: Spoils)
    requires WorldOk(v, p) && Grown(p, q) && w in v.windows && v.windows[w].stage.Scanned?
    requires v' == World(WithSticky(v.sys, v.sys.cache.sticky - v.windows[w].stage.found), v.windows - {w})
    ensures Sound(v'.sys, true, SlackOf(v', q))
  {
    EndingSound(v, v', w, p, q);
    StageWithMore(v.sys, v.windows[w], p, q);
    DroppedSound(v.sys, v.windows[w], SlackOf(v', q), q);
  }

  /** While the last phase of a window ends, its node is still spared. */
  lemma EndingSound(v: World, v': World, w: nat, p: Spoils, q: Spoils)
    requires Sound(v.sys, true, SlackOf(v, p)) && Grown(p, q) && OnlyMoves(v, v', w) && !v.windows[w].Saving()
    ensures Sound(v.sys, true, SlackOf(v', q).(pins := SlackOf(v', q).pins + {v.windows[w].id}))
    ensures SlackOf(v', q).loose <= SlackOf(v', q).pins
  {
    SavingFollows(v, v', w);
    PendingFollows(v, v', w);
    SavingIsPending(v');
    SoundWithMore(v.sys, true, SlackOf(v, p), SlackOf(v', q).(pins := SlackOf(v', q).pins + {v.windows[w].id}));
  }

  lemma DroppedSound(s: Sys, w: Window, slack: Slack, q: Spoils)
    requires w.stage.Scanned? && Sound(s, true, slack.(pins := slack.pins + {w.id}))
    requires w.id !in slack.pins ==> w.id !in q.pins && StageOk(s, w, q)
    requires slack.loose <= slack.pins
    ensures Sound(WithSticky(s, s.cache.sticky - w.stage.found), true, slack)
  {
    var t := WithSticky(s, s.cache.sticky - w.stage.found);
    assert StickyOk(t, slack.pins) by {
      forall k | k in t.cache.sticky && t.cache.sticky[k] !in slack.pins
        ensures t.cache.sticky[k] in t.db.nodes && t.db.nodes[t.cache.sticky[k]].Available()
      {
        assert t.cache.sticky[k] == w.id ==> k in PinsOf(s.cache.sticky, w.id);
      }
    }
  }

  // ---------------------------------------------------------------- the pipeline

  lemma PipedFindable(c: Cache, id: nat, row: Node, previous: Option<Node>)
    requires Findable(c)
    ensures Findable(CachedOver(c, id, row, previous))
  {
  }

  /** The sets of a node after the pipeline, when they were explained and the row read before is the one
      that is replaced. */
  lemma PipedExplained(c: Cache, id: nat, row: Node, previous: Option<Node>, slack: Slack)
    requires Explained(c, slack.(odd := slack.odd + {id}))
    requires id !in slack.odd ==> ExplainedOn(c, id, slack.stale) && previous == Entry(c, id)
    ensures Explained(CachedOver(c, id, row, previous), slack)
  {
    var c' := CachedOver(c, id, row, previous);
    if id in c.cached {
      assert forall k :: k in Placed(c.cached[id]) ==> k in IndexKeys(c.cached[id]) + [HEALTHY];
    }
    forall k: string, m: nat | (k, m) in c'.index
      ensures (m in c'.cached && k in Placed(c'.cached[m])) || m in slack.odd || (k, m) in slack.stale
    {
      if m == id && m !in slack.odd && (k, m) !in Pairs(Placed(row), id) {
        assert (k, id) in c.index;
      }
    }
  }

  lemma PipedAgrees(s: Sys, id: nat, row: Node, previous: Option<Node>, loose: set<nat>)
    requires Agrees(s, loose + {id})
    requires id !in loose ==> id in s.db.nodes && SameRow(row, s.db.nodes[id])
    ensures Agrees(s.(cache := CachedOver(s.cache, id, row, previous)), loose)
  {
  }

  lemma PipedSticky(s: Sys, id: nat, pins: set<nat>)
    requires StickyOk(s, pins + {id}) && (id !in pins ==> id in s.db.nodes && s.db.nodes[id].Available())
    ensures StickyOk(s, pins)
  {
  }

  lemma ExecSound(v: World, w: nat, p: Spoils, q: Spoils)
    requires WorldOk(v, p) && Grown(p, q) && w in v.windows && v.windows[w].stage.Peeked?
    ensures var v' := ExecOf(v, w); Sound(v'.sys, true, SlackOf(v', q))
  {
    var win, v' := v.windows[w], ExecOf(v, w);
    var slack := SlackOf(v', q);
    SavingFollows(v, v', w);
    PendingFollows(v, v', w);
    SavingIsPending(v');
    StageWithMore(v.sys, win, p, q);
    if !win.row.Available() { assert v'.windows[w].Pending() && v'.windows[w].id == win.id; }
    PipedSound(v.sys, win, SlackOf(v, p), slack, q);
  }

  lemma PipedSound(s: Sys, w: Window, before: Slack, slack: Slack, q: Spoils)
    requires Sound(s, true, before) && w.stage.Peeked? && StageOk(s, w, q) && q.rows <= q.pins
    requires before.loose <= slack.loose + {w.id} && before.pins <= slack.pins + {w.id}
    requires before.odd <= slack.odd + {w.id}
    requires before.stale <= slack.stale == q.left && slack.loose <= slack.pins && slack.loose <= slack.odd
    requires q.rows <= slack.loose && q.entries <= slack.odd && q.pins <= slack.pins
    requires w.row.Available() || w.id in slack.pins
    ensures Sound(s.(cache := CachedOver(s.cache, w.id, w.row, w.stage.previous)), true, slack)
  {
    var id, row, previous := w.id, w.row, w.stage.previous;
    PipedFindable(s.cache, id, row, previous);
    PipedExplained(s.cache, id, row, previous, slack);
    PipedAgrees(s, id, row, previous, slack.loose);
    if id !in slack.pins { assert id !in q.rows; }
    PipedSticky(s, id, slack.pins);
  }

  lemma ExecOk(p: Spoils, env: Env, v: World, w: nat)
    requires WorldOk(v, p) && w in v.windows && v.windows[w].stage.Peeked?
    ensures WorldOk(Next(env, v, Exec(w)), Worse(p, env, v, Exec(w)))
  {
    SpoilsGrow(p, env, v, Exec(w));
    ExecSound(v, w, p, Worse(p, env, v, Exec(w)));
    ExecWindow(v, w, Worse(p, env, v, Exec(w)));
    OwnMoveOk(p, env, v, Exec(w), w);
  }

  lemma ExecWindow(v: World, w: nat, q: Spoils)
    requires w in v.windows && v.windows[w].stage.Peeked?
    ensures var v' := ExecOf(v, w);
         OnlyMoves(v, v', w) && v'.sys.db == v.sys.db && (w in v'.windows ==> StageOk(v'.sys, v'.windows[w], q))
  {
  }

  // ---------------------------------------------------------------- all runs

  lemma NextOk(p: Spoils, env: Env, v: World, move: Move)
    requires WorldOk(v, p) && (move.Whole? ==> Tame(move.op))
    ensures WorldOk(Next(env, v, move), Worse(p, env, v, move))
  {
    if Next(env, v, move) == v {
      IdleOk(p, env, v, move);
    } else {
      match move
      case Whole(op) => WholeOk(env, v, op, p);
      case Load(w, id) => LoadOk(p, env, v, w, id);
      case Save(w, change) => SaveOk(p, env, v, w, change);
      case Peek(w) => PeekOk(p, env, v, w);
      case Exec(w) => ExecOk(p, env, v, w);
      case Scan(w) => ScanOk(p, env, v, w);
      case Drop(w) => DropOk(p, env, v, w);
    }
  }

  predicate TameMoves(moves: seq<Move>) {
    forall i :: 0 <= i < |moves| ==> (moves[i].Whole? ==> Tame(moves[i].op))
  }

  /** Every interleaving of whole operations with the commands of any number of checks and toggles keeps
      the tables in order and every cached row in all its sets; and it keeps the whole invariant for
      every node that is not under way and was not spoiled. */
  lemma {:induction false} OverlapsSound(env: Env, v0: World, moves: seq<Move>)
    requires Sound(v0.sys, true) && v0.windows == map[] && TameMoves(moves)
    ensures WorldOk(Run(env, v0, moves), Spoiled(env, v0, moves))
  {
    if moves == [] {
      assert SlackOf(v0, Spoils({}, {}, {}, {})) == TIGHT;
    } else {
      OverlapsSound(env, v0, Front(moves));
      NextOk(Spoiled(env, v0, Front(moves)), env, Run(env, v0, Front(moves)), Last(moves));
    }
  }

  /** When nothing is under way, nothing was spoiled and nothing expired, the whole invariant holds. */
  lemma SettledSound(env: Env, v0: World, moves: seq<Move>)
    requires Sound(v0.sys, true) && v0.windows == map[] && TameMoves(moves)
    requires PendingIds(Run(env, v0, moves)) == {} && Spoiled(env, v0, moves) == Spoils({}, {}, {}, {})
    ensures Sound(Run(env, v0, moves).sys, true)
  {
    OverlapsSound(env, v0, moves);
    SavingIsPending(Run(env, v0, moves));
  }

  // ---------------------------------------------------------------- exactly when

  /** The pipeline leaves the cached row in agreement with SQL exactly when the row of the table still is
      the one that was saved, but for its traffic. */
  lemma ExecAgreesExactly(env: Env, v: World, w: nat)
    requires w in v.windows && v.windows[w].stage.Peeked?
    ensures var t, id := Next(env, v, Exec(w)).sys, v.windows[w].id;
         && id in t.cache.cached
         && (id in t.db.nodes && SameRow(t.cache.cached[id], t.db.nodes[id])
             <==> id in v.sys.db.nodes && SameRow(v.windows[w].row, v.sys.db.nodes[id]))
  {
  }

  /** It leaves the node in its own sets only exactly when every index key the node had before is one of
      the row that was read before, or of the new one. */
  lemma ExecExplainedExactly(env: Env, v: World, w: nat)
    requires w in v.windows && v.windows[w].stage.Peeked?
    ensures var t, win := Next(env, v, Exec(w)).sys, v.windows[w];
         var old_ := if win.stage.previous.Some? then IndexKeys(win.stage.previous.value) else [];
         ExplainedOn(t.cache, win.id, {})
         <==> forall k :: (k, win.id) in v.sys.cache.index && k != HEALTHY ==> k in old_ || k in Placed(win.row)
  {
    var t, win := Next(env, v, Exec(w)).sys, v.windows[w];
    var old_ := if win.stage.previous.Some? then IndexKeys(win.stage.previous.value) else [];
    FirstLetters(win.row);
    if win.stage.previous.Some? { FirstLetters(win.stage.previous.value); }
    if ExplainedOn(t.cache, win.id, {}) {
      forall k | (k, win.id) in v.sys.cache.index && k != HEALTHY
        ensures k in old_ || k in Placed(win.row)
      {
        if k !in old_ { assert (k, win.id) in t.cache.index; }
      }
    }
  }

  /** A node is there after the save exactly when it was there before, or was deleted meanwhile and
      nothing took its place: then it is back, and no subscription links it. */
  lemma SaveBringsBack(env: Env, v: World, w: nat, change: Change)
    requires LinksOk(v.sys.db) && w in v.windows && v.windows[w].stage.Loaded?
    requires Changed(v.windows[w].row, change, env.maxFailCount).Some?
    ensures var t, win := Next(env, v, Save(w, change)).sys, v.windows[w];
         && (win.id in t.db.nodes <==> win.id in v.sys.db.nodes || !Taken(v.sys.db, win.row.addr))
         && (win.id !in v.sys.db.nodes ==> !IsLinked(t.db, win.id))
  {
    assert Next(env, v, Save(w, change)).sys.db.links == v.sys.db.links;
  }

  // ---------------------------------------------------------------- updates that are lost

  /** Whatever was written to the node between the read and the save of a check is gone from the table
      afterwards: configuration, disabled flag, subscription and traffic are those of the read. */
  lemma CheckOverwrites(env: Env, v: World, w: nat, probe: Probe)
    requires w in v.windows && v.windows[w].stage.Loaded? && !probe.NoTransport? && v.windows[w].id in v.sys.db.nodes
    ensures var n, row := Next(env, v, Save(w, Probed(probe))).sys.db.nodes[v.windows[w].id], v.windows[w].row;
         && n.config == row.config && n.disabled == row.disabled
         && n.subscription == row.subscription && n.traffic == row.traffic
  {
  }

  lemma RunSnoc(env: Env, v: World, moves: seq<Move>, move: Move)
    ensures Run(env, v, moves + [move]) == Next(env, Run(env, v, moves), move)
  {
    assert Front(moves + [move]) == moves;
  }

  lemma RunPair(env: Env, v: World, a: Move, b: Move)
    ensures Run(env, v, [a, b]) == Next(env, Next(env, v, a), b)
  {
    assert [a] == [] + [a] && [a, b] == [a] + [b];
    RunSnoc(env, v, [], a);
    RunSnoc(env, v, [a], b);
  }

  lemma {:induction false} RunAppend(env: Env, v: World, a: seq<Move>, b: seq<Move>)
    ensures Run(env, v, a + b) == Run(env, Run(env, v, a), b)
    decreases |b|
  {
    if b == [] {
      assert a + b == a;
    } else {
      assert Front(a + b) == a + Front(b) && Last(a + b) == Last(b);
      RunAppend(env, v, a, Front(b));
    }
  }

  /** Peek and pipeline of a saved row: it is cached, and in `healthy_nodes` when it is available. */
  lemma CachingRun(env: Env, v: World, w: nat)
    requires w in v.windows && v.windows[w].stage.Saved?
    ensures var t, win := Run(env, v, [Peek(w), Exec(w)]), v.windows[w];
         && t.sys == Sys(v.sys.db, CachedOver(v.sys.cache, win.id, win.row, Entry(v.sys.cache, win.id)))
         && (win.row.Available() ==> (HEALTHY, win.id) in t.sys.cache.index && t.windows == v.windows - {w})
         && (!win.row.Available() ==> t.windows == v.windows[w := Window(win.id, win.row, Piped)])
  {
    RunPair(env, v, Peek(w), Exec(w));
    var win := v.windows[w];
    if win.row.Available() { assert HEALTHY in Placed(win.row); }
    assert Next(env, v, Peek(w)).windows - {w} == v.windows - {w};
  }

  lemma SweepingRun(env: Env, v: World, w: nat)
    requires w in v.windows && v.windows[w].stage.Piped?
    ensures var t := Run(env, v, [Scan(w), Drop(w)]);
         && t.sys == WithSticky(v.sys, Unpinned(v.sys.cache.sticky, v.windows[w].id))
         && t.windows == v.windows - {w}
  {
    RunPair(env, v, Scan(w), Drop(w));
    assert Next(env, v, Scan(w)).windows - {w} == v.windows - {w};
    var sticky, id := v.sys.cache.sticky, v.windows[w].id;
    assert sticky - PinsOf(sticky, id) == Unpinned(sticky, id);
  }

  /** A saved row whose caching nothing interrupts: afterwards the cache is what the other modules take it to
      be, and the check or toggle is over. */
  lemma UndisturbedCaching(env: Env, v: World, w: nat)
    requires w in v.windows && v.windows[w].stage.Saved?
    ensures var win := v.windows[w];
         var sweep := if win.row.Available() then [] else [Scan(w), Drop(w)];
         Run(env, v, [Peek(w), Exec(w)] + sweep)
         == World(Sys(v.sys.db, Cached(v.sys.cache, win.id, win.row)), v.windows - {w})
  {
    var win, caching := v.windows[w], [Peek(w), Exec(w)];
    var t := Run(env, v, caching);
    CachingRun(env, v, w);
    CachedIsSteps(v.sys.cache, win.id, win.row);
    if win.row.Available() {
      assert caching + [] == caching;
    } else {
      RunAppend(env, v, caching, [Scan(w), Drop(w)]);
      SweepingRun(env, t, w);
      assert t.windows - {w} == v.windows - {w};
    }
  }

  const EVERY := Filters("", "", "", "", "", "")

  /** A cached row that is available and in `healthy_nodes` is yielded when no filter is given. */
  lemma YieldedUnfiltered(c: Cache, id: nat)
    requires id in c.cached && c.cached[id].Available() && (HEALTHY, id) in c.index
    ensures id in FastPath(c, EVERY)
  {
    SetsAre(EVERY);
    FastPathIsListed(c, EVERY, id);
  }

  /** A check and a toggle that read the row before either saves it; the check saves first and caches
      last. */
  function Crossed(id: nat, p: Profile): seq<Move> {
    [Load(0, id), Load(1, id)] + [Save(0, Probed(ProbeOk(p))), Save(1, Flagged(true))]
    + [Peek(1), Exec(1)] + [Scan(1), Drop(1)] + [Peek(0), Exec(0)]
  }

  lemma CrossedSaved(env: Env, v: World, id: nat, p: Profile)
    requires v.windows == map[] && id in v.sys.db.nodes
    ensures var row := v.sys.db.nodes[id];
         var t := Run(env, v, [Load(0, id), Load(1, id)] + [Save(0, Probed(ProbeOk(p))), Save(1, Flagged(true))]);
         && id in t.sys.db.nodes && t.sys.db.nodes[id] == row.(disabled := true)
         && t.windows == map[0 := Window(id, Recovered(row, p), Saved), 1 := Window(id, row.(disabled := true), Saved)]
  {
    var row := v.sys.db.nodes[id];
    RunAppend(env, v, [Load(0, id), Load(1, id)], [Save(0, Probed(ProbeOk(p))), Save(1, Flagged(true))]);
    LoadTwice(env, v, id);
    SaveBoth(env, v.(windows := map[0 := Window(id, row, Loaded), 1 := Window(id, row, Loaded)]), id, row, p);
  }

  lemma LoadTwice(env: Env, v: World, id: nat)
    requires v.windows == map[] && id in v.sys.db.nodes
    ensures var row := v.sys.db.nodes[id];
         Run(env, v, [Load(0, id), Load(1, id)])
         == v.(windows := map[0 := Window(id, row, Loaded), 1 := Window(id, row, Loaded)])
  {
    RunPair(env, v, Load(0, id), Load(1, id));
  }

  lemma SaveBoth(env: Env, v: World, id: nat, row: Node, p: Profile)
    requires v.windows == map[0 := Window(id, row, Loaded), 1 := Window(id, row, Loaded)] && id in v.sys.db.nodes
    ensures var t := Run(env, v, [Save(0, Probed(ProbeOk(p))), Save(1, Flagged(true))]);
         && id in t.sys.db.nodes && t.sys.db.nodes[id] == row.(disabled := true)
         && t.windows == map[0 := Window(id, Recovered(row, p), Saved), 1 := Window(id, row.(disabled := true), Saved)]
  {
    RunPair(env, v, Save(0, Probed(ProbeOk(p))), Save(1, Flagged(true)));
    var v1 := Next(env, v, Save(0, Probed(ProbeOk(p))));
    assert v1 == World(WithRow(v.sys, id, Recovered(row, p)), v.windows[0 := Window(id, Recovered(row, p), Saved)]);
  }

  /** Crossed saves and cachings: at rest the table has the node disabled, while the cache has it
      available and the fast path yields it. */
  lemma CrossedDisagrees(env: Env, v: World, id: nat, p: Profile)
    requires v.windows == map[] && id in v.sys.db.nodes && !v.sys.db.nodes[id].disabled
    ensures var t := Run(env, v, Crossed(id, p));
         && t.windows == map[] && !Agrees(t.sys)
         && id in FastPath(t.sys.cache, EVERY) && id !in Query(t.sys.db, EVERY)
  {
    var row := v.sys.db.nodes[id];
    var saves := [Load(0, id), Load(1, id)] + [Save(0, Probed(ProbeOk(p))), Save(1, Flagged(true))];
    var v1 := Run(env, v, saves);
    CrossedSaved(env, v, id, p);
    var v2 := Run(env, v1, [Peek(1), Exec(1)]);
    CachingRun(env, v1, 1);
    var v3 := Run(env, v2, [Scan(1), Drop(1)]);
    SweepingRun(env, v2, 1);
    var v4 := Run(env, v3, [Peek(0), Exec(0)]);
    assert v3.windows == map[0 := Window(id, Recovered(row, p), Saved)];
    CachingRun(env, v3, 0);
    RunAppend(env, v, saves, [Peek(1), Exec(1)]);
    RunAppend(env, v, saves + [Peek(1), Exec(1)], [Scan(1), Drop(1)]);
    RunAppend(env, v, saves + [Peek(1), Exec(1)] + [Scan(1), Drop(1)], [Peek(0), Exec(0)]);
    CrossedEnd(v4.sys, id, row, p);
  }

  lemma CrossedEnd(s: Sys, id: nat, row: Node, p: Profile)
    requires id in s.cache.cached && s.cache.cached[id] == Recovered(row, p) && !row.disabled
    requires id in s.db.nodes && s.db.nodes[id] == row.(disabled := true) && (HEALTHY, id) in s.cache.index
    ensures !Agrees(s) && id in FastPath(s.cache, EVERY) && id !in Query(s.db, EVERY)
  {
    YieldedUnfiltered(s.cache, id);
    assert !SameRow(s.cache.cached[id], s.db.nodes[id]);
  }

  /** Disabling a node while it is being checked has no effect: it is available again when the check
      succeeds, in the table and in the cache. */
  lemma DisablingIsLost(env: Env, v: World, id: nat, p: Profile)
    requires v.windows == map[] && id in v.sys.db.nodes && !v.sys.db.nodes[id].disabled
    ensures var saved := [Load(0, id), Whole(ToggleNode(id, true))] + [Save(0, Probed(ProbeOk(p)))];
         var t := Run(env, v, saved + [Peek(0), Exec(0)]);
         && t.windows == map[] && IsAvailable(t.sys, id)
         && id in t.sys.cache.cached && t.sys.cache.cached[id].Available() && (HEALTHY, id) in t.sys.cache.index
  {
    var row := v.sys.db.nodes[id];
    var first, save := [Load(0, id), Whole(ToggleNode(id, true))], Save(0, Probed(ProbeOk(p)));
    var v2 := World(SaveRow(v.sys, id, row.(disabled := true)), map[0 := Window(id, row, Loaded)]);
    RunPair(env, v, first[0], first[1]);
    assert first == [first[0], first[1]] && Run(env, v, first) == v2;
    RunSnoc(env, v, first, save);
    var v3 := Next(env, v2, save);
    assert v3.windows == map[0 := Window(id, Recovered(row, p), Saved)];
    RunAppend(env, v, first + [save], [Peek(0), Exec(0)]);
    CachingRun(env, v3, 0);
  }
}
