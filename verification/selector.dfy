/** Node selection: filters, the sticky key, the set-intersection fast path over the Redis index and
    the SQL query it falls back to. */
module Selector {
  import opened Text
  import opened RedisKeys
  import opened NodeCache
  import opened Catalog
  import opened CatalogInvariants

  datatype Filters = Filters(region: string, state: string, city: string, asn: string, isp: string, sid: string)

  // ---------------------------------------------------------------- sticky keys

  /** The text that is hashed: the session id is not part of it. */
  function HashInput(f: Filters): string {
    f.region + "|" + f.state + "|" + f.city + "|" + f.asn + "|" + f.isp
  }

  /** A digest printed in hexadecimal, taken as collision free. */
  ghost predicate GoodDigest(digest: string -> string) {
    && (forall x: string, y: string :: digest(x) == digest(y) ==> x == y)
    && (forall x: string :: ':' !in digest(x))
  }

  function SessionKey(digest: string -> string, uid: string, f: Filters): string {
    StickyKey(uid, digest(HashInput(f)), f.sid)
  }

  /** No value but the last holds the separator. */
  predicate Pipeless(f: Filters) {
    '|' !in f.region && '|' !in f.state && '|' !in f.city && '|' !in f.asn
  }

  lemma HashInputInjective(f: Filters, g: Filters)
    requires Pipeless(f) && Pipeless(g) && HashInput(f) == HashInput(g)
    ensures f.(sid := g.sid) == g
  {
    Nested(f);
    Nested(g);
    FirstPart(f.region, AfterRegion(f), g.region, AfterRegion(g));
    FirstPart(f.state, AfterState(f), g.state, AfterState(g));
    FirstPart(f.city, AfterCity(f), g.city, AfterCity(g));
    FirstPart(f.asn, f.isp, g.asn, g.isp);
  }

  function AfterCity(f: Filters): string { f.asn + ['|'] + f.isp }

  function AfterState(f: Filters): string { f.city + ['|'] + AfterCity(f) }

  function AfterRegion(f: Filters): string { f.state + ['|'] + AfterState(f) }

  lemma Nested(f: Filters)
    ensures HashInput(f) == f.region + ['|'] + AfterRegion(f)
  {
    var x := f.region + "|" + f.state + "|";
    assert x + f.city + "|" + f.asn + "|" + f.isp == x + (f.city + ['|'] + AfterCity(f));
    assert x + AfterState(f) == f.region + ['|'] + AfterRegion(f);
  }

  lemma FirstPart(a: string, rest: string, b: string, more: string)
    requires '|' !in a && '|' !in b && a + ['|'] + rest == b + ['|'] + more
    ensures a == b && rest == more
  {
    CutJoined(a, '|', rest);
    CutJoined(b, '|', more);
  }

  /** A session key determines the user, the filters and the session id, when the hashed values, the
      last aside, hold no separator. */
  lemma SessionKeyInjective(digest: string -> string, u: Uid, f: Filters, v: Uid, g: Filters)
    requires GoodDigest(digest) && Pipeless(f) && Pipeless(g)
    requires SessionKey(digest, u, f) == SessionKey(digest, v, g)
    ensures u == v && f == g
  {
    StickyKeyInjective(u, digest(HashInput(f)), f.sid, v, digest(HashInput(g)), g.sid);
    HashInputInjective(f, g);
  }

  /** None of the five values holds the separator. */
  predicate Barless(f: Filters) {
    Pipeless(f) && '|' !in f.isp
  }

  function Bars(s: string): nat {
    if s == [] then 0 else Bars(s[1..]) + if s[0] == '|' then 1 else 0
  }

  lemma {:induction false} BarsAdd(a: string, b: string)
    ensures Bars(a + b) == Bars(a) + Bars(b)
  {
    if a == [] {
      assert a + b == b;
    } else {
      assert (a + b)[1..] == a[1..] + b;
      BarsAdd(a[1..], b);
    }
  }

  lemma {:induction false} NoBars(s: string)
    ensures Bars(s) == 0 <==> '|' !in s
  {
    if s != [] {
      NoBars(s[1..]);
      assert s == [s[0]] + s[1..];
    }
  }

  lemma BarsBetween(a: string, b: string)
    ensures Bars(a + ['|'] + b) == Bars(a) + Bars(b) + 1
  {
    BarsAdd(a, ['|']);
    BarsAdd(a + ['|'], b);
    assert ['|'][1..] == [];
  }

  lemma BarsOfInput(f: Filters)
    ensures Bars(HashInput(f)) == Bars(f.region) + Bars(f.state) + Bars(f.city) + Bars(f.asn) + Bars(f.isp) + 4
  {
    Nested(f);
    BarsBetween(f.region, AfterRegion(f));
    BarsBetween(f.state, AfterState(f));
    BarsBetween(f.city, AfterCity(f));
    BarsBetween(f.asn, f.isp);
  }

  lemma BarlessIs(f: Filters)
    ensures Barless(f) <==> Bars(HashInput(f)) == 4
  {
    BarsOfInput(f);
    NoBars(f.region);
    NoBars(f.state);
    NoBars(f.city);
    NoBars(f.asn);
    NoBars(f.isp);
  }

  /** The text is cut one value earlier or later: other filters, the same text. */
  function Shifted(f: Filters): Filters
    requires !Barless(f)
  {
    if '|' in f.region then
      var (a, b) := Cut(f.region, '|').value;
      Filters(a, b, f.state, f.city, f.asn + ['|'] + f.isp, f.sid)
    else if '|' in f.state then
      var (a, b) := Cut(f.state, '|').value;
      Filters(f.region, a, b, f.city, f.asn + ['|'] + f.isp, f.sid)
    else if '|' in f.city then
      var (a, b) := Cut(f.city, '|').value;
      Filters(f.region, f.state, a, b, f.asn + ['|'] + f.isp, f.sid)
    else if '|' in f.asn then
      var (a, b) := Cut(f.asn, '|').value;
      Filters(f.region, f.state, f.city, a, b + ['|'] + f.isp, f.sid)
    else
      var (a, b) := Cut(f.isp, '|').value;
      Filters(f.region, f.state, f.city, f.asn + ['|'] + a, b, f.sid)
  }

  lemma ShiftedDiffers(f: Filters)
    requires !Barless(f)
    ensures Shifted(f) != f && Shifted(f).sid == f.sid
  {
  }

  lemma ShiftedText(f: Filters)
    requires !Barless(f)
    ensures HashInput(Shifted(f)) == HashInput(f)
  {
    var g := Shifted(f);
    Nested(f);
    Nested(g);
    if '|' in f.region {
      ShiftEarly(f.region, g.region, g.state, f.state, f.city, f.asn, f.isp);
    } else if '|' in f.state {
      ShiftMiddle(f.state, g.state, g.city, f.city, f.asn, f.isp);
    } else if '|' in f.city {
      ShiftLate(f.city, g.city, g.asn, f.asn, f.isp);
    } else if '|' in f.asn {
      assert AfterCity(g) == AfterCity(f);
    } else {
      assert AfterCity(g) == AfterCity(f);
    }
  }

  lemma ShiftLate(city: string, a: string, b: string, asn: string, isp: string)
    requires city == a + ['|'] + b
    ensures a + ['|'] + (b + ['|'] + (asn + ['|'] + isp)) == city + ['|'] + (asn + ['|'] + isp)
  {
  }

  lemma ShiftMiddle(state: string, a: string, b: string, city: string, asn: string, isp: string)
    requires state == a + ['|'] + b
    ensures a + ['|'] + (b + ['|'] + (city + ['|'] + (asn + ['|'] + isp)))
         == state + ['|'] + (city + ['|'] + (asn + ['|'] + isp))
  {
  }

  lemma ShiftEarly(region: string, a: string, b: string, state: string, city: string, asn: string, isp: string)
    requires region == a + ['|'] + b
    ensures a + ['|'] + (b + ['|'] + (state + ['|'] + (city + ['|'] + (asn + ['|'] + isp))))
         == region + ['|'] + (state + ['|'] + (city + ['|'] + (asn + ['|'] + isp)))
  {
  }

  /** Filters share the hashed text with no other filters exactly when none of the five values holds a
      separator. */
  lemma OwnTextExactly(f: Filters)
    ensures (forall g :: HashInput(g) == HashInput(f) ==> g.(sid := f.sid) == f) <==> Barless(f)
  {
    if Barless(f) {
      BarlessIs(f);
      forall g | HashInput(g) == HashInput(f)
        ensures g.(sid := f.sid) == f
      {
        BarlessIs(g);
        HashInputInjective(f, g);
      }
    } else {
      ShiftedText(f);
      ShiftedDiffers(f);
    }
  }

  // ---------------------------------------------------------------- the query

  /** The WHERE clause. */
  predicate Matches(n: Node, f: Filters) {
    && n.Available()
    && (f.region != "" ==>
          n.profile.country == f.region || n.profile.detectedRegion == f.region || n.expectedRegion == f.region)
    && (f.state != "" ==> n.profile.detectedRegion == f.state)
    && (f.city != "" ==> n.profile.city == f.city)
    && (f.asn != "" ==> n.profile.asn == f.asn)
    && (f.isp != "" ==> n.profile.isp == f.isp || n.profile.org == f.isp)
  }

  function Query(db: Db, f: Filters): set<nat> {
    set id | id in db.nodes && Matches(db.nodes[id], f)
  }

  // ---------------------------------------------------------------- the fast path

  /** The set keys to intersect, when there is no state filter. */
  function Sets(f: Filters): (keys: seq<string>)
    ensures keys != [] && keys[0] == HEALTHY
  {
    [HEALTHY] + Under("region:", f.region) + Under("city:", f.city) + Under("asn:", f.asn) + Under("isp:", f.isp)
  }

  function Members(index: set<Pair>, key: string): set<nat> {
    set p | p in index && p.0 == key :: p.1
  }

  /** SINTER. */
  function Common(index: set<Pair>, keys: seq<string>): set<nat>
    requires keys != []
  {
    set id | id in Members(index, keys[0]) && forall k :: k in keys ==> (k, id) in index
  }

  /** `matchNodeIDs`: nothing for a state filter, else the members of all sets (the plain members of
      `healthy_nodes` when it is the only one). */
  function MatchNodeIds(index: set<Pair>, f: Filters): Option<set<nat>> {
    if f.state != "" then None else Some(Common(index, Sets(f)))
  }

  /** The members whose cached row is there and passes the second look. */
  function FastPath(c: Cache, f: Filters): set<nat> {
    match MatchNodeIds(c.index, f)
    case None => {}
    case Some(ids) =>
      set id | id in ids && id in c.cached && PassesAgain(c.cached[id], f)
  }

  predicate PassesAgain(n: Node, f: Filters) {
    n.healthy && !n.disabled && (f.isp == "" || n.profile.isp == f.isp || n.profile.org == f.isp)
  }

  /** `candidates`: the query is only asked when the fast path yields nothing. */
  function Candidates(s: Sys, f: Filters): set<nat> {
    var fast := FastPath(s.cache, f);
    if fast != {} then fast else Query(s.db, f)
  }

  /** The row `Pick` returns for a candidate: the cached one on the fast path. */
  function CandidateRow(s: Sys, f: Filters, id: nat): Node
    requires id in Candidates(s, f)
  {
    if id in FastPath(s.cache, f) then s.cache.cached[id] else s.db.nodes[id]
  }

  // ---------------------------------------------------------------- what the fast path finds

  /** The rows the sets stand for: the attributes a node is indexed under, not those only SQL knows. */
  predicate Indexed(n: Node, f: Filters) {
    && n.Available() && f.state == ""
    && (f.region != "" ==>
          n.profile.detectedRegion == f.region || (n.profile.detectedRegion == "" && n.expectedRegion == f.region))
    && (f.city != "" ==> n.profile.city == f.city)
    && (f.asn != "" ==> n.profile.asn == f.asn)
    && (f.isp != "" ==> n.profile.isp == f.isp)
  }

  lemma PlacedInAll(n: Node, f: Filters)
    ensures (forall k :: k in Sets(f) ==> k in Placed(n)) && f.state == "" <==> Indexed(n, f)
  {
    SetsAre(f);
    if f.region != "" { PlacedUnder(n, f.region); }
    if f.city != "" { PlacedUnder(n, f.city); }
    if f.asn != "" { PlacedUnder(n, f.asn); }
    if f.isp != "" { PlacedUnder(n, f.isp); }
    PlacedUnder(n, "x");
  }

  lemma SetsAre(f: Filters)
    ensures forall k :: k in Sets(f) <==>
              || k == HEALTHY
              || (f.region != "" && k == RegionKey(f.region)) || (f.city != "" && k == CityKey(f.city))
              || (f.asn != "" && k == AsnKey(f.asn)) || (f.isp != "" && k == IspKey(f.isp))
  {
  }

  /** On a coherent index the fast path yields exactly the cached rows that have all the indexed
      attributes. */
  lemma FastPathExactly(c: Cache, f: Filters, id: nat)
    requires Coherent(c)
    ensures id in FastPath(c, f) <==> id in c.cached && Indexed(c.cached[id], f)
  {
    assert HEALTHY in Sets(f);
    if id in c.cached {
      PlacedInAll(c.cached[id], f);
    }
    if id in FastPath(c, f) || (id in c.cached && Indexed(c.cached[id], f)) {
      assert forall k :: k in Sets(f) ==> ((k, id) in c.index <==> k in Placed(c.cached[id]));
      assert (HEALTHY, id) in c.index;
      assert id in Members(c.index, HEALTHY) by {
        var p := (HEALTHY, id);
        assert p in c.index;
      }
    }
  }

  /** A row found by the sets satisfies the query; conversely a row that satisfies it is missed by
      the sets exactly when a state was asked for, or when it matched by its country, by an expected
      region another detected region shadows, or by its organisation alone. */
  lemma IndexedAndQuery(n: Node, f: Filters)
    ensures Indexed(n, f) ==> Matches(n, f)
    ensures Matches(n, f) ==>
              (Indexed(n, f)
               <==> && f.state == "" && (f.isp != "" ==> n.profile.isp == f.isp)
                    && (f.region != "" ==> n.profile.detectedRegion == f.region
                                           || (n.profile.detectedRegion == "" && n.expectedRegion == f.region)))
  {
  }

  /** Everything the fast path yields satisfies the SQL query, as long as no row has expired. */
  lemma FastPathSound(s: Sys, f: Filters)
    requires Sound(s, true)
    ensures FastPath(s.cache, f) <= Query(s.db, f)
  {
    SoundIsCoherent(s);
    forall id | id in FastPath(s.cache, f)
      ensures id in Query(s.db, f)
    {
      FastPathExactly(s.cache, f, id);
      IndexedAndQuery(s.cache.cached[id], f);
      assert SameRow(s.cache.cached[id], s.db.nodes[id]);
    }
  }

  /** In any case, expiry included, a candidate is an available row of the table, and the row that
      is returned for it is that row but for its traffic. */
  lemma CandidatesAvailable(s: Sys, f: Filters, id: nat, loose: set<nat> := {})
    requires Agrees(s, loose) && id in Candidates(s, f) && id !in loose
    ensures id in s.db.nodes && s.db.nodes[id].Available()
    ensures SameRow(CandidateRow(s, f, id), s.db.nodes[id])
  {
    if id in FastPath(s.cache, f) {
      assert SameRow(s.cache.cached[id], s.db.nodes[id]);
    }
  }

  // ---------------------------------------------------------------- pick

  /** A random choice: the given member if it is one, else any other. */
  ghost function Chosen(ids: set<nat>, choice: nat): (id: nat)
    requires ids != {}
    ensures id in ids
  {
    if choice in ids then choice else var id :| id in ids; id
  }

  /** The session is pinned to a node that SQL knows as available. */
  predicate Hit(s: Sys, key: string) {
    key in s.cache.sticky && s.cache.sticky[key] in s.db.nodes && s.db.nodes[s.cache.sticky[key]].Available()
  }

  function WithSticky(s: Sys, sticky: map<string, nat>): Sys {
    s.(cache := s.cache.(sticky := sticky))
  }

  /** A stale key is deleted before the candidates are looked up. */
  function Cleared(s: Sys, f: Filters, key: string): Sys {
    if f.sid != "" && key in s.cache.sticky && !Hit(s, key) then WithSticky(s, s.cache.sticky - {key}) else s
  }

  function Bound(s: Sys, f: Filters, key: string, id: nat): Sys {
    if f.sid != "" then WithSticky(s, s.cache.sticky[key := id]) else s
  }

  /** `Pick`; nothing is found when there is no candidate. */
  ghost function Pick(s: Sys, key: string, f: Filters, choice: nat): (Sys, Option<nat>) {
    if f.sid != "" && Hit(s, key) then (s, Some(s.cache.sticky[key]))
    else
      var s1 := Cleared(s, f, key);
      var ids := Candidates(s1, f);
      if ids == {} then (s1, None)
      else (Bound(s1, f, key, Chosen(ids, choice)), Some(Chosen(ids, choice)))
  }

  /** Sessions do not matter for the candidates. */
  lemma StickyDoesNotMatter(s: Sys, sticky: map<string, nat>, f: Filters)
    ensures Candidates(WithSticky(s, sticky), f) == Candidates(s, f)
  {
  }

  lemma StickySound(s: Sys, sticky: map<string, nat>, exact: bool, slack: Slack := TIGHT)
    requires Sound(s, exact, slack)
    requires forall k :: k in sticky && sticky[k] !in slack.pins ==>
               sticky[k] in s.db.nodes && s.db.nodes[sticky[k]].Available()
    ensures Sound(WithSticky(s, sticky), exact, slack)
  {
  }

  /** With no sticky hit, a pick fails exactly when no row satisfies the query. */
  lemma PickFailsExactly(s: Sys, key: string, f: Filters, choice: nat)
    requires Sound(s, true) && !(f.sid != "" && Hit(s, key))
    ensures Pick(s, key, f, choice).1.None? <==> Query(s.db, f) == {}
  {
    FastPathSound(s, f);
    StickyDoesNotMatter(s, s.cache.sticky - {key}, f);
  }

  /** What a pick without a sticky hit returns satisfies the query. */
  lemma PickMatches(s: Sys, key: string, f: Filters, choice: nat)
    requires Sound(s, true) && !(f.sid != "" && Hit(s, key)) && Pick(s, key, f, choice).1.Some?
    ensures Pick(s, key, f, choice).1.value in Query(s.db, f)
  {
    FastPathSound(s, f);
    StickyDoesNotMatter(s, s.cache.sticky - {key}, f);
  }

  /** The same field by field: what is returned is available and has everything that was asked for. */
  lemma PickReturns(s: Sys, key: string, f: Filters, choice: nat)
    requires Sound(s, true) && !(f.sid != "" && Hit(s, key)) && Pick(s, key, f, choice).1.Some?
    ensures var id := Pick(s, key, f, choice).1.value;
         && id in s.db.nodes && s.db.nodes[id].healthy && !s.db.nodes[id].disabled
         && (f.region != "" ==> f.region in [s.db.nodes[id].profile.country, s.db.nodes[id].profile.detectedRegion,
                                             s.db.nodes[id].expectedRegion])
         && (f.state != "" ==> s.db.nodes[id].profile.detectedRegion == f.state)
         && (f.city != "" ==> s.db.nodes[id].profile.city == f.city)
         && (f.asn != "" ==> s.db.nodes[id].profile.asn == f.asn)
         && (f.isp != "" ==> f.isp in [s.db.nodes[id].profile.isp, s.db.nodes[id].profile.org])
  {
    PickMatches(s, key, f, choice);
  }

  /** And something is found as soon as one row of the table has all that, for every random choice. */
  lemma PickFindsExactly(s: Sys, key: string, f: Filters, choice: nat)
    requires Sound(s, true) && !(f.sid != "" && Hit(s, key))
    ensures Pick(s, key, f, choice).1.Some?
       <==> exists id ::
              && id in s.db.nodes && s.db.nodes[id].healthy && !s.db.nodes[id].disabled
              && (f.region != "" ==> f.region in [s.db.nodes[id].profile.country, s.db.nodes[id].profile.detectedRegion,
                                                  s.db.nodes[id].expectedRegion])
              && (f.state != "" ==> s.db.nodes[id].profile.detectedRegion == f.state)
              && (f.city != "" ==> s.db.nodes[id].profile.city == f.city)
              && (f.asn != "" ==> s.db.nodes[id].profile.asn == f.asn)
              && (f.isp != "" ==> f.isp in [s.db.nodes[id].profile.isp, s.db.nodes[id].profile.org])
  {
    PickFailsExactly(s, key, f, choice);
    if Pick(s, key, f, choice).1.Some? {
      PickReturns(s, key, f, choice);
    }
    forall id | id in s.db.nodes && Matches(s.db.nodes[id], f)
      ensures id in Query(s.db, f)
    {
    }
  }

  /** When some cached row has all that is asked for as it is indexed, only such rows are picked: the table is
      asked for other matches only if there is none. */
  lemma PickPrefersIndexed(s: Sys, key: string, f: Filters, choice: nat, id: nat)
    requires Sound(s, true) && !(f.sid != "" && Hit(s, key))
    requires id in s.cache.cached && Indexed(s.cache.cached[id], f)
    ensures var picked := Pick(s, key, f, choice).1;
         picked.Some? && picked.value in s.cache.cached && Indexed(s.cache.cached[picked.value], f)
  {
    SoundIsCoherent(s);
    StickyDoesNotMatter(s, s.cache.sticky - {key}, f);
    FastPathExactly(s.cache, f, id);
    FastPathExactly(s.cache, f, Pick(s, key, f, choice).1.value);
  }

  /** Without a session id sessions are neither looked at nor stored. */
  lemma PickWithoutSession(s: Sys, key: string, f: Filters, choice: nat)
    requires f.sid == ""
    ensures Pick(s, key, f, choice).0 == s
    ensures forall sticky :: Pick(WithSticky(s, sticky), key, f, choice).1 == Pick(s, key, f, choice).1
  {
    forall sticky
      ensures Pick(WithSticky(s, sticky), key, f, choice).1 == Pick(s, key, f, choice).1
    {
      StickyDoesNotMatter(s, sticky, f);
    }
  }

  /** A session on a node that is healthy and enabled is followed in any state, whatever is asked for. */
  lemma SessionFollowed(s: Sys, key: string, f: Filters, choice: nat, id: nat)
    requires f.sid != "" && key in s.cache.sticky && s.cache.sticky[key] == id
    requires id in s.db.nodes && s.db.nodes[id].healthy && !s.db.nodes[id].disabled
    ensures Pick(s, key, f, choice) == (s, Some(id))
  {
  }

  /** A session on any other node is forgotten first, also when nothing is found then. */
  lemma StaleSessionForgotten(s: Sys, key: string, f: Filters, choice: nat, id: nat)
    requires f.sid != "" && key in s.cache.sticky && s.cache.sticky[key] == id
    requires id !in s.db.nodes || !s.db.nodes[id].healthy || s.db.nodes[id].disabled
    ensures Pick(s, key, f, choice) == Pick(WithSticky(s, s.cache.sticky - {key}), key, f, choice)
  {
    var forgotten := WithSticky(s, s.cache.sticky - {key});
    assert key !in forgotten.cache.sticky;
  }

  /** No session is pinned to a node that is not available, so the stale branch is never taken. */
  lemma NeverStale(s: Sys, f: Filters, key: string)
    requires StickyOk(s)
    ensures key in s.cache.sticky ==> Hit(s, key)
    ensures Cleared(s, f, key) == s
  {
  }

  /** A pick keeps the invariant, returns an available node, and pins the session to it. */
  lemma PickSound(s: Sys, key: string, f: Filters, choice: nat, exact: bool)
    requires Sound(s, exact)
    ensures var (t, picked) := Pick(s, key, f, choice);
         && Sound(t, exact) && t.db == s.db && t.cache.cached == s.cache.cached && t.cache.index == s.cache.index
         && (picked.Some? ==> picked.value in s.db.nodes && s.db.nodes[picked.value].Available())
         && (picked.Some? && f.sid != "" ==> key in t.cache.sticky && t.cache.sticky[key] == picked.value)
         && (forall k :: k in s.cache.sticky ==> k in t.cache.sticky && t.cache.sticky[k] == s.cache.sticky[k])
         && (forall k :: k in t.cache.sticky && k != key ==> k in s.cache.sticky)
  {
    NeverStale(s, f, key);
    if !(f.sid != "" && Hit(s, key)) && Candidates(s, f) != {} {
      var id := Chosen(Candidates(s, f), choice);
      CandidatesAvailable(s, f, id);
      StickySound(s, s.cache.sticky[key := id], exact);
    }
  }

  /** With slack for some nodes, a pick keeps the invariant with the same slack. */
  lemma PickSoundBut(s: Sys, key: string, f: Filters, choice: nat, exact: bool, slack: Slack)
    requires Sound(s, exact, slack)
    ensures var t := Pick(s, key, f, choice).0;
         Sound(t, exact, slack) && t.db == s.db && t.cache.cached == s.cache.cached && t.cache.index == s.cache.index
  {
    if !(f.sid != "" && Hit(s, key)) {
      var s1 := Cleared(s, f, key);
      StickySound(s, s1.cache.sticky, exact, slack);
      if Candidates(s1, f) != {} {
        var id := Chosen(Candidates(s1, f), choice);
        if id !in slack.loose { CandidatesAvailable(s1, f, id, slack.loose); }
        StickySound(s1, s1.cache.sticky[key := id], exact, slack);
      }
    }
  }

  // ---------------------------------------------------------------- after an expiry

  /** An available cached row in all asked sets that passes the second look. */
  predicate Listed(c: Cache, f: Filters, id: nat) {
    && f.state == "" && id in c.cached && PassesAgain(c.cached[id], f)
    && forall k :: k in Sets(f) ==> (k, id) in c.index
  }

  /** What the fast path yields in any state, by sets and fields: the members of all asked sets whose cached row
      is there, healthy and enabled, and has the provider that was asked for as provider or organisation. */
  lemma FastPathByFields(c: Cache, f: Filters, id: nat)
    ensures id in FastPath(c, f)
       <==> && f.state == "" && (HEALTHY, id) in c.index
            && (f.region != "" ==> (RegionKey(f.region), id) in c.index)
            && (f.city != "" ==> (CityKey(f.city), id) in c.index)
            && (f.asn != "" ==> (AsnKey(f.asn), id) in c.index)
            && (f.isp != "" ==> (IspKey(f.isp), id) in c.index)
            && id in c.cached && c.cached[id].healthy && !c.cached[id].disabled
            && (f.isp != "" ==> f.isp in [c.cached[id].profile.isp, c.cached[id].profile.org])
  {
    FastPathIsListed(c, f, id);
    SetsAre(f);
  }

  lemma FastPathIsListed(c: Cache, f: Filters, id: nat)
    ensures id in FastPath(c, f) <==> Listed(c, f, id)
  {
    if Listed(c, f, id) {
      var p := (HEALTHY, id);
      assert HEALTHY in Sets(f) && p in c.index;
      assert id in Members(c.index, HEALTHY);
    }
  }

  /** The clauses of the query the second look does not check again. */
  predicate StillFits(n: Node, f: Filters) {
    && (f.region != "" ==>
          n.profile.country == f.region || n.profile.detectedRegion == f.region || n.expectedRegion == f.region)
    && (f.city != "" ==> n.profile.city == f.city)
    && (f.asn != "" ==> n.profile.asn == f.asn)
  }

  /** Whatever expired, the fast path is sound for the query exactly when every row it lists still fits
      the region, city and number it is listed under. */
  lemma FastPathSoundExactly(s: Sys, f: Filters)
    requires Sound(s, false)
    ensures FastPath(s.cache, f) <= Query(s.db, f)
         <==> forall id :: Listed(s.cache, f, id) ==> StillFits(s.cache.cached[id], f)
  {
    forall id | Listed(s.cache, f, id)
      ensures id in FastPath(s.cache, f) && (id in Query(s.db, f) <==> StillFits(s.cache.cached[id], f))
    {
      FastPathIsListed(s.cache, f, id);
      assert SameRow(s.cache.cached[id], s.db.nodes[id]);
    }
    forall id | id in FastPath(s.cache, f)
      ensures Listed(s.cache, f, id)
    {
      FastPathIsListed(s.cache, f, id);
    }
  }

  function CityOnly(city: string): Filters {
    Filters("", "", city, "", "", "")
  }

  function AsnOnly(asn: string): Filters {
    Filters("", "", "", asn, "", "")
  }

  /** Every region, city and number set an available cached row is in still fits it. */
  ghost predicate SetsFit(c: Cache) {
    forall id: nat, value: string :: id in c.cached && c.cached[id].Available() && value != "" ==>
      && ((RegionKey(value), id) in c.index ==> StillFits(c.cached[id], RegionOnly(value)))
      && ((CityKey(value), id) in c.index ==> StillFits(c.cached[id], CityOnly(value)))
      && ((AsnKey(value), id) in c.index ==> StillFits(c.cached[id], AsnOnly(value)))
  }

  /** The fast path is sound for all filters at once exactly when every set a row was left in fits it;
      the sets of providers do no harm, because they are looked at again. */
  lemma FastPathSoundForAll(s: Sys)
    requires Sound(s, false)
    ensures (forall f :: FastPath(s.cache, f) <= Query(s.db, f)) <==> SetsFit(s.cache)
  {
    if SetsFit(s.cache) {
      forall f
        ensures FastPath(s.cache, f) <= Query(s.db, f)
      {
        ListedFit(s, f);
        FastPathSoundExactly(s, f);
      }
    }
    if forall f :: FastPath(s.cache, f) <= Query(s.db, f) {
      forall id: nat, value: string | id in s.cache.cached && s.cache.cached[id].Available() && value != ""
        ensures (RegionKey(value), id) in s.cache.index ==> StillFits(s.cache.cached[id], RegionOnly(value))
        ensures (CityKey(value), id) in s.cache.index ==> StillFits(s.cache.cached[id], CityOnly(value))
        ensures (AsnKey(value), id) in s.cache.index ==> StillFits(s.cache.cached[id], AsnOnly(value))
      {
        OneSetFits(s, RegionOnly(value), RegionKey(value), id);
        OneSetFits(s, CityOnly(value), CityKey(value), id);
        OneSetFits(s, AsnOnly(value), AsnKey(value), id);
      }
    }
  }

  lemma ListedFit(s: Sys, f: Filters)
    requires SetsFit(s.cache)
    ensures forall id :: Listed(s.cache, f, id) ==> StillFits(s.cache.cached[id], f)
  {
    SetsAre(f);
    forall id | Listed(s.cache, f, id)
      ensures StillFits(s.cache.cached[id], f)
    {
      assert f.region != "" ==> (RegionKey(f.region), id) in s.cache.index;
      assert f.city != "" ==> (CityKey(f.city), id) in s.cache.index;
      assert f.asn != "" ==> (AsnKey(f.asn), id) in s.cache.index;
    }
  }

  lemma OneSetFits(s: Sys, f: Filters, key: string, id: nat)
    requires Sound(s, false) && id in s.cache.cached && s.cache.cached[id].Available()
    requires f.isp == "" && f.state == "" && (forall k :: k in Sets(f) ==> k == HEALTHY || k == key)
    requires FastPath(s.cache, f) <= Query(s.db, f)
    ensures (key, id) in s.cache.index ==> StillFits(s.cache.cached[id], f)
  {
    if (key, id) in s.cache.index {
      assert HEALTHY in Placed(s.cache.cached[id]);
      assert Listed(s.cache, f, id);
      FastPathSoundExactly(s, f);
    }
  }

  function RegionOnly(region: string): Filters {
    Filters(region, "", "", "", "", "")
  }

  /** A row that expired from the cache while its exit moved to another region stays in the set of
      the old one: the fast path then yields a node the query rejects. */
  lemma StaleRegionYielded(s: Sys, id: nat, row: Node)
    requires Sound(s, true) && id in s.cache.cached && row.Available()
    requires var old_ := s.cache.cached[id].Region();
          old_ != "" && row.profile.country != old_ && row.profile.detectedRegion != old_ && row.expectedRegion != old_
    ensures var old_, t := s.cache.cached[id].Region(), SaveRow(s.(cache := Expired(s.cache, id)), id, row);
         id in FastPath(t.cache, RegionOnly(old_)) && id !in Query(t.db, RegionOnly(old_))
  {
    var region, c := s.cache.cached[id].Region(), Cached(Expired(s.cache, id), id, row);
    SoundIsCoherent(s);
    var f := RegionOnly(region);
    SetsAre(f);
    PlacedUnder(s.cache.cached[id], region);
    ExpiryLeavesStaleEntries(s.cache, id, row);
    FirstLetters(s.cache.cached[id]);
    assert RegionKey(region) in IndexKeys(s.cache.cached[id]);
    assert HEALTHY in Placed(row);
    assert (HEALTHY, id) in c.index;
    assert id in Members(c.index, HEALTHY) by {
      var p := (HEALTHY, id);
      assert p in c.index;
    }
  }
}
