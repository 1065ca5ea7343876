/** The Redis key formats of the store, and what they keep apart. */
module RedisKeys {
  import opened Text

  /** The three counters kept for every user and every node. */
  datatype Direction = Upload | Download | Requests {
    function Name(): string {
      match this
      case Upload => "upload"
      case Download => "download"
      case Requests => "requests"
    }
  }

  function UsageKey(uid: string, d: Direction): string {
    "usage:" + uid + ":" + d.Name()
  }

  function NodeUsageKey(id: nat, d: Direction): string {
    "usage:node:" + Itoa(id) + ":" + d.Name()
  }

  /** The keys that go with a node. */
  function NodeUsageKeys(id: nat): set<string> {
    {NodeUsageKey(id, Upload), NodeUsageKey(id, Download), NodeUsageKey(id, Requests)}
  }

  function ConnKey(uid: string): string {
    "conn:" + uid + ":current"
  }

  function StickyKey(uid: string, filterHash: string, sid: string): string {
    "sticky:" + uid + ":" + filterHash + ":" + sid
  }

  /** The uid under which a user's counters would be the counters of this node. */
  function NodeOwner(id: nat): string {
    "node:" + Itoa(id)
  }

  ghost predicate IsNodeOwner(owner: string) {
    exists id: nat :: owner == NodeOwner(id)
  }

  /** The uids that proxy requests carry: credentials are cut at their first colon (ProxyUsers.SentUid). */
  type Uid = u: string | ':' !in u witness ""

  lemma SpellsNoNode(uid: Uid)
    ensures !IsNodeOwner(uid)
  {
    forall id: nat
      ensures uid != NodeOwner(id)
    {
      assert NodeOwner(id)[4] == ':';
    }
  }

  /** Where the uid is, and the characters that tell the direction from the end. */
  lemma UsageKeyParts(u: string, d: Direction)
    ensures var k := UsageKey(u, d);
         && |k| == 7 + |u| + |d.Name()| && k[6..6 + |u|] == u
         && k[|k| - 7] == (match d case Upload => ':' case Download => 'o' case Requests => 'e')
         && k[|k| - 1] == (match d case Upload => 'd' case Download => 'd' case Requests => 's')
  {
    var k, name := UsageKey(u, d), d.Name();
    assert k[6..6 + |u|] == u;
    assert k[7 + |u|..] == name && k[6 + |u|] == ':';
    match d
    case Upload => assert name[5] == 'd';
    case Download => assert name[1] == 'o' && name[7] == 'd';
    case Requests => assert name[1] == 'e' && name[7] == 's';
  }

  lemma UsageKeyInjective(u: string, d: Direction, v: string, e: Direction)
    requires UsageKey(u, d) == UsageKey(v, e)
    ensures u == v && d == e
  {
    UsageKeyParts(u, d);
    UsageKeyParts(v, e);
    assert d == e;
  }

  lemma NodeKeyIsUsageKey(id: nat, d: Direction)
    ensures NodeUsageKey(id, d) == UsageKey(NodeOwner(id), d)
  {
    assert "usage:node:" == "usage:" + "node:";
    assert "usage:" + "node:" + Itoa(id) == "usage:" + ("node:" + Itoa(id));
  }

  lemma NodeOwnerInjective(m: nat, n: nat)
    requires NodeOwner(m) == NodeOwner(n)
    ensures m == n
  {
    assert NodeOwner(m)[5..] == Itoa(m) && NodeOwner(n)[5..] == Itoa(n);
    ItoaInjective(m, n);
  }

  /** A user counter and a node counter share a key exactly when the uid spells that node. */
  lemma UserNodeCollision(uid: string, d: Direction, id: nat, e: Direction)
    ensures UsageKey(uid, d) == NodeUsageKey(id, e) <==> uid == NodeOwner(id) && d == e
  {
    NodeKeyIsUsageKey(id, e);
    if UsageKey(uid, d) == NodeUsageKey(id, e) {
      UsageKeyInjective(uid, d, NodeOwner(id), e);
    }
  }

  // ---------------------------------------------------------------- scanning usage keys

  /** The glob `usage:*:upload` (the two literal parts do not overlap in a match). */
  predicate MatchesUploadGlob(key: string) {
    && "usage:" <= key
    && |key| >= 13
    && key[|key| - 7..] == ":upload"
  }

  /** `key[len("usage:") : len(key)-len(":upload")]` */
  function UidOfUploadKey(key: string): string
    requires MatchesUploadGlob(key)
  {
    key[6..|key| - 7]
  }

  /** Slicing the uid out of a scanned key undoes the key builder, in both directions. */
  lemma UploadKeySlicing(key: string)
    ensures MatchesUploadGlob(key) <==> exists uid :: key == UsageKey(uid, Upload)
    ensures MatchesUploadGlob(key) ==> UsageKey(UidOfUploadKey(key), Upload) == key
    ensures forall uid :: key == UsageKey(uid, Upload) ==>
                            MatchesUploadGlob(key) && UidOfUploadKey(key) == uid
  {
    if MatchesUploadGlob(key) {
      assert key == "usage:" + key[6..|key| - 7] + ":upload";
      assert key == UsageKey(UidOfUploadKey(key), Upload);
    }
    forall uid | key == UsageKey(uid, Upload)
      ensures MatchesUploadGlob(key) && UidOfUploadKey(key) == uid
    {
      assert |key| == 13 + |uid|;
    }
  }

  lemma UploadKeysApart(k: string, l: string)
    requires MatchesUploadGlob(k) && MatchesUploadGlob(l) && k != l
    ensures UidOfUploadKey(k) != UidOfUploadKey(l)
  {
    UploadKeySlicing(k);
    UploadKeySlicing(l);
  }

  /** The uids whose scanned key starts with `usage:node:`, which the user half of the flush skips. */
  predicate Skipped(uid: string) {
    uid == "node" || "node:" <= uid
  }

  /** Not only uids in the node name space are skipped: the plain uid "node" is too. */
  lemma SkippedUids(uid: string)
    ensures "usage:node:" <= UsageKey(uid, Upload) <==> Skipped(uid)
  {
    var key := UsageKey(uid, Upload);
    assert key == "usage:" + (uid + ":upload");
    assert "usage:node:" == "usage:" + "node:";
    assert key[6..] == uid + ":upload";
    if "usage:node:" <= key {
      assert key[..11] == "usage:node:";
      assert key[6..11] == "node:";
      assert forall i :: 6 <= i < 10 ==> key[i] == key[6..11][i - 6] != ':';
      assert key[6 + |uid|] == ':';
      if |uid| >= 4 {
        assert uid[..4] == key[6..10] == "node";
        if |uid| > 4 {
          assert uid[4] == key[10] == ':';
          assert uid[..5] == "node:";
        }
      }
    }
    if "node:" <= uid {
      assert key[..11] == "usage:" + uid[..5];
    }
    if uid == "node" {
      assert key[..11] == "usage:node:";
    }
  }

  /** Of those that requests can carry only that one. */
  lemma SkippedSender(uid: Uid)
    ensures Skipped(uid) <==> uid == "node"
  {
    NodePrefixHoldsColon(uid);
  }

  lemma NodePrefixHoldsColon(uid: string)
    ensures "node:" <= uid ==> ':' in uid
  {
    if "node:" <= uid { assert uid[4] == ':'; }
  }

  /** The glob `usage:node:*:upload`. */
  predicate MatchesNodeUploadGlob(key: string) {
    && "usage:node:" <= key
    && |key| >= 18
    && key[|key| - 7..] == ":upload"
  }

  function DigitCount(s: string): (n: nat)
    ensures n <= |s|
    ensures forall i :: 0 <= i < n ==> '0' <= s[i] <= '9'
    ensures n < |s| ==> !('0' <= s[n] <= '9')
  {
    if s != [] && '0' <= s[0] <= '9' then 1 + DigitCount(s[1..]) else 0
  }

  /** `fmt.Sscanf(key, "usage:node:%d:upload", &nodeID)`: what follows the match is not looked at. */
  function ScanNodeId(key: string): Option<nat> {
    if !("usage:node:" <= key) then None
    else
      var rest := key[11..];
      var n := DigitCount(rest);
      if n == 0 || !(":upload" <= rest[n..]) then None else Some(ParseDecimal(rest[..n]))
  }

  lemma {:induction false} DigitsThenRest(digits: string, rest: string)
    requires forall i :: 0 <= i < |digits| ==> '0' <= digits[i] <= '9'
    requires rest != [] && !('0' <= rest[0] <= '9')
    ensures DigitCount(digits + rest) == |digits|
  {
    if digits == [] {
      assert digits + rest == rest;
    } else {
      assert (digits + rest)[1..] == digits[1..] + rest;
      DigitsThenRest(digits[1..], rest);
    }
  }

  lemma ScanDigits(digits: string)
    requires digits != [] && forall i :: 0 <= i < |digits| ==> '0' <= digits[i] <= '9'
    ensures ScanNodeId("usage:node:" + (digits + ":upload")) == Some(ParseDecimal(digits))
  {
    var rest := digits + ":upload";
    var key := "usage:node:" + rest;
    assert |"usage:node:"| == 11 && key[..11] == "usage:node:" && key[11..] == rest;
    DigitsThenRest(digits, ":upload");
    assert rest[..|digits|] == digits && rest[|digits|..] == ":upload";
  }

  lemma NodeUploadKeyIs(id: nat)
    ensures NodeUsageKey(id, Upload) == "usage:node:" + (Itoa(id) + ":upload")
  {
    assert "usage:node:" + Itoa(id) + ":" + "upload" == "usage:node:" + (Itoa(id) + ":upload");
  }

  lemma NodeUploadGlob(digits: string)
    ensures MatchesNodeUploadGlob("usage:node:" + (digits + ":upload"))
  {
    var key := "usage:node:" + (digits + ":upload");
    assert key[..11] == "usage:node:";
    assert key[|key| - 7..] == ":upload";
  }

  /** Scanning undoes the key builder, so every node with a pending counter is visited. */
  lemma ScanNodeIdInverts(id: nat)
    ensures ScanNodeId(NodeUsageKey(id, Upload)) == Some(id)
    ensures MatchesNodeUploadGlob(NodeUsageKey(id, Upload))
  {
    NodeUploadKeyIs(id);
    NodeUploadGlob(Itoa(id));
    ScanDigits(Itoa(id));
    ParseDecimalInverts(id);
  }

  /** A number between the two literal parts, with anything behind. */
  predicate ScannedAs(key: string, digits: string, more: string) {
    && digits != [] && (forall i :: 0 <= i < |digits| ==> '0' <= digits[i] <= '9')
    && key == "usage:node:" + (digits + (":upload" + more))
  }

  /** What scans at all, and as which id. */
  lemma ScansExactly(key: string)
    ensures ScanNodeId(key).Some? <==> exists digits, more :: ScannedAs(key, digits, more)
    ensures forall digits, more :: ScannedAs(key, digits, more) ==> ScanNodeId(key) == Some(ParseDecimal(digits))
  {
    if ScanNodeId(key).Some? {
      var digits, more := ScansParts(key);
    }
    forall digits, more | ScannedAs(key, digits, more)
      ensures ScanNodeId(key) == Some(ParseDecimal(digits))
    {
      PartsScan(key, digits, more);
    }
  }

  lemma ScansParts(key: string) returns (digits: string, more: string)
    requires ScanNodeId(key).Some?
    ensures ScannedAs(key, digits, more)
  {
    var rest := key[11..];
    var n := DigitCount(rest);
    digits, more := rest[..n], rest[n..][7..];
    assert rest[n..] == ":upload" + more;
    assert rest == digits + rest[n..];
    assert key == "usage:node:" + rest;
  }

  lemma PartsScan(key: string, digits: string, more: string)
    requires ScannedAs(key, digits, more)
    ensures ScanNodeId(key) == Some(ParseDecimal(digits))
  {
    var tail := ":upload" + more;
    var rest := digits + tail;
    assert key[..11] == "usage:node:" && key[11..] == rest;
    assert tail[..7] == ":upload";
    DigitsThenRest(digits, tail);
    assert rest[..|digits|] == digits && rest[|digits|..] == tail;
  }

  // ---------------------------------------------------------------- sticky and connection keys

  /** A sticky key determines its uid, filter hash and session id when the hash, which is printed in
      hexadecimal, holds no colon; the session id is free. */
  lemma StickyKeyInjective(u: Uid, h: string, s: string, v: Uid, g: string, t: string)
    requires ':' !in h && ':' !in g
    requires StickyKey(u, h, s) == StickyKey(v, g, t)
    ensures u == v && h == g && s == t
  {
    var k := StickyKey(u, h, s);
    assert k[7..] == u + [':'] + (h + [':'] + s);
    assert StickyKey(v, g, t)[7..] == v + [':'] + (g + [':'] + t);
    CutJoined(u, ':', h + [':'] + s);
    CutJoined(v, ':', g + [':'] + t);
    CutJoined(h, ':', s);
    CutJoined(g, ':', t);
  }

  lemma ConnKeyInjective(u: string, v: string)
    requires ConnKey(u) == ConnKey(v)
    ensures u == v
  {
    assert ConnKey(u)[5..5 + |u|] == u && ConnKey(v)[5..5 + |v|] == v;
  }

  // ---------------------------------------------------------------- key patterns

  /** The pattern language of KEYS, for patterns without brackets and backslashes. */
  predicate Glob(pattern: string, text: string)
    decreases |pattern| + |text|
  {
    if pattern == [] then text == []
    else if pattern[0] == '*' then Glob(pattern[1..], text) || (text != [] && Glob(pattern, text[1..]))
    else text != [] && (pattern[0] == '?' || pattern[0] == text[0]) && Glob(pattern[1..], text[1..])
  }

  /** Stands for itself in a pattern. */
  predicate Literal(s: string) {
    '*' !in s && '?' !in s && '[' !in s && '\\' !in s
  }

  lemma {:induction false} GlobPrefix(p: string, pattern: string, text: string)
    requires Literal(p)
    ensures Glob(p + pattern, text) <==> p <= text && Glob(pattern, text[|p|..])
  {
    if p == [] {
      assert p + pattern == pattern;
    } else {
      assert (p + pattern)[1..] == p[1..] + pattern;
      if text != [] {
        GlobPrefix(p[1..], pattern, text[1..]);
        assert p <= text <==> p[0] == text[0] && p[1..] <= text[1..] by {
          assert p == [p[0]] + p[1..] && text == [text[0]] + text[1..];
        }
        if p <= text { assert text[1..][|p| - 1..] == text[|p|..]; }
      }
    }
  }

  lemma {:induction false} GlobSelf(p: string, text: string)
    requires Literal(p)
    ensures Glob(p, text) <==> p == text
  {
    GlobPrefix(p, [], text);
    assert p + [] == p;
    if p <= text { assert text == p + text[|p|..]; }
  }

  lemma {:induction false} GlobSuffix(q: string, text: string)
    requires Literal(q)
    ensures Glob("*" + q, text) <==> |q| <= |text| && text[|text| - |q|..] == q
  {
    var pattern := "*" + q;
    assert pattern[1..] == q;
    GlobSelf(q, text);
    if text != [] {
      GlobSuffix(q, text[1..]);
      if |q| < |text| { assert text[1..][|text| - 1 - |q|..] == text[|text| - |q|..]; }
    }
  }

  /** Two literal parts around a star. */
  lemma GlobAround(p: string, q: string, key: string)
    requires Literal(p) && Literal(q)
    ensures Glob(p + ("*" + q), key) <==> p <= key && |key| >= |p| + |q| && key[|key| - |q|..] == q
  {
    GlobPrefix(p, "*" + q, key);
    if p <= key {
      GlobSuffix(q, key[|p|..]);
      SuffixOfRest(p, q, key);
    }
  }

  lemma SuffixOfRest(p: string, q: string, key: string)
    requires |p| <= |key|
    ensures var rest := key[|p|..];
         |q| <= |rest| && rest[|rest| - |q|..] == q <==> |key| >= |p| + |q| && key[|key| - |q|..] == q
  {
    var rest := key[|p|..];
    if |rest| >= |q| { assert rest[|rest| - |q|..] == key[|key| - |q|..]; }
  }

  /** The scan of the user half of the flush matches exactly the keys modelled above. */
  lemma UploadGlobIs(key: string)
    ensures Glob("usage:*:upload", key) <==> MatchesUploadGlob(key)
  {
    assert "usage:*:upload" == "usage:" + ("*" + ":upload");
    GlobAround("usage:", ":upload", key);
  }

  /** And the scan of the node half. */
  lemma NodeUploadGlobIs(key: string)
    ensures Glob("usage:node:*:upload", key) <==> MatchesNodeUploadGlob(key)
  {
    assert "usage:node:*:upload" == "usage:node:" + ("*" + ":upload");
    GlobAround("usage:node:", ":upload", key);
  }

  function SessionsOf(uid: string): string {
    "sticky:" + uid + ":*"
  }

  /** The uid spells the beginning of a session of this user, with its colons. */
  predicate SpellsSession(uid: string, other: Uid, hash: string, sid: string) {
    other + ":" <= uid && uid + ":" <= other + ":" + hash + ":" + sid
  }

  /** The pattern that cleans up after a user without pattern characters matches that user's sessions, and
      of others only those the uid spells out. */
  lemma SessionsOfOneUser(uid: string, other: Uid, hash: string, sid: string)
    requires Literal(uid)
    ensures Glob(SessionsOf(uid), StickyKey(other, hash, sid)) <==> uid == other || SpellsSession(uid, other, hash, sid)
  {
    var p, key, rest := "sticky:" + uid + ":", StickyKey(other, hash, sid), other + ":" + hash + ":" + sid;
    SessionPattern(uid, key);
    assert key == "sticky:" + rest && p == "sticky:" + (uid + ":");
    SamePrefix("sticky:", uid + ":", rest);
    if uid + ":" <= rest {
      UidBeforeColon(uid, other, hash + ":" + sid);
    }
    if uid == other { assert rest == (uid + ":") + (hash + ":" + sid); }
  }

  lemma SessionPattern(uid: string, key: string)
    requires Literal(uid)
    ensures Glob(SessionsOf(uid), key) <==> "sticky:" + uid + ":" <= key
  {
    var p := "sticky:" + uid + ":";
    assert SessionsOf(uid) == p + "*";
    GlobPrefix(p, "*", key);
    if p <= key {
      GlobSuffix([], key[|p|..]);
      assert "*" + [] == "*";
    }
  }

  lemma SamePrefix(a: string, p: string, s: string)
    ensures a + p <= a + s <==> p <= s
  {
    if a + p <= a + s {
      assert p == (a + p)[|a|..] && s == (a + s)[|a|..];
    }
  }

  /** A uid before a colon is the text before the first one, or goes on behind it. */
  lemma UidBeforeColon(uid: string, other: Uid, rest: string)
    requires uid + ":" <= other + ":" + rest
    ensures uid == other || other + ":" <= uid
  {
    var s := other + ":" + rest;
    assert s[|uid|] == (uid + ":")[|uid|] == ':';
    assert forall i :: 0 <= i < |other| ==> s[i] == other[i] && other[i] in other;
    assert uid == s[..|uid|];
    if |uid| == |other| {
      assert other == s[..|uid|];
    }
  }

  lemma SpellsWithColon(uid: string, other: Uid, hash: string, sid: string)
    ensures SpellsSession(uid, other, hash, sid) ==> ':' in uid
  {
    if SpellsSession(uid, other, hash, sid) {
      assert uid[|other|] == (other + ":")[|other|] == ':';
    }
  }

  /** A pattern with stars and question marks matches every text of its length that agrees with it
      elsewhere. */
  lemma {:induction false} GlobInstance(p: string, t: string, pattern: string, text: string)
    requires |p| == |t| && Glob(pattern, text)
    requires forall i :: 0 <= i < |p| ==> p[i] == t[i] || p[i] == '*' || p[i] == '?'
    ensures Glob(p + pattern, t + text)
  {
    if p == [] {
      assert p + pattern == pattern && t + text == text;
    } else {
      GlobInstance(p[1..], t[1..], pattern, text);
      assert (p + pattern)[1..] == p[1..] + pattern && (t + text)[1..] == t[1..] + text;
      if p[0] == '*' {
        assert Glob(p + pattern, t[1..] + text);
      }
    }
  }

  /** Cleaning up after this user leaves the sessions of everybody else alone. */
  ghost predicate SparesOthers(uid: string) {
    forall other: Uid, hash, sid :: other != uid ==> !Glob(SessionsOf(uid), StickyKey(other, hash, sid))
  }

  /** Uids with a star or a question mark are the ones whose clean-up takes sessions of others: of
      every user whose name has any other characters in their place. */
  lemma SparesOthersExactly(uid: Uid)
    requires '[' !in uid && '\\' !in uid
    ensures SparesOthers(uid) <==> Literal(uid)
  {
    if Literal(uid) {
      forall other: Uid, hash, sid | other != uid
        ensures !Glob(SessionsOf(uid), StickyKey(other, hash, sid))
      {
        SessionsOfOneUser(uid, other, hash, sid);
        SpellsWithColon(uid, other, hash, sid);
      }
    } else {
      var i :| 0 <= i < |uid| && (uid[i] == '*' || uid[i] == '?');
      TakesSessions(uid, uid[i := 'a'], "", "");
    }
  }

  lemma TakesSessions(uid: string, other: string, hash: string, sid: string)
    requires |uid| == |other|
    requires forall i :: 0 <= i < |uid| ==> uid[i] == other[i] || uid[i] == '*' || uid[i] == '?'
    ensures Glob(SessionsOf(uid), StickyKey(other, hash, sid))
  {
    var p, t, rest := "sticky:" + uid + ":", "sticky:" + other + ":", hash + ":" + sid;
    GlobSuffix([], rest);
    assert "*" + [] == "*";
    GlobInstance(p, t, "*", rest);
    assert SessionsOf(uid) == p + "*" && StickyKey(other, hash, sid) == t + rest;
  }
}
