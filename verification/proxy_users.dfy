/** Which users a proxy request can name: the credentials of its header, read as a user name with
    filters. */
module ProxyUsers {
  import opened Text
  import opened Base64
  import opened Credentials
  import opened RedisKeys
  import opened Ledger
  import opened LedgerConservation
  import Selector
  import Username
  import Quota

  /** The first two lines of `authenticate`: uid and filters of a header. */
  function Claimed(header: string): Option<(string, Selector.Filters)> {
    match ParseBasicAuth(header)
    case None => None
    case Some((user, _)) => Some(Username.Parse(Characters(user)))
  }

  ghost predicate Sendable(uid: string) {
    exists header :: Claimed(header).Some? && Claimed(header).value.0 == uid
  }

  /** Go strings are bytes; here a byte is a character below 256. */
  predicate IsBytes(s: string) {
    forall i :: 0 <= i < |s| ==> s[i] < 256 as char
  }

  function ToBytes(s: string): (bytes: seq<Byte>)
    requires IsBytes(s)
    ensures |bytes| == |s|
  {
    seq(|s|, i requires 0 <= i < |s| => s[i] as Byte)
  }

  lemma CharactersOfBytes(s: string)
    requires IsBytes(s)
    ensures Characters(ToBytes(s)) == s
    ensures ':' !in s ==> COLON !in ToBytes(s)
  {
  }

  lemma CharactersAre(user: seq<Byte>)
    requires COLON !in user
    ensures IsBytes(Characters(user)) && ':' !in Characters(user)
  {
    var s := Characters(user);
    forall i | 0 <= i < |s|
      ensures s[i] < 256 as char && s[i] != ':'
    {
      assert s[i] == user[i] as char && user[i] in user;
    }
  }

  // ---------------------------------------------------------------- pieces of a text

  /** The first text is a slice of the second. */
  predicate SliceAt(part: string, s: string, lo: nat) {
    lo + |part| <= |s| && part == s[lo..lo + |part|]
  }

  lemma SliceOfSlice(a: string, b: string, s: string, m: nat, n: nat)
    requires SliceAt(a, b, m) && SliceAt(b, s, n)
    ensures SliceAt(a, s, n + m)
  {
    forall i | 0 <= i < |a|
      ensures a[i] == s[n + m..][i]
    {
      assert a[i] == b[m + i];
      assert b[m + i] == s[n..][m + i];
    }
  }

  lemma SliceHolds(part: string, s: string, lo: nat, sep: string)
    requires SliceAt(part, s, lo) && sep != [] && !Contains(s, sep)
    ensures !Contains(part, sep)
  {
    var j := Index(part, sep);
    if j != -1 {
      SliceOfSlice(sep, part, s, j, lo);
      assert At(s, sep, lo + j);
    }
  }

  lemma SliceKeeps(part: string, s: string, lo: nat)
    requires SliceAt(part, s, lo)
    ensures IsBytes(s) ==> IsBytes(part)
    ensures ':' !in s ==> ':' !in part
  {
    forall i | 0 <= i < |part|
      ensures part[i] == s[lo + i] && part[i] in s
    {
      assert s[lo + i] in s;
    }
  }

  lemma TrimSlices(s: string) returns (lo: nat)
    ensures SliceAt(TrimSpace(s), s, lo) && Trimmed(TrimSpace(s))
  {
    lo := TrimSpaceCuts(s);
  }

  /** The piece before the first separator. */
  lemma FirstPiece(s: string, sep: string)
    requires sep != []
    ensures SliceAt(Split(s, sep)[0], s, 0) && !Contains(Split(s, sep)[0], sep)
    ensures Contains(s, sep) ==> Separable(Split(s, sep)[0], sep)
  {
    var i, p := Index(s, sep), Split(s, sep)[0];
    if i != -1 {
      assert p == s[..i];
      var j := Index(p, sep);
      if j != -1 { assert p[j..j + |sep|] == s[j..j + |sep|] && At(s, sep, j); }
      assert s == p + sep + s[i + |sep|..];
      IndexAfterPiece(p, sep, s[i + |sep|..]);
    }
  }

  // ---------------------------------------------------------------- the exact form of the uids

  /** Free of the legacy separator and of half of it at the end. */
  predicate LegacyUid(uid: string) {
    !Contains(uid, "__") && (uid == [] || Last(uid) != '_')
  }

  /** Free of both separators and of white space around. */
  predicate DashUid(uid: string) {
    !Contains(uid, "__") && '-' !in uid && Trimmed(uid)
  }

  /** Where the separator stands in a uid that is followed by it. */
  lemma HalfAt(uid: string, j: nat)
    requires j <= |uid|
    ensures At(uid + "__", "__", j)
       <==> if j == |uid| then true else if j == |uid| - 1 then Last(uid) == '_' else At(uid, "__", j)
  {
    var t := uid + "__";
    assert t[j..j + 2] == [t[j], t[j + 1]];
    if j < |uid| - 1 { assert t[j..j + 2] == uid[j..j + 2]; }
  }

  lemma EndsInHalf(uid: string)
    requires !Contains(uid, "__")
    ensures Separable(uid, "__") <==> uid == [] || Last(uid) != '_'
  {
    var i := Index(uid + "__", "__");
    HalfAt(uid, |uid|);
    assert 0 <= i <= |uid|;
    HalfAt(uid, i);
    if uid != [] { HalfAt(uid, |uid| - 1); }
  }

  lemma SentLegacy(raw: string)
    requires Contains(raw, "__")
    ensures LegacyUid(Username.Parse(raw).0) && SliceAt(Username.Parse(raw).0, raw, 0)
  {
    FirstPiece(raw, "__");
    EndsInHalf(Username.Parse(raw).0);
  }

  lemma SentDash(raw: string) returns (lo: nat)
    requires !Contains(raw, "__")
    ensures DashUid(Username.Parse(raw).0) && SliceAt(Username.Parse(raw).0, raw, lo)
  {
    lo := TrimSlices(raw);
    var trimmed := TrimSpace(raw);
    if trimmed != "" {
      var first := Split(trimmed, "-")[0];
      FirstPiece(trimmed, "-");
      var more := TrimSlices(first);
      var uid := TrimSpace(first);
      SliceOfSlice(uid, first, trimmed, more, 0);
      SliceOfSlice(uid, trimmed, raw, more, lo);
      lo := lo + more;
      HoldsNoDash(first);
      TrimKeepsChar(first, '-');
    }
    SliceHolds(Username.Parse(raw).0, raw, lo, "__");
  }

  lemma HoldsNoDash(s: string)
    ensures Contains(s, "-") <==> '-' in s
  {
    if '-' in s {
      var i :| 0 <= i < |s| && s[i] == '-';
      assert s[i..i + 1] == "-" && At(s, "-", i);
    }
    var j := Index(s, "-");
    if j != -1 { assert s[j] == s[j..j + 1][0]; }
  }

  /** What a header can claim: no colon, no legacy separator, and a trailing underscore only without
      dashes and surrounding white space. */
  lemma ClaimedForm(header: string)
    requires Claimed(header).Some?
    ensures var uid := Claimed(header).value.0;
         IsBytes(uid) && ':' !in uid && (LegacyUid(uid) || DashUid(uid))
  {
    ParsedPrintsAgain(header);
    var user := ParseBasicAuth(header).value.0;
    var raw := Characters(user);
    CharactersAre(user);
    if Contains(raw, "__") {
      SentLegacy(raw);
      SliceKeeps(Username.Parse(raw).0, raw, 0);
    } else {
      var lo := SentDash(raw);
      SliceKeeps(Username.Parse(raw).0, raw, lo);
    }
  }

  lemma SendsRaw(raw: string)
    requires IsBytes(raw) && ':' !in raw
    ensures Sendable(Username.Parse(raw).0)
  {
    CharactersOfBytes(raw);
    AuthorizationInverts(ToBytes(raw), [COLON]);
    var header := ProxyAuthorization(ToBytes(raw), [COLON]);
    assert Claimed(header) == Some(Username.Parse(raw));
  }

  lemma SendsLegacy(uid: string)
    requires LegacyUid(uid)
    ensures Username.Parse(uid + "__").0 == uid
  {
    EndsInHalf(uid);
    SplitCons(uid, "__", "");
    assert uid + "__" + "" == uid + "__";
  }

  lemma SendsDash(uid: string)
    requires DashUid(uid)
    ensures Username.Parse(uid).0 == uid
  {
    TrimmedIsFixed(uid);
    HoldsNoDash(uid);
    SplitLengths(uid, "-");
  }

  /** Exactly these uids can be named by a request: a user whose uid holds a colon or two underscores in
      a row can never log in. */
  lemma SendableExactly(uid: string)
    ensures Sendable(uid) <==> IsBytes(uid) && ':' !in uid && (LegacyUid(uid) || DashUid(uid))
  {
    if Sendable(uid) {
      var header :| Claimed(header).Some? && Claimed(header).value.0 == uid;
      ClaimedForm(header);
    }
    if IsBytes(uid) && ':' !in uid && LegacyUid(uid) {
      SendsLegacy(uid);
      SendsRaw(uid + "__");
    }
    if IsBytes(uid) && ':' !in uid && DashUid(uid) {
      SendsDash(uid);
      SendsRaw(uid);
    }
  }

  // ---------------------------------------------------------------- what follows for the ledger

  /** The uid of a request, which is what the ledger takes records of. */
  function SentUid(header: string): (uid: Option<Uid>)
    ensures uid.Some? <==> Claimed(header).Some?
  {
    match Claimed(header)
    case None => None
    case Some((uid, _)) =>
      ClaimedForm(header);
      Some(uid)
  }

  /** From the header to the ledger: no request gets in for a user whose recorded bytes reach a positive
      quota, whatever the header holds and whatever other users are called. */
  lemma RequestsEnforced(s0: State, steps: seq<Step>, header: string, now: int, passwordOk: bool)
    requires s0.flusher.Idle? && Claimed(header).Some?
    requires var uid := Claimed(header).value.0; Covered(s0, uid) && Harmless(s0, steps, uid)
    ensures var s, uid := Run(s0, steps), Claimed(header).value.0;
         var deleted := ClearedBytes(s0, steps, uid) + Dropped(s0, steps, uid, UsedBytes);
         uid in s.users && 0 < s.users[uid].quota <= UsageOf(s0, uid) + RecordedBytes(steps, uid) - deleted ==>
           !Quota.Authenticate(s, uid, now, passwordOk).Admitted?
  {
    ClaimedForm(header);
    Quota.QuotaEnforced(s0, steps, Claimed(header).value.0, now, passwordOk);
  }
}
