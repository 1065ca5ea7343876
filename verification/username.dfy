/** Proxy user names that carry filters, in two grammars: `uid__key=value__key=value` and
    `uid-key-value-key-value`. */
module Username {
  import opened Text
  import opened Selector

  type KeyValue = (string, string)

  const NONE := Filters("", "", "", "", "", "")

  const LEGACY := "__"

  const DASH := "-"

  /** The switch over the key; unknown keys are ignored. */
  function Set(f: Filters, key: string, value: string): Filters {
    if key == "region" then f.(region := value)
    else if key == "st" || key == "state" then f.(state := value)
    else if key == "city" then f.(city := value)
    else if key == "asn" then f.(asn := value)
    else if key == "isp" then f.(isp := value)
    else if key == "sid" then f.(sid := value)
    else f
  }

  /** The filters a list of pairs stands for: they are set one after the other. */
  function Fold(pairs: seq<KeyValue>): Filters {
    if pairs == [] then NONE else Set(Fold(Front(pairs)), Last(pairs).0, Last(pairs).1)
  }

  // ---------------------------------------------------------------- what the parsers compute

  /** `key=value`, cut at the first sign; without one it is skipped. */
  function Pairs(parts: seq<string>): seq<KeyValue> {
    if parts == [] then []
    else
      Pairs(Front(parts))
      + match Cut(Last(parts), '=')
        case None => []
        case Some(pair) => [pair]
  }

  function Legacy(raw: string): (string, Filters) {
    var parts := Split(raw, LEGACY);
    (parts[0], Fold(Pairs(parts[1..])))
  }

  /** Key and value alternate after the uid; a last key without a value is skipped. */
  function DashPairs(parts: seq<string>, n: nat): (pairs: seq<KeyValue>)
    requires 2 * n < |parts|
    ensures |pairs| == n
  {
    if n == 0 then []
    else DashPairs(parts, n - 1) + [(TrimSpace(parts[2 * n - 1]), TrimSpace(parts[2 * n]))]
  }

  function Dash(raw: string): (string, Filters) {
    var trimmed := TrimSpace(raw);
    if trimmed == "" then ("", NONE)
    else
      var parts := Split(trimmed, DASH);
      (TrimSpace(parts[0]), Fold(DashPairs(parts, (|parts| - 1) / 2)))
  }

  function Parse(raw: string): (string, Filters) {
    if Contains(raw, LEGACY) then Legacy(raw) else Dash(raw)
  }

  // ---------------------------------------------------------------- the loops of the parsers

  method ParseUsername(raw: string) returns (uid: string, filters: Filters)
    ensures (uid, filters) == Parse(raw)
  {
    if Contains(raw, LEGACY) {
      uid, filters := ParseLegacyUsername(raw);
    } else {
      uid, filters := ParseDashUsername(raw);
    }
  }

  method ParseLegacyUsername(raw: string) returns (uid: string, filters: Filters)
    ensures (uid, filters) == Legacy(raw)
  {
    var parts := Split(raw, LEGACY);
    filters := NONE;
    uid := parts[0];
    var rest := parts[1..];
    for i := 0 to |rest|
      invariant filters == Fold(Pairs(rest[..i]))
    {
      PairsSnoc(rest, i);
      var kv := Cut(rest[i], '=');
      if kv.None? { continue; }
      FoldSnoc(Pairs(rest[..i]), kv.value);
      filters := Set(filters, kv.value.0, kv.value.1);
    }
    assert rest[..|rest|] == rest;
  }

  method ParseDashUsername(raw: string) returns (uid: string, filters: Filters)
    ensures (uid, filters) == Dash(raw)
  {
    filters := NONE;
    var trimmed := TrimSpace(raw);
    if trimmed == "" { return "", filters; }
    var parts := Split(trimmed, DASH);
    uid := TrimSpace(parts[0]);
    if |parts| == 1 { return; }
    filters := SetPairs(parts);
  }

  /** The loop over keys and values. */
  method SetPairs(parts: seq<string>) returns (filters: Filters)
    requires parts != []
    ensures filters == Fold(DashPairs(parts, (|parts| - 1) / 2))
  {
    filters := NONE;
    var i := 1;
    ghost var n := 0;
    while i < |parts| - 1
      invariant i == 2 * n + 1 && i <= |parts|
      invariant filters == Fold(DashPairs(parts, n))
    {
      var key, value := TrimSpace(parts[i]), TrimSpace(parts[i + 1]);
      FoldSnoc(DashPairs(parts, n), (key, value));
      filters := Set(filters, key, value);
      i := i + 2;
      n := n + 1;
    }
  }

  lemma PairsSnoc(parts: seq<string>, i: nat)
    requires i < |parts|
    ensures Pairs(parts[..i + 1]) == match Cut(parts[i], '=')
                                     case None => Pairs(parts[..i])
                                     case Some(pair) => Pairs(parts[..i]) + [pair]
  {
    assert Front(parts[..i + 1]) == parts[..i];
  }

  lemma FoldSnoc(pairs: seq<KeyValue>, pair: KeyValue)
    ensures Fold(pairs + [pair]) == Set(Fold(pairs), pair.0, pair.1)
  {
    assert Front(pairs + [pair]) == pairs;
  }

  // ---------------------------------------------------------------- the last duplicate wins

  /** One of the six fields by its key; `st` and `state` name the same one. */
  function Field(f: Filters, key: string): string {
    if key == "region" then f.region
    else if key == "st" || key == "state" then f.state
    else if key == "city" then f.city
    else if key == "asn" then f.asn
    else if key == "isp" then f.isp
    else f.sid
  }

  predicate Known(key: string) {
    key == "region" || key == "st" || key == "state" || key == "city" || key == "asn" || key == "isp" || key == "sid"
  }

  predicate SameField(a: string, b: string) {
    a == b || (a == "st" && b == "state") || (a == "state" && b == "st")
  }

  lemma FieldOfSet(f: Filters, key: string, value: string, k: string)
    requires Known(k)
    ensures Field(Set(f, key, value), k) == if SameField(key, k) then value else Field(f, k)
  {
  }

  /** Index of the last pair for a field, if any. */
  function LastFor(pairs: seq<KeyValue>, key: string): (i: int)
    ensures i == -1 || (0 <= i < |pairs| && SameField(pairs[i].0, key))
    ensures forall j :: i < j < |pairs| ==> !SameField(pairs[j].0, key)
  {
    if pairs == [] then -1
    else if SameField(Last(pairs).0, key) then |pairs| - 1
    else LastFor(Front(pairs), key)
  }

  /** In either grammar, a field holds the value of the last pair that names it, or is empty. */
  lemma {:induction false} LastDuplicateWins(pairs: seq<KeyValue>, key: string)
    requires Known(key)
    ensures Field(Fold(pairs), key) == if LastFor(pairs, key) == -1 then "" else pairs[LastFor(pairs, key)].1
  {
    if pairs != [] {
      LastDuplicateWins(Front(pairs), key);
      FieldOfSet(Fold(Front(pairs)), Last(pairs).0, Last(pairs).1, key);
    }
  }

  // ---------------------------------------------------------------- printing the legacy form

  function LegacyParts(pairs: seq<KeyValue>): (parts: seq<string>)
    ensures |parts| == |pairs|
  {
    if pairs == [] then [] else LegacyParts(Front(pairs)) + [Last(pairs).0 + "=" + Last(pairs).1]
  }

  function PrintLegacy(uid: string, pairs: seq<KeyValue>): string {
    Join([uid] + LegacyParts(pairs), LEGACY)
  }

  lemma {:induction false} PairsOfLegacyParts(pairs: seq<KeyValue>)
    requires forall i :: 0 <= i < |pairs| ==> '=' !in pairs[i].0
    ensures Pairs(LegacyParts(pairs)) == pairs
  {
    if pairs != [] {
      PairsOfLegacyParts(Front(pairs));
      var (key, value) := Last(pairs);
      CutJoined(key, '=', value);
      assert key + "=" + value == key + ['='] + value;
      assert Front(LegacyParts(pairs)) == LegacyParts(Front(pairs));
      assert pairs == Front(pairs) + [Last(pairs)];
    }
  }

  /** A piece can be followed by the separator, which overlaps itself, exactly when it neither holds it
      nor ends in half of it. */
  lemma SeparableFromUnderscores(p: string)
    ensures Separable(p, LEGACY) <==> !Contains(p, LEGACY) && (p == "" || Last(p) != '_')
  {
    var t := p + LEGACY;
    assert t[|p|..|p| + 2] == LEGACY;
    forall j | 0 <= j < |p|
      ensures At(t, LEGACY, j) <==> At(p, LEGACY, j) || (j == |p| - 1 && Last(p) == '_')
    {
      if j == |p| - 1 {
        assert t[j..j + 2] == [p[j], '_'];
      } else {
        assert t[j..j + 2] == p[j..j + 2];
      }
    }
    if !Contains(p, LEGACY) && (p == "" || Last(p) != '_') {
      IndexIs(t, LEGACY, |p|);
    }
    if Contains(p, LEGACY) {
      assert At(t, LEGACY, Index(p, LEGACY));
    }
    if p != "" && Last(p) == '_' {
      assert At(t, LEGACY, |p| - 1);
    }
  }

  /** No piece holds the separator, and none but the last ends in half of it. */
  predicate LegacyClean(parts: seq<string>)
    requires parts != []
  {
    && (forall i :: 0 <= i < |parts| ==> !Contains(parts[i], LEGACY))
    && (forall i :: 0 <= i < |parts| - 1 ==> parts[i] == "" || Last(parts[i]) != '_')
  }

  /** Splitting a joined text gives the pieces back exactly when they are clean. */
  lemma LegacySplitsExactly(parts: seq<string>)
    requires parts != []
    ensures Split(Join(parts, LEGACY), LEGACY) == parts <==> LegacyClean(parts)
  {
    forall i | 0 <= i < |parts|
      ensures Separable(parts[i], LEGACY) <==> !Contains(parts[i], LEGACY) && (parts[i] == "" || Last(parts[i]) != '_')
    {
      SeparableFromUnderscores(parts[i]);
    }
    SplitJoin(parts, LEGACY);
    assert Last(parts) == parts[|parts| - 1];
  }

  lemma JoinedHoldsSeparator(parts: seq<string>, sep: string)
    requires |parts| > 1 && sep != []
    ensures Contains(Join(parts, sep), sep)
  {
    var p, s := parts[0], Join(parts, sep);
    assert s[|p|..|p| + |sep|] == sep;
    assert At(s, sep, |p|);
  }

  /** The legacy form with at least one filter is undone by parsing when its pieces are clean and its
      keys hold no equals sign; the values are free to. */
  lemma LegacyInverts(uid: string, pairs: seq<KeyValue>)
    requires pairs != [] && LegacyClean([uid] + LegacyParts(pairs))
    requires forall i :: 0 <= i < |pairs| ==> '=' !in pairs[i].0
    ensures Parse(PrintLegacy(uid, pairs)) == (uid, Fold(pairs))
  {
    var parts := [uid] + LegacyParts(pairs);
    LegacySplitsExactly(parts);
    JoinedHoldsSeparator(parts, LEGACY);
    PairsOfLegacyParts(pairs);
    assert parts[1..] == LegacyParts(pairs);
  }

  // ---------------------------------------------------------------- printing the dash form

  function DashParts(uid: string, pairs: seq<KeyValue>): (parts: seq<string>)
    ensures |parts| == 1 + 2 * |pairs|
  {
    if pairs == [] then [uid] else DashParts(uid, Front(pairs)) + [Last(pairs).0, Last(pairs).1]
  }

  function PrintDash(uid: string, pairs: seq<KeyValue>): string {
    Join(DashParts(uid, pairs), DASH)
  }

  /** Trimmed and without a dash. */
  predicate DashClean(parts: seq<string>) {
    forall i :: 0 <= i < |parts| ==> Trimmed(parts[i]) && '-' !in parts[i]
  }

  lemma SeparableFromDash(p: string)
    ensures Separable(p, DASH) <==> '-' !in p
    ensures Contains(p, DASH) <==> '-' in p
  {
    var t := p + DASH;
    assert forall j :: 0 <= j < |t| ==> (At(t, DASH, j) <==> t[j] == '-') by {
      forall j | 0 <= j < |t|
        ensures At(t, DASH, j) <==> t[j] == '-'
      {
        assert t[j..j + 1] == [t[j]];
      }
    }
    assert t[|p|] == '-';
    if '-' in p {
      var k :| 0 <= k < |p| && p[k] == '-';
      assert t[k] == '-';
    } else {
      IndexIs(t, DASH, |p|);
    }
    forall j | 0 <= j < |p|
      ensures At(p, DASH, j) <==> p[j] == '-'
    {
      assert p[j..j + 1] == [p[j]];
    }
  }

  lemma DashSplits(parts: seq<string>)
    requires parts != [] && DashClean(parts)
    ensures Split(Join(parts, DASH), DASH) == parts
  {
    forall i | 0 <= i < |parts|
      ensures Separable(parts[i], DASH) && !Contains(parts[i], DASH)
    {
      SeparableFromDash(parts[i]);
    }
    SplitJoin(parts, DASH);
    assert Last(parts) == parts[|parts| - 1];
  }

  lemma {:induction false} JoinTrimmed(parts: seq<string>)
    requires parts != [] && DashClean(parts)
    ensures Trimmed(Join(parts, DASH))
    ensures Join(parts, DASH) == "" ==> |parts| == 1 && parts[0] == ""
  {
    if |parts| > 1 {
      JoinTrimmed(parts[1..]);
      var rest := Join(parts[1..], DASH);
      var s := Join(parts, DASH);
      assert s == parts[0] + DASH + rest;
      assert s[0] == if parts[0] == "" then '-' else parts[0][0];
      assert Last(s) == if rest == "" then '-' else Last(rest);
    } else {
      assert parts == [parts[0]];
    }
  }

  lemma {:induction false} PairsOfDashParts(uid: string, pairs: seq<KeyValue>, more: seq<string>)
    requires DashClean(DashParts(uid, pairs))
    ensures DashPairs(DashParts(uid, pairs) + more, |pairs|) == pairs
    ensures DashParts(uid, pairs)[0] == uid
  {
    if pairs != [] {
      var front, tail := DashParts(uid, Front(pairs)), [Last(pairs).0, Last(pairs).1];
      var parts := DashParts(uid, pairs);
      assert forall i :: 0 <= i < |front| ==> front[i] == parts[i];
      PairsOfDashParts(uid, Front(pairs), tail + more);
      assert parts + more == front + (tail + more);
      var n := |pairs|;
      assert parts[2 * n - 1] == Last(pairs).0 && parts[2 * n] == Last(pairs).1;
      TrimmedIsFixed(parts[2 * n - 1]);
      TrimmedIsFixed(parts[2 * n]);
      assert pairs == Front(pairs) + [Last(pairs)];
    }
  }

  /** The dash form is undone by parsing when its pieces are trimmed and without dashes, and nothing in
      it reads as the legacy separator. */
  lemma DashInverts(uid: string, pairs: seq<KeyValue>)
    requires DashClean(DashParts(uid, pairs)) && !Contains(PrintDash(uid, pairs), LEGACY)
    ensures Parse(PrintDash(uid, pairs)) == (uid, Fold(pairs))
  {
    DashOnlyInverts(uid, pairs);
  }

  lemma DashOnlyInverts(uid: string, pairs: seq<KeyValue>)
    requires DashClean(DashParts(uid, pairs))
    ensures Dash(PrintDash(uid, pairs)) == (uid, Fold(pairs))
  {
    var parts, raw := DashParts(uid, pairs), PrintDash(uid, pairs);
    JoinTrimmed(parts);
    TrimmedIsFixed(raw);
    PairsOfDashParts(uid, pairs, []);
    assert parts + [] == parts;
    if raw == "" {
      BlankPrint(uid, pairs);
    } else {
      DashPiecesInvert(uid, pairs, raw);
      DashOf(raw, uid, pairs);
    }
  }

  lemma BlankPrint(uid: string, pairs: seq<KeyValue>)
    requires |DashParts(uid, pairs)| == 1 && DashParts(uid, pairs)[0] == "" && DashParts(uid, pairs)[0] == uid
    ensures uid == "" && Fold(pairs) == NONE
  {
    assert |pairs| == 0;
  }

  /** What the dash parser returns for a trimmed text with these pieces. */
  lemma DashOf(raw: string, uid: string, pairs: seq<KeyValue>)
    requires raw != "" && TrimSpace(raw) == raw
    requires var parts := Split(raw, DASH);
          TrimSpace(parts[0]) == uid && DashPairs(parts, (|parts| - 1) / 2) == pairs
    ensures Dash(raw) == (uid, Fold(pairs))
  {
  }

  lemma DashPiecesInvert(uid: string, pairs: seq<KeyValue>, raw: string)
    requires DashClean(DashParts(uid, pairs)) && raw == Join(DashParts(uid, pairs), DASH)
    requires DashParts(uid, pairs)[0] == uid && DashPairs(DashParts(uid, pairs), |pairs|) == pairs
    ensures var parts := Split(raw, DASH);
         TrimSpace(parts[0]) == uid && DashPairs(parts, (|parts| - 1) / 2) == pairs
  {
    DashSplits(DashParts(uid, pairs));
    TrimmedIsFixed(uid);
  }

  // ---------------------------------------------------------------- printing filters

  function Given(key: string, value: string): seq<KeyValue> {
    if value == "" then [] else [(key, value)]
  }

  /** The pairs of the fields that are not empty. */
  function PairsOf(f: Filters): seq<KeyValue> {
    Given("region", f.region) + Given("state", f.state) + Given("city", f.city)
    + Given("asn", f.asn) + Given("isp", f.isp) + Given("sid", f.sid)
  }

  lemma FoldGiven(pairs: seq<KeyValue>, key: string, value: string)
    ensures Fold(pairs + Given(key, value)) == if value == "" then Fold(pairs) else Set(Fold(pairs), key, value)
  {
    if value == "" {
      assert pairs + Given(key, value) == pairs;
    } else {
      FoldSnoc(pairs, (key, value));
    }
  }

  lemma SetEach(f: Filters, value: string)
    ensures Set(f, "region", value) == f.(region := value) && Set(f, "state", value) == f.(state := value)
    ensures Set(f, "city", value) == f.(city := value) && Set(f, "asn", value) == f.(asn := value)
    ensures Set(f, "isp", value) == f.(isp := value) && Set(f, "sid", value) == f.(sid := value)
  {
  }

  /** Folding the pairs of filters gives the filters back. */
  lemma FiltersInvert(f: Filters)
    ensures Fold(PairsOf(f)) == f
  {
    var p1 := Given("region", f.region);
    var p3 := p1 + Given("state", f.state) + Given("city", f.city);
    FirstThree(f, p3);
    LastThree(f, p3);
  }

  lemma FirstThree(f: Filters, pairs: seq<KeyValue>)
    requires pairs == Given("region", f.region) + Given("state", f.state) + Given("city", f.city)
    ensures Fold(pairs) == Filters(f.region, f.state, f.city, "", "", "")
  {
    FoldGiven([], "region", f.region);
    assert [] + Given("region", f.region) == Given("region", f.region);
    SetEach(NONE, f.region);
    FoldGiven(Given("region", f.region), "state", f.state);
    SetEach(Filters(f.region, "", "", "", "", ""), f.state);
    FoldGiven(Given("region", f.region) + Given("state", f.state), "city", f.city);
    SetEach(Filters(f.region, f.state, "", "", "", ""), f.city);
  }

  lemma LastThree(f: Filters, pairs: seq<KeyValue>)
    requires Fold(pairs) == Filters(f.region, f.state, f.city, "", "", "")
    ensures Fold(pairs + Given("asn", f.asn) + Given("isp", f.isp) + Given("sid", f.sid)) == f
  {
    FoldGiven(pairs, "asn", f.asn);
    SetEach(Filters(f.region, f.state, f.city, "", "", ""), f.asn);
    FoldGiven(pairs + Given("asn", f.asn), "isp", f.isp);
    SetEach(Filters(f.region, f.state, f.city, f.asn, "", ""), f.isp);
    FoldGiven(pairs + Given("asn", f.asn) + Given("isp", f.isp), "sid", f.sid);
    SetEach(Filters(f.region, f.state, f.city, f.asn, f.isp, ""), f.sid);
  }

  lemma KeysOfPairs(f: Filters)
    ensures forall i :: 0 <= i < |PairsOf(f)| ==> '=' !in PairsOf(f)[i].0
    ensures f != NONE ==> PairsOf(f) != []
  {
  }

  /** Printing a uid and filters in the legacy form and parsing gives both back. */
  lemma LegacyFiltersInvert(uid: string, f: Filters)
    requires f != NONE && LegacyClean([uid] + LegacyParts(PairsOf(f)))
    ensures Parse(PrintLegacy(uid, PairsOf(f))) == (uid, f)
  {
    FiltersInvert(f);
    KeysOfPairs(f);
    LegacyInverts(uid, PairsOf(f));
  }

  /** The same for the dash form. */
  lemma DashFiltersInvert(uid: string, f: Filters)
    requires DashClean(DashParts(uid, PairsOf(f))) && !Contains(PrintDash(uid, PairsOf(f)), LEGACY)
    ensures Parse(PrintDash(uid, PairsOf(f))) == (uid, f)
  {
    FiltersInvert(f);
    DashInverts(uid, PairsOf(f));
  }
}
