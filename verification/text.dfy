/** String operations of Go's standard library that the gateway leans on: searching, splitting,
    joining, trimming and decimal printing, with the facts about them the other modules use. */
module Text {

  datatype Option<+T> = None | Some(value: T)

  /** The results of a function for the first elements, unless it has none for one of them. */
  function Collect<X, Y>(f: X -> Option<Y>, xs: seq<X>, n: nat): (ys: Option<seq<Y>>)
    requires n <= |xs|
    ensures ys.Some? ==> |ys.value| == n
  {
    if n == 0 then Some([])
    else match Collect(f, xs, n - 1)
      case None => None
      case Some(ys) => match f(xs[n - 1]) case None => None case Some(y) => Some(ys + [y])
  }

  lemma {:induction false} CollectIs<X, Y>(f: X -> Option<Y>, xs: seq<X>, n: nat)
    requires n <= |xs|
    ensures Collect(f, xs, n).Some? <==> forall i :: 0 <= i < n ==> f(xs[i]).Some?
    ensures Collect(f, xs, n).Some? ==> forall i :: 0 <= i < n ==> f(xs[i]) == Some(Collect(f, xs, n).value[i])
  {
    if n > 0 { CollectIs(f, xs, n - 1); }
  }

  lemma {:induction false} CollectStops<X, Y>(f: X -> Option<Y>, xs: seq<X>, n: nat, m: nat)
    requires n <= m <= |xs| && Collect(f, xs, n).None?
    ensures Collect(f, xs, m).None?
  {
    if n < m { CollectStops(f, xs, n, m - 1); }
  }

  /** One element more, or none from there on. */
  lemma CollectSnoc<X, Y>(f: X -> Option<Y>, xs: seq<X>, n: nat, ys: seq<Y>)
    requires n < |xs| && Collect(f, xs, n) == Some(ys)
    ensures f(xs[n]).Some? ==> Collect(f, xs, n + 1) == Some(ys + [f(xs[n]).value])
    ensures f(xs[n]).None? ==> Collect(f, xs, |xs|) == None
  {
    if f(xs[n]).None? { CollectStops(f, xs, n + 1, |xs|); }
  }

  function Front<T>(s: seq<T>): seq<T>
    requires s != []
  {
    s[..|s| - 1]
  }

  function Last<T>(s: seq<T>): T
    requires s != []
  {
    s[|s| - 1]
  }

  // ---------------------------------------------------------------- decimal printing

  function Digit(n: nat): char
    requires n < 10
  {
    '0' + n as char
  }

  /** The decimal form of a natural number, as `%d` prints it. */
  function Decimal(n: nat): (s: string)
    ensures s != []
    ensures forall i :: 0 <= i < |s| ==> '0' <= s[i] <= '9'
  {
    if n < 10 then [Digit(n)] else Decimal(n / 10) + [Digit(n % 10)]
  }

  /** The decimal form of an integer, as `%d` prints it. */
  function Itoa(n: int): string {
    if n < 0 then "-" + Decimal(-n) else Decimal(n)
  }

  lemma ItoaHoldsNoColon(n: int)
    ensures ':' !in Itoa(n)
  {
  }

  function DigitValue(c: char): nat
    requires '0' <= c <= '9'
  {
    (c - '0') as nat
  }

  function ParseDecimal(s: string): nat
    requires forall i :: 0 <= i < |s| ==> '0' <= s[i] <= '9'
  {
    if s == [] then 0 else 10 * ParseDecimal(Front(s)) + DigitValue(Last(s))
  }

  lemma {:induction false} ParseDecimalInverts(n: nat)
    ensures ParseDecimal(Decimal(n)) == n
  {
    if n < 10 {
      assert Decimal(n) == [Digit(n)];
      assert ParseDecimal([]) == 0;
      assert Front(Decimal(n)) == [];
    } else {
      ParseDecimalInverts(n / 10);
      assert Front(Decimal(n)) == Decimal(n / 10);
    }
  }

  lemma ItoaInjective(m: int, n: int)
    requires Itoa(m) == Itoa(n)
    ensures m == n
  {
    ParseDecimalInverts(if m < 0 then -m else m);
    ParseDecimalInverts(if n < 0 then -n else n);
    if m < 0 {
      assert Itoa(m)[0] == '-';
      assert Itoa(m)[1..] == Decimal(-m);
    }
    if n < 0 {
      assert Itoa(n)[0] == '-';
      assert Itoa(n)[1..] == Decimal(-n);
    }
  }

  // ---------------------------------------------------------------- searching

  /** The pattern occurs in the text at this position. */
  predicate At(s: string, sep: string, i: int) {
    0 <= i <= |s| - |sep| && s[i..i + |sep|] == sep
  }

  lemma AtShifted(s: string, sep: string)
    requires s != []
    ensures forall j {:trigger At(s, sep, j)} :: 1 <= j ==> (At(s, sep, j) <==> At(s[1..], sep, j - 1))
  {
    forall j | 1 <= j
      ensures At(s, sep, j) <==> At(s[1..], sep, j - 1)
    {
      if j + |sep| <= |s| { assert s[1..][j - 1..j - 1 + |sep|] == s[j..j + |sep|]; }
    }
  }

  /** The leftmost occurrence of a non-empty pattern, or -1. */
  function Index(s: string, sep: string): (i: int)
    requires sep != []
    ensures i == -1 || At(s, sep, i)
    ensures forall j :: (i == -1 || j < i) ==> !At(s, sep, j)
    decreases |s|
  {
    if |s| < |sep| then -1
    else if At(s, sep, 0) then 0
    else
      AtShifted(s, sep);
      var i := Index(s[1..], sep);
      if i == -1 then -1 else i + 1
  }

  predicate Contains(s: string, sep: string)
    requires sep != []
  {
    Index(s, sep) != -1
  }

  lemma IndexIs(s: string, sep: string, i: int)
    requires sep != [] && At(s, sep, i)
    requires forall j :: 0 <= j < i ==> !At(s, sep, j)
    ensures Index(s, sep) == i
  {
  }

  /** Text before and after the first occurrence of a character, when there is one. */
  function Cut<T(==)>(s: seq<T>, c: T): (r: Option<(seq<T>, seq<T>)>)
    ensures r.None? <==> c !in s
    ensures r.Some? ==> c !in r.value.0 && s == r.value.0 + [c] + r.value.1
  {
    if s == [] then None
    else if s[0] == c then Some(([], s[1..]))
    else match Cut(s[1..], c)
      case None => None
      case Some((a, b)) =>
        assert s == [s[0]] + s[1..];
        Some(([s[0]] + a, b))
  }

  /** Cutting at the first separator gives back a pair whose first part is free of it. */
  lemma {:induction false} CutJoined<T>(a: seq<T>, c: T, b: seq<T>)
    requires c !in a
    ensures Cut(a + [c] + b, c) == Some((a, b))
  {
    var s := a + [c] + b;
    if a == [] {
      assert s[1..] == b;
    } else {
      assert s[1..] == a[1..] + [c] + b;
      CutJoined(a[1..], c, b);
      assert a == [a[0]] + a[1..];
    }
  }

  // ---------------------------------------------------------------- splitting and joining

  /** The pieces between the leftmost non-overlapping separators. */
  function Split(s: string, sep: string): (parts: seq<string>)
    requires sep != []
    ensures parts != []
    decreases |s|
  {
    var i := Index(s, sep);
    if i == -1 then [s] else [s[..i]] + Split(s[i + |sep|..], sep)
  }

  function Join(parts: seq<string>, sep: string): string
    requires parts != []
  {
    if |parts| == 1 then parts[0] else parts[0] + sep + Join(parts[1..], sep)
  }

  /** The first separator after this piece is the one appended to it. */
  predicate Separable(p: string, sep: string)
    requires sep != []
  {
    Index(p + sep, sep) == |p|
  }

  /** Every piece but the last can be followed by a separator, and the last holds none. */
  predicate Splittable(parts: seq<string>, sep: string)
    requires parts != [] && sep != []
  {
    && (forall i :: 0 <= i < |parts| - 1 ==> Separable(parts[i], sep))
    && !Contains(Last(parts), sep)
  }

  lemma IndexAfterPiece(p: string, sep: string, rest: string)
    requires sep != []
    ensures Index(p + sep + rest, sep) == |p| <==> Separable(p, sep)
  {
    var s, t := p + sep + rest, p + sep;
    forall j | 0 <= j <= |p|
      ensures At(s, sep, j) <==> At(t, sep, j)
    {
      assert s[j..j + |sep|] == t[j..j + |sep|];
    }
    assert t[|p|..|p| + |sep|] == sep;
    assert At(s, sep, |p|) && At(t, sep, |p|);
    if Separable(p, sep) {
      assert forall j :: 0 <= j < |p| ==> !At(t, sep, j);
      IndexIs(s, sep, |p|);
    }
    if Index(s, sep) == |p| {
      assert forall j :: 0 <= j < |p| ==> !At(s, sep, j);
      IndexIs(t, sep, |p|);
    }
  }

  /** A splittable list of pieces is a separable head before a splittable rest. */
  lemma SplittableCons(parts: seq<string>, sep: string)
    requires |parts| > 1 && sep != []
    ensures Splittable(parts, sep) <==> Separable(parts[0], sep) && Splittable(parts[1..], sep)
  {
    var rest := parts[1..];
    assert Last(parts) == Last(rest);
    if Separable(parts[0], sep) && Splittable(rest, sep) {
      forall k | 0 <= k < |parts| - 1
        ensures Separable(parts[k], sep)
      {
        if k > 0 { assert parts[k] == rest[k - 1]; }
      }
    }
    if Splittable(parts, sep) {
      forall k | 0 <= k < |rest| - 1
        ensures Separable(rest[k], sep)
      {
        assert rest[k] == parts[k + 1];
      }
    }
  }

  /** One step of splitting a joined text. */
  lemma SplitCons(p: string, sep: string, tail: string)
    requires sep != []
    ensures Separable(p, sep) ==> Split(p + sep + tail, sep) == [p] + Split(tail, sep)
    ensures !Separable(p, sep) ==> Split(p + sep + tail, sep)[0] != p
  {
    var s := p + sep + tail;
    IndexAfterPiece(p, sep, tail);
    assert s[|p|..|p| + |sep|] == sep;
    assert At(s, sep, |p|);
    var i := Index(s, sep);
    assert Split(s, sep)[0] == s[..i];
    if i == |p| {
      assert s[..i] == p;
      assert s[i + |sep|..] == tail;
    }
  }

  /** Splitting undoes joining exactly for splittable pieces, whether or not the separator
      overlaps itself. */
  lemma {:induction false} SplitJoin(parts: seq<string>, sep: string)
    requires parts != [] && sep != []
    ensures Split(Join(parts, sep), sep) == parts <==> Splittable(parts, sep)
    decreases |parts|
  {
    if |parts| == 1 {
      SplitLengths(parts[0], sep);
      assert parts == [parts[0]];
    } else {
      var rest, tail := parts[1..], Join(parts[1..], sep);
      SplitJoin(rest, sep);
      SplittableCons(parts, sep);
      SplitCons(parts[0], sep, tail);
      assert Join(parts, sep) == parts[0] + sep + tail;
      SplitHead(parts, Split(tail, sep), Split(Join(parts, sep), sep), Separable(parts[0], sep));
    }
  }

  /** A list equals its head before another list exactly when its tail is that list. */
  lemma SplitHead(parts: seq<string>, rest: seq<string>, all: seq<string>, separable: bool)
    requires parts != [] && all != []
    requires if separable then all == [parts[0]] + rest else all[0] != parts[0]
    ensures all == parts <==> separable && rest == parts[1..]
  {
    assert parts == [parts[0]] + parts[1..];
    if separable { assert all[1..] == rest; }
  }

  lemma SplitLengths(s: string, sep: string)
    requires sep != []
    ensures Split(s, sep) == [s] <==> !Contains(s, sep)
  {
    var i, parts := Index(s, sep), Split(s, sep);
    if i != -1 {
      var rest := Split(s[i + |sep|..], sep);
      assert parts == [s[..i]] + rest;
      assert |parts| == 1 + |rest| > 1;
    }
  }

  // ---------------------------------------------------------------- trimming

  /** ASCII white space, as `strings.TrimSpace` sees it in ASCII text. */
  predicate IsSpace(c: char) {
    c == ' ' || c == '\t' || c == '\n' || c == '\r' || c == 11 as char || c == 12 as char
  }

  function TrimLeft(s: string): string
  {
    if s == [] || !IsSpace(s[0]) then s else TrimLeft(s[1..])
  }

  function TrimRight(s: string): string
  {
    if s == [] || !IsSpace(Last(s)) then s else TrimRight(Front(s))
  }

  function TrimSpace(s: string): string {
    TrimRight(TrimLeft(s))
  }

  /** No white space at either end. */
  predicate Trimmed(s: string) {
    s == [] || (!IsSpace(s[0]) && !IsSpace(Last(s)))
  }

  /** All white space: tab, line feed, vertical tab, form feed, carriage return, space. */
  predicate Blank(s: string) {
    forall i :: 0 <= i < |s| ==> s[i] as int in {9, 10, 11, 12, 13, 32}
  }

  /** Between blanks at both ends is this core, which does not begin or end with white space itself. */
  predicate CoreAt(s: string, core: string, i: nat) {
    && i + |core| <= |s| && s[i..i + |core|] == core && Trimmed(core)
    && Blank(s[..i]) && Blank(s[i + |core|..])
  }

  lemma BlankIs(c: char)
    ensures IsSpace(c) <==> Blank([c])
  {
    assert [c][0] == c;
  }

  lemma {:induction false} TrimLeftCuts(s: string) returns (i: nat)
    ensures i <= |s| && TrimLeft(s) == s[i..] && Blank(s[..i])
    ensures TrimLeft(s) == [] || !IsSpace(TrimLeft(s)[0])
  {
    if s == [] || !IsSpace(s[0]) {
      i := 0;
    } else {
      var j := TrimLeftCuts(s[1..]);
      i := j + 1;
      BlankIs(s[0]);
      assert s[..i] == [s[0]] + s[1..][..j];
      assert [s[0]][0] == s[0];
      assert s[1..][j..] == s[i..];
    }
  }

  lemma {:induction false} TrimRightCuts(s: string) returns (n: nat)
    ensures n <= |s| && TrimRight(s) == s[..n] && Blank(s[n..])
    ensures TrimRight(s) == [] || !IsSpace(Last(TrimRight(s)))
  {
    if s == [] || !IsSpace(Last(s)) {
      n := |s|;
    } else {
      n := TrimRightCuts(Front(s));
      BlankIs(Last(s));
      assert s[n..] == Front(s)[n..] + [Last(s)];
      assert [Last(s)][0] == Last(s);
    }
  }

  /** Trimming leaves the core. */
  lemma TrimSpaceCuts(s: string) returns (i: nat)
    ensures CoreAt(s, TrimSpace(s), i)
  {
    i := TrimLeftCuts(s);
    var left := TrimLeft(s);
    var n := TrimRightCuts(left);
    assert s[i + n..] == left[n..];
    assert s[i..i + n] == left[..n];
  }

  lemma {:induction false} TrimLeftFinds(s: string, i: nat)
    requires i <= |s| && Blank(s[..i]) && (i == |s| || !IsSpace(s[i]))
    ensures TrimLeft(s) == s[i..]
  {
    if i > 0 {
      BlankIs(s[0]);
      assert s[..i][0] == s[0] && [s[0]][0] == s[0];
      assert s[1..][..i - 1] == s[..i][1..];
      TrimLeftFinds(s[1..], i - 1);
      assert s[1..][i - 1..] == s[i..];
    }
  }

  lemma {:induction false} TrimRightFinds(s: string, n: nat)
    requires n <= |s| && Blank(s[n..]) && (n == 0 || !IsSpace(s[n - 1]))
    ensures TrimRight(s) == s[..n]
  {
    if n < |s| {
      BlankIs(Last(s));
      assert s[n..][|s| - 1 - n] == Last(s) && [Last(s)][0] == Last(s);
      assert Front(s)[n..] == Front(s[n..]);
      TrimRightFinds(Front(s), n);
    }
  }

  /** A core that is not empty is what trimming leaves. */
  lemma TrimSpaceFinds(s: string, core: string, i: nat)
    requires CoreAt(s, core, i) && core != []
    ensures TrimSpace(s) == core
  {
    assert s[i] == core[0];
    TrimLeftFinds(s, i);
    assert s[i..][|core|..] == s[i + |core|..];
    assert s[i..][|core| - 1] == Last(core);
    TrimRightFinds(s[i..], |core|);
  }

  lemma TrimmedIsFixed(s: string)
    requires Trimmed(s)
    ensures TrimSpace(s) == s
  {
    assert TrimLeft(s) == s;
  }

  function ToLowerChar(c: char): char {
    if 'A' <= c <= 'Z' then c - 'A' + 'a' else c
  }

  function ToLower(s: string): string {
    if s == [] then [] else [ToLowerChar(s[0])] + ToLower(s[1..])
  }

  /** The same letters in any case, for a text in lower case. */
  predicate SameLetters(s: string, lower: string) {
    && |s| == |lower|
    && forall i :: 0 <= i < |s| ==>
         s[i] == lower[i] || (65 <= s[i] as int <= 90 && s[i] as int + 32 == lower[i] as int)
  }

  lemma {:induction false} ToLowerIs(s: string, lower: string)
    requires forall i :: 0 <= i < |lower| ==> !(65 <= lower[i] as int <= 90)
    ensures ToLower(s) == lower <==> SameLetters(s, lower)
  {
    if s != [] && lower != [] {
      ToLowerIs(s[1..], lower[1..]);
      assert lower == [lower[0]] + lower[1..];
      assert SameLetters(s, lower) ==> SameLetters(s[1..], lower[1..]);
      if ToLower(s) == lower {
        assert lower[0] == ToLowerChar(s[0]) && lower[1..] == ToLower(s[1..]);
        forall i | 0 <= i < |s|
          ensures s[i] == lower[i] || (65 <= s[i] as int <= 90 && s[i] as int + 32 == lower[i] as int)
        {
          if i > 0 { assert s[i] == s[1..][i - 1] && lower[i] == lower[1..][i - 1]; }
        }
      }
      if SameLetters(s, lower) {
        assert ToLowerChar(s[0]) == lower[0];
      }
    }
  }

  lemma {:induction false} ToLowerKeepsChar(s: string, c: char)
    requires c !in s && !('A' <= c <= 'Z') && !('a' <= c <= 'z')
    ensures c !in ToLower(s)
  {
    if s != [] {
      assert s[0] in s;
      ToLowerKeepsChar(s[1..], c);
    }
  }

  lemma {:induction false} ToLowerKeepsPresent(s: string, c: char)
    requires c in s && !('A' <= c <= 'Z')
    ensures c in ToLower(s)
  {
    if s[0] != c {
      ToLowerKeepsPresent(s[1..], c);
    }
  }

  lemma TrimKeepsChar(s: string, c: char)
    requires !IsSpace(c)
    ensures c in TrimSpace(s) <==> c in s
  {
    TrimLeftKeepsChar(s, c);
    TrimRightKeepsChar(TrimLeft(s), c);
  }

  lemma {:induction false} TrimLeftKeepsChar(s: string, c: char)
    requires !IsSpace(c)
    ensures c in TrimLeft(s) <==> c in s
  {
    if s != [] && IsSpace(s[0]) {
      TrimLeftKeepsChar(s[1..], c);
      assert s == [s[0]] + s[1..];
    } else {
      assert TrimLeft(s) == s;
    }
  }

  lemma {:induction false} TrimRightKeepsChar(s: string, c: char)
    requires !IsSpace(c)
    ensures c in TrimRight(s) <==> c in s
  {
    if s != [] && IsSpace(Last(s)) {
      TrimRightKeepsChar(Front(s), c);
      assert s == Front(s) + [Last(s)];
    }
  }
}
