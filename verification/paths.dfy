/** Dotted comparison paths, and the string order in which the engine visits them. */
module Paths {

  /** The path is the declaration or starts with it and a dot. */
  predicate PathCovers(declaration: string, path: string) {
    path == declaration || declaration + "." <= path
  }

  predicate PathsOverlap(left: string, right: string) {
    left == right || right + "." <= left || left + "." <= right
  }

  /** The path of a key below another path; below the empty path it is the key itself. */
  function Child(path: string, key: string): string {
    if path == "" then key else path + "." + key
  }

  // ----- covering is a tree order -----

  lemma {:induction false} CoversTransitive(a: string, b: string, c: string)
    requires PathCovers(a, b) && PathCovers(b, c)
    ensures PathCovers(a, c)
  {
    if b != a && c != b {
      assert c[..|a| + 1] == b[..|a| + 1];
    }
  }

  lemma {:induction false} CoversComparable(a: string, b: string, path: string)
    requires PathCovers(a, path) && PathCovers(b, path) && |a| <= |b|
    ensures PathCovers(a, b)
  {
    assert a == path[..|a|] && b == path[..|b|];
    if |a| < |b| {
      assert path[|a|] == '.';
      assert b[..|a| + 1] == a + ".";
    }
  }

  lemma {:induction false} CoversAntisymmetric(a: string, b: string)
    requires PathCovers(a, b) && PathCovers(b, a)
    ensures a == b
  {
  }

  lemma {:induction false} OverlapIffSharedPath(a: string, b: string)
    ensures PathsOverlap(a, b) <==> exists path :: PathCovers(a, path) && PathCovers(b, path)
  {
    if PathsOverlap(a, b) {
      var path := if |a| <= |b| then b else a;
      assert PathCovers(a, path) && PathCovers(b, path);
    }
    forall path | PathCovers(a, path) && PathCovers(b, path)
      ensures PathsOverlap(a, b)
    {
      if |a| <= |b| { CoversComparable(a, b, path); } else { CoversComparable(b, a, path); }
    }
  }

  lemma {:induction false} ChildCovers(path: string, a: string, b: string)
    ensures PathCovers(Child(path, a), Child(path, b)) <==> PathCovers(a, b)
  {
    if path != "" {
      var p := path + ".";
      assert Child(path, a) == p + a && Child(path, b) == p + b;
      assert (p + a) + "." == p + (a + ".");
      assert (p + b)[|p|..] == b && (p + a)[|p|..] == a;
      if p + (a + ".") <= p + b {
        assert a + "." == (p + b)[|p|..|p| + |a| + 1] == b[..|a| + 1];
      }
      if a + "." <= b {
        assert (p + b)[..|p| + |a| + 1] == p + b[..|a| + 1];
      }
    }
  }

  lemma {:induction false} ChildAssociative(path: string, a: string, b: string)
    requires a != "" || path != ""
    ensures Child(Child(path, a), b) == Child(path, a + "." + b)
  {
    if path != "" {
      assert path + "." + a + "." + b == path + "." + (a + "." + b);
    }
  }

  // ----- dotted strings and their segments; `dot` is the separator -----

  function Split(s: string, dot: char := '.'): (segments: seq<string>)
    ensures |segments| >= 1
    ensures forall i :: 0 <= i < |segments| ==> dot !in segments[i]
  {
    if s == "" then [""]
    else if s[0] == dot then [""] + Split(s[1..], dot)
    else
      var rest := Split(s[1..], dot);
      [[s[0]] + rest[0]] + rest[1..]
  }

  function Join(segments: seq<string>, dot: char := '.'): string {
    if |segments| == 0 then ""
    else if |segments| == 1 then segments[0]
    else segments[0] + [dot] + Join(segments[1..], dot)
  }

  lemma {:induction false} JoinSplit(s: string, dot: char := '.')
    ensures Join(Split(s, dot), dot) == s
  {
    if s != "" {
      JoinSplit(s[1..], dot);
      var rest := Split(s[1..], dot);
      if s[0] == dot {
        assert Split(s, dot)[1..] == rest;
      } else {
        assert Split(s, dot)[1..] == rest[1..];
        assert s == [s[0]] + s[1..];
      }
    }
  }

  lemma {:induction false} SplitConcat(a: string, b: string, dot: char := '.')
    ensures Split(a + [dot] + b, dot) == Split(a, dot) + Split(b, dot)
  {
    var s := a + [dot] + b;
    if a == "" {
      assert s[1..] == b;
    } else {
      assert s[1..] == a[1..] + [dot] + b;
      SplitConcat(a[1..], b, dot);
    }
  }

  /** A child's path has the segments of its parent's, and then its own. */
  lemma {:induction false} ChildSegments(path: string, key: string)
    ensures Split(Child(path, key)) == if path == "" then Split(key) else Split(path) + Split(key)
  {
    if path != "" { SplitConcat(path, key); }
  }

  lemma {:induction false} JoinConcat(x: seq<string>, y: seq<string>, dot: char := '.')
    requires |x| >= 1 && |y| >= 1
    ensures Join(x + y, dot) == Join(x, dot) + [dot] + Join(y, dot)
  {
    assert (x + y)[1..] == x[1..] + y;
    if |x| > 1 {
      JoinConcat(x[1..], y, dot);
      assert x[0] + [dot] + (Join(x[1..], dot) + [dot] + Join(y, dot))
          == (x[0] + [dot] + Join(x[1..], dot)) + [dot] + Join(y, dot);
    } else {
      assert x[1..] + y == y;
    }
  }

  lemma {:induction false} SplitDotFree(s: string, dot: char := '.')
    requires dot !in s
    ensures Split(s, dot) == [s]
  {
    if s != "" {
      SplitDotFree(s[1..], dot);
      assert s == [s[0]] + s[1..];
    }
  }

  lemma {:induction false} SplitJoin(segments: seq<string>, dot: char := '.')
    requires |segments| >= 1
    requires forall i :: 0 <= i < |segments| ==> dot !in segments[i]
    ensures Split(Join(segments, dot), dot) == segments
  {
    SplitDotFree(segments[0], dot);
    if |segments| > 1 {
      SplitJoin(segments[1..], dot);
      SplitConcat(segments[0], Join(segments[1..], dot), dot);
    }
  }

  /** The textual prefix test is exactly the prefix test on dotted segments. */
  lemma {:induction false} CoversIsSegmentPrefix(declaration: string, path: string)
    ensures PathCovers(declaration, path) <==> Split(declaration) <= Split(path)
  {
    JoinSplit(declaration);
    JoinSplit(path);
    if PathCovers(declaration, path) && path != declaration {
      var rest := path[|declaration| + 1..];
      assert path == declaration + "." + rest;
      SplitConcat(declaration, rest);
    }
    if Split(declaration) <= Split(path) && path != declaration {
      var rest := Split(path)[|Split(declaration)|..];
      assert Split(path) == Split(declaration) + rest;
      assert Split(path) != Split(declaration);
      JoinConcat(Split(declaration), rest);
    }
  }

  // ----- decimal sequence indices -----

  predicate IsDigits(s: string) {
    s != "" && forall i :: 0 <= i < |s| ==> '0' <= s[i] <= '9'
  }

  function Decimal(n: nat): (s: string)
    ensures IsDigits(s)
  {
    var last := [('0' as int + n % 10) as char];
    if n < 10 then last else Decimal(n / 10) + last
  }

  function Number(s: string): nat
    requires s == "" || IsDigits(s)
  {
    if s == "" then 0
    else
      Number(s[..|s| - 1]) * 10 + (s[|s| - 1] as int - '0' as int)
  }

  lemma {:induction false} NumberOfDecimal(n: nat)
    ensures Number(Decimal(n)) == n
  {
    var s := Decimal(n);
    if n < 10 {
      assert s[..|s| - 1] == "";
    } else {
      NumberOfDecimal(n / 10);
      assert s[..|s| - 1] == Decimal(n / 10);
    }
  }

  /** The digits weigh powers of ten, the first the most. */
  ghost function PlaceValue(s: string): int {
    if s == "" then 0 else (s[0] as int - '0' as int) * Power(|s| - 1) + PlaceValue(s[1..])
  }

  ghost function Power(n: nat): (p: nat) { if n == 0 then 1 else 10 * Power(n - 1) }

  lemma {:induction false} OneMoreDigit(d: int, p: int, rest: int, u: int)
    ensures d * (10 * p) + (10 * rest + u) == 10 * (d * p + rest) + u
  {}

  lemma {:induction false} PlaceValueGrows(s: string, c: char)
    ensures PlaceValue(s + [c]) == 10 * PlaceValue(s) + (c as int - '0' as int)
  {
    var more := s + [c];
    if s == "" {
      assert more[1..] == "" && Power(0) == 1;
    } else {
      var d, u := s[0] as int - '0' as int, c as int - '0' as int;
      PlaceValueGrows(s[1..], c);
      assert more[1..] == s[1..] + [c] && more[0] == s[0];
      OneMoreDigit(d, Power(|s| - 1), PlaceValue(s[1..]), u);
    }
  }

  lemma {:induction false} NumberIsPlaceValue(s: string)
    requires s == "" || IsDigits(s)
    ensures Number(s) == PlaceValue(s)
  {
    if s != "" {
      var front, last := s[..|s| - 1], s[|s| - 1];
      NumberIsPlaceValue(front);
      PlaceValueGrows(front, last);
      assert s == front + [last];
    }
  }

  lemma {:induction false} LeadingDigit(s: string)
    requires IsDigits(s) && s[0] != '0'
    ensures Number(s) >= 1
  {
    if |s| > 1 { LeadingDigit(s[..|s| - 1]); } else { assert s[..0] == ""; }
  }

  /** `str` of a number: the digit string of that value without a leading zero. */
  lemma {:induction false} DecimalExact(n: nat, s: string)
    requires IsDigits(s)
    ensures (s == Decimal(n)) == (PlaceValue(s) == n && (|s| == 1 || s[0] != '0'))
  {
    NumberIsPlaceValue(s);
    NumberOfDecimal(n);
    if n >= 10 { DecimalExact(n / 10, Decimal(n / 10)); }
    if Number(s) == n && (|s| == 1 || s[0] != '0') {
      var front := s[..|s| - 1];
      if front != "" {
        LeadingDigit(front);
        NumberIsPlaceValue(front);
        DecimalExact(n / 10, front);
        assert s == front + [s[|s| - 1]];
      }
    }
  }

  // ----- the order of Python's `sorted` on strings -----

  predicate StringLe(a: string, b: string) {
    a == "" || (b != "" && (a[0] < b[0] || (a[0] == b[0] && StringLe(a[1..], b[1..]))))
  }

  /** The first difference decides, and a proper start comes first. */
  lemma {:induction false} StringLeIsLexicographic(a: string, b: string)
    ensures StringLe(a, b) <==> a <= b || exists i :: FirstDifference(a, b, i) && a[i] < b[i]
  {
    if a != "" && b != "" {
      var x, y := a[1..], b[1..];
      StringLeIsLexicographic(x, y);
      assert a == [a[0]] + x && b == [b[0]] + y;
      forall i | FirstDifference(a, b, i) && i > 0 ensures a[0] == b[0] { assert a[..i][0] == b[..i][0]; }
      if a[0] == b[0] {
        if i :| FirstDifference(x, y, i) && x[i] < y[i] {
          assert a[..i + 1] == [a[0]] + x[..i] && b[..i + 1] == [b[0]] + y[..i];
          assert FirstDifference(a, b, i + 1);
        }
        if i :| FirstDifference(a, b, i) && a[i] < b[i] {
          assert a[..i][1..] == x[..i - 1] && b[..i][1..] == y[..i - 1];
          assert FirstDifference(x, y, i - 1);
        }
      } else if a[0] < b[0] {
        assert FirstDifference(a, b, 0);
      }
    }
  }

  ghost predicate FirstDifference(a: string, b: string, i: int) {
    0 <= i < |a| && i < |b| && a[..i] == b[..i] && a[i] != b[i]
  }

  lemma {:induction false} StringLeTotal(a: string, b: string)
    ensures StringLe(a, b) || StringLe(b, a)
    ensures StringLe(a, b) && StringLe(b, a) ==> a == b
  {
    if a != "" && b != "" {
      StringLeTotal(a[1..], b[1..]);
      assert a == [a[0]] + a[1..] && b == [b[0]] + b[1..];
    }
  }

  lemma {:induction false} StringLeTransitive(a: string, b: string, c: string)
    requires StringLe(a, b) && StringLe(b, c)
    ensures StringLe(a, c)
  {
    if a != "" && a[0] == b[0] == c[0] { StringLeTransitive(a[1..], b[1..], c[1..]); }
  }

  ghost predicate IsLeast(m: string, keys: set<string>) {
    m in keys && forall k :: k in keys ==> StringLe(m, k)
  }

  lemma {:induction false} LeastExists(keys: set<string>)
    requires keys != {}
    ensures exists m :: IsLeast(m, keys)
  {
    var _ := FindLeast(keys);
  }

  lemma {:induction false} FindLeast(keys: set<string>) returns (m: string)
    requires keys != {}
    ensures IsLeast(m, keys)
  {
    var k :| k in keys;
    StringLeTotal(k, k);
    if keys == {k} {
      m := k;
    } else {
      m := FindLeast(keys - {k});
      StringLeTotal(k, m);
      if StringLe(k, m) {
        forall x | x in keys ensures StringLe(k, x) {
          if x != k { StringLeTransitive(k, m, x); }
        }
        m := k;
      }
    }
  }

  ghost function Least(keys: set<string>): (m: string)
    requires keys != {}
    ensures IsLeast(m, keys)
  {
    LeastExists(keys);
    var m :| IsLeast(m, keys);
    m
  }

  /** The keys in ascending order. */
  ghost function Sorted(keys: set<string>): (s: seq<string>)
    ensures forall k :: k in s <==> k in keys
    decreases |keys|
  {
    if keys == {} then [] else
      var m := Least(keys);
      [m] + Sorted(keys - {m})
  }

  lemma {:induction false} SortedDistinct(keys: set<string>)
    ensures forall i, j :: 0 <= i < j < |Sorted(keys)| ==> Sorted(keys)[i] != Sorted(keys)[j]
    decreases |keys|
  {
    if keys != {} {
      SortedDistinct(keys - {Least(keys)});
      assert Least(keys) !in Sorted(keys - {Least(keys)});
    }
  }

  method LeastKey(keys: set<string>) returns (least: string)
    requires keys != {}
    ensures least == Least(keys)
  {
    least :| least in keys;
    StringLeTotal(least, least);
    var todo := keys - {least};
    while todo != {}
      invariant least in keys && todo <= keys
      invariant forall k :: k in keys - todo ==> StringLe(least, k)
      decreases |todo|
    {
      var k :| k in todo;
      StringLeTotal(least, k);
      StringLeTotal(k, k);
      if StringLe(k, least) && k != least {
        forall x | x in keys - todo ensures StringLe(k, x) {
          StringLeTransitive(k, least, x);
        }
        least := k;
      }
      todo := todo - {k};
    }
    StringLeTotal(least, Least(keys));
  }

  method SortKeys(keys: set<string>) returns (s: seq<string>)
    ensures s == Sorted(keys)
  {
    s := [];
    var rest := keys;
    while rest != {}
      invariant Sorted(keys) == s + Sorted(rest)
      decreases |rest|
    {
      var least := LeastKey(rest);
      assert Sorted(rest) == [least] + Sorted(rest - {least});
      s := s + [least];
      rest := rest - {least};
    }
  }
}
