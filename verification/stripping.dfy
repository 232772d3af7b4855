/** `str.strip`. */
module Stripping {
  /** The characters that Python's `str.strip` removes. */
  predicate IsSpace(c: char) {
    var n := c as int;
    9 <= n <= 13 || 28 <= n <= 32 || n == 0x85 || n == 0xA0 || n == 0x1680 || 0x2000 <= n <= 0x200A
    || n == 0x2028 || n == 0x2029 || n == 0x202F || n == 0x205F || n == 0x3000
  }

  function Strip(s: string): string {
    if s == "" then s
    else if IsSpace(s[0]) then Strip(s[1..])
    else if IsSpace(s[|s| - 1]) then Strip(s[..|s| - 1])
    else s
  }

  /** No white space at either end. */
  predicate IsStripped(s: string) {
    s == "" || (!IsSpace(s[0]) && !IsSpace(s[|s| - 1]))
  }

  lemma {:induction false} StripIsStripped(s: string)
    ensures IsStripped(Strip(s))
    ensures forall c :: c in Strip(s) ==> c in s
    ensures IsStripped(s) ==> Strip(s) == s
  {
    if s != "" {
      if IsSpace(s[0]) {
        StripIsStripped(s[1..]);
      } else if IsSpace(s[|s| - 1]) {
        StripIsStripped(s[..|s| - 1]);
      }
    }
  }

  predicate AllSpace(s: string) { forall c :: c in s ==> IsSpace(c) }

  /** `t` is what is left of `s` without the white space around it. */
  ghost predicate IsStripOf(s: string, t: string) {
    IsStripped(t) && exists a, b :: AllSpace(a) && AllSpace(b) && s == a + t + b
  }

  lemma {:induction false} SplitsAround(s: string, a: string, t: string, b: string)
    requires AllSpace(a) && AllSpace(b) && IsStripped(t) && s == a + t + b
    ensures IsStripOf(s, t)
  {}

  lemma {:induction false} MoreBefore(c: char, rest: string, a: string, t: string, b: string)
    requires IsSpace(c) && AllSpace(a) && rest == a + t + b
    ensures AllSpace([c] + a) && [c] + rest == [c] + a + t + b
  {}

  lemma {:induction false} MoreAfter(c: char, rest: string, a: string, t: string, b: string)
    requires IsSpace(c) && AllSpace(b) && rest == a + t + b
    ensures AllSpace(b + [c]) && rest + [c] == a + t + (b + [c])
  {}

  lemma {:induction false} StripSplits(s: string) returns (a: string, b: string)
    ensures AllSpace(a) && AllSpace(b) && s == a + Strip(s) + b
  {
    a, b := "", "";
    if s != "" {
      if IsSpace(s[0]) {
        a, b := StripSplits(s[1..]);
        MoreBefore(s[0], s[1..], a, Strip(s), b);
        a := [s[0]] + a;
      } else if IsSpace(s[|s| - 1]) {
        var front, c := s[..|s| - 1], s[|s| - 1];
        a, b := StripSplits(front);
        MoreAfter(c, front, a, Strip(s), b);
        assert s == front + [c];
        b := b + [c];
      }
    }
  }

  /** In `a + t + b` the white space ends where `t` begins, and nothing after `t` is visible. */
  lemma {:induction false} CoreIsVisible(s: string, a: string, t: string, b: string)
    requires AllSpace(a) && AllSpace(b) && IsStripped(t) && s == a + t + b
    ensures forall i :: 0 <= i < |a| || |a| + |t| <= i < |s| ==> IsSpace(s[i])
    ensures t != "" ==> !IsSpace(s[|a|]) && !IsSpace(s[|a| + |t| - 1])
    ensures t == s[|a|..|a| + |t|]
  {
    assert forall i :: 0 <= i < |a| ==> s[i] == a[i] && a[i] in a;
    assert forall i :: |a| + |t| <= i < |s| ==> s[i] == b[i - |a| - |t|] && b[i - |a| - |t|] in b;
    assert forall i :: 0 <= i < |t| ==> s[|a| + i] == t[i];
  }

  lemma {:induction false} SameCore(s: string, a: string, t: string, b: string, c: string, u: string, d: string)
    requires AllSpace(a) && AllSpace(b) && IsStripped(t) && s == a + t + b
    requires AllSpace(c) && AllSpace(d) && IsStripped(u) && s == c + u + d
    ensures t == u
  {
    CoreIsVisible(s, a, t, b);
    CoreIsVisible(s, c, u, d);
    if t != "" && u != "" {
      assert |a| == |c| && |a| + |t| == |c| + |u|;
    }
  }

  /** Stripping is exactly that: no text has two such cores. */
  lemma {:induction false} StripExact(s: string, t: string)
    ensures Strip(s) == t <==> IsStripOf(s, t)
  {
    StripIsStripped(s);
    var a, b := StripSplits(s);
    SplitsAround(s, a, Strip(s), b);
    if IsStripOf(s, t) {
      var c, d :| AllSpace(c) && AllSpace(d) && s == c + t + d;
      SameCore(s, a, Strip(s), b, c, t, d);
    }
  }

  lemma {:induction false} BlankIsAllSpace(s: string)
    ensures (Strip(s) == "") == AllSpace(s)
  {
    var a, b := StripSplits(s);
    StripIsStripped(s);
    if Strip(s) != "" { assert Strip(s)[0] in s; }
    if Strip(s) == "" { assert s == a + b; }
  }

  /** Blanks, tabs and line ends are white space; no visible ASCII character is. */
  lemma {:induction false} SpacesAreNotVisible(c: char)
    ensures c in " \t\n\r" ==> IsSpace(c)
    ensures '!' <= c <= '~' ==> !IsSpace(c)
  {}
}
