/** `KVConfig`: parsing and printing of `key=value,key=value` cache configurations. */
module KVConfig {
  import opened Wrappers
  import opened Paths
  import opened Stripping

  /** `extras` in insertion order; a repeated key keeps its first position and takes the last value. */
  datatype Config = Config(
    ctk: string, ctv: string, rotK: Option<int>, rotV: Option<int>, rotDisable: Option<int>,
    extras: seq<(string, string)>)

  datatype Problem = BadFragment | BadInteger

  const DEFAULT := Config("f16", "f16", None, None, None, [])

  /** The recognised keys. */
  datatype Field = Ctk | Ctv | RotK | RotV | RotDisable

  function Name(f: Field): string {
    match f
    case Ctk => "ctk" case Ctv => "ctv"
    case RotK => "attn_rot_k" case RotV => "attn_rot_v" case RotDisable => "attn_rot_disable"
  }

  function FieldOf(k: string): Option<Field> {
    if k == "ctk" then Some(Ctk)
    else if k == "ctv" then Some(Ctv)
    else if k == "attn_rot_k" then Some(RotK)
    else if k == "attn_rot_v" then Some(RotV)
    else if k == "attn_rot_disable" then Some(RotDisable)
    else None
  }

  // ----- integers as `int` reads and `str` writes them -----

  predicate IsDigit(c: char) { '0' <= c <= '9' }

  /** Digits, with single underscores between them. */
  predicate IsNumeral(s: string) {
    && s != "" && s[0] != '_' && s[|s| - 1] != '_'
    && (forall i :: 0 <= i < |s| ==> IsDigit(s[i]) || s[i] == '_')
    && (forall i, j :: 0 <= i < |s| - 1 && j == i + 1 ==> !(s[i] == '_' && s[j] == '_'))
  }

  /** Every part between underscores is made of digits; the first may also be empty if `open`. */
  ghost predicate Groups(parts: seq<string>, open: bool) {
    && parts != [] && (IsDigits(parts[0]) || (open && parts[0] == ""))
    && forall i :: 1 <= i < |parts| ==> IsDigits(parts[i])
  }

  /** What follows a digit: nothing, or more digits, or an underscore and a numeral. */
  ghost predicate Continues(s: string) {
    s == "" || IsNumeral(if s[0] == '_' then s[1..] else s)
  }

  lemma {:induction false} NumeralContinues(s: string)
    requires s != "" && IsDigit(s[0])
    ensures (IsNumeral(s)) == Continues(s[1..])
  {
    var rest := s[1..];
    assert forall i :: 0 <= i < |rest| ==> rest[i] == s[i + 1];
    if rest != "" && rest[0] == '_' {
      assert forall i :: 0 <= i < |rest| - 1 ==> rest[1..][i] == s[i + 2];
      assert s[1] == '_';
      if IsNumeral(s) { assert |s| > 2 && s[2] != '_'; }
      if IsNumeral(rest[1..]) { NumeralExtends(s, 2); }
    } else if rest != "" && IsNumeral(rest) {
      NumeralExtends(s, 1);
    }
  }

  lemma {:induction false} NumeralExtends(s: string, n: nat)
    requires 1 <= n <= 2 && n < |s| && IsDigit(s[0]) && (n == 2 ==> s[1] == '_') && IsNumeral(s[n..])
    ensures IsNumeral(s)
  {
    var tail := s[n..];
    assert forall i :: n <= i < |s| ==> s[i] == tail[i - n];
    assert s[|s| - 1] == tail[|tail| - 1];
  }

  lemma {:induction false} DigitsFrom(c: char, rest: string, all: string)
    requires all == [c] + rest
    ensures IsDigits(all) <==> IsDigit(c) && (rest == "" || IsDigits(rest))
  {
    assert all[0] == c;
    if IsDigits(all) {
      assert forall i :: 0 <= i < |rest| ==> rest[i] == all[i + 1];
    }
    if IsDigit(c) && (rest == "" || IsDigits(rest)) {
      assert forall i :: 1 <= i < |all| ==> all[i] == rest[i - 1];
    }
  }

  /** A numeral is groups of digits joined by underscores. */
  lemma {:induction false} NumeralIsGroups(s: string)
    ensures (IsNumeral(s)) == Groups(Split(s, '_'), false)
    ensures (Continues(s)) == Groups(Split(s, '_'), true)
  {
    if s != "" {
      NumeralIsGroups(s[1..]);
      var parts, rest := Split(s, '_'), Split(s[1..], '_');
      if s[0] == '_' {
        assert parts[1..] == rest;
      } else {
        assert parts[1..] == rest[1..];
        DigitsFrom(s[0], rest[0], parts[0]);
        assert Groups(parts, false) == Groups(parts, true) == (IsDigit(s[0]) && Groups(rest, true));
        if IsDigit(s[0]) { NumeralContinues(s); }
      }
    }
  }

  function WithoutUnderscores(s: string): (t: string)
    ensures forall c :: c in t ==> c in s && c != '_'
    ensures (forall i :: 0 <= i < |s| ==> s[i] != '_') ==> t == s
  {
    if s == "" then "" else (if s[0] == '_' then "" else [s[0]]) + WithoutUnderscores(s[1..])
  }

  function Unsigned(s: string): Option<nat> {
    if !IsNumeral(s) then None
    else
      var digits := WithoutUnderscores(s);
      assert forall i :: 0 <= i < |digits| ==> digits[i] in digits;
      Some(Number(digits))
  }

  function Signed(negative: bool, magnitude: Option<nat>): Option<int> {
    match magnitude
    case None => None
    case Some(n) => Some(if negative then -(n as int) else n as int)
  }

  function ParseInt(s: string): Option<int> {
    if s != "" && (s[0] == '-' || s[0] == '+') then Signed(s[0] == '-', Unsigned(s[1..]))
    else Signed(false, Unsigned(s))
  }

  /** `digits` is `numeral` without its underscores, in order. */
  ghost predicate DigitsOf(numeral: string, digits: string) {
    if numeral == "" then digits == ""
    else if numeral[0] == '_' then DigitsOf(numeral[1..], digits)
    else digits != "" && digits[0] == numeral[0] && DigitsOf(numeral[1..], digits[1..])
  }

  lemma {:induction false} DigitsAreUnique(numeral: string, digits: string)
    ensures (DigitsOf(numeral, digits)) == (digits == WithoutUnderscores(numeral))
  {
    if numeral != "" {
      if numeral[0] == '_' {
        DigitsAreUnique(numeral[1..], digits);
      } else if digits != "" {
        DigitsAreUnique(numeral[1..], digits[1..]);
        assert digits == [digits[0]] + digits[1..];
      }
    }
  }

  ghost predicate Spells(s: string, n: int, sign: string, numeral: string, digits: string) {
    && sign in {"", "+", "-"} && s == sign + numeral
    && IsNumeral(numeral) && DigitsOf(numeral, digits) && IsDigits(digits)
    && n == (if sign == "-" then 0 - PlaceValue(digits) else PlaceValue(digits))
  }

  /** `n` is the value of `s`: decimal digits in groups joined by underscores, after at most one sign. */
  ghost predicate IsInteger(s: string, n: int) {
    exists sign, numeral, digits :: Spells(s, n, sign, numeral, digits)
  }

  lemma {:induction false} NumeralReads(numeral: string, digits: string)
    requires IsNumeral(numeral)
    requires DigitsOf(numeral, digits)
    ensures IsDigits(digits) && Unsigned(numeral) == Some(PlaceValue(digits))
    ensures numeral[0] != '-' && numeral[0] != '+'
  {
    DigitsAreUnique(numeral, digits);
    assert forall i :: 0 <= i < |digits| ==> digits[i] in digits;
    assert digits[0] == numeral[0];
    NumberIsPlaceValue(digits);
  }

  lemma {:induction false} SignIsRead(s: string, sign: string, numeral: string, u: Option<nat>)
    requires s == sign + numeral && u == Unsigned(numeral)
    ensures sign == "+" || sign == "-" ==> ParseInt(s) == Signed(sign == "-", u)
    ensures sign == "" && (s == "" || (s[0] != '-' && s[0] != '+')) ==> ParseInt(s) == Signed(false, u)
  {
    if sign == "" {
      assert s == numeral;
    } else if |sign| == 1 {
      assert s[0] == sign[0] && s[1..] == numeral;
    }
  }

  lemma {:induction false} SpelledIsRead(s: string, n: int, sign: string, numeral: string, digits: string)
    requires Spells(s, n, sign, numeral, digits)
    ensures ParseInt(s) == Some(n)
  {
    NumeralReads(numeral, digits);
    SignIsRead(s, sign, numeral, Unsigned(numeral));
    assert sign == "" ==> s == numeral;
  }

  lemma {:induction false} SignIsSplit(s: string, n: int) returns (sign: string, numeral: string)
    requires ParseInt(s) == Some(n)
    ensures sign in {"", "+", "-"} && s == sign + numeral && Unsigned(numeral).Some?
    ensures n == (if sign == "-" then 0 - Unsigned(numeral).value else Unsigned(numeral).value)
  {
    var signed := s != "" && (s[0] == '-' || s[0] == '+');
    sign, numeral := if signed then [s[0]] else "", if signed then s[1..] else s;
    assert s == sign + numeral;
  }

  lemma {:induction false} UnsignedReads(numeral: string, digits: string)
    requires Unsigned(numeral).Some? && digits == WithoutUnderscores(numeral)
    ensures IsNumeral(numeral) && DigitsOf(numeral, digits) && IsDigits(digits)
    ensures Unsigned(numeral).value == PlaceValue(digits)
  {
    DigitsAreUnique(numeral, digits);
    NumeralReads(numeral, digits);
  }

  lemma {:induction false} ReadIsSpelled(s: string, n: int)
    requires ParseInt(s) == Some(n)
    ensures IsInteger(s, n)
  {
    var sign, numeral := SignIsSplit(s, n);
    var digits := WithoutUnderscores(numeral);
    UnsignedReads(numeral, digits);
    assert Spells(s, n, sign, numeral, digits);
  }

  lemma {:induction false} ParseIntExact(s: string, n: int)
    ensures (ParseInt(s) == Some(n)) == IsInteger(s, n)
  {
    if ParseInt(s) == Some(n) { ReadIsSpelled(s, n); }
    if IsInteger(s, n) {
      var sign, numeral, digits :| Spells(s, n, sign, numeral, digits);
      SpelledIsRead(s, n, sign, numeral, digits);
    }
  }

  function IntText(n: int): string {
    if n < 0 then "-" + Decimal(-n) else Decimal(n)
  }

  lemma {:induction false} DecimalReads(n: nat)
    ensures Unsigned(Decimal(n)) == Some(n)
  {
    var digits := Decimal(n);
    assert forall i :: 0 <= i < |digits| ==> IsDigit(digits[i]) && digits[i] != '_';
    NumberOfDecimal(n);
  }

  lemma {:induction false} DecimalIsPlain(s: string)
    requires IsDigits(s)
    ensures IsStripped(s) && IsStripped("-" + s) && ',' !in s && s[0] != '-' && s[0] != '+'
  {
    assert '0' <= s[0] <= '9' && '0' <= s[|s| - 1] <= '9';
  }

  lemma {:induction false} IntRoundTrip(n: int)
    ensures ParseInt(IntText(n)) == Some(n)
    ensures IsStripped(IntText(n)) && ',' !in IntText(n)
  {
    var m: nat := if n < 0 then -n else n;
    DecimalReads(m);
    DecimalIsPlain(Decimal(m));
    assert n < 0 ==> IntText(n)[1..] == Decimal(m);
  }

  // ----- what a spec means -----

  /** Dictionary assignment. */
  function Put(extras: seq<(string, string)>, k: string, v: string): (r: seq<(string, string)>)
  {
    if extras == [] then [(k, v)]
    else if extras[0].0 == k then [(k, v)] + extras[1..]
    else [extras[0]] + Put(extras[1..], k, v)
  }

  function SetInt(cfg: Config, f: Field, n: Option<int>): Config {
    match f
    case RotK => cfg.(rotK := n)
    case RotV => cfg.(rotV := n)
    case _ => cfg.(rotDisable := n)
  }

  function Assign(cfg: Config, k: string, v: string): Result<Config, Problem> {
    match FieldOf(k)
    case None => Ok(cfg.(extras := Put(cfg.extras, k, v)))
    case Some(Ctk) => Ok(cfg.(ctk := v))
    case Some(Ctv) => Ok(cfg.(ctv := v))
    case Some(f) =>
      var n := ParseInt(v);
      if n.None? then Err(BadInteger) else Ok(SetInt(cfg, f, n))
  }

  /** The first `=`, or the length. */
  function FirstEquals(s: string): (i: nat)
    ensures i <= |s| && '=' !in s[..i] && (i < |s| ==> s[i] == '=')
  {
    if s == "" || s[0] == '=' then 0
    else
      var i := FirstEquals(s[1..]);
      assert s[..i + 1] == [s[0]] + s[1..][..i];
      i + 1
  }

  /** One comma-separated fragment. */
  function Step(cfg: Config, fragment: string): Result<Config, Problem> {
    var part := Strip(fragment);
    if part == "" then Ok(cfg)
    else
      var i := FirstEquals(part);
      if i == |part| then Err(BadFragment)
      else Assign(cfg, Strip(part[..i]), Strip(part[i + 1..]))
  }

  function Fold(cfg: Config, fragments: seq<string>): Result<Config, Problem>
    decreases |fragments|
  {
    if fragments == [] then Ok(cfg)
    else match Step(cfg, fragments[0])
      case Err(e) => Err(e)
      case Ok(next) => Fold(next, fragments[1..])
  }

  function Meaning(spec: string): Result<Config, Problem> { Fold(DEFAULT, Split(spec, ',')) }

  /** The loop body: one fragment read into the configuration. */
  method ReadFragment(cfg: Config, fragment: string) returns (r: Result<Config, Problem>)
    ensures r == Step(cfg, fragment)
  {
    var part := Strip(fragment);
    if part == "" { return Ok(cfg); }
    var equals := FirstEquals(part);
    if equals == |part| { return Err(BadFragment); }
    var k, v := Strip(part[..equals]), Strip(part[equals + 1..]);
    match FieldOf(k) {
      case Some(Ctk) => return Ok(cfg.(ctk := v));
      case Some(Ctv) => return Ok(cfg.(ctv := v));
      case Some(f) =>
        var n := ParseInt(v);
        if n.None? { return Err(BadInteger); }
        return Ok(SetInt(cfg, f, n));
      case None => return Ok(cfg.(extras := Put(cfg.extras, k, v)));
    }
  }

  // ----- what an accepted text says, without the order in which it is read -----

  const INTEGER_KEYS: set<string> := {"attn_rot_k", "attn_rot_v", "attn_rot_disable"}
  const RESERVED: set<string> := {"ctk", "ctv"} + INTEGER_KEYS

  /** A fragment that names a key and a value: what stands before and after its first `=`, less surrounding space. */
  ghost predicate Names(fragment: string, k: string, v: string) {
    exists a, b :: fragment == a + "=" + b && '=' !in a && IsStripOf(a, k) && IsStripOf(b, v)
  }

  /** Why a fragment is refused: something visible without an `=`, or an integer field with something else. */
  ghost predicate Refused(fragment: string, e: Problem) {
    match e
    case BadFragment => '=' !in fragment && !AllSpace(fragment)
    case BadInteger => exists k, v :: Names(fragment, k, v) && k in INTEGER_KEYS && !exists n :: IsInteger(v, n)
  }

  function PairOf(fragment: string): (pair: Option<(string, string)>)
    ensures pair.Some? <==> '=' in Strip(fragment)
  {
    var part := Strip(fragment);
    var i := FirstEquals(part);
    if i == |part| then None else Some((Strip(part[..i]), Strip(part[i + 1..])))
  }

  lemma {:induction false} VisibleStays(fragment: string)
    ensures '=' in Strip(fragment) <==> '=' in fragment
    ensures Strip(fragment) == "" <==> AllSpace(fragment)
  {
    var x, y := StripSplits(fragment);
    StripIsStripped(fragment);
    SpacesAreNotVisible('=');
    var part := Strip(fragment);
    assert fragment == x + part + y;
    if part != "" { assert part[0] in fragment; }
  }

  /** White space further out does not change what is left. */
  lemma {:induction false} MoreSpace(x: string, a: string, y: string, k: string)
    requires AllSpace(x) && AllSpace(y) && IsStripOf(a, k)
    ensures IsStripOf(x + a + y, k)
  {
    var c, d :| AllSpace(c) && AllSpace(d) && a == c + k + d;
    assert x + a + y == (x + c) + k + (d + y);
    SplitsAround(x + a + y, x + c, k, d + y);
  }

  lemma {:induction false} NamedAround(x: string, a: string, b: string, y: string, k: string, v: string)
    requires AllSpace(x) && AllSpace(y) && '=' !in a && IsStripOf(a, k) && IsStripOf(b, v)
    ensures Names(x + (a + "=" + b) + y, k, v)
  {
    SpacesAreNotVisible('=');
    MoreSpace(x, a, "", k);
    MoreSpace("", b, y, v);
    assert x + a + "" == x + a && "" + b + y == b + y;
    assert x + (a + "=" + b) + y == (x + a) + "=" + (b + y);
  }

  lemma {:induction false} PairIsNamed(fragment: string, k: string, v: string)
    requires PairOf(fragment) == Some((k, v))
    ensures Names(fragment, k, v)
  {
    var part := Strip(fragment);
    var i := FirstEquals(part);
    var a, b := part[..i], part[i + 1..];
    assert part == a + "=" + b;
    var x, y := StripSplits(fragment);
    StripExact(a, k);
    StripExact(b, v);
    NamedAround(x, a, b, y, k, v);
  }

  lemma {:induction false} SameFirstEquals(s: string, a: string, b: string, c: string, d: string)
    requires s == Bit(a, b) && s == Bit(c, d) && '=' !in a && '=' !in c
    ensures a == c && b == d
  {
    FirstEqualsOfBit(a, b);
    FirstEqualsOfBit(c, d);
    assert a == s[..|a|] && c == s[..|c|];
    assert b == s[|a| + 1..] && d == s[|c| + 1..];
  }

  lemma {:induction false} SameStripped(s: string, t: string, u: string)
    requires IsStripOf(s, t) && IsStripOf(s, u)
    ensures t == u
  {
    StripExact(s, t);
    StripExact(s, u);
  }

  lemma {:induction false} NamesAgree(fragment: string, k: string, v: string, m: string, w: string)
    requires Names(fragment, k, v) && Names(fragment, m, w)
    ensures k == m && v == w
  {
    var a, b :| fragment == a + "=" + b && '=' !in a && IsStripOf(a, k) && IsStripOf(b, v);
    var c, d :| fragment == c + "=" + d && '=' !in c && IsStripOf(c, m) && IsStripOf(d, w);
    SameFirstEquals(fragment, a, b, c, d);
    SameStripped(a, k, m);
    SameStripped(b, v, w);
  }

  lemma {:induction false} NamesOnce(fragment: string, k: string, v: string)
    requires Names(fragment, k, v)
    ensures PairOf(fragment) == Some((k, v))
  {
    assert '=' in fragment;
    VisibleStays(fragment);
    var (m, w) := PairOf(fragment).value;
    PairIsNamed(fragment, m, w);
    NamesAgree(fragment, k, v, m, w);
  }

  /** The pairs that the fragments name, in order. */
  function Pairs(fragments: seq<string>): seq<(string, string)> {
    if fragments == [] then []
    else
      Pairs(fragments[..|fragments| - 1])
      + match PairOf(fragments[|fragments| - 1]) case Some(pair) => [pair] case None => []
  }

  ghost predicate Mentioned(pairs: seq<(string, string)>, k: string) {
    exists i :: 0 <= i < |pairs| && pairs[i].0 == k
  }

  /** `v` is the value of the last pair with key `k`. */
  ghost predicate LastIs(pairs: seq<(string, string)>, k: string, v: string) {
    exists i :: 0 <= i < |pairs| && pairs[i] == (k, v) && forall j :: i < j < |pairs| ==> pairs[j].0 != k
  }

  /** The first pair with key `k` is the one at `i`. */
  ghost predicate FirstAt(pairs: seq<(string, string)>, k: string, i: nat) {
    i < |pairs| && pairs[i].0 == k && forall j :: 0 <= j < i ==> pairs[j].0 != k
  }

  ghost predicate TextIs(pairs: seq<(string, string)>, k: string, value: string) {
    if Mentioned(pairs, k) then LastIs(pairs, k, value) else value == "f16"
  }

  ghost predicate IntegerIs(pairs: seq<(string, string)>, k: string, value: Option<int>) {
    if Mentioned(pairs, k) then value.Some? && exists v :: LastIs(pairs, k, v) && IsInteger(v, value.value)
    else value == None
  }

  ghost predicate FirstBefore(pairs: seq<(string, string)>, a: string, b: string) {
    exists i, j :: FirstAt(pairs, a, i) && FirstAt(pairs, b, j) && i < j
  }

  /** The unreserved keys in order of first occurrence, each with its last value. */
  ghost predicate ExtrasAre(pairs: seq<(string, string)>, extras: seq<(string, string)>) {
    && (forall k :: Mentioned(extras, k) <==> Mentioned(pairs, k) && k !in RESERVED)
    && (forall i :: 0 <= i < |extras| ==> LastIs(pairs, extras[i].0, extras[i].1))
    && (forall i, j :: 0 <= i < j < |extras| ==> FirstBefore(pairs, extras[i].0, extras[j].0))
  }

  /** The field has its key's last value, or its default. */
  ghost predicate FieldIs(pairs: seq<(string, string)>, f: Field, cfg: Config) {
    match f
    case Ctk => TextIs(pairs, "ctk", cfg.ctk)
    case Ctv => TextIs(pairs, "ctv", cfg.ctv)
    case RotK => IntegerIs(pairs, "attn_rot_k", cfg.rotK)
    case RotV => IntegerIs(pairs, "attn_rot_v", cfg.rotV)
    case RotDisable => IntegerIs(pairs, "attn_rot_disable", cfg.rotDisable)
  }

  ghost predicate Describes(pairs: seq<(string, string)>, cfg: Config) {
    (forall f :: FieldIs(pairs, f, cfg)) && ExtrasAre(pairs, cfg.extras)
  }

  // ----- one more pair -----

  lemma {:induction false} MorePairs(pairs: seq<(string, string)>, k: string, v: string, more: seq<(string, string)>)
    requires more == pairs + [(k, v)]
    ensures forall x :: Mentioned(more, x) <==> Mentioned(pairs, x) || x == k
    ensures LastIs(more, k, v)
    ensures forall x, y :: x != k ==> (LastIs(more, x, y) <==> LastIs(pairs, x, y))
    ensures forall x, i: nat :: FirstAt(pairs, x, i) ==> FirstAt(more, x, i)
    ensures !Mentioned(pairs, k) ==> FirstAt(more, k, |pairs|)
  {
    assert more[|pairs|] == (k, v);
    forall x ensures Mentioned(more, x) <==> Mentioned(pairs, x) || x == k {
      if Mentioned(pairs, x) {
        var i :| 0 <= i < |pairs| && pairs[i].0 == x;
        assert more[i].0 == x;
      }
    }
    forall x, y | x != k ensures LastIs(more, x, y) <==> LastIs(pairs, x, y) { LastStays(pairs, k, v, more, x, y); }
  }

  lemma {:induction false} LastStays(
      pairs: seq<(string, string)>, k: string, v: string, more: seq<(string, string)>, x: string, y: string)
    requires more == pairs + [(k, v)] && x != k
    ensures LastIs(more, x, y) <==> LastIs(pairs, x, y)
  {
    if LastIs(pairs, x, y) {
      var i :| 0 <= i < |pairs| && pairs[i] == (x, y) && forall j :: i < j < |pairs| ==> pairs[j].0 != x;
      assert more[i] == (x, y);
    }
    if LastIs(more, x, y) {
      var i :| 0 <= i < |more| && more[i] == (x, y) && forall j :: i < j < |more| ==> more[j].0 != x;
      assert pairs[i] == (x, y);
      assert forall j :: i < j < |pairs| ==> pairs[j] == more[j];
    }
  }

  lemma {:induction false} PutUpdates(extras: seq<(string, string)>, k: string, v: string, i: nat)
    requires FirstAt(extras, k, i)
    ensures Put(extras, k, v) == extras[i := (k, v)]
  {
    if i > 0 {
      assert FirstAt(extras[1..], k, i - 1);
      PutUpdates(extras[1..], k, v, i - 1);
    }
  }

  lemma {:induction false} FirstExists(pairs: seq<(string, string)>, k: string, n: nat) returns (i: nat)
    requires n <= |pairs| && exists j :: 0 <= j < n && pairs[j].0 == k
    ensures FirstAt(pairs, k, i) && i < n
  {
    if j :| 0 <= j < n - 1 && pairs[j].0 == k { i := FirstExists(pairs, k, n - 1); } else { i := n - 1; }
  }

  lemma {:induction false} ExtrasGrow(
      pairs: seq<(string, string)>, k: string, v: string, more: seq<(string, string)>, extras: seq<(string, string)>)
    requires more == pairs + [(k, v)] && ExtrasAre(pairs, extras) && FieldOf(k).None?
    ensures ExtrasAre(more, Put(extras, k, v))
  {
    MorePairs(pairs, k, v, more);
    var r := Put(extras, k, v);
    if Mentioned(extras, k) {
      var i := FirstExists(extras, k, |extras|);
      PutUpdates(extras, k, v, i);
      UpdatedExtras(pairs, k, v, more, extras, i, r);
    } else {
      PutAppends(extras, k, v);
      AppendedExtras(pairs, k, v, more, extras, r);
    }
  }

  lemma {:induction false} OrderStays(
      pairs: seq<(string, string)>, k: string, v: string, more: seq<(string, string)>, a: string, b: string)
    requires more == pairs + [(k, v)] && FirstBefore(pairs, a, b)
    ensures FirstBefore(more, a, b) && a != b
  {
    var i, j :| FirstAt(pairs, a, i) && FirstAt(pairs, b, j) && i < j;
    assert FirstAt(more, a, i) && FirstAt(more, b, j);
  }

  lemma {:induction false} UpdatedExtras(
      pairs: seq<(string, string)>, k: string, v: string, more: seq<(string, string)>, extras: seq<(string, string)>,
      i: nat, r: seq<(string, string)>)
    requires more == pairs + [(k, v)] && ExtrasAre(pairs, extras) && FieldOf(k).None?
    requires FirstAt(extras, k, i) && r == extras[i := (k, v)]
    ensures ExtrasAre(more, r)
  {
    MorePairs(pairs, k, v, more);
    assert forall j :: 0 <= j < |r| ==> r[j].0 == extras[j].0;
    SameNames(extras, r);
    forall a, b | 0 <= a < b < |r| ensures FirstBefore(more, r[a].0, r[b].0) {
      OrderStays(pairs, k, v, more, extras[a].0, extras[b].0);
    }
    forall j | 0 <= j < |r| ensures LastIs(more, r[j].0, r[j].1) {
      if j < i { OrderStays(pairs, k, v, more, extras[j].0, extras[i].0); }
      if j > i { OrderStays(pairs, k, v, more, extras[i].0, extras[j].0); }
    }
  }

  lemma {:induction false} SameNames(a: seq<(string, string)>, b: seq<(string, string)>)
    requires |a| == |b| && forall j :: 0 <= j < |a| ==> a[j].0 == b[j].0
    ensures forall k :: Mentioned(a, k) <==> Mentioned(b, k)
  {}

  lemma {:induction false} AppendedExtras(
      pairs: seq<(string, string)>, k: string, v: string, more: seq<(string, string)>, extras: seq<(string, string)>,
      r: seq<(string, string)>)
    requires more == pairs + [(k, v)] && ExtrasAre(pairs, extras) && FieldOf(k).None?
    requires !Mentioned(extras, k) && r == extras + [(k, v)]
    ensures ExtrasAre(more, r)
  {
    MorePairs(pairs, k, v, more);
    MorePairs(extras, k, v, r);
    assert !Mentioned(pairs, k);
    forall j | 0 <= j < |r| ensures LastIs(more, r[j].0, r[j].1) {
      if j < |extras| { assert r[j] == extras[j] && extras[j].0 != k; }
    }
    forall a, b | 0 <= a < b < |r| ensures FirstBefore(more, r[a].0, r[b].0) {
      if b < |extras| { OrderStays(pairs, k, v, more, extras[a].0, extras[b].0); }
      else {
        assert Mentioned(extras, extras[a].0);
        var i := FirstExists(pairs, extras[a].0, |pairs|);
        assert FirstAt(more, r[a].0, i) && FirstAt(more, r[b].0, |pairs|);
      }
    }
  }

  lemma {:induction false} ExtrasStay(
      pairs: seq<(string, string)>, k: string, v: string, more: seq<(string, string)>, extras: seq<(string, string)>)
    requires more == pairs + [(k, v)] && ExtrasAre(pairs, extras) && FieldOf(k).Some?
    ensures ExtrasAre(more, extras)
  {
    MorePairs(pairs, k, v, more);
    forall i | 0 <= i < |extras| ensures LastIs(more, extras[i].0, extras[i].1) {
      assert Mentioned(extras, extras[i].0);
    }
    forall a, b | 0 <= a < b < |extras| ensures FirstBefore(more, extras[a].0, extras[b].0) {
      OrderStays(pairs, k, v, more, extras[a].0, extras[b].0);
    }
  }

  predicate SameField(f: Field, cfg: Config, next: Config) {
    match f
    case Ctk => cfg.ctk == next.ctk
    case Ctv => cfg.ctv == next.ctv
    case RotK => cfg.rotK == next.rotK
    case RotV => cfg.rotV == next.rotV
    case RotDisable => cfg.rotDisable == next.rotDisable
  }

  lemma {:induction false} FieldStays(
      pairs: seq<(string, string)>, k: string, v: string, more: seq<(string, string)>, cfg: Config, next: Config,
      f: Field)
    requires more == pairs + [(k, v)] && FieldIs(pairs, f, cfg) && FieldOf(k) != Some(f) && SameField(f, cfg, next)
    ensures FieldIs(more, f, next)
  {
    NameReads(f);
    MorePairs(pairs, k, v, more);
  }

  lemma {:induction false} FieldNamed(k: string, f: Field)
    requires FieldOf(k) == Some(f)
    ensures k == Name(f)
  {}

  lemma {:induction false} FieldTakes(
      pairs: seq<(string, string)>, k: string, v: string, more: seq<(string, string)>, cfg: Config, next: Config,
      f: Field)
    requires more == pairs + [(k, v)] && FieldOf(k) == Some(f) && Assign(cfg, k, v) == Ok(next)
    ensures FieldIs(more, f, next)
  {
    FieldNamed(k, f);
    MorePairs(pairs, k, v, more);
    if ParseInt(v).Some? { ParseIntExact(v, ParseInt(v).value); }
  }

  lemma {:induction false} OtherFields(cfg: Config, k: string, v: string, next: Config, f: Field)
    requires Assign(cfg, k, v) == Ok(next) && FieldOf(k) != Some(f)
    ensures SameField(f, cfg, next)
  {}

  lemma {:induction false} AssignDescribes(
      pairs: seq<(string, string)>, k: string, v: string, more: seq<(string, string)>, cfg: Config, next: Config)
    requires more == pairs + [(k, v)] && Describes(pairs, cfg) && Assign(cfg, k, v) == Ok(next)
    ensures Describes(more, next)
  {
    forall f ensures FieldIs(more, f, next) {
      if FieldOf(k) == Some(f) {
        FieldTakes(pairs, k, v, more, cfg, next, f);
      } else {
        OtherFields(cfg, k, v, next, f);
        FieldStays(pairs, k, v, more, cfg, next, f);
      }
    }
    if FieldOf(k).None? { ExtrasGrow(pairs, k, v, more, cfg.extras); }
    else { ExtrasStay(pairs, k, v, more, cfg.extras); }
  }

  lemma {:induction false} StepDescribes(pairs: seq<(string, string)>, fragment: string, cfg: Config)
    requires Describes(pairs, cfg)
    ensures Step(cfg, fragment).Ok? ==>
      Describes(pairs + (match PairOf(fragment) case Some(pair) => [pair] case None => []), Step(cfg, fragment).value)
    ensures forall e :: Step(cfg, fragment) == Err(e) <==> Refused(fragment, e)
  {
    StepRefuses(cfg, fragment);
    var part := Strip(fragment);
    assert pairs + [] == pairs;
    if '=' in part && Step(cfg, fragment).Ok? {
      var (k, v) := PairOf(fragment).value;
      AssignDescribes(pairs, k, v, pairs + [(k, v)], cfg, Step(cfg, fragment).value);
    }
  }

  lemma {:induction false} NoInteger(v: string)
    ensures (ParseInt(v).None?) == !exists n :: IsInteger(v, n)
  {
    if ParseInt(v).Some? { ParseIntExact(v, ParseInt(v).value); }
    forall n | IsInteger(v, n) ensures ParseInt(v).Some? { ParseIntExact(v, n); }
  }

  lemma {:induction false} AssignRefuses(cfg: Config, k: string, v: string)
    ensures Assign(cfg, k, v).Err? <==> k in INTEGER_KEYS && ParseInt(v).None?
    ensures Assign(cfg, k, v).Err? ==> Assign(cfg, k, v).error == BadInteger
  {}

  lemma {:induction false} RefusedValue(fragment: string, k: string, v: string)
    requires PairOf(fragment) == Some((k, v))
    ensures Refused(fragment, BadInteger) <==> k in INTEGER_KEYS && ParseInt(v).None?
  {
    forall x, y | Names(fragment, x, y) ensures x == k && y == v { NamesOnce(fragment, x, y); }
    PairIsNamed(fragment, k, v);
    NoInteger(v);
  }

  lemma {:induction false} StepRefuses(cfg: Config, fragment: string)
    ensures forall e :: Step(cfg, fragment) == Err(e) <==> Refused(fragment, e)
  {
    if PairOf(fragment).Some? {
      var (k, v) := PairOf(fragment).value;
      RefusedValue(fragment, k, v);
      AssignRefuses(cfg, k, v);
      StepAssigns(cfg, fragment, k, v);
    } else {
      forall k, v ensures !Names(fragment, k, v) { if Names(fragment, k, v) { NamesOnce(fragment, k, v); } }
      assert !Refused(fragment, BadInteger);
      NothingToAssign(cfg, fragment);
    }
  }

  lemma {:induction false} StepAssigns(cfg: Config, fragment: string, k: string, v: string)
    requires PairOf(fragment) == Some((k, v))
    ensures Step(cfg, fragment) == Assign(cfg, k, v) && !Refused(fragment, BadFragment)
  {
    VisibleStays(fragment);
  }

  lemma {:induction false} NothingToAssign(cfg: Config, fragment: string)
    requires PairOf(fragment).None?
    ensures Step(cfg, fragment) == if Refused(fragment, BadFragment) then Err(BadFragment) else Ok(cfg)
  {
    VisibleStays(fragment);
  }

  ghost predicate Fine(fragment: string) {
    !Refused(fragment, BadFragment) && !Refused(fragment, BadInteger)
  }

  ghost predicate FirstRefused(fragments: seq<string>, e: Problem) {
    exists i :: 0 <= i < |fragments| && Refused(fragments[i], e) && forall j :: 0 <= j < i ==> Fine(fragments[j])
  }

  ghost predicate Means(fragments: seq<string>, outcome: Result<Config, Problem>) {
    match outcome
    case Ok(cfg) => (forall i :: 0 <= i < |fragments| ==> Fine(fragments[i])) && Describes(Pairs(fragments), cfg)
    case Err(e) => FirstRefused(fragments, e)
  }

  lemma {:induction false} FoldLast(cfg: Config, front: seq<string>, last: string)
    ensures Fold(cfg, front + [last]) == match Fold(cfg, front) case Err(e) => Err(e) case Ok(mid) => Step(mid, last)
    decreases |front|
  {
    var all := front + [last];
    if front == [] {
      assert all[1..] == [];
    } else {
      assert all[1..] == front[1..] + [last];
      if Step(cfg, front[0]).Ok? { FoldLast(Step(cfg, front[0]).value, front[1..], last); }
    }
  }

  lemma {:induction false} OneMoreMeans(front: seq<string>, last: string, fragments: seq<string>, mid: Config)
    requires fragments == front + [last] && Means(front, Ok(mid))
    ensures Means(fragments, Step(mid, last))
  {
    StepDescribes(Pairs(front), last, mid);
    assert fragments[|front|] == last && fragments[..|front|] == front;
    assert forall j :: 0 <= j < |front| ==> fragments[j] == front[j];
    if Step(mid, last).Err? { assert Refused(fragments[|front|], Step(mid, last).error); }
  }

  lemma {:induction false} RefusedBefore(front: seq<string>, last: string, fragments: seq<string>, e: Problem)
    requires fragments == front + [last] && FirstRefused(front, e)
    ensures FirstRefused(fragments, e)
  {
    var i :| 0 <= i < |front| && Refused(front[i], e) && forall j :: 0 <= j < i ==> Fine(front[j]);
    assert forall j :: 0 <= j < |front| ==> fragments[j] == front[j];
    assert Refused(fragments[i], e);
  }

  lemma {:induction false} FoldMeans(fragments: seq<string>)
    ensures Means(fragments, Fold(DEFAULT, fragments))
    decreases |fragments|
  {
    if fragments != [] {
      var front, last := fragments[..|fragments| - 1], fragments[|fragments| - 1];
      FoldMeans(front);
      FoldLast(DEFAULT, front, last);
      assert fragments == front + [last];
      match Fold(DEFAULT, front) {
        case Ok(mid) => OneMoreMeans(front, last, fragments, mid);
        case Err(e) => RefusedBefore(front, last, fragments, e);
      }
    } else {
      NothingMeans(fragments);
    }
  }

  lemma {:induction false} NothingMeans(fragments: seq<string>)
    requires fragments == []
    ensures Means(fragments, Ok(DEFAULT))
  {
    forall f ensures FieldIs(Pairs(fragments), f, DEFAULT) {}
  }

  /**
   * What a text says: when it is accepted, each field has the value of the last fragment with its key, or its
   * default, and the extras are the other keys in order of first occurrence, each with its last value. Otherwise the
   * first refused fragment decides the error.
   */
  lemma {:induction false} TextMeans(spec: string)
    ensures Means(Split(spec, ','), Meaning(spec))
  {
    FoldMeans(Split(spec, ','));
  }

  method Parse(spec: string) returns (r: Result<Config, Problem>)
    ensures r == Meaning(spec)
    ensures Means(Split(spec, ','), r)
  {
    var cfg := DEFAULT;
    var fragments := Split(spec, ',');
    TextMeans(spec);
    for i := 0 to |fragments|
      invariant Meaning(spec) == Fold(cfg, fragments[i..])
    {
      assert fragments[i..][1..] == fragments[i + 1..];
      var read := ReadFragment(cfg, fragments[i]);
      if read.Err? { return read; }
      cfg := read.value;
    }
    return Ok(cfg);
  }

  // ----- what a config prints as -----

  function Bit(k: string, v: string): string { k + "=" + v }

  function IntBits(f: Field, n: Option<int>): seq<string> {
    if n.Some? then [Bit(Name(f), IntText(n.value))] else []
  }

  function ExtraBits(extras: seq<(string, string)>): (bits: seq<string>)
    ensures |bits| == |extras|
  {
    seq(|extras|, i requires 0 <= i < |extras| => Bit(extras[i].0, extras[i].1))
  }

  function TypeBits(cfg: Config): seq<string> {
    [Bit(Name(Ctk), cfg.ctk), Bit(Name(Ctv), cfg.ctv)]
  }

  function IntegerBits(cfg: Config): seq<string> {
    IntBits(RotK, cfg.rotK) + IntBits(RotV, cfg.rotV) + IntBits(RotDisable, cfg.rotDisable)
  }

  function Bits(cfg: Config): seq<string> {
    TypeBits(cfg) + IntegerBits(cfg) + ExtraBits(cfg.extras)
  }

  /** Each part with a comma before it. */
  ghost function Commas(parts: seq<string>): string
    decreases |parts|
  {
    if parts == [] then "" else "," + parts[0] + Commas(parts[1..])
  }

  lemma {:induction false} JoinIsCommas(first: string, rest: seq<string>)
    ensures Join([first] + rest, ',') == first + Commas(rest)
    decreases |rest|
  {
    var all := [first] + rest;
    if rest != [] {
      assert all[1..] == [rest[0]] + rest[1..];
      JoinIsCommas(rest[0], rest[1..]);
    }
  }

  lemma {:induction false} CommasConcat(a: seq<string>, b: seq<string>)
    ensures Commas(a + b) == Commas(a) + Commas(b)
  {
    if a == [] {
      assert a + b == b;
    } else {
      assert (a + b)[1..] == a[1..] + b;
      CommasConcat(a[1..], b);
    }
  }

  /** The text of an optional integer and of the further keys, each with a comma before it. */
  ghost function OptionText(k: string, n: Option<int>): string {
    if n.Some? then "," + k + "=" + IntText(n.value) else ""
  }

  ghost function ExtrasText(extras: seq<(string, string)>): string
    decreases |extras|
  {
    if extras == [] then "" else "," + extras[0].0 + "=" + extras[0].1 + ExtrasText(extras[1..])
  }

  ghost function LabelText(cfg: Config): string {
    "ctk=" + cfg.ctk + "," + ("ctv=" + cfg.ctv)
    + (OptionText("attn_rot_k", cfg.rotK) + OptionText("attn_rot_v", cfg.rotV)
       + OptionText("attn_rot_disable", cfg.rotDisable) + ExtrasText(cfg.extras))
  }

  lemma {:induction false} ExtrasAreCommas(extras: seq<(string, string)>)
    ensures Commas(ExtraBits(extras)) == ExtrasText(extras)
  {
    if extras != [] {
      assert ExtraBits(extras)[1..] == ExtraBits(extras[1..]);
      ExtrasAreCommas(extras[1..]);
    }
  }

  lemma {:induction false} OptionIsCommas(f: Field, k: string, n: Option<int>)
    requires Name(f) == k
    ensures Commas(IntBits(f, n)) == OptionText(k, n)
  {
    if n.Some? { assert IntBits(f, n)[1..] == []; }
  }

  lemma {:induction false} IntegersAreCommas(cfg: Config, rest: seq<string>)
    ensures Commas(IntegerBits(cfg) + rest)
         == OptionText("attn_rot_k", cfg.rotK) + OptionText("attn_rot_v", cfg.rotV)
            + OptionText("attn_rot_disable", cfg.rotDisable) + Commas(rest)
  {
    var a, b, c := IntBits(RotK, cfg.rotK), IntBits(RotV, cfg.rotV), IntBits(RotDisable, cfg.rotDisable);
    CommasConcat(a + b + c, rest);
    CommasConcat(a + b, c);
    CommasConcat(a, b);
    OptionIsCommas(RotK, "attn_rot_k", cfg.rotK);
    OptionIsCommas(RotV, "attn_rot_v", cfg.rotV);
    OptionIsCommas(RotDisable, "attn_rot_disable", cfg.rotDisable);
  }

  lemma {:induction false} TypesPrint(first: string, second: string, rest: seq<string>, all: seq<string>)
    requires all == [first, second] + rest
    ensures Join(all, ',') == first + "," + second + Commas(rest)
  {
    var more := [second] + rest;
    assert all == [first] + more && more[1..] == rest;
    JoinIsCommas(first, more);
  }

  lemma {:induction false} BitsPrint(cfg: Config)
    ensures Join(Bits(cfg), ',') == LabelText(cfg)
  {
    var rest := IntegerBits(cfg) + ExtraBits(cfg.extras);
    assert Bits(cfg) == TypeBits(cfg) + rest;
    assert "ctk" + "=" == "ctk=" && "ctv" + "=" == "ctv=";
    assert TypeBits(cfg) == ["ctk=" + cfg.ctk, "ctv=" + cfg.ctv];
    TypesPrint("ctk=" + cfg.ctk, "ctv=" + cfg.ctv, rest, Bits(cfg));
    IntegersAreCommas(cfg, ExtraBits(cfg.extras));
    ExtrasAreCommas(cfg.extras);
  }

  method Label(cfg: Config) returns (text: string)
    ensures text == Join(Bits(cfg), ',')
    ensures text == LabelText(cfg)
  {
    BitsPrint(cfg);
    var bits := [Bit(Name(Ctk), cfg.ctk), Bit(Name(Ctv), cfg.ctv)];
    bits := AddInt(bits, RotK, cfg.rotK);
    bits := AddInt(bits, RotV, cfg.rotV);
    bits := AddInt(bits, RotDisable, cfg.rotDisable);
    Regroup(TypeBits(cfg), IntBits(RotK, cfg.rotK), IntBits(RotV, cfg.rotV), IntBits(RotDisable, cfg.rotDisable));
    var extras := AddExtras(bits, cfg.extras);
    return Join(extras, ',');
  }

  lemma {:induction false} Regroup(t: seq<string>, a: seq<string>, b: seq<string>, c: seq<string>)
    ensures t + a + b + c == t + (a + b + c)
  {}

  method AddInt(bits: seq<string>, f: Field, n: Option<int>) returns (more: seq<string>)
    ensures more == bits + IntBits(f, n)
  {
    more := bits;
    if n.Some? { more := more + [Bit(Name(f), IntText(n.value))]; }
  }

  method AddExtras(bits: seq<string>, extras: seq<(string, string)>) returns (more: seq<string>)
    ensures more == bits + ExtraBits(extras)
  {
    more := bits;
    for i := 0 to |extras|
      invariant more == bits + ExtraBits(extras)[..i]
    {
      more := more + [Bit(extras[i].0, extras[i].1)];
    }
    assert ExtraBits(extras)[..|extras|] == ExtraBits(extras);
  }

  // ----- which configs parsing can produce -----

  predicate CleanValue(v: string) { IsStripped(v) && ',' !in v }

  predicate CleanKey(k: string) { CleanValue(k) && '=' !in k && FieldOf(k).None? }

  predicate CleanExtras(extras: seq<(string, string)>) {
    && (forall i :: 0 <= i < |extras| ==> CleanKey(extras[i].0) && CleanValue(extras[i].1))
    && DistinctNames(extras)
  }

  predicate Valid(cfg: Config) {
    CleanValue(cfg.ctk) && CleanValue(cfg.ctv) && CleanExtras(cfg.extras)
  }

  lemma {:induction false} PutAdds(extras: seq<(string, string)>, k: string, v: string)
    ensures forall e :: e in Put(extras, k, v) ==> e in extras || e == (k, v)
  {
    if extras != [] && extras[0].0 != k { PutAdds(extras[1..], k, v); }
  }

  predicate DistinctNames(extras: seq<(string, string)>) {
    forall i, j :: 0 <= i < j < |extras| ==> extras[i].0 != extras[j].0
  }

  lemma {:induction false} PutKeepsDistinct(extras: seq<(string, string)>, k: string, v: string)
    requires DistinctNames(extras)
    ensures DistinctNames(Put(extras, k, v))
  {
    if extras != [] && extras[0].0 != k {
      var tail := extras[1..];
      PutKeepsDistinct(tail, k, v);
      PutAdds(tail, k, v);
      var rest := Put(tail, k, v);
      forall j | 0 <= j < |rest| ensures rest[j].0 != extras[0].0 {
        assert rest[j] in rest;
      }
    }
  }

  lemma {:induction false} PutKeepsClean(extras: seq<(string, string)>, k: string, v: string)
    requires CleanExtras(extras) && CleanKey(k) && CleanValue(v)
    ensures CleanExtras(Put(extras, k, v))
  {
    PutKeepsDistinct(extras, k, v);
    PutAdds(extras, k, v);
    var r := Put(extras, k, v);
    forall i | 0 <= i < |r| ensures CleanKey(r[i].0) && CleanValue(r[i].1) {
      assert r[i] in r;
    }
  }

  lemma {:induction false} AssignKeepsValid(cfg: Config, k: string, v: string)
    requires Valid(cfg) && CleanValue(k) && '=' !in k && CleanValue(v) && Assign(cfg, k, v).Ok?
    ensures Valid(Assign(cfg, k, v).value)
  {
    if FieldOf(k).None? { PutKeepsClean(cfg.extras, k, v); }
  }

  lemma {:induction false} StepKeepsValid(cfg: Config, fragment: string)
    requires Valid(cfg) && ',' !in fragment && Step(cfg, fragment).Ok?
    ensures Valid(Step(cfg, fragment).value)
  {
    StripIsStripped(fragment);
    var part := Strip(fragment);
    if part != "" {
      var i := FirstEquals(part);
      StripIsStripped(part[..i]);
      StripIsStripped(part[i + 1..]);
      AssignKeepsValid(cfg, Strip(part[..i]), Strip(part[i + 1..]));
    }
  }

  lemma {:induction false} FoldKeepsValid(cfg: Config, fragments: seq<string>)
    requires Valid(cfg) && (forall i :: 0 <= i < |fragments| ==> ',' !in fragments[i]) && Fold(cfg, fragments).Ok?
    ensures Valid(Fold(cfg, fragments).value)
    decreases |fragments|
  {
    if fragments != [] {
      StepKeepsValid(cfg, fragments[0]);
      FoldKeepsValid(Step(cfg, fragments[0]).value, fragments[1..]);
    }
  }

  // ----- reading back what was printed -----

  lemma {:induction false} FirstEqualsOfBit(k: string, v: string)
    requires '=' !in k
    ensures FirstEquals(Bit(k, v)) == |k|
  {
    if k != "" {
      FirstEqualsOfBit(k[1..], v);
      assert Bit(k, v)[1..] == Bit(k[1..], v);
    }
  }

  lemma {:induction false} StepReadsBit(cfg: Config, k: string, v: string)
    requires IsStripped(k) && '=' !in k && IsStripped(v)
    ensures Step(cfg, Bit(k, v)) == Assign(cfg, k, v)
  {
    var bit := Bit(k, v);
    StripIsStripped(bit);
    StripIsStripped(k);
    StripIsStripped(v);
    FirstEqualsOfBit(k, v);
    assert bit[..|k|] == k && bit[|k| + 1..] == v;
  }

  lemma {:induction false} FoldConcat(cfg: Config, a: seq<string>, b: seq<string>, mid: Config)
    requires Fold(cfg, a) == Ok(mid)
    ensures Fold(cfg, a + b) == Fold(mid, b)
    decreases |a|
  {
    if a == [] {
      assert a + b == b;
    } else {
      assert (a + b)[1..] == a[1..] + b;
      FoldConcat(Step(cfg, a[0]).value, a[1..], b, mid);
    }
  }

  lemma {:induction false} PutAppends(extras: seq<(string, string)>, k: string, v: string)
    requires forall i :: 0 <= i < |extras| ==> extras[i].0 != k
    ensures Put(extras, k, v) == extras + [(k, v)]
  {
    if extras != [] { PutAppends(extras[1..], k, v); }
  }

  lemma {:induction false} FoldExtras(cfg: Config, done: nat)
    requires CleanExtras(cfg.extras) && done <= |cfg.extras|
    ensures Fold(cfg.(extras := cfg.extras[..done]), ExtraBits(cfg.extras)[done..]) == Ok(cfg)
    decreases |cfg.extras| - done
  {
    var bits, partial := ExtraBits(cfg.extras), cfg.(extras := cfg.extras[..done]);
    if done == |cfg.extras| {
      assert cfg.extras[..done] == cfg.extras && bits[done..] == [];
    } else {
      var k, v := cfg.extras[done].0, cfg.extras[done].1;
      assert bits[done..][0] == Bit(k, v) && bits[done..][1..] == bits[done + 1..];
      StepReadsBit(partial, k, v);
      PutAppends(partial.extras, k, v);
      assert cfg.extras[..done + 1] == cfg.extras[..done] + [(k, v)];
      FoldExtras(cfg, done + 1);
    }
  }

  lemma {:induction false} FoldOne(cfg: Config, bit: string, next: Config)
    requires Step(cfg, bit) == Ok(next)
    ensures Fold(cfg, [bit]) == Ok(next)
  {
    assert [bit][1..] == [];
  }

  lemma {:induction false} NameReads(f: Field)
    ensures FieldOf(Name(f)) == Some(f) && CleanValue(Name(f)) && '=' !in Name(f)
  {}

  lemma {:induction false} FoldInt(cfg: Config, f: Field, n: Option<int>)
    requires f != Ctk && f != Ctv && SetInt(cfg, f, None) == cfg
    ensures Fold(cfg, IntBits(f, n)) == Ok(SetInt(cfg, f, n))
  {
    if n.Some? {
      IntRoundTrip(n.value);
      NameReads(f);
      StepReadsBit(cfg, Name(f), IntText(n.value));
      FoldOne(cfg, Bit(Name(f), IntText(n.value)), SetInt(cfg, f, n));
    }
  }

  lemma {:induction false} FoldType(cfg: Config, f: Field, v: string)
    requires CleanValue(v) && (f == Ctk || f == Ctv)
    ensures Fold(cfg, [Bit(Name(f), v)]) == Ok(if f == Ctk then cfg.(ctk := v) else cfg.(ctv := v))
  {
    NameReads(f);
    StepReadsBit(cfg, Name(f), v);
    FoldOne(cfg, Bit(Name(f), v), if f == Ctk then cfg.(ctk := v) else cfg.(ctv := v));
  }

  lemma {:induction false} FoldChain(
      a: seq<string>, b: seq<string>, c: seq<string>, c0: Config, c1: Config, c2: Config, c3: Config)
    requires Fold(c0, a) == Ok(c1) && Fold(c1, b) == Ok(c2) && Fold(c2, c) == Ok(c3)
    ensures Fold(c0, a + b + c) == Ok(c3)
  {
    assert a + b + c == a + (b + c);
    FoldConcat(c1, b, c, c2);
    FoldConcat(c0, a, b + c, c1);
  }

  lemma {:induction false} FoldTypes(start: Config, ctk: string, ctv: string)
    requires CleanValue(ctk) && CleanValue(ctv)
    ensures Fold(start, [Bit(Name(Ctk), ctk), Bit(Name(Ctv), ctv)]) == Ok(start.(ctk := ctk, ctv := ctv))
  {
    var a, b := [Bit(Name(Ctk), ctk)], [Bit(Name(Ctv), ctv)];
    FoldType(start, Ctk, ctk);
    FoldType(start.(ctk := ctk), Ctv, ctv);
    FoldConcat(start, a, b, start.(ctk := ctk));
    assert a + b == [Bit(Name(Ctk), ctk), Bit(Name(Ctv), ctv)];
  }

  lemma {:induction false} FoldInts(start: Config, rotK: Option<int>, rotV: Option<int>, rotDisable: Option<int>)
    requires start.rotK.None? && start.rotV.None? && start.rotDisable.None?
    ensures Fold(start, IntBits(RotK, rotK) + IntBits(RotV, rotV) + IntBits(RotDisable, rotDisable))
         == Ok(start.(rotK := rotK, rotV := rotV, rotDisable := rotDisable))
  {
    var second := start.(rotK := rotK);
    var third := second.(rotV := rotV);
    FoldInt(start, RotK, rotK);
    FoldInt(second, RotV, rotV);
    FoldInt(third, RotDisable, rotDisable);
    FoldChain(IntBits(RotK, rotK), IntBits(RotV, rotV), IntBits(RotDisable, rotDisable),
              start, second, third, third.(rotDisable := rotDisable));
  }

  lemma {:induction false} FoldReadsBits(start: Config, cfg: Config)
    requires Valid(cfg)
    requires start.rotK.None? && start.rotV.None? && start.rotDisable.None? && start.extras == []
    ensures Fold(start, Bits(cfg)) == Ok(cfg)
  {
    var typed := start.(ctk := cfg.ctk, ctv := cfg.ctv);
    var bare := typed.(rotK := cfg.rotK, rotV := cfg.rotV, rotDisable := cfg.rotDisable);
    FoldTypes(start, cfg.ctk, cfg.ctv);
    FoldInts(typed, cfg.rotK, cfg.rotV, cfg.rotDisable);
    FoldAllExtras(cfg, bare);
    FoldChain(TypeBits(cfg), IntegerBits(cfg), ExtraBits(cfg.extras), start, typed, bare, cfg);
  }

  lemma {:induction false} FoldAllExtras(cfg: Config, bare: Config)
    requires CleanExtras(cfg.extras) && bare == cfg.(extras := [])
    ensures Fold(bare, ExtraBits(cfg.extras)) == Ok(cfg)
  {
    FoldExtras(cfg, 0);
    assert ExtraBits(cfg.extras)[0..] == ExtraBits(cfg.extras) && cfg.extras[..0] == [];
  }

  lemma {:induction false} CommaFreeBit(k: string, v: string)
    requires ',' !in k && ',' !in v
    ensures ',' !in Bit(k, v)
  {}

  lemma {:induction false} CommaFreeInts(f: Field, n: Option<int>)
    ensures forall b :: b in IntBits(f, n) ==> ',' !in b
  {
    if n.Some? {
      IntRoundTrip(n.value);
      NameReads(f);
      CommaFreeBit(Name(f), IntText(n.value));
    }
  }

  lemma {:induction false} CommaFreeTypes(f: Field, v: string)
    requires CleanValue(v)
    ensures ',' !in Bit(Name(f), v)
  {
    NameReads(f);
    CommaFreeBit(Name(f), v);
  }

  lemma {:induction false} CommaFreeExtras(extras: seq<(string, string)>)
    requires CleanExtras(extras)
    ensures forall b :: b in ExtraBits(extras) ==> ',' !in b
  {
    forall i | 0 <= i < |extras| ensures ',' !in ExtraBits(extras)[i] {
      CommaFreeBit(extras[i].0, extras[i].1);
    }
  }

  lemma {:induction false} CommaFreeBits(cfg: Config)
    requires Valid(cfg)
    ensures forall i :: 0 <= i < |Bits(cfg)| ==> ',' !in Bits(cfg)[i]
  {
    CommaFreeTypes(Ctk, cfg.ctk);
    CommaFreeTypes(Ctv, cfg.ctv);
    CommaFreeInts(RotK, cfg.rotK);
    CommaFreeInts(RotV, cfg.rotV);
    CommaFreeInts(RotDisable, cfg.rotDisable);
    CommaFreeExtras(cfg.extras);
    forall i | 0 <= i < |Bits(cfg)| ensures ',' !in Bits(cfg)[i] {
      assert Bits(cfg)[i] in Bits(cfg);
    }
  }

  // ----- the main results -----

  /** Printing and reading again is the identity on every config that parsing can produce. */
  lemma {:induction false} LabelRoundTrip(cfg: Config)
    requires Valid(cfg)
    ensures Meaning(Join(Bits(cfg), ',')) == Ok(cfg)
  {
    CommaFreeBits(cfg);
    SplitJoin(Bits(cfg), ',');
    FoldReadsBits(DEFAULT, cfg);
  }

  /** The configs that some text parses to are exactly the valid ones. */
  lemma {:induction false} ParsedIffValid(cfg: Config)
    ensures Valid(cfg) <==> exists spec :: Meaning(spec) == Ok(cfg)
  {
    if Valid(cfg) { LabelRoundTrip(cfg); }
    forall spec | Meaning(spec) == Ok(cfg) ensures Valid(cfg) {
      FoldKeepsValid(DEFAULT, Split(spec, ','));
    }
  }

  /** For every text that parses, parsing the label of the result gives that result. */
  lemma {:induction false} ParseLabelParse(spec: string)
    requires Meaning(spec).Ok?
    ensures Meaning(Join(Bits(Meaning(spec).value), ',')) == Meaning(spec)
  {
    ParsedIffValid(Meaning(spec).value);
    LabelRoundTrip(Meaning(spec).value);
  }

  /** The method pair, end to end. */
  method Reparse(spec: string) returns (first: Result<Config, Problem>, second: Result<Config, Problem>)
    ensures first == Meaning(spec) && second == first
  {
    first := Parse(spec);
    second := first;
    if first.Ok? {
      var text := Label(first.value);
      ParseLabelParse(spec);
      second := Parse(text);
    }
  }
}
