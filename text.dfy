/**
 * The string operations the game applies to user input and error messages:
 * case mapping, `String.prototype.trim`, `includes`, `startsWith`, the digit
 * filter `replace(/\D/g, '')`, `slice(0, n)` and `Number.prototype.toString()`.
 */
module Text {

  // ---------------------------------------------------------------- case mapping

  predicate IsLowerAscii(c: char) { 'a' <= c <= 'z' }
  predicate IsUpperAscii(c: char) { 'A' <= c <= 'Z' }

  function UpperChar(c: char): char {
    if IsLowerAscii(c) then (c as int - 32) as char else c
  }

  function LowerChar(c: char): char {
    if IsUpperAscii(c) then (c as int + 32) as char else c
  }

  /** `toUpperCase`, on the ASCII letters. */
  function ToUpper(s: string): string {
    seq(|s|, i requires 0 <= i < |s| => UpperChar(s[i]))
  }

  /** `toLowerCase`, on the ASCII letters. */
  function ToLower(s: string): string {
    seq(|s|, i requires 0 <= i < |s| => LowerChar(s[i]))
  }

  predicate NoLowerAscii(s: string) { forall i :: 0 <= i < |s| ==> !IsLowerAscii(s[i]) }
  predicate NoUpperAscii(s: string) { forall i :: 0 <= i < |s| ==> !IsUpperAscii(s[i]) }

  /** Upper-casing forgets the case the input was typed in. */
  lemma UpperForgetsCase(s: string)
    ensures ToUpper(ToLower(s)) == ToUpper(s)
    ensures NoLowerAscii(ToUpper(s))
    ensures NoLowerAscii(s) ==> ToUpper(s) == s
  {
  }

  /** Lower-casing forgets the case the input was typed in. */
  lemma LowerForgetsCase(s: string)
    ensures ToLower(ToUpper(s)) == ToLower(s)
    ensures NoUpperAscii(ToLower(s))
    ensures NoUpperAscii(s) ==> ToLower(s) == s
  {
  }

  // ---------------------------------------------------------------- trim

  /** The characters `String.prototype.trim` removes: ECMAScript WhiteSpace and LineTerminator. */
  predicate IsJsSpace(c: char) {
    c == '\t' || c == '\n' || c == '\U{000B}' || c == '\U{000C}' || c == '\r' || c == ' '
    || c == '\U{00A0}' || c == '\U{1680}' || ('\U{2000}' <= c <= '\U{200A}')
    || c == '\U{2028}' || c == '\U{2029}' || c == '\U{202F}' || c == '\U{205F}'
    || c == '\U{3000}' || c == '\U{FEFF}'
  }

  predicate AllSpace(s: string) { forall i :: 0 <= i < |s| ==> IsJsSpace(s[i]) }

  /** True when `s` neither starts nor ends with white space. */
  predicate Trimmed(s: string) {
    s == [] || (!IsJsSpace(s[0]) && !IsJsSpace(s[|s| - 1]))
  }

  /** Drops the leading white space: the result is the longest suffix that does not start with it. */
  function TrimStart(s: string): (r: string)
    ensures |r| <= |s| && r == s[|s| - |r|..]
    ensures r == [] || !IsJsSpace(r[0])
    ensures AllSpace(s[..|s| - |r|])
  {
    if |s| > 0 && IsJsSpace(s[0]) then
      var t := s[1..];
      var r := TrimStart(t);
      assert s[|s| - |r|..] == t[|t| - |r|..];
      assert s[..|s| - |r|] == [s[0]] + t[..|t| - |r|];
      r
    else s
  }

  /** Drops the trailing white space: the result is the longest prefix that does not end with it. */
  function TrimEnd(s: string): (r: string)
    ensures |r| <= |s| && r == s[..|r|]
    ensures r == [] || !IsJsSpace(r[|r| - 1])
    ensures AllSpace(s[|r|..])
  {
    if |s| > 0 && IsJsSpace(s[|s| - 1]) then
      var t := s[..|s| - 1];
      var r := TrimEnd(t);
      assert s[..|r|] == t[..|r|];
      assert forall i :: 0 <= i < |t| - |r| ==> s[|r|..][i] == t[|r|..][i];
      r
    else s
  }

  /** `String.prototype.trim`. */
  function Trim(s: string): string {
    TrimEnd(TrimStart(s))
  }

  /** `s` is `Trim(s)` wrapped in white space, and `Trim(s)` has none at either end. */
  lemma TrimSplits(s: string) returns (u: string, v: string)
    ensures Trimmed(Trim(s))
    ensures AllSpace(u) && AllSpace(v) && s == u + Trim(s) + v
  {
    var a := TrimStart(s);
    u := LeadingSpace(s);
    v := TrailingSpace(a);
    TrimmedParts(a, TrimEnd(a));
    ConcatAssoc(u, TrimEnd(a), v);
  }

  lemma ConcatAssoc<T>(a: seq<T>, b: seq<T>, c: seq<T>)
    ensures a + (b + c) == a + b + c
  {
  }

  /** The white space `TrimStart` drops. */
  lemma LeadingSpace(s: string) returns (u: string)
    ensures AllSpace(u) && s == u + TrimStart(s)
  {
    u := s[..|s| - |TrimStart(s)|];
    SplitAt(s, |u|);
  }

  /** The white space `TrimEnd` drops. */
  lemma TrailingSpace(s: string) returns (v: string)
    ensures AllSpace(v) && s == TrimEnd(s) + v
  {
    v := s[|TrimEnd(s)|..];
    SplitAt(s, |TrimEnd(s)|);
  }

  lemma Regroup<T>(p: seq<T>, u: seq<T>, r: seq<T>, v: seq<T>, q: seq<T>)
    ensures p + (u + r + v) + q == (p + u) + r + (v + q)
  {
  }

  lemma SplitAt<T>(s: seq<T>, k: nat)
    requires k <= |s|
    ensures s == s[..k] + s[k..]
  {
  }

  lemma TrimmedParts(a: string, r: string)
    requires a == [] || !IsJsSpace(a[0])
    requires |r| <= |a| && r == a[..|r|] && (r == [] || !IsJsSpace(r[|r| - 1]))
    ensures Trimmed(r)
  {
    if r != [] {
      assert r[0] == a[0];
    }
  }

  lemma {:induction false} TrimStartSkips(u: string, x: string)
    requires AllSpace(u)
    ensures TrimStart(u + x) == TrimStart(x)
  {
    if u == [] {
      assert u + x == x;
    } else {
      assert (u + x)[1..] == u[1..] + x;
      TrimStartSkips(u[1..], x);
    }
  }

  lemma {:induction false} TrimEndSkips(x: string, v: string)
    requires AllSpace(v)
    ensures TrimEnd(x + v) == TrimEnd(x)
  {
    if v == [] {
      assert x + v == x;
    } else {
      assert (x + v)[..|x + v| - 1] == x + v[..|v| - 1];
      TrimEndSkips(x, v[..|v| - 1]);
    }
  }

  /** Whatever white space surrounds a trimmed core, `trim` returns exactly that core. */
  lemma TrimOf(u: string, r: string, v: string)
    requires AllSpace(u) && AllSpace(v) && Trimmed(r)
    ensures Trim(u + r + v) == r
  {
    assert u + r + v == u + (r + v);
    TrimStartSkips(u, r + v);
    if r == [] {
      assert r + v == v;
      assert TrimStart(v) == [];
    } else {
      assert (r + v)[0] == r[0];
      assert TrimStart(r + v) == r + v;
      TrimEndSkips(r, v);
      assert TrimEnd(r) == r;
    }
  }

  /** Padding the input with white space does not change what `trim` returns. */
  lemma TrimPadded(p: string, s: string, q: string)
    requires AllSpace(p) && AllSpace(q)
    ensures Trim(p + s + q) == Trim(s)
  {
    var u, v := TrimSplits(s);
    var r := Trim(s);
    var pu, vq := p + u, v + q;
    Regroup(p, u, r, v, q);
    AllSpaceConcat(p, u);
    AllSpaceConcat(v, q);
    TrimOf(pu, r, vq);
  }

  /** Trimming is idempotent. */
  lemma TrimIdempotent(s: string)
    ensures Trim(Trim(s)) == Trim(s)
  {
    var _, _ := TrimSplits(s);
    TrimOf([], Trim(s), []);
    assert [] + Trim(s) + [] == Trim(s);
  }

  // ---------------------------------------------------------------- case mapping and trim

  /** Applies `f` to every character. */
  function MapChars(s: string, f: char -> char): (r: string)
    ensures |r| == |s| && forall i :: 0 <= i < |s| ==> r[i] == f(s[i])
  {
    seq(|s|, i requires 0 <= i < |s| => f(s[i]))
  }

  /** `f` turns white space into white space and nothing else into white space. */
  predicate KeepsSpace(f: char -> char) {
    forall c :: IsJsSpace(f(c)) <==> IsJsSpace(c)
  }

  lemma CaseMapsKeepSpace()
    ensures KeepsSpace(UpperChar) && KeepsSpace(LowerChar)
    ensures forall s :: ToUpper(s) == MapChars(s, UpperChar)
    ensures forall s :: ToLower(s) == MapChars(s, LowerChar)
  {
  }

  lemma MapConcat(a: string, b: string, c: string, f: char -> char)
    ensures MapChars(a + b + c, f) == MapChars(a, f) + MapChars(b, f) + MapChars(c, f)
  {
    var l, r := MapChars(a + b + c, f), MapChars(a, f) + MapChars(b, f) + MapChars(c, f);
    assert |l| == |r|;
    forall k | 0 <= k < |l| ensures l[k] == r[k] {
      if k < |a| {
      } else if k < |a| + |b| {
      } else {
      }
    }
  }

  lemma MapKeepsAllSpace(s: string, f: char -> char)
    requires KeepsSpace(f) && AllSpace(s)
    ensures AllSpace(MapChars(s, f))
  {
    forall k | 0 <= k < |s| ensures IsJsSpace(MapChars(s, f)[k]) {
      assert IsJsSpace(f(s[k])) <==> IsJsSpace(s[k]);
    }
  }

  lemma MapKeepsTrimmed(s: string, f: char -> char)
    requires KeepsSpace(f)
    ensures Trimmed(MapChars(s, f)) <==> Trimmed(s)
  {
    if s != [] {
      assert IsJsSpace(f(s[0])) <==> IsJsSpace(s[0]);
      assert IsJsSpace(f(s[|s| - 1])) <==> IsJsSpace(s[|s| - 1]);
    }
  }

  /** A space-keeping character map and `trim` can be applied in either order. */
  lemma TrimMapCommutes(s: string, f: char -> char)
    requires KeepsSpace(f)
    ensures Trim(MapChars(s, f)) == MapChars(Trim(s), f)
  {
    var u, v := TrimSplits(s);
    var r := Trim(s);
    MapConcat(u, r, v, f);
    MapKeepsAllSpace(u, f);
    MapKeepsAllSpace(v, f);
    MapKeepsTrimmed(r, f);
    TrimOf(MapChars(u, f), MapChars(r, f), MapChars(v, f));
  }

  /**
   * After a space-keeping character map, the trimmed input equals a trimmed
   * `target` exactly when the input is some mapped-to-`target` core surrounded
   * by white space on both sides.
   */
  lemma PaddedMatch(input: string, f: char -> char, target: string)
    requires KeepsSpace(f) && Trimmed(target)
    ensures MapChars(Trim(input), f) == target <==>
      exists i, j :: 0 <= i <= j <= |input| && AllSpace(input[..i]) && AllSpace(input[j..])
                     && MapChars(input[i..j], f) == target
  {
    if MapChars(Trim(input), f) == target {
      var u, v := TrimSplits(input);
      PaddedWitness(input, u, Trim(input), v);
    }
    if exists i, j :: 0 <= i <= j <= |input| && AllSpace(input[..i]) && AllSpace(input[j..])
                      && MapChars(input[i..j], f) == target {
      var i, j :| 0 <= i <= j <= |input| && AllSpace(input[..i]) && AllSpace(input[j..])
                  && MapChars(input[i..j], f) == target;
      PaddedCore(input, f, i, j);
    }
  }

  lemma PaddedWitness(input: string, u: string, r: string, v: string)
    requires input == u + r + v
    ensures input[..|u|] == u && input[|u| + |r|..] == v && input[|u|..|u| + |r|] == r
  {
  }

  lemma PaddedCore(input: string, f: char -> char, i: nat, j: nat)
    requires KeepsSpace(f) && i <= j <= |input|
    requires AllSpace(input[..i]) && AllSpace(input[j..]) && Trimmed(MapChars(input[i..j], f))
    ensures Trim(input) == input[i..j]
  {
    var r := input[i..j];
    MapKeepsTrimmed(r, f);
    SplitAt(input, j);
    SplitAt(input[..j], i);
    assert input[..j][..i] == input[..i] && input[..j][i..] == r;
    TrimOf(input[..i], r, input[j..]);
  }

  lemma AllSpaceConcat(a: string, b: string)
    requires AllSpace(a) && AllSpace(b)
    ensures AllSpace(a + b)
  {
    forall i | 0 <= i < |a + b| ensures IsJsSpace((a + b)[i]) {
      if i < |a| { assert (a + b)[i] == a[i]; } else { assert (a + b)[i] == b[i - |a|]; }
    }
  }

  // ---------------------------------------------------------------- substrings

  /** `t` occurs in `s` starting at index `i`. */
  predicate OccursAt(s: string, t: string, i: int) {
    0 <= i && i + |t| <= |s| && s[i..i + |t|] == t
  }

  /** `s.includes(t)`, searching from the left. */
  predicate Contains(s: string, t: string) {
    t <= s || (|s| > 0 && Contains(s[1..], t))
  }

  /** The search finds `t` exactly when it occurs somewhere in `s`. */
  lemma {:induction false} ContainsIff(s: string, t: string)
    ensures Contains(s, t) <==> exists i :: OccursAt(s, t, i)
  {
    if t <= s {
      assert OccursAt(s, t, 0);
    } else if |s| == 0 {
      assert forall i :: !OccursAt(s, t, i);
    } else {
      ContainsIff(s[1..], t);
      if Contains(s[1..], t) {
        var i :| OccursAt(s[1..], t, i);
        assert s[i + 1..i + 1 + |t|] == s[1..][i..i + |t|];
        assert OccursAt(s, t, i + 1);
      }
      if i :| OccursAt(s, t, i) {
        assert i != 0;
        assert s[1..][i - 1..i - 1 + |t|] == s[i..i + |t|];
        assert OccursAt(s[1..], t, i - 1);
      }
    }
  }

  /** A message with `t` anywhere inside contains `t`. */
  lemma {:induction false} ContainsInfix(a: string, t: string, b: string)
    ensures Contains(a + t + b, t)
  {
    if a == [] {
      assert a + t + b == t + b;
    } else {
      assert (a + t + b)[1..] == a[1..] + t + b;
      ContainsInfix(a[1..], t, b);
    }
  }

  // ---------------------------------------------------------------- digits

  predicate IsDigit(c: char) { '0' <= c <= '9' }

  predicate AllDigits(s: string) { forall i :: 0 <= i < |s| ==> IsDigit(s[i]) }

  /** `s.replace(/\D/g, '')`: the digits of `s`, in order. */
  function DigitsOnly(s: string): (r: string)
    ensures AllDigits(r) && |r| <= |s|
    ensures AllDigits(s) ==> r == s
  {
    if s == [] then []
    else (if IsDigit(s[0]) then [s[0]] else []) + DigitsOnly(s[1..])
  }

  /** A string of digits has no white space to trim. */
  lemma DigitsTrimmed(s: string)
    requires AllDigits(s)
    ensures Trim(s) == s
  {
    TrimOf([], s, []);
    assert [] + s + [] == s;
  }

  /** `s.slice(0, n)`. */
  function Take(s: string, n: nat): string {
    if n <= |s| then s[..n] else s
  }

  function DigitChar(d: nat): char
    requires d < 10
  {
    ('0' as int + d) as char
  }

  function DigitValue(c: char): nat
    requires IsDigit(c)
  {
    c as int - '0' as int
  }

  /** `n.toString()` for a non-negative integer. */
  function NatToDecimal(n: nat): (s: string)
    ensures |s| >= 1 && AllDigits(s)
    ensures n > 0 ==> s[0] != '0'
  {
    if n < 10 then [DigitChar(n)] else NatToDecimal(n / 10) + [DigitChar(n % 10)]
  }

  /** The number a string of decimal digits denotes. */
  function DecimalValue(s: string): nat
    requires AllDigits(s)
  {
    if s == [] then 0 else DecimalValue(s[..|s| - 1]) * 10 + DigitValue(s[|s| - 1])
  }

  /** Reading back the rendered decimal gives the number. */
  lemma {:induction false} DecimalRoundTrip(n: nat)
    ensures DecimalValue(NatToDecimal(n)) == n
  {
    if n >= 10 {
      var s := NatToDecimal(n);
      assert s[..|s| - 1] == NatToDecimal(n / 10);
      DecimalRoundTrip(n / 10);
    }
  }
}
