/**
 * String helpers shared by the model: ASCII case folding (SQLite LIKE and
 * String.prototype.toLowerCase on the characters the application uses),
 * substring search (LIKE '%s%' and String.prototype.includes),
 * String.prototype.trim, and decimal rendering with padStart(2, '0').
 */
module Text {

  /** Folds 'A'..'Z' to 'a'..'z' and leaves every other character alone. */
  function LowerChar(c: char): char {
    if 'A' <= c <= 'Z' then (c as int + 32) as char else c
  }

  function Lower(s: string): (r: string)
    ensures |r| == |s|
    ensures forall i :: 0 <= i < |s| ==> r[i] == LowerChar(s[i])
  {
    seq(|s|, i requires 0 <= i < |s| => LowerChar(s[i]))
  }

  /** `needle` occurs in `hay` starting at index `i`. */
  predicate OccursAt(hay: string, needle: string, i: int) {
    0 <= i <= |hay| - |needle| && hay[i..i + |needle|] == needle
  }

  /** `needle` occurs in `hay` as a contiguous substring. */
  predicate Contains(hay: string, needle: string) {
    exists i :: 0 <= i <= |hay| - |needle| && OccursAt(hay, needle, i)
  }

  lemma EmptyIsContained(hay: string)
    ensures Contains(hay, "")
  {
    assert OccursAt(hay, "", 0);
  }

  /**
   * The characters String.prototype.trim removes: the ECMAScript WhiteSpace
   * set (TAB, VT, FF, ZWNBSP and every Unicode "Zs" space) and the
   * LineTerminator set (LF, CR, LS, PS).
   */
  predicate IsJsSpace(c: char) {
    || c == '\U{0009}' || c == '\U{000B}' || c == '\U{000C}' || c == '\U{FEFF}'
    || c == ' ' || c == '\U{00A0}' || c == '\U{1680}'
    || ('\U{2000}' <= c <= '\U{200A}') || c == '\U{202F}' || c == '\U{205F}' || c == '\U{3000}'
    || c == '\U{000A}' || c == '\U{000D}' || c == '\U{2028}' || c == '\U{2029}'
  }

  predicate AllSpace(s: string) {
    forall i :: 0 <= i < |s| ==> IsJsSpace(s[i])
  }

  /** Drops leading whitespace: the result is a suffix of `s` that does not start with a space. */
  function TrimStart(s: string): (r: string)
    ensures |r| <= |s| && r == s[|s| - |r|..]
    ensures r == [] || !IsJsSpace(r[0])
    ensures r == [] <==> AllSpace(s)
  {
    if s != [] && IsJsSpace(s[0]) then TrimStart(s[1..]) else s
  }

  /** What TrimStart drops is all space. */
  lemma {:induction false} TrimStartDropsSpace(s: string)
    ensures AllSpace(s[..|s| - |TrimStart(s)|])
    decreases |s|
  {
    if s != [] && IsJsSpace(s[0]) {
      TrimStartDropsSpace(s[1..]);
      var k := |s| - |TrimStart(s)|;
      forall i | 0 <= i < k ensures IsJsSpace(s[i]) {
        if i > 0 {
          assert s[i] == s[1..][..k - 1][i - 1];
        }
      }
    }
  }

  /** Drops trailing whitespace: the result is a prefix of `s` that does not end with a space. */
  function TrimEnd(s: string): (r: string)
    ensures |r| <= |s| && r == s[..|r|]
    ensures r == [] || !IsJsSpace(r[|r| - 1])
    ensures r == [] <==> AllSpace(s)
  {
    if s != [] && IsJsSpace(s[|s| - 1]) then TrimEnd(s[..|s| - 1]) else s
  }

  /** What TrimEnd drops is all space. */
  lemma {:induction false} TrimEndDropsSpace(s: string)
    ensures AllSpace(s[|TrimEnd(s)|..])
    decreases |s|
  {
    if s != [] && IsJsSpace(s[|s| - 1]) {
      var front := s[..|s| - 1];
      TrimEndDropsSpace(front);
      var n := |TrimEnd(s)|;
      forall i | n <= i < |s| ensures IsJsSpace(s[i]) {
        if i < |s| - 1 {
          assert s[i] == front[n..][i - n];
        }
      }
    }
  }

  function Trim(s: string): string {
    TrimEnd(TrimStart(s))
  }

  /** What String.prototype.trim promises: a substring of the input, with no space at either end, empty exactly for blank input. */
  lemma TrimSpec(s: string)
    ensures var r := Trim(s);
      && (r == [] || (!IsJsSpace(r[0]) && !IsJsSpace(r[|r| - 1])))
      && (r == [] <==> AllSpace(s))
      && Contains(s, r)
  {
    var t := TrimStart(s);
    var r := TrimEnd(t);
    if r != [] {
      assert r[0] == t[0];
    }
    assert AllSpace(t) <==> t == [] by {
      if t != [] { assert !IsJsSpace(t[0]); }
    }
    TrimIsSubstring(s);
  }

  /** trim removes whitespace and nothing else: the input is leading space, the trimmed text, then trailing space. */
  lemma TrimDropsOnlySpace(s: string)
    ensures exists p, q :: s == p + Trim(s) + q && AllSpace(p) && AllSpace(q)
  {
    var t := TrimStart(s);
    var r := Trim(s);
    var k := |s| - |t|;
    var j := k + |r|;
    TrimIsSubstring(s);
    assert r == s[k..j];
    TrimStartDropsSpace(s);
    TrimEndDropsSpace(t);
    forall i | j <= i < |s| ensures IsJsSpace(s[i]) {
      assert s[i] == t[|r|..][i - j];
    }
    SplitThree(s, k, j);
    assert s == s[..k] + r + s[j..] && AllSpace(s[..k]) && AllSpace(s[j..]);
  }

  lemma SplitThree<T>(s: seq<T>, i: nat, j: nat)
    requires i <= j <= |s|
    ensures s == s[..i] + s[i..j] + s[j..]
  {
  }

  /** The trimmed text sits in the input right after the leading whitespace. */
  lemma TrimIsSubstring(s: string)
    ensures OccursAt(s, Trim(s), |s| - |TrimStart(s)|)
  {
    var t := TrimStart(s);
    var r := TrimEnd(t);
    PrefixOfSuffix(s, t, r, |s| - |t|);
  }

  lemma PrefixOfSuffix<T>(s: seq<T>, t: seq<T>, r: seq<T>, k: nat)
    requires k <= |s| && t == s[k..] && |r| <= |t| && r == t[..|r|]
    ensures k + |r| <= |s| && s[k..k + |r|] == r
  {
  }

  lemma TrimIdempotent(s: string)
    ensures Trim(Trim(s)) == Trim(s)
  {
    TrimSpec(s);
    var r := Trim(s);
    assert r == [] || !IsJsSpace(r[0]);
    assert TrimStart(r) == r;
    assert r == [] || !IsJsSpace(r[|r| - 1]);
    assert TrimEnd(r) == r;
  }

  function DigitChar(n: nat): (c: char)
    requires n < 10
    ensures '0' <= c <= '9'
  {
    ('0' as int + n) as char
  }

  /** The decimal rendering of `n` without leading zeros, as String(n) gives it. */
  function NatText(n: nat): (r: string)
    ensures |r| >= 1
    decreases n
  {
    if n < 10 then [DigitChar(n)] else NatText(n / 10) + [DigitChar(n % 10)]
  }

  /** String(n).padStart(2, '0'). */
  function Pad2(n: nat): string {
    var s := NatText(n);
    if |s| < 2 then "0" + s else s
  }

  /** For n < 100, padStart(2, '0') gives exactly the tens digit and the units digit. */
  lemma Pad2Digits(n: nat)
    requires n < 100
    ensures Pad2(n) == [DigitChar(n / 10), DigitChar(n % 10)]
  {
    if n >= 10 {
      assert NatText(n / 10) == [DigitChar(n / 10)];
    }
  }

  lemma DigitCharInjective(a: nat, b: nat)
    requires a < 10 && b < 10
    ensures DigitChar(a) == DigitChar(b) ==> a == b
  {
  }

  lemma Pad2Injective(a: nat, b: nat)
    requires a < 100 && b < 100
    ensures Pad2(a) == Pad2(b) ==> a == b
  {
    Pad2Digits(a);
    Pad2Digits(b);
    if Pad2(a) == Pad2(b) {
      DigitCharInjective(a / 10, b / 10);
      DigitCharInjective(a % 10, b % 10);
    }
  }

  /** A year in 1000..9999 renders as exactly four digits. */
  lemma YearTextDigits(y: nat)
    requires 1000 <= y <= 9999
    ensures NatText(y) == [DigitChar(y / 1000), DigitChar(y / 100 % 10), DigitChar(y / 10 % 10), DigitChar(y % 10)]
  {
    assert NatText(y / 1000) == [DigitChar(y / 1000)];
    assert y / 10 / 10 == y / 100;
    assert y / 100 / 10 == y / 1000;
  }

  /** A four-digit number is the sum of its digits times their place values. */
  lemma FourDigits(y: nat)
    requires 1000 <= y <= 9999
    ensures y == 1000 * (y / 1000) + 100 * (y / 100 % 10) + 10 * (y / 10 % 10) + y % 10
  {
    assert y == 10 * (y / 10) + y % 10;
    assert y / 10 == 10 * (y / 100) + y / 10 % 10 by {
      assert y / 10 / 10 == y / 100;
    }
    assert y / 100 == 10 * (y / 1000) + y / 100 % 10 by {
      assert y / 100 / 10 == y / 1000;
    }
  }

  lemma YearTextInjective(a: nat, b: nat)
    requires 1000 <= a <= 9999 && 1000 <= b <= 9999
    ensures NatText(a) == NatText(b) ==> a == b
  {
    if NatText(a) == NatText(b) {
      YearTextDigits(a);
      YearTextDigits(b);
      var ta, tb := NatText(a), NatText(b);
      assert ta[0] == tb[0] && ta[1] == tb[1] && ta[2] == tb[2] && ta[3] == tb[3];
      DigitCharInjective(a / 1000, b / 1000);
      DigitCharInjective(a / 100 % 10, b / 100 % 10);
      DigitCharInjective(a / 10 % 10, b / 10 % 10);
      DigitCharInjective(a % 10, b % 10);
      FourDigits(a);
      FourDigits(b);
    }
  }

  /** Two concatenations with equally long right parts are equal only part by part. */
  lemma SplitRight(a1: string, b1: string, a2: string, b2: string)
    requires a1 + b1 == a2 + b2 && |b1| == |b2|
    ensures a1 == a2 && b1 == b2
  {
    assert a1 == (a1 + b1)[..|a1|];
    assert a2 == (a2 + b2)[..|a2|];
    assert b1 == (a1 + b1)[|a1|..];
    assert b2 == (a2 + b2)[|a2|..];
  }
}
