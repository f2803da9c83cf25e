/**
 * The string primitives the hand-off code and the scorables lean on:
 * white space and trimming as .NET defines them, ASCII case folding for
 * case-insensitive comparison, and decimal rendering of numbers.
 */
module Text {
  import opened Wrappers

  /**
   * White space as .NET's char.IsWhiteSpace and the regex class \s define it: the
   * blank, tab and line breaks are in it; letters, digits and brackets are not.
   */
  predicate IsWhiteSpace(c: char)
    ensures c == ' ' || c == '\t' || c == '\n' || c == '\r' ==> IsWhiteSpace(c)
    ensures IsDigit(c) || 'a' <= c <= 'z' || 'A' <= c <= 'Z' || c == '(' || c == ')' ==> !IsWhiteSpace(c)
  {
    || c == ' '
    || '\t' <= c <= '\r'
    || c == '\U{85}' || c == '\U{A0}' || c == '\U{1680}'
    || '\U{2000}' <= c <= '\U{200A}'
    || c == '\U{2028}' || c == '\U{2029}' || c == '\U{202F}' || c == '\U{205F}' || c == '\U{3000}'
  }

  /** string.IsNullOrWhiteSpace; a null text is modelled as the empty string. */
  predicate IsBlank(s: string) {
    forall i :: 0 <= i < |s| ==> IsWhiteSpace(s[i])
  }

  /** Drops the leading white space: what is left is a suffix of s. */
  function TrimStart(s: string): (r: string)
    ensures |r| <= |s| && r == s[|s| - |r|..]
    ensures forall i :: 0 <= i < |s| - |r| ==> IsWhiteSpace(s[i])
    ensures r == [] || !IsWhiteSpace(r[0])
  {
    if s != [] && IsWhiteSpace(s[0]) then
      var r := TrimStart(s[1..]);
      assert s[1..][|s| - 1 - |r|..] == s[|s| - |r|..];
      r
    else s
  }

  /** Drops the trailing white space: what is left is a prefix of s. */
  function TrimEnd(s: string): (r: string)
    ensures |r| <= |s| && r == s[..|r|]
    ensures IsBlank(s[|r|..])
    ensures r == [] || !IsWhiteSpace(r[|r| - 1])
  {
    if s != [] && IsWhiteSpace(s[|s| - 1]) then TrimEnd(s[..|s| - 1]) else s
  }

  /** string.Trim(): a slice of s, so never longer. */
  function Trim(s: string): (r: string)
    ensures |r| <= |s|
  {
    TrimEnd(TrimStart(s))
  }

  /** Leading white space makes no difference to TrimStart. */
  lemma {:induction false} TrimStartAfterBlank(w: string, t: string)
    requires IsBlank(w)
    ensures TrimStart(w + t) == TrimStart(t)
  {
    if w != [] {
      assert (w + t)[0] == w[0] && IsWhiteSpace(w[0]);
      assert (w + t)[1..] == w[1..] + t;
      assert IsBlank(w[1..]) by {
        forall i | 0 <= i < |w| - 1 ensures IsWhiteSpace(w[1..][i]) {
          assert w[1..][i] == w[i + 1];
        }
      }
      TrimStartAfterBlank(w[1..], t);
      assert TrimStart(w + t) == TrimStart((w + t)[1..]);
    } else {
      assert w + t == t;
    }
  }

  /** A text is blank exactly when trimming leaves nothing. */
  lemma BlankIffTrimEmpty(s: string)
    ensures IsBlank(s) <==> TrimStart(s) == []
  {
    var r := TrimStart(s);
    if r == [] {
      assert s[..|s|] == s;
    } else {
      assert s[|s| - |r|] == r[0];
    }
  }

  /** ASCII case folding; every trigger the code compares against is ASCII. It maps exactly the ASCII letters onto the lower-case ones. */
  function Lower(c: char): (r: char)
    ensures !('A' <= r <= 'Z')
    ensures 'a' <= r <= 'z' <==> 'a' <= c <= 'z' || 'A' <= c <= 'Z'
  {
    if 'A' <= c <= 'Z' then (c as int + 32) as char else c
  }

  /** string.Equals(b, InvariantCultureIgnoreCase) on the ASCII alphabet: equal texts match, and only texts of one length do. */
  predicate EqualsIgnoreCase(a: string, b: string)
    ensures EqualsIgnoreCase(a, b) ==> |a| == |b|
    ensures a == b ==> EqualsIgnoreCase(a, b)
  {
    |a| == |b| && forall i :: 0 <= i < |a| ==> Lower(a[i]) == Lower(b[i])
  }

  /**
   * Case-insensitive prefix test: StartsWith(p, InvariantCultureIgnoreCase), or a
   * JavaScript /^p/i test. An exact prefix passes; only a text at least as long as p can.
   */
  predicate StartsWithIgnoreCase(s: string, p: string)
    ensures StartsWithIgnoreCase(s, p) ==> |p| <= |s|
    ensures |p| <= |s| && s[..|p|] == p ==> StartsWithIgnoreCase(s, p)
  {
    |p| <= |s| && EqualsIgnoreCase(s[..|p|], p)
  }

  predicate IsDigit(c: char) {
    '0' <= c <= '9'
  }

  function Digit(d: nat): (c: char)
    requires d < 10
    ensures IsDigit(c)
  {
    ('0' as int + d) as char
  }

  /** Decimal rendering (int.ToString() and Number.prototype.toString() for naturals). */
  function NatToString(n: nat): (s: string)
    ensures |s| >= 1
    ensures forall i :: 0 <= i < |s| ==> IsDigit(s[i])
    ensures |s| > 1 ==> s[0] != '0'
  {
    if n < 10 then [Digit(n)] else NatToString(n / 10) + [Digit(n % 10)]
  }

  /** The value a string of decimal digits denotes. */
  function ParseNat(s: string): nat
    requires forall i :: 0 <= i < |s| ==> IsDigit(s[i])
  {
    if s == [] then 0
    else
      assert IsDigit(s[|s| - 1]);
      ParseNat(s[..|s| - 1]) * 10 + (s[|s| - 1] as int - '0' as int)
  }

  /** Rendering a number in decimal loses nothing. */
  lemma {:induction false} ParseNatToString(n: nat)
    ensures ParseNat(NatToString(n)) == n
  {
    if n >= 10 {
      var s := NatToString(n);
      assert s[..|s| - 1] == NatToString(n / 10);
      ParseNatToString(n / 10);
    }
  }

  /** int.ToString(): a minus sign exactly for a negative number, then the digits of the magnitude, which read back as it. */
  function IntToString(i: int): (s: string)
    ensures forall k :: 0 <= k < |s| ==> IsDigit(s[k]) || (k == 0 && s[k] == '-' && i < 0)
    ensures i >= 0 ==> ParseNat(s) == i
    ensures i < 0 ==> |s| >= 2 && s[0] == '-' && ParseNat(s[1..]) == -i
  {
    if i < 0 then
      var digits := NatToString(-i);
      ParseNatToString(-i);
      assert ("-" + digits)[1..] == digits;
      "-" + digits
    else
      ParseNatToString(i);
      NatToString(i)
  }

  /** The number written in decimal between `head` and `tail`, when `text` is `head`, digits, `tail`. */
  function CountAt(text: string, head: string, tail: string): Option<nat> {
    if |head| + |tail| < |text| && text[..|head|] == head && text[|text| - |tail|..] == tail then
      var digits := text[|head|..|text| - |tail|];
      if forall i :: 0 <= i < |digits| ==> IsDigit(digits[i]) then Some(ParseNat(digits)) else None
    else
      None
  }

  /** A number written between two texts reads back as itself. */
  lemma CountAtRoundTrip(head: string, n: nat, tail: string)
    ensures CountAt(head + NatToString(n) + tail, head, tail) == Some(n)
  {
    var digits := NatToString(n);
    var text := head + digits + tail;
    assert text[..|head|] == head;
    assert text[|text| - |tail|..] == tail;
    assert text[|head|..|text| - |tail|] == digits;
    ParseNatToString(n);
  }
}
