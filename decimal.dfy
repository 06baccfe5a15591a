/**
 * Decimal rendering of integers, as JavaScript template strings produce it
 * (`${n}` for a safe integer, which prints without an exponent), and the facts the rest of the model
 * needs about it: the text is non-empty, made of digits (after an optional
 * minus sign), and different numbers give different texts.
 */
module Decimal {

  predicate IsDigit(c: char) {
    '0' <= c <= '9'
  }

  function DigitChar(d: nat): (c: char)
    requires d < 10
    ensures IsDigit(c) && c as int - '0' as int == d
  {
    ('0' as int + d) as char
  }

  /** The decimal digits of `n`, most significant first, without leading zeros. */
  function NatToString(n: nat): (s: string)
    ensures |s| >= 1
    ensures forall i :: 0 <= i < |s| ==> IsDigit(s[i])
    ensures (|s| == 1) == (n < 10)
    ensures |s| > 1 ==> s[0] != '0'
    decreases n
  {
    if n < 10 then [DigitChar(n)] else NatToString(n / 10) + [DigitChar(n % 10)]
  }

  /** `${i}` for an integer `i`: a minus sign before the digits of a negative number. */
  function IntToString(i: int): (s: string)
    ensures |s| >= 1
    ensures s[0] == '-' || IsDigit(s[0])
    ensures forall k :: 1 <= k < |s| ==> IsDigit(s[k])
  {
    if i < 0 then "-" + NatToString(-i) else NatToString(i)
  }

  /** Different naturals have different decimal texts. */
  lemma {:induction false} NatToStringInjective(a: nat, b: nat)
    requires NatToString(a) == NatToString(b)
    ensures a == b
    decreases a
  {
    var sa, sb := NatToString(a), NatToString(b);
    if a >= 10 && b >= 10 {
      assert sa[|sa| - 1] == DigitChar(a % 10);
      assert sb[|sb| - 1] == DigitChar(b % 10);
      assert sa[..|sa| - 1] == NatToString(a / 10);
      assert sb[..|sb| - 1] == NatToString(b / 10);
      NatToStringInjective(a / 10, b / 10);
    } else {
      assert |sa| == 1 && |sb| == 1;
      assert sa[0] == DigitChar(a) && sb[0] == DigitChar(b);
    }
  }

  /** Different integers have different decimal texts. */
  lemma IntToStringInjective(a: int, b: int)
    requires IntToString(a) == IntToString(b)
    ensures a == b
  {
    var sa, sb := IntToString(a), IntToString(b);
    if a < 0 && b < 0 {
      assert sa[1..] == NatToString(-a);
      assert sb[1..] == NatToString(-b);
      NatToStringInjective(-a, -b);
    } else if a >= 0 && b >= 0 {
      NatToStringInjective(a, b);
    } else {
      assert false;
    }
  }

  /**
   * Two texts that both end in "-" followed by a dash-free tail have the same
   * tail when they are equal: the tail is everything after the last dash.
   */
  lemma SameTailAfterLastDash(p1: string, t1: string, p2: string, t2: string)
    requires forall k :: 0 <= k < |t1| ==> t1[k] != '-'
    requires forall k :: 0 <= k < |t2| ==> t2[k] != '-'
    requires p1 + "-" + t1 == p2 + "-" + t2
    ensures t1 == t2
  {
    var s := p1 + "-" + t1;
    var n := |s|;
    // the last dash of s sits right before each tail
    assert s[n - 1 - |t1|] == '-';
    assert s[n - 1 - |t2|] == '-';
    assert forall j :: n - |t1| <= j < n ==> s[j] == t1[j - (n - |t1|)];
    assert forall j :: n - |t2| <= j < n ==> s[j] == t2[j - (n - |t2|)];
    assert |t1| == |t2|;
    assert t1 == s[n - |t1|..];
  }
}
