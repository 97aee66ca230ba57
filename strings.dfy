/** Python string behaviour the tool relies on: the `<` order that `sorted` uses on
    dictionary keys, the least key of a dictionary, `str.startswith`, and the
    decimal conversions `"%d" % n` and `int(s)`. */
module Strings {

  /** Python's `a < b` on `str`: code point by code point, a proper prefix first. */
  predicate StrLess(a: string, b: string)
  {
    if |a| == 0 then |b| > 0
    else if |b| == 0 then false
    else if a[0] != b[0] then a[0] < b[0]
    else StrLess(a[1..], b[1..])
  }

  lemma {:induction false} StrLessIrreflexive(a: string)
    ensures !StrLess(a, a)
  {
    if |a| > 0 {
      StrLessIrreflexive(a[1..]);
    }
  }

  lemma {:induction false} StrLessAsymmetric(a: string, b: string)
    ensures StrLess(a, b) ==> !StrLess(b, a)
  {
    if |a| > 0 && |b| > 0 && a[0] == b[0] {
      StrLessAsymmetric(a[1..], b[1..]);
    }
  }

  lemma {:induction false} StrLessTransitive(a: string, b: string, c: string)
    requires StrLess(a, b) && StrLess(b, c)
    ensures StrLess(a, c)
  {
    if |a| > 0 && |b| > 0 && |c| > 0 && a[0] == b[0] && b[0] == c[0] {
      StrLessTransitive(a[1..], b[1..], c[1..]);
    }
  }

  lemma {:induction false} StrLessTotal(a: string, b: string)
    ensures a == b || StrLess(a, b) || StrLess(b, a)
  {
    if |a| > 0 && |b| > 0 && a[0] == b[0] {
      StrLessTotal(a[1..], b[1..]);
      if a[1..] == b[1..] {
        assert a == [a[0]] + a[1..] && b == [b[0]] + b[1..];
      }
    }
  }

  /** `k` is the first key `sorted` puts out for the key set `ks`. */
  predicate IsLeast(k: string, ks: set<string>)
  {
    k in ks && forall x :: x in ks && x != k ==> StrLess(k, x)
  }

  lemma {:induction false} LeastExists(ks: set<string>)
    requires ks != {}
    ensures exists k :: IsLeast(k, ks)
    decreases |ks|
  {
    var y :| y in ks;
    var rest := ks - {y};
    if rest == {} {
      assert forall x :: x in ks ==> x == y || x in rest;
      assert IsLeast(y, ks);
    } else {
      LeastExists(rest);
      var z :| IsLeast(z, rest);
      StrLessTotal(y, z);
      if StrLess(y, z) {
        forall x | x in ks && x != y
          ensures StrLess(y, x)
        {
          if x != z {
            StrLessTransitive(y, z, x);
          }
        }
        assert IsLeast(y, ks);
      } else {
        assert IsLeast(z, ks);
      }
    }
  }

  lemma LeastUnique(k1: string, k2: string, ks: set<string>)
    requires IsLeast(k1, ks) && IsLeast(k2, ks)
    ensures k1 == k2
  {
    if k1 != k2 {
      StrLessAsymmetric(k1, k2);
      assert false;
    }
  }

  /** `sorted(in_dict)[0]` for a non-empty dictionary whose keys are `ks`. */
  function Least(ks: set<string>): (k: string)
    requires ks != {}
    ensures IsLeast(k, ks)
  {
    LeastExists(ks);
    forall k1, k2 | IsLeast(k1, ks) && IsLeast(k2, ks)
      ensures k1 == k2
    {
      LeastUnique(k1, k2, ks);
    }
    var k :| IsLeast(k, ks); k
  }

  /** The keys as `sorted` lists them: ascending and without repeats. */
  ghost predicate StrictlySorted(s: seq<string>)
  {
    forall i, j :: 0 <= i < j < |s| ==> StrLess(s[i], s[j])
  }

  function Elements(s: seq<string>): set<string>
  {
    set x | x in s
  }

  /** A sorted listing of a key set starts with its least key, and the rest of
      the listing is a sorted listing of the remaining keys. */
  lemma SortedListingHead(s: seq<string>)
    requires StrictlySorted(s) && s != []
    ensures s[0] in Elements(s) && Least(Elements(s)) == s[0]
    ensures StrictlySorted(s[1..])
    ensures Elements(s[1..]) == Elements(s) - {s[0]}
  {
    var ks := Elements(s);
    forall x | x in ks && x != s[0]
      ensures StrLess(s[0], x)
    {
      var j :| 0 <= j < |s| && s[j] == x;
    }
    assert IsLeast(s[0], ks);
    LeastUnique(Least(ks), s[0], ks);
    forall x | x in s[1..]
      ensures x != s[0]
    {
      var j :| 1 <= j < |s| && s[j] == x;
      StrLessIrreflexive(s[0]);
    }
  }

  /** Python's `s.startswith(p)`. */
  predicate StartsWith(s: string, p: string)
  {
    |p| <= |s| && s[..|p|] == p
  }

  // ---------------- decimal numbers: "%d" % n and int(s) ----------------

  predicate IsDigit(c: char)
  {
    '0' <= c <= '9'
  }

  function DigitChar(d: nat): (c: char)
    requires d < 10
    ensures IsDigit(c) && c as int - '0' as int == d
  {
    ('0' as int + d) as char
  }

  function DigitValue(c: char): nat
    requires IsDigit(c)
  {
    c as int - '0' as int
  }

  /** The decimal digits of `n`, most significant first, without leading zeros. */
  function NatDigits(n: nat): (s: string)
    ensures |s| > 0 && forall i :: 0 <= i < |s| ==> IsDigit(s[i])
  {
    if n < 10 then [DigitChar(n)] else NatDigits(n / 10) + [DigitChar(n % 10)]
  }

  /** Python's `"%d" % n`. */
  function IntToDecimal(n: int): string
  {
    if n < 0 then "-" + NatDigits(-n) else NatDigits(n)
  }

  /** The value of a non-empty run of decimal digits. */
  function DigitsValue(s: string): nat
    requires forall i :: 0 <= i < |s| ==> IsDigit(s[i])
  {
    if |s| == 0 then 0 else DigitsValue(s[..|s| - 1]) * 10 + DigitValue(s[|s| - 1])
  }

  predicate AllDigits(s: string)
  {
    |s| > 0 && forall i :: 0 <= i < |s| ==> IsDigit(s[i])
  }

  /** Python's `int(s)` on a string: an optional sign followed by decimal digits.
      `None` stands for the `ValueError` that `int` raises on anything else. */
  function ParseInt(s: string): (r: Option<int>)
    ensures r.Some? <==> AllDigits(s) || (|s| > 0 && (s[0] == '-' || s[0] == '+') && AllDigits(s[1..]))
  {
    if AllDigits(s) then Some(DigitsValue(s))
    else if |s| > 0 && s[0] == '-' && AllDigits(s[1..]) then Some(0 - DigitsValue(s[1..]))
    else if |s| > 0 && s[0] == '+' && AllDigits(s[1..]) then Some(DigitsValue(s[1..]))
    else None
  }

  datatype Option<+T> = None | Some(value: T)

  lemma {:induction false} NatDigitsValue(n: nat)
    ensures DigitsValue(NatDigits(n)) == n
  {
    if n >= 10 {
      NatDigitsValue(n / 10);
      var s := NatDigits(n);
      assert s[..|s| - 1] == NatDigits(n / 10);
    }
  }

  /** `int("%d" % n) == n` for every integer `n`. */
  lemma DecimalRoundTrip(n: int)
    ensures ParseInt(IntToDecimal(n)) == Some(n)
  {
    if n < 0 {
      NatDigitsValue(-n);
      assert IntToDecimal(n)[1..] == NatDigits(-n);
    } else {
      NatDigitsValue(n);
    }
  }

  /** Distinct numbers print differently. */
  lemma DecimalInjective(m: int, n: int)
    requires IntToDecimal(m) == IntToDecimal(n)
    ensures m == n
  {
    DecimalRoundTrip(m);
    DecimalRoundTrip(n);
  }
}
