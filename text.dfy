/** String and sequence helpers for the few Python string operations the
    modelled code uses: `str.endswith`, `str.strip`, `str(int)`, and
    removal from a list. */
module Text {

  /** Python's `s.endswith(suffix)`. */
  predicate EndsWith(s: string, suffix: string) {
    |suffix| <= |s| && s[|s| - |suffix|..] == suffix
  }

  /** `s` cut in two after its first `n` characters (all of it when it is
      shorter). */
  function Split(s: string, n: nat): (r: (string, string))
    ensures r.0 + r.1 == s
    ensures |r.0| == if n <= |s| then n else |s|
  {
    if n <= |s| then (s[..n], s[n..]) else (s, "")
  }

  /** No element occurs twice. */
  ghost predicate Distinct<T>(s: seq<T>) {
    forall i, j :: 0 <= i < j < |s| ==> s[i] != s[j]
  }

  /** `s` with every occurrence of `x` removed, the rest in order
      (what anytree does to the old parent's child list on a detach). */
  function Remove(s: seq<nat>, x: nat): (r: seq<nat>)
    ensures forall y :: y in r <==> y in s && y != x
    ensures Distinct(s) ==> Distinct(r)
    ensures |r| <= |s|
  {
    if s == [] then []
    else if s[0] == x then Remove(s[1..], x)
    else
      var rest := Remove(s[1..], x);
      assert Distinct(s) ==> s[0] !in s[1..];
      [s[0]] + rest
  }

  /** The length of the leading run of `c` in `s`. */
  function LeadingCount(s: string, c: char): (n: nat)
    ensures n <= |s|
    ensures n == |s| || s[n] != c
  {
    if s == [] || s[0] != c then 0 else 1 + LeadingCount(s[1..], c)
  }

  /** Python's `s.strip(c)`: what is left neither starts nor ends with `c`
      (StripSlice and StripDropsOnly say that nothing else is removed). */
  function Strip(s: string, c: char): (r: string)
    ensures r == [] || (r[0] != c && r[|r| - 1] != c)
    ensures |r| <= |s|
    decreases |s|
  {
    if s != [] && s[0] == c then Strip(s[1..], c)
    else if s != [] && s[|s| - 1] == c then Strip(s[..|s| - 1], c)
    else s
  }

  /** What `s.strip(c)` keeps is one slice of `s`: the one that starts
      right after the leading run of `c`. */
  lemma {:induction false} StripSlice(s: string, c: char)
    ensures LeadingCount(s, c) + |Strip(s, c)| <= |s|
    ensures Strip(s, c) == s[LeadingCount(s, c)..LeadingCount(s, c) + |Strip(s, c)|]
    decreases |s|
  {
    if s != [] && s[0] == c {
      var t := s[1..];
      StripSlice(t, c);
      var k, n := LeadingCount(t, c), |Strip(t, c)|;
      assert Strip(s, c) == Strip(t, c) && LeadingCount(s, c) == k + 1;
      assert t[k..k + n] == s[k + 1..k + 1 + n];
    } else if s != [] && s[|s| - 1] == c {
      var t := s[..|s| - 1];
      StripSlice(t, c);
      var n := |Strip(t, c)|;
      assert s[0] != c;
      assert Strip(s, c) == Strip(t, c);
      assert LeadingCount(s, c) == 0;
      assert LeadingCount(t, c) == 0 by {
        assert t == [] || t[0] == s[0];
      }
      assert t[..n] == s[..n];
    }
  }

  /** Every character `s.strip(c)` drops is a `c`. */
  lemma {:induction false} StripDropsOnly(s: string, c: char)
    ensures LeadingCount(s, c) + |Strip(s, c)| <= |s|
    ensures forall i :: 0 <= i < |s| && !(LeadingCount(s, c) <= i < LeadingCount(s, c) + |Strip(s, c)|) ==> s[i] == c
    decreases |s|
  {
    if s != [] && s[0] == c {
      var t := s[1..];
      StripDropsOnly(t, c);
      assert LeadingCount(s, c) == 1 + LeadingCount(t, c);
      forall i | 0 <= i < |s| && !(LeadingCount(s, c) <= i < LeadingCount(s, c) + |Strip(s, c)|)
        ensures s[i] == c
      {
        if i > 0 {
          assert s[i] == t[i - 1];
        }
      }
    } else if s != [] && s[|s| - 1] == c {
      var t := s[..|s| - 1];
      StripDropsOnly(t, c);
      assert LeadingCount(s, c) == 0 && LeadingCount(t, c) == 0;
      forall i | 0 <= i < |s| && !(0 <= i < |Strip(s, c)|)
        ensures s[i] == c
      {
        if i < |s| - 1 {
          assert s[i] == t[i];
        }
      }
    } else {
      assert LeadingCount(s, c) == 0;
    }
  }

  function Digit(d: nat): (c: char)
    requires d < 10
    ensures '0' <= c <= '9' && c as int - '0' as int == d
  {
    ('0' as int + d) as char
  }

  /** Python's `str(n)` for a natural number. */
  function NatToString(n: nat): (s: string)
    ensures |s| >= 1
    ensures forall i :: 0 <= i < |s| ==> '0' <= s[i] <= '9'
    ensures s[0] == '0' ==> n == 0 && s == "0"
  {
    if n < 10 then [Digit(n)] else NatToString(n / 10) + [Digit(n % 10)]
  }

  /** Python's `str(i)` for an integer. */
  function IntToString(i: int): (s: string)
    ensures |s| >= 1
    ensures s[0] == '-' <==> i < 0
  {
    if i < 0 then "-" + NatToString(-i) else NatToString(i)
  }

  /** The value of a string of decimal digits: the inverse of NatToString. */
  function DigitsValue(s: string): nat
    requires forall i :: 0 <= i < |s| ==> '0' <= s[i] <= '9'
  {
    if s == [] then 0
    else DigitsValue(s[..|s| - 1]) * 10 + (s[|s| - 1] as int - '0' as int)
  }

  /** Reading back the decimal text gives the number it was written from. */
  lemma {:induction false} NatToStringRoundTrip(n: nat)
    ensures DigitsValue(NatToString(n)) == n
  {
    if n >= 10 {
      NatToStringRoundTrip(n / 10);
      var s := NatToString(n);
      assert s[..|s| - 1] == NatToString(n / 10);
    }
  }

  /** Distinct numbers have distinct decimal texts. */
  lemma NatToStringInjective(m: nat, n: nat)
    requires NatToString(m) == NatToString(n)
    ensures m == n
  {
    NatToStringRoundTrip(m);
    NatToStringRoundTrip(n);
  }
}
