/** Decimal text of numbers. */
module Decimal {

  predicate IsDigit(c: char) { '0' <= c <= '9' }

  function Digit(d: nat): (c: char)
    requires d < 10
    ensures IsDigit(c)
  {
    '0' + d as char
  }

  function Text(n: nat): (s: string)
    ensures |s| > 0 && forall k :: 0 <= k < |s| ==> IsDigit(s[k])
  {
    if n < 10 then [Digit(n)] else Text(n / 10) + [Digit(n % 10)]
  }

  /** The number that a string of digits stands for. */
  function Value(s: string): nat {
    if s == [] then 0
    else 10 * Value(s[..|s| - 1]) + if IsDigit(s[|s| - 1]) then (s[|s| - 1] - '0') as nat else 0
  }

  lemma {:induction false} ValueOfText(n: nat)
    ensures Value(Text(n)) == n
  {
    if n >= 10 {
      ValueOfText(n / 10);
      assert Text(n)[..|Text(n)| - 1] == Text(n / 10);
    }
  }

  lemma TextIsInjective(m: nat, n: nat)
    requires Text(m) == Text(n)
    ensures m == n
  {
    ValueOfText(m);
    ValueOfText(n);
  }

  /** No zero stands in front of other digits. */
  predicate Trimmed(s: string) {
    s != [] && (forall k :: 0 <= k < |s| ==> IsDigit(s[k])) && (|s| > 1 ==> s[0] != '0')
  }

  lemma {:induction false} TextIsTrimmed(n: nat)
    ensures Trimmed(Text(n)) && (n > 0 ==> Text(n)[0] != '0')
  {
    if n >= 10 {
      TextIsTrimmed(n / 10);
    }
  }

  /** The decimal text of a number is the one string of digits that stands for it and has no zero in front of others. */
  lemma {:induction false} TextIsCanonical(n: nat, s: string)
    ensures s == Text(n) <==> Trimmed(s) && Value(s) == n
    decreases |s|
  {
    TextIsTrimmed(n);
    ValueOfText(n);
    if Trimmed(s) && Value(s) == n {
      LastDigit(s);
      assert s == s[..|s| - 1] + [s[|s| - 1]];
      if |s| > 1 {
        TrimmedIsPositive(s[..|s| - 1]);
        TextIsCanonical(n / 10, s[..|s| - 1]);
      }
    }
  }

  lemma LastDigit(s: string)
    requires Trimmed(s)
    ensures s[|s| - 1] == Digit(Value(s) % 10) && Value(s[..|s| - 1]) == Value(s) / 10
  {
  }

  /** Such a string is worth something, unless it is a zero. */
  lemma {:induction false} TrimmedIsPositive(s: string)
    requires Trimmed(s) && s[0] != '0'
    ensures Value(s) > 0
    decreases |s|
  {
    if |s| > 1 {
      TrimmedIsPositive(s[..|s| - 1]);
    }
  }

  /** `n` without its last `k` digits. */
  function Shortened(n: nat, k: nat): nat {
    if k == 0 then n else Shortened(n / 10, k - 1)
  }

  /** Dropping `k` digits of `n` leaves `m`. */
  predicate Leads(m: nat, n: nat, k: nat) { Shortened(n, k) == m }

  /** The text of one number begins that of another exactly if dropping last digits leads from the second to the first. */
  lemma {:induction false} PrefixIsShortened(m: nat, n: nat)
    requires m > 0
    ensures Text(m) <= Text(n) <==> exists k: nat :: Leads(m, n, k)
  {
    if m == n {
      assert Leads(m, n, 0);
    } else if n < 10 {
      ShortenedDigit(m, n);
    } else {
      PrefixIsShortened(m, n / 10);
      ShorterPrefix(m, n);
      ShortenedOnce(m, n);
    }
  }

  lemma ShortenedOnce(m: nat, n: nat)
    requires m != n
    ensures (exists k: nat :: Leads(m, n, k)) <==> (exists k: nat :: Leads(m, n / 10, k))
  {
    forall k: nat | Leads(m, n, k)
      ensures exists i: nat :: Leads(m, n / 10, i)
    {
      assert Leads(m, n / 10, k - 1);
    }
    forall k: nat | Leads(m, n / 10, k)
      ensures exists i: nat :: Leads(m, n, i)
    {
      assert Leads(m, n, k + 1);
    }
  }

  /** A proper beginning leaves out the last digit. */
  lemma ShorterPrefix(m: nat, n: nat)
    requires n >= 10 && m != n
    ensures Text(m) <= Text(n) <==> Text(m) <= Text(n / 10)
  {
    var s := Text(n);
    assert s[..|s| - 1] == Text(n / 10);
    if Text(m) <= s && |Text(m)| == |s| {
      TextIsInjective(m, n);
    }
  }

  lemma ShortenedDigit(m: nat, n: nat)
    requires m > 0 && m != n && n < 10
    ensures !(Text(m) <= Text(n)) && forall k: nat :: !Leads(m, n, k)
  {
    if Text(m) <= Text(n) {
      TextIsInjective(m, n);
    }
    forall k: nat
      ensures !Leads(m, n, k)
    {
      ShortenedZero(n, k);
    }
  }

  lemma {:induction false} ShortenedZero(n: nat, k: nat)
    requires n < 10
    ensures Shortened(n, k) == n || Shortened(n, k) == 0
    decreases k
  {
    if k > 0 {
      ShortenedZero(n / 10, k - 1);
    }
  }
}
