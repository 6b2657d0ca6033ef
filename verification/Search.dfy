/** Finding all numbers of a list whose decimal text begins with a prefix. */
module Search {
  import opened Options
  import opened Decimal
  import opened Sieves
  import opened Tries

  /** The numbers of the list that are asked for, as the list has them. */
  function Matching(l: seq<nat>, prefix: string): seq<nat> {
    if l == [] then []
    else Matching(l[..|l| - 1], prefix) + if prefix <= Text(l[|l| - 1]) then [l[|l| - 1]] else []
  }

  lemma {:induction false} MatchingHas(l: seq<nat>, prefix: string)
    requires Ascending(l)
    ensures Ascending(Matching(l, prefix))
    ensures forall n :: n in Matching(l, prefix) <==> n in l && prefix <= Text(n)
    decreases |l|
  {
    if l != [] {
      var l', last := l[..|l| - 1], l[|l| - 1];
      MatchingHas(l', prefix);
      assert l == l' + [last];
      forall k | 0 <= k < |Matching(l', prefix)|
        ensures Matching(l', prefix)[k] < last
      {
        assert Matching(l', prefix)[k] in l';
      }
    }
  }

  lemma SomeElement(s: seq<nat>)
    ensures s == [] || exists n :: n in s
  {
    assert s == [] || s[0] in s;
  }

  /** Ascending lists are determined by their elements. */
  lemma {:induction false} SameElements(a: seq<nat>, b: seq<nat>)
    requires Ascending(a) && Ascending(b) && forall n :: n in a <==> n in b
    ensures a == b
    decreases |a|
  {
    SomeElement(a);
    SomeElement(b);
    if a != [] {
      assert a[0] in b && b[0] in a;
      var a', b' := a[1..], b[1..];
      assert a == [a[0]] + a' && b == [b[0]] + b';
      assert a[0] == b[0];
      forall n
        ensures n in a' <==> n in b'
      {
        assert n in a' ==> n in a && n != a[0];
        assert n in b' ==> n in b && n != b[0];
      }
      SameElements(a', b');
    }
  }

  /** `list.sort` on different numbers. */
  function Sorted(s: seq<nat>): seq<nat> {
    if s == [] then [] else Put(s[|s| - 1], Sorted(s[..|s| - 1]))
  }

  function Put(x: nat, s: seq<nat>): seq<nat> {
    if s == [] || x <= s[0] then [x] + s else [s[0]] + Put(x, s[1..])
  }

  lemma {:induction false} PutHas(x: nat, s: seq<nat>)
    requires Ascending(s) && x !in s
    ensures Ascending(Put(x, s)) && forall n :: n in Put(x, s) <==> n == x || n in s
    decreases |s|
  {
    if s != [] && x > s[0] {
      var rest := s[1..];
      assert s == [s[0]] + rest;
      PutHas(x, rest);
      forall k | 0 <= k < |Put(x, rest)|
        ensures s[0] < Put(x, rest)[k]
      {
        assert Put(x, rest)[k] in Put(x, rest);
      }
    }
  }

  lemma {:induction false} SortedHas(s: seq<nat>)
    requires forall j, k :: 0 <= j < k < |s| ==> s[j] != s[k]
    ensures Ascending(Sorted(s)) && forall n :: n in Sorted(s) <==> n in s
    decreases |s|
  {
    if s != [] {
      var s', last := s[..|s| - 1], s[|s| - 1];
      assert s == s' + [last];
      SortedHas(s');
      PutHas(last, Sorted(s'));
    }
  }

  /** The texts of the numbers in the list. */
  ghost function Texts(l: seq<nat>): set<string> {
    set n | n in l :: Text(n)
  }

  method GenerateTrie(l: seq<nat>) returns (trie: Trie)
    ensures trie.Valid() && trie.words == Texts(l) && fresh(trie)
  {
    trie := new Trie();
    for k := 0 to |l|
      invariant trie.Valid() && fresh(trie) && trie.words == Texts(l[..k])
    {
      assert l[..k + 1] == l[..k] + [l[k]];
      trie.Insert(Text(l[k]));
    }
    assert l[..|l|] == l;
  }

  /**
   `find`: nothing exactly if no number of the list begins with the prefix (which is not empty); otherwise all that do,
   in ascending order.
   */
  method Find(l: seq<nat>, prefix: string) returns (r: Option<seq<nat>>)
    requires Ascending(l) && prefix != []
    ensures r == if Matching(l, prefix) == [] then None else Some(Matching(l, prefix))
  {
    var trie := GenerateTrie(l);
    r := FindIn(trie, l, prefix);
  }

  method FindIn(trie: Trie, l: seq<nat>, prefix: string) returns (r: Option<seq<nat>>)
    requires trie.Valid() && trie.words == Texts(l) && Ascending(l) && prefix != []
    ensures r == if Matching(l, prefix) == [] then None else Some(Matching(l, prefix))
  {
    var head := trie.Locate(prefix);
    PrefixThere(l, prefix, trie.nodes, trie.paths, trie.words);
    if head.None? {
      return None;
    }
    var found := trie.Collect(head.value, prefix);
    FoundIsMatching(l, prefix, found);
    return Some(Sorted(found));
  }

  /** What the sieve leaves: an odd number of representations, and no square of a number that it leaves. */
  ghost predicate Sieved(flags: seq<bool>, limit: nat) {
    && |flags| == limit + 1
    && forall n :: 0 <= n <= limit ==>
      flags[n] == (Odd(|Representations(n)|) && !(n < limit && Squareful(flags, n, limit)))
  }

  /** For a positive number as prefix the text plays no part: those match from which dropping last digits leaves it. */
  lemma MatchingIsLeading(l: seq<nat>, m: nat)
    requires Ascending(l) && m > 0
    ensures forall n :: n in Matching(l, Text(m)) <==> n in l && exists k: nat :: Leads(m, n, k)
  {
    MatchingHas(l, Text(m));
    forall n | n in l
      ensures Text(m) <= Text(n) <==> exists k: nat :: Leads(m, n, k)
    {
      PrefixIsShortened(m, n);
    }
  }

  /** The whole search: sieve, list, trie, traversal. */
  method FindUpTo(limit: nat, prefix: nat) returns (r: Option<seq<nat>>, l: seq<nat>, flags: seq<bool>)
    ensures Sieved(flags, limit) && Ascending(l)
    ensures forall n :: n in l <==> n == 2 || n == 3 || (5 <= n <= limit && flags[n])
    ensures r == if Matching(l, Text(prefix)) == [] then None else Some(Matching(l, Text(prefix)))
    ensures prefix > 0 && r.None? ==> forall n, k: nat :: n in l ==> !Leads(prefix, n, k)
    ensures prefix > 0 && r.Some? ==>
      Ascending(r.value) && forall n :: n in r.value <==> n in l && exists k: nat :: Leads(prefix, n, k)
  {
    var sieve := new Sieve(limit);
    sieve.LoopX();
    ghost var before := sieve.prime[..];
    sieve.OmitSquares();
    l := sieve.ToList();
    flags := sieve.prime[..];
    forall n | 0 <= n <= limit
      ensures flags[n] == (Odd(|Representations(n)|) && !(n < limit && Squareful(flags, n, limit)))
    {
      assert before[n] == Odd(|Representations(n)|);
    }
    r := Find(l, Text(prefix));
    MatchingHas(l, Text(prefix));
    if prefix > 0 {
      MatchingIsLeading(l, prefix);
    }
  }

  /** The numbers that begin with 2 among the primes up to 100. */
  method SearchHundred() returns (r: Option<seq<nat>>)
    ensures r == Some([2, 23, 29])
  {
    var l, flags;
    r, l, flags := FindUpTo(100, 2);
    LedByTwo(l, flags, r);
  }

  lemma LedByTwo(l: seq<nat>, flags: seq<bool>, r: Option<seq<nat>>)
    requires Sieved(flags, 100) && Ascending(l)
    requires forall n :: n in l <==> n == 2 || n == 3 || (5 <= n <= 100 && flags[n])
    requires r.None? ==> forall n, k: nat :: n in l ==> !Leads(2, n, k)
    requires r.Some? ==> Ascending(r.value) && forall n :: n in r.value <==> n in l && exists k: nat :: Leads(2, n, k)
    ensures r == Some([2, 23, 29])
  {
    Twenties(flags);
    assert Leads(2, 2, 0) && 2 in l && Leads(2, 23, 1) && Leads(2, 29, 1);
    forall n | n in r.value
      ensures n == 2 || n == 23 || n == 29
    {
      LeadingTwo(n);
    }
    assert 2 in r.value && 23 in r.value && 29 in r.value;
    ThreeNumbers(r.value);
  }

  lemma ThreeNumbers(l: seq<nat>)
    requires Ascending(l) && forall n :: n in l <==> n == 2 || n == 23 || n == 29
    ensures l == [2, 23, 29]
  {
    assert 2 in l && 23 in l && 29 in l;
    var i, j, k :| 0 <= i < |l| && 0 <= j < |l| && 0 <= k < |l| && l[i] == 2 && l[j] == 23 && l[k] == 29;
    assert i < j < k;
    forall m | 0 <= m < |l|
      ensures (l[m] == 2 && m == i) || (l[m] == 23 && m == j) || (l[m] == 29 && m == k)
    {
      assert l[m] in l;
    }
    assert l[0] in l && l[1] in l && l[2] in l && l[|l| - 1] in l;
  }

  /** Up to 100 only 2 and the twenties begin with a 2. */
  lemma LeadingTwo(n: nat)
    requires n <= 100 && exists k: nat :: Leads(2, n, k)
    ensures n == 2 || 20 <= n < 30
  {
    var k: nat :| Leads(2, n, k);
    if k > 1 {
      assert Shortened(n, k) == Shortened(n / 10, k - 1) == Shortened(n / 10 / 10, k - 2);
      ShortenedIsSmaller(n / 10 / 10, k - 2);
    }
    assert k == 1 ==> Shortened(n, k) == Shortened(n / 10, 0);
  }

  lemma {:induction false} ShortenedIsSmaller(n: nat, k: nat)
    ensures Shortened(n, k) <= n
  {
    if k > 0 {
      ShortenedIsSmaller(n / 10, k - 1);
    }
  }

  /** Of the twenties only 23 and 29 stay. */
  lemma Twenties(flags: seq<bool>)
    requires Sieved(flags, 100)
    ensures forall n :: 20 <= n < 30 ==> flags[n] == (n == 23 || n == 29)
  {
    Stays(flags, 23);
    Stays(flags, 29);
    TwentyFive(flags);
    forall n | 20 <= n < 30 && n != 23 && n != 25 && n != 29
      ensures !flags[n]
    {
      NoForm(n);
    }
  }

  /** Even numbers and multiples of 3 have no form. */
  lemma NoForm(n: nat)
    requires n % 2 == 0 || n % 3 == 0
    ensures Representations(n) == {}
  {
  }

  lemma Stays(flags: seq<bool>, n: nat)
    requires Sieved(flags, 100) && (n == 5 || n == 23 || n == 29)
    ensures flags[n]
  {
    Represented(n);
    NoSquare(flags, n);
  }

  /** The square of 5 was flagged, and goes. */
  lemma TwentyFive(flags: seq<bool>)
    requires Sieved(flags, 100)
    ensures !flags[25]
  {
    Stays(flags, 5);
    SquareIs(5);
    assert Multiple(25, Square(5));
  }

  lemma NoSquare(flags: seq<bool>, n: nat)
    requires n < 25 || n == 29
    ensures !Squareful(flags, n, 100)
  {
    forall q: nat | 5 <= q
      ensures !Multiple(n, Square(q))
    {
      SquareIs(q);
      SquareIs(6);
      SquaresAscend(5, q);
      if q > 5 {
        SquaresAscend(6, q);
      }
      assert !Multiple(4, 25);
    }
  }

  /** One pair each. */
  lemma Represented(n: nat)
    requires n == 5 || n == 23 || n == 29
    ensures Representations(n) == if n == 5 then {(1, 1)} else if n == 23 then {(3, 2)} else {(1, 5)}
  {
    forall x: int, y: int | 1 <= x && 1 <= y && Hit(n, x, y)
      ensures x <= 5 && y <= 5
    {
      HitIsSmall(n, x, y);
      if x > 5 {
        SquaresAscend(6, x);
      }
      if y > 5 {
        SquaresAscend(6, y);
      }
    }
    forall x: int, y: int | 1 <= x <= 5 && 1 <= y <= 5
      ensures Hit(n, x, y) ==>
        (x, y) == if n == 5 then (1, 1) else if n == 23 then (3, 2) else (1, 5)
    {
      assert x == 1 || x == 2 || x == 3 || x == 4 || x == 5;
      assert y == 1 || y == 2 || y == 3 || y == 4 || y == 5;
    }
  }

  /** The prefix has a node exactly if some number matches. */
  lemma PrefixThere(l: seq<nat>, prefix: string, nodes: seq<Node>, paths: seq<string>, words: set<string>)
    requires Ascending(l) && words == Texts(l) && prefix != []
    requires Shape(nodes, paths) && Marks(nodes, paths, words) && Useful(paths, words)
    ensures prefix in paths <==> Matching(l, prefix) != []
  {
    MatchingHas(l, prefix);
    if prefix in paths {
      SomethingThere(l, prefix, paths);
    }
    if Matching(l, prefix) != [] {
      var n := Matching(l, prefix)[0];
      assert n in Matching(l, prefix);
      PrefixOfWord(nodes, paths, words, Text(n), prefix);
    }
  }

  lemma PrefixOfWord(nodes: seq<Node>, paths: seq<string>, words: set<string>, w: string, prefix: string)
    requires Shape(nodes, paths) && Marks(nodes, paths, words) && w in words && prefix <= w
    ensures prefix in paths
  {
    var i :| 0 <= i < |paths| && paths[i] == w;
    PrefixExists(nodes, paths, i, |prefix|);
    assert w[..|prefix|] == prefix;
  }

  lemma SomethingThere(l: seq<nat>, prefix: string, paths: seq<string>)
    requires Ascending(l) && prefix in paths && paths[0] != prefix && Useful(paths, Texts(l))
    ensures Matching(l, prefix) != []
  {
    MatchingHas(l, prefix);
    var head :| 0 <= head < |paths| && paths[head] == prefix;
    assert Begins(paths[head], Texts(l));
    var w :| w in Texts(l) && prefix <= w;
    var n :| n in l && w == Text(n);
    assert n in Matching(l, prefix);
  }

  lemma FoundIsMatching(l: seq<nat>, prefix: string, found: seq<nat>)
    requires Ascending(l) && Gathered(found, Texts(l), prefix)
    ensures Sorted(found) == Matching(l, prefix)
  {
    var texts :| Noted(found, texts) && forall w :: w in texts <==> w in Texts(l) && prefix <= w;
    MatchingHas(l, prefix);
    forall k | 0 <= k < |found|
      ensures texts[k] == Text(found[k]) && found[k] in l && prefix <= Text(found[k])
    {
      assert texts[k] in texts;
      var n :| n in l && texts[k] == Text(n);
      ValueOfText(n);
    }
    forall n | n in l && prefix <= Text(n)
      ensures n in found
    {
      assert Text(n) in texts;
      var k :| 0 <= k < |texts| && texts[k] == Text(n);
      ValueOfText(n);
      assert found[k] == n;
    }
    SortedHas(found);
    SameElements(Sorted(found), Matching(l, prefix));
  }
}
