/** Names of compiled functions and classes: module, name and source position in one string. */
module Mangling {
  import opened Options
  import opened Decimal

  function Place(row: nat, column: nat): string {
    Text(row) + ":" + Text(column)
  }

  function FunctionMangle(mod: string, name: string, row: nat, column: nat): string {
    mod + "." + name + "." + Place(row, column)
  }

  function ClassMangle(mod: string, name: string, row: nat, column: nat): string {
    mod + ".__class__" + name + "__." + Place(row, column)
  }

  /** Where the last dot is. */
  function LastDot(s: string): (r: Option<nat>)
    ensures r.None? <==> '.' !in s
    ensures r.Some? ==> r.value < |s| && s[r.value] == '.' && '.' !in s[r.value + 1..]
  {
    if s == [] then None
    else if s[|s| - 1] == '.' then Some(|s| - 1)
    else
      assert s == s[..|s| - 1] + [s[|s| - 1]];
      LastDot(s[..|s| - 1])
  }

  /** The part between the last two dots, if there are two. */
  function Segment(s: string): Option<string> {
    match LastDot(s)
    case None => None
    case Some(end) =>
      match LastDot(s[..end])
      case None => None
      case Some(dot) => Some(s[dot + 1..end])
  }

  /** Nothing stands for a failed assertion. */
  function FunctionDemangle(s: string): Option<string> {
    Segment(s)
  }

  function Wrapped(name: string): (r: string)
    ensures |r| == |name| + 11
  {
    "__class__" + name + "__"
  }

  function Unwrap(s: string): (r: Option<string>)
    ensures r.Some? ==> |s| == |r.value| + 11
  {
    if |s| >= 11 && s[..9] == "__class__" && s[|s| - 2..] == "__" then Some(s[9..|s| - 2]) else None
  }

  function ClassDemangle(s: string): Option<string> {
    match Segment(s)
    case None => None
    case Some(seg) => Unwrap(seg)
  }

  lemma {:induction false} LastDotOf(a: string, b: string)
    requires '.' !in b
    ensures LastDot(a + "." + b) == Some(|a|)
    decreases |b|
  {
    var s := a + "." + b;
    if b != [] {
      var b' := b[..|b| - 1];
      assert s[..|s| - 1] == a + "." + b' && s[|s| - 1] == b[|b| - 1];
      LastDotOf(a, b');
    }
  }

  lemma NoDotInPlace(row: nat, column: nat)
    ensures '.' !in Place(row, column)
  {
  }

  /** The part of `s` behind its last dot. */
  function Tail(s: string): string {
    match LastDot(s)
    case None => s
    case Some(k) => s[k + 1..]
  }

  lemma TailBehind(front: string, rest: string)
    requires '.' !in rest
    ensures '.' in front + "." + rest && Tail(front + "." + rest) == rest
  {
    LastDotOf(front, rest);
    assert (front + "." + rest)[|front|] == '.';
  }

  lemma TailOf(mod: string, name: string)
    ensures '.' in mod + "." + name && Tail(mod + "." + name) == Tail(name)
  {
    match LastDot(name)
    case None =>
      TailBehind(mod, name);
    case Some(k) =>
      var front, rest := name[..k], name[k + 1..];
      assert name == front + "." + rest;
      TailInside(mod, front, rest);
  }

  lemma TailInside(mod: string, front: string, rest: string)
    requires '.' !in rest
    ensures '.' in mod + "." + (front + "." + rest) && Tail(mod + "." + (front + "." + rest)) == rest
  {
    TailBehind(mod + "." + front, rest);
    assert mod + "." + (front + "." + rest) == mod + "." + front + "." + rest;
  }

  lemma SegmentOf(front: string, place: string)
    requires '.' !in place && '.' in front
    ensures Segment(front + "." + place) == Some(Tail(front))
  {
    var s := front + "." + place;
    LastDotOf(front, place);
    assert s[..|front|] == front;
    var k := LastDot(front).value;
    assert s[k + 1..|front|] == front[k + 1..];
  }

  /** What lies between the last two dots of a mangled name is the name, from its own last dot on. */
  lemma SegmentOfMangled(mod: string, name: string, row: nat, column: nat)
    ensures Segment(FunctionMangle(mod, name, row, column)) == Some(Tail(name))
  {
    NoDotInPlace(row, column);
    TailOf(mod, name);
    SegmentOf(mod + "." + name, Place(row, column));
  }

  /** Demangling gives back the function name exactly if it has no dot, whatever the module. */
  lemma FunctionRoundTrip(mod: string, name: string, row: nat, column: nat)
    ensures FunctionDemangle(FunctionMangle(mod, name, row, column)) == Some(name) <==> '.' !in name
  {
    SegmentOfMangled(mod, name, row, column);
  }

  lemma ClassIsFunction(mod: string, name: string, row: nat, column: nat)
    ensures ClassMangle(mod, name, row, column) == FunctionMangle(mod, Wrapped(name), row, column)
  {
    assert mod + ".__class__" + name + "__." + Place(row, column) ==
           mod + "." + ("__class__" + name + "__") + "." + Place(row, column);
  }

  lemma UnwrapWrapped(name: string)
    ensures Unwrap(Wrapped(name)) == Some(name) && ('.' in Wrapped(name) <==> '.' in name)
  {
    var w := Wrapped(name);
    assert w[..9] == "__class__" && w[|w| - 2..] == "__" && w[9..|w| - 2] == name;
    assert forall k :: 0 <= k < |name| ==> w[9 + k] == name[k];
  }

  /** The same for classes. */
  lemma ClassRoundTrip(mod: string, name: string, row: nat, column: nat)
    ensures ClassDemangle(ClassMangle(mod, name, row, column)) == Some(name) <==> '.' !in name
  {
    ClassIsFunction(mod, name, row, column);
    SegmentOfMangled(mod, Wrapped(name), row, column);
    UnwrapWrapped(name);
    if '.' in name {
      ShortTail(Wrapped(name));
    }
  }

  lemma ShortTail(s: string)
    requires '.' in s
    ensures |Tail(s)| < |s|
  {
  }

  /** Two positions are written alike only if they are equal. */
  lemma PlaceIsInjective(r1: nat, c1: nat, r2: nat, c2: nat)
    requires Place(r1, c1) == Place(r2, c2)
    ensures r1 == r2 && c1 == c2
  {
    var s := Place(r1, c1);
    var n1, n2 := |Text(r1)|, |Text(r2)|;
    assert s[n2] == ':';
    assert forall k :: 0 <= k < |s| && s[k] == ':' ==> k == n1;
    assert s[..n1] == Text(r1) && s[..n2] == Text(r2) && s[n1 + 1..] == Text(c1) && s[n2 + 1..] == Text(c2);
    TextIsInjective(r1, r2);
    TextIsInjective(c1, c2);
  }

  /** The row stands before the only colon of a position, the column behind it. */
  lemma PlaceReads(row: nat, column: nat) returns (k: nat)
    ensures var s := Place(row, column);
      && k < |s| && (forall i :: 0 <= i < |s| ==> (s[i] == ':' <==> i == k))
      && Trimmed(s[..k]) && Value(s[..k]) == row
      && Trimmed(s[k + 1..]) && Value(s[k + 1..]) == column
  {
    k := |Text(row)|;
    var s := Place(row, column);
    assert s[..k] == Text(row) && s[k + 1..] == Text(column);
    TextIsCanonical(row, s[..k]);
    TextIsCanonical(column, s[k + 1..]);
  }

  /** Two mangled names, letter by letter. */
  lemma MangledLetters()
    ensures FunctionMangle("m", "f", 12, 0) == "m.f.12:0"
    ensures ClassMangle("m", "C", 3, 40) == "m.__class__C__.3:40"
  {
    TwoDigits(1, 2);
    TwoDigits(4, 0);
  }

  lemma TwoDigits(a: nat, b: nat)
    requires 0 < a < 10 && b < 10
    ensures Text(10 * a + b) == [Digit(a), Digit(b)]
  {
  }

  /** Exactly when two mangled names agree: same position, and module and name run together alike. */
  lemma MangledEqual(m1: string, n1: string, r1: nat, c1: nat, m2: string, n2: string, r2: nat, c2: nat)
    ensures FunctionMangle(m1, n1, r1, c1) == FunctionMangle(m2, n2, r2, c2) <==>
            m1 + "." + n1 == m2 + "." + n2 && r1 == r2 && c1 == c2
  {
    if FunctionMangle(m1, n1, r1, c1) == FunctionMangle(m2, n2, r2, c2) {
      NoDotInPlace(r1, c1);
      NoDotInPlace(r2, c2);
      SameParts(m1 + "." + n1, Place(r1, c1), m2 + "." + n2, Place(r2, c2));
      PlaceIsInjective(r1, c1, r2, c2);
    }
  }

  lemma SameParts(a1: string, b1: string, a2: string, b2: string)
    requires '.' !in b1 && '.' !in b2 && a1 + "." + b1 == a2 + "." + b2
    ensures a1 == a2 && b1 == b2
  {
    var s := a1 + "." + b1;
    LastDotOf(a1, b1);
    LastDotOf(a2, b2);
    assert s[..|a1|] == a1 && s[..|a2|] == a2 && s[|a1| + 1..] == b1 && s[|a2| + 1..] == b2;
  }

  /** Names without dots: no two functions share a mangled name. */
  lemma FunctionMangleIsInjective(m1: string, n1: string, r1: nat, c1: nat, m2: string, n2: string, r2: nat, c2: nat)
    requires '.' !in n1 && '.' !in n2
    requires FunctionMangle(m1, n1, r1, c1) == FunctionMangle(m2, n2, r2, c2)
    ensures m1 == m2 && n1 == n2 && r1 == r2 && c1 == c2
  {
    MangledEqual(m1, n1, r1, c1, m2, n2, r2, c2);
    SameParts(m1, n1, m2, n2);
  }

  /** And no two classes do. */
  lemma ClassMangleIsInjective(m1: string, n1: string, r1: nat, c1: nat, m2: string, n2: string, r2: nat, c2: nat)
    requires '.' !in n1 && '.' !in n2
    requires ClassMangle(m1, n1, r1, c1) == ClassMangle(m2, n2, r2, c2)
    ensures m1 == m2 && n1 == n2 && r1 == r2 && c1 == c2
  {
    ClassIsFunction(m1, n1, r1, c1);
    ClassIsFunction(m2, n2, r2, c2);
    UnwrapWrapped(n1);
    UnwrapWrapped(n2);
    FunctionMangleIsInjective(m1, Wrapped(n1), r1, c1, m2, Wrapped(n2), r2, c2);
  }

  /** A dot in a name lets two different functions share one. */
  lemma DottedNamesClash(row: nat, column: nat)
    ensures FunctionMangle("a", "b.c", row, column) == FunctionMangle("a.b", "c", row, column)
  {
    MangledEqual("a", "b.c", row, column, "a.b", "c", row, column);
  }
}
