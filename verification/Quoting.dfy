/** Where a string literal ends. */
module Quoting {
  import opened Options

  /** A closing delimiter stands at `k`. */
  predicate Delimiter(p: string, k: nat, q: char, triple: bool) {
    if triple then k + 2 < |p| && p[k] == q && p[k + 1] == q && p[k + 2] == q else k < |p| && p[k] == q
  }

  function Length(triple: bool): nat { if triple then 3 else 1 }

  /** How many backslashes stand in a row right before `k`, not looking back beyond `from`. */
  function Backslashes(p: string, from: nat, k: nat): nat
    requires from <= k <= |p|
  {
    if k == from || p[k - 1] != '\\' then 0 else 1 + Backslashes(p, from, k - 1)
  }

  /** An unescaped closing delimiter of a literal whose contents begin at `from`. */
  predicate Closing(p: string, from: nat, k: nat, q: char, triple: bool)
    requires from <= k <= |p|
  {
    Delimiter(p, k, q, triple) && Backslashes(p, from, k) % 2 == 0
  }

  ghost predicate FirstClosing(p: string, from: nat, k: nat, q: char, triple: bool) {
    && from <= k <= |p|
    && Closing(p, from, k, q, triple)
    && forall j :: from <= j < k ==> !Closing(p, from, j, q, triple)
  }

  /** The scan from left to right: an escape takes two characters. */
  function Scan(p: string, i: nat, q: char, triple: bool): (r: Option<nat>)
    ensures r.Some? ==> i <= r.value && Delimiter(p, r.value, q, triple)
    decreases |p| - i
  {
    if i >= |p| then None
    else if p[i] == '\\' then Scan(p, i + 2, q, triple)
    else if Delimiter(p, i, q, triple) then Some(i)
    else Scan(p, i + 1, q, triple)
  }

  /** The scan finds the first unescaped closing delimiter, and fails only if there is none. */
  lemma ScanFindsFirst(p: string, from: nat, q: char, triple: bool)
    requires from <= |p| && q != '\\'
    ensures Scan(p, from, q, triple).Some? ==> FirstClosing(p, from, Scan(p, from, q, triple).value, q, triple)
    ensures Scan(p, from, q, triple).None? ==> forall k :: from <= k <= |p| ==> !Closing(p, from, k, q, triple)
  {
    ScanFrom(p, from, from, q, triple);
  }

  lemma {:induction false} ScanFrom(p: string, from: nat, i: nat, q: char, triple: bool)
    requires from <= i <= |p| && q != '\\' && Backslashes(p, from, i) % 2 == 0
    requires forall j :: from <= j < i ==> !Closing(p, from, j, q, triple)
    ensures Scan(p, i, q, triple).Some? ==> FirstClosing(p, from, Scan(p, i, q, triple).value, q, triple)
    ensures Scan(p, i, q, triple).None? ==> forall k :: from <= k <= |p| ==> !Closing(p, from, k, q, triple)
    decreases |p| - i
  {
    if i < |p| {
      if p[i] == '\\' {
        assert Backslashes(p, from, i + 1) == 1 + Backslashes(p, from, i);
        if i + 2 <= |p| {
          ScanFrom(p, from, i + 2, q, triple);
        }
      } else if !Delimiter(p, i, q, triple) {
        ScanFrom(p, from, i + 1, q, triple);
      }
    }
  }

  /** How often the row is counted up on the way to the end of the literal. */
  function Rows(p: string, i: nat, q: char, triple: bool): nat
    decreases |p| - i
  {
    if i >= |p| then 0
    else if p[i] == '\\' then (if i + 1 < |p| && p[i + 1] == '\n' then 1 else 0) + Rows(p, i + 2, q, triple)
    else if Delimiter(p, i, q, triple) then 0
    else (if triple && p[i] == '\n' then 1 else 0) + Rows(p, i + 1, q, triple)
  }

  function Newlines(s: string): nat {
    if s == [] then 0 else (if s[0] == '\n' then 1 else 0) + Newlines(s[1..])
  }

  /** In a triple-quoted literal every line end is counted, escaped or not. */
  lemma {:induction false} TripleRows(p: string, i: nat, q: char)
    requires q != '\\' && q != '\n' && Scan(p, i, q, true).Some?
    ensures i <= Scan(p, i, q, true).value <= |p|
    ensures Rows(p, i, q, true) == Newlines(p[i..Scan(p, i, q, true).value])
    decreases |p| - i
  {
    var k := Scan(p, i, q, true).value;
    if p[i] == '\\' {
      TripleRows(p, i + 2, q);
      assert p[i..k][1..] == p[i + 1..k] && p[i + 1..k][1..] == p[i + 2..k];
    } else if !Delimiter(p, i, q, true) {
      TripleRows(p, i + 1, q);
      assert p[i..k][1..] == p[i + 1..k];
    }
  }

  /**
   A single-quoted literal counts only the escaped line ends, although it runs over plain ones too. The count is right
   exactly if no line end in it is unescaped.
   */
  lemma {:induction false} SingleRows(p: string, i: nat, q: char)
    requires q != '\\' && q != '\n' && Scan(p, i, q, false).Some?
    ensures i <= Scan(p, i, q, false).value <= |p|
    ensures Rows(p, i, q, false) <= Newlines(p[i..Scan(p, i, q, false).value])
    ensures Rows(p, i, q, false) == Newlines(p[i..Scan(p, i, q, false).value]) <==> !PlainNewline(p, i, q)
    decreases |p| - i
  {
    var k := Scan(p, i, q, false).value;
    if p[i] == '\\' {
      SingleRows(p, i + 2, q);
      assert p[i..k][1..] == p[i + 1..k] && p[i + 1..k][1..] == p[i + 2..k];
    } else if !Delimiter(p, i, q, false) {
      SingleRows(p, i + 1, q);
      assert p[i..k][1..] == p[i + 1..k];
    }
  }

  /** The literal whose contents begin at `i` has a line end that is not escaped. */
  predicate PlainNewline(p: string, i: nat, q: char)
    decreases |p| - i
  {
    i < |p| && p[i] != q && if p[i] == '\\' then PlainNewline(p, i + 2, q) else p[i] == '\n' || PlainNewline(p, i + 1, q)
  }

  /** Such a literal: one plain line end, and no row counted. */
  lemma MiscountedRow()
    ensures
      var p := "'a\nb'\n";
      && Scan(p, 1, '\'', false) == Some(4) && PlainNewline(p, 1, '\'')
      && Rows(p, 1, '\'', false) == 0 && Newlines(p[1..4]) == 1
  {
    var p := "'a\nb'\n";
    assert Scan(p, 4, '\'', false) == Some(4) && Rows(p, 4, '\'', false) == 0;
    assert Scan(p, 2, '\'', false) == Some(4) && Rows(p, 2, '\'', false) == 0 && PlainNewline(p, 2, '\'');
    SingleRows(p, 1, '\'');
    assert p[1..4] == "a\nb" && "a\nb"[1..] == "\nb" && "\nb"[1..] == "b";
    assert Newlines("b") == 0 && Newlines("\nb") == 1;
  }
}
