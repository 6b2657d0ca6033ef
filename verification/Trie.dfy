/** A trie of decimal texts, and the search for all numbers whose text begins with a prefix. */
module Tries {
  import opened Options
  import opened Decimal

  /** Children are named by their place in the table of nodes. */
  datatype Node = Node(children: map<char, nat>, terminal: bool)

  /** Node `i` is the child of a node with a shorter path. */
  ghost predicate HasParent(nodes: seq<Node>, paths: seq<string>, i: nat)
    requires i < |paths| == |nodes|
  {
    paths[i] != [] &&
    var n := |paths[i]| - 1;
    exists p :: 0 <= p < |paths| && paths[p] == paths[i][..n] && paths[i][n] in nodes[p].children
  }

  /** Child `c` of node `i` by `ch`. */
  ghost predicate ChildOk(paths: seq<string>, i: nat, ch: char, c: nat)
    requires i < |paths|
  {
    c < |paths| && paths[c] == paths[i] + [ch]
  }

  /** The nodes form a tree: each has its own path from the root. */
  ghost predicate Shape(nodes: seq<Node>, paths: seq<string>) {
    && |nodes| == |paths| > 0 && paths[0] == []
    && (forall i, ch :: 0 <= i < |nodes| && ch in nodes[i].children ==> ChildOk(paths, i, ch, nodes[i].children[ch]))
    && (forall i :: 0 < i < |nodes| ==> HasParent(nodes, paths, i))
    && (forall i, j :: 0 <= i < j < |paths| ==> paths[i] != paths[j])
  }

  /** The terminal nodes are the ends of the words. */
  ghost predicate Marks(nodes: seq<Node>, paths: seq<string>, words: set<string>) {
    && |nodes| == |paths|
    && (forall i :: 0 <= i < |nodes| ==> (nodes[i].terminal <==> paths[i] in words))
    && forall w :: w in words ==> w in paths
  }

  /** No node but the root is there for nothing. */
  ghost predicate Useful(paths: seq<string>, words: set<string>) {
    forall i :: 0 < i < |paths| ==> Begins(paths[i], words)
  }

  /** Some word begins with `path`. */
  ghost predicate Begins(path: string, words: set<string>) {
    exists w :: w in words && path <= w
  }

  lemma Parent(nodes: seq<Node>, paths: seq<string>, i: nat) returns (p: nat)
    requires Shape(nodes, paths) && i < |paths| && paths[i] != []
    ensures p < |paths| && paths[p] == paths[i][..|paths[i]| - 1] && paths[i][|paths[i]| - 1] in nodes[p].children
  {
    assert HasParent(nodes, paths, i);
    p :| 0 <= p < |paths| && paths[p] == paths[i][..|paths[i]| - 1] && paths[i][|paths[i]| - 1] in nodes[p].children;
  }

  lemma ChildExists(nodes: seq<Node>, paths: seq<string>, i: nat, j: nat, ch: char)
    requires Shape(nodes, paths) && i < |paths| && j < |paths| && paths[j] == paths[i] + [ch]
    ensures ch in nodes[i].children && nodes[i].children[ch] == j
  {
    var p := Parent(nodes, paths, j);
    assert paths[j][..|paths[j]| - 1] == paths[i];
    assert ChildOk(paths, i, ch, nodes[i].children[ch]);
  }

  /** With a node, all its prefixes are there. */
  lemma {:induction false} PrefixExists(nodes: seq<Node>, paths: seq<string>, i: nat, n: nat)
    requires Shape(nodes, paths) && i < |paths| && n <= |paths[i]|
    ensures paths[i][..n] in paths
    decreases |paths[i]|
  {
    if n == |paths[i]| {
      assert paths[i][..n] == paths[i];
    } else {
      var p := Parent(nodes, paths, i);
      PrefixExists(nodes, paths, p, n);
      assert paths[p][..n] == paths[i][..n];
    }
  }

  /** Without the next child the whole string is not there. */
  lemma NoChild(nodes: seq<Node>, paths: seq<string>, head: nat, s: string, k: nat)
    requires Shape(nodes, paths) && head < |nodes| && k < |s| && paths[head] == s[..k] && s[k] !in nodes[head].children
    ensures s !in paths
  {
    if s in paths {
      var j :| 0 <= j < |paths| && paths[j] == s;
      PrefixExists(nodes, paths, j, k + 1);
      var i :| 0 <= i < |paths| && paths[i] == s[..k + 1];
      assert s[..k + 1] == s[..k] + [s[k]];
      ChildExists(nodes, paths, head, i, s[k]);
    }
  }

  lemma YesChild(nodes: seq<Node>, paths: seq<string>, head: nat, s: string, k: nat)
    requires Shape(nodes, paths) && head < |nodes| && k < |s| && paths[head] == s[..k] && s[k] in nodes[head].children
    ensures nodes[head].children[s[k]] < |nodes| && paths[nodes[head].children[s[k]]] == s[..k + 1]
  {
    assert ChildOk(paths, head, s[k], nodes[head].children[s[k]]);
  }

  lemma UsefulMore(paths: seq<string>, words: set<string>, w: string)
    requires Useful(paths, words)
    ensures Useful(paths, words + {w})
  {
    forall i | 0 < i < |paths|
      ensures Begins(paths[i], words + {w})
    {
      assert Begins(paths[i], words);
      var v :| v in words && paths[i] <= v;
      assert v in words + {w};
    }
  }

  lemma UsefulPush(paths: seq<string>, words: set<string>, w: string, k: nat)
    requires Useful(paths, words) && w in words && k <= |w|
    ensures Useful(paths + [w[..k]], words)
  {
    var paths' := paths + [w[..k]];
    forall i | 0 < i < |paths'|
      ensures Begins(paths'[i], words)
    {
      if i < |paths| {
        assert Begins(paths[i], words);
      } else {
        assert w[..k] <= w;
      }
    }
  }

  /** A new child, last in the table. */
  function WithChild(nodes: seq<Node>, i: nat, ch: char): seq<Node>
    requires i < |nodes|
  {
    nodes[i := Node(nodes[i].children[ch := |nodes|], nodes[i].terminal)] + [Node(map[], false)]
  }

  lemma NewPath(nodes: seq<Node>, paths: seq<string>, i: nat, ch: char)
    requires Shape(nodes, paths) && i < |nodes| && ch !in nodes[i].children
    ensures paths[i] + [ch] !in paths
  {
    if paths[i] + [ch] in paths {
      var j :| 0 <= j < |paths| && paths[j] == paths[i] + [ch];
      ChildExists(nodes, paths, i, j, ch);
    }
  }

  /** Parents stay parents when a child is added. */
  lemma ParentStays(nodes: seq<Node>, paths: seq<string>, i: nat, ch: char, k: nat)
    requires Shape(nodes, paths) && i < |nodes| && 0 < k < |nodes|
    ensures HasParent(WithChild(nodes, i, ch), paths + [paths[i] + [ch]], k)
  {
    var nodes', paths' := WithChild(nodes, i, ch), paths + [paths[i] + [ch]];
    assert HasParent(nodes, paths, k);
    var p := Parent(nodes, paths, k);
    var n := |paths[k]| - 1;
    assert paths'[k] == paths[k] && paths'[p] == paths'[k][..n] && paths'[k][n] in nodes'[p].children;
  }

  lemma NewHasParent(nodes: seq<Node>, paths: seq<string>, i: nat, ch: char)
    requires Shape(nodes, paths) && i < |nodes|
    ensures HasParent(WithChild(nodes, i, ch), paths + [paths[i] + [ch]], |nodes|)
  {
    var nodes', paths', k := WithChild(nodes, i, ch), paths + [paths[i] + [ch]], |nodes|;
    var n := |paths'[k]| - 1;
    assert paths'[i] == paths'[k][..n] && paths'[k][n] in nodes'[i].children;
  }

  lemma ChildrenStay(nodes: seq<Node>, paths: seq<string>, i: nat, ch: char, k: nat, c: char)
    requires Shape(nodes, paths) && i < |nodes| && ch !in nodes[i].children
    requires k < |nodes| + 1 && c in WithChild(nodes, i, ch)[k].children
    ensures ChildOk(paths + [paths[i] + [ch]], k, c, WithChild(nodes, i, ch)[k].children[c])
  {
    if !(k == i && c == ch) {
      assert ChildOk(paths, k, c, nodes[k].children[c]);
    }
  }

  lemma ShapeGrows(nodes: seq<Node>, paths: seq<string>, i: nat, ch: char)
    requires Shape(nodes, paths) && i < |nodes| && ch !in nodes[i].children
    ensures Shape(WithChild(nodes, i, ch), paths + [paths[i] + [ch]])
  {
    var nodes', paths' := WithChild(nodes, i, ch), paths + [paths[i] + [ch]];
    NewPath(nodes, paths, i, ch);
    forall k, c | 0 <= k < |nodes'| && c in nodes'[k].children
      ensures ChildOk(paths', k, c, nodes'[k].children[c])
    {
      ChildrenStay(nodes, paths, i, ch, k, c);
    }
    forall k | 0 < k < |nodes'|
      ensures HasParent(nodes', paths', k)
    {
      if k < |nodes| {
        ParentStays(nodes, paths, i, ch, k);
      } else {
        NewHasParent(nodes, paths, i, ch);
      }
    }
  }

  lemma MarkEnd(nodes: seq<Node>, paths: seq<string>, words: set<string>, head: nat)
    requires Shape(nodes, paths) && Marks(nodes, paths, words) && head < |nodes|
    ensures
      var nodes' := nodes[head := nodes[head].(terminal := true)];
      Shape(nodes', paths) && Marks(nodes', paths, words + {paths[head]})
  {
    var nodes' := nodes[head := nodes[head].(terminal := true)];
    forall k, c | 0 <= k < |nodes'| && c in nodes'[k].children
      ensures ChildOk(paths, k, c, nodes'[k].children[c])
    {
      assert ChildOk(paths, k, c, nodes[k].children[c]);
    }
    forall k | 0 < k < |nodes'|
      ensures HasParent(nodes', paths, k)
    {
      assert HasParent(nodes, paths, k);
      var n := |paths[k]| - 1;
      var p :| 0 <= p < |paths| && paths[p] == paths[k][..n] && paths[k][n] in nodes[p].children;
      assert paths[k][n] in nodes'[p].children;
    }
  }

  /** A node still to be visited, with its path. */
  type Item = (nat, string)

  ghost predicate Above(queue: seq<Item>, s: string) {
    exists k :: 0 <= k < |queue| && queue[k].1 <= s
  }

  /** The nodes at or below those in the queue. */
  ghost function Under(paths: seq<string>, queue: seq<Item>): set<nat> {
    set i: nat | i < |paths| && Above(queue, paths[i])
  }

  /** The queue has nodes with their paths, none of them below another. */
  ghost predicate Frontier(paths: seq<string>, queue: seq<Item>) {
    && (forall k :: 0 <= k < |queue| ==> queue[k].0 < |paths| && paths[queue[k].0] == queue[k].1)
    && forall j, k :: 0 <= j < |queue| && 0 <= k < |queue| && j != k ==> !(queue[j].1 <= queue[k].1)
  }

  predicate IsKid(node: Node, s: string, kid: Item) {
    |kid.1| == |s| + 1 && s == kid.1[..|s|] && kid.1[|s|] in node.children && kid.0 == node.children[kid.1[|s|]]
  }

  ghost predicate HasKid(kids: seq<Item>, t: string) {
    exists k :: 0 <= k < |kids| && kids[k].1 == t
  }

  /** The children of a node with path `s`, each once. */
  ghost predicate Kids(node: Node, s: string, kids: seq<Item>) {
    && (forall k :: 0 <= k < |kids| ==> IsKid(node, s, kids[k]))
    && (forall ch :: ch in node.children ==> HasKid(kids, s + [ch]))
    && forall j, k :: 0 <= j < k < |kids| ==> kids[j].1 != kids[k].1
  }

  /** The children by the characters that are not in `todo`. */
  ghost predicate SomeKids(node: Node, s: string, kids: seq<Item>, todo: set<char>) {
    && todo <= node.children.Keys
    && (forall k :: 0 <= k < |kids| ==> IsKid(node, s, kids[k]) && kids[k].1[|s|] !in todo)
    && (forall ch :: ch in node.children && ch !in todo ==> HasKid(kids, s + [ch]))
    && forall j, k :: 0 <= j < k < |kids| ==> kids[j].1 != kids[k].1
  }

  lemma NextKid(node: Node, s: string, kids: seq<Item>, todo: set<char>, ch: char)
    requires SomeKids(node, s, kids, todo) && ch in todo
    ensures SomeKids(node, s, [(node.children[ch], s + [ch])] + kids, todo - {ch})
  {
    var kids' := [(node.children[ch], s + [ch])] + kids;
    forall c | c in node.children && c !in todo - {ch}
      ensures HasKid(kids', s + [c])
    {
      KidStays(kids, (node.children[ch], s + [ch]), s, c, ch);
    }
    forall k | 0 <= k < |kids'|
      ensures IsKid(node, s, kids'[k]) && kids'[k].1[|s|] !in todo - {ch}
      ensures k > 0 ==> kids'[0].1[|s|] != kids'[k].1[|s|]
    {
      if k > 0 {
        assert kids'[k] == kids[k - 1];
      }
    }
  }

  lemma KidStays(kids: seq<Item>, kid: Item, s: string, c: char, ch: char)
    requires kid.1 == s + [ch] && (c != ch ==> HasKid(kids, s + [c]))
    ensures HasKid([kid] + kids, s + [c])
  {
    if c == ch {
      assert ([kid] + kids)[0].1 == s + [c];
    } else {
      var k :| 0 <= k < |kids| && kids[k].1 == s + [c];
      assert ([kid] + kids)[k + 1].1 == s + [c];
    }
  }

  /** Putting the children of the last node in its place keeps the queue a frontier. */
  lemma FrontierStep(nodes: seq<Node>, paths: seq<string>, queue: seq<Item>, kids: seq<Item>)
    requires Shape(nodes, paths) && queue != [] && Frontier(paths, queue)
    requires Kids(nodes[queue[|queue| - 1].0], queue[|queue| - 1].1, kids)
    ensures Frontier(paths, kids + queue[..|queue| - 1])
  {
    var (v, s) := queue[|queue| - 1];
    var rest := queue[..|queue| - 1];
    var q := kids + rest;
    forall k | 0 <= k < |q|
      ensures q[k].0 < |paths| && paths[q[k].0] == q[k].1
    {
      if k < |kids| {
        assert IsKid(nodes[v], s, kids[k]);
        var ch := kids[k].1[|s|];
        assert ChildOk(paths, v, ch, nodes[v].children[ch]);
        assert kids[k].1 == s + [ch];
      } else {
        assert q[k] == queue[k - |kids|];
      }
    }
    forall j, k | 0 <= j < |q| && 0 <= k < |q| && j != k
      ensures !(q[j].1 <= q[k].1)
    {
      NotBelow(nodes[v], s, kids, rest, j, k);
    }
  }

  lemma NotBelow(node: Node, s: string, kids: seq<Item>, rest: seq<Item>, j: nat, k: nat)
    requires Kids(node, s, kids) && j < |kids + rest| && k < |kids + rest| && j != k
    requires forall i :: 0 <= i < |rest| ==> !(rest[i].1 <= s) && !(s <= rest[i].1)
    requires forall i, l :: 0 <= i < |rest| && 0 <= l < |rest| && i != l ==> !(rest[i].1 <= rest[l].1)
    ensures !((kids + rest)[j].1 <= (kids + rest)[k].1)
  {
    if j < |kids| {
      assert IsKid(node, s, kids[j]);
    }
    if k < |kids| {
      assert IsKid(node, s, kids[k]);
    }
  }

  /** Just that node is done. */
  lemma UnderStep(nodes: seq<Node>, paths: seq<string>, queue: seq<Item>, kids: seq<Item>)
    requires Shape(nodes, paths) && queue != [] && Frontier(paths, queue)
    requires Kids(nodes[queue[|queue| - 1].0], queue[|queue| - 1].1, kids)
    ensures Under(paths, kids + queue[..|queue| - 1]) == Under(paths, queue) - {queue[|queue| - 1].0}
  {
    var (v, s) := queue[|queue| - 1];
    var rest := queue[..|queue| - 1];
    var q := kids + rest;
    forall i: nat | i < |paths|
      ensures Above(q, paths[i]) <==> Above(queue, paths[i]) && i != v
    {
      if Above(q, paths[i]) {
        StillAbove(nodes, paths, queue, kids, i);
      }
      if Above(queue, paths[i]) && i != v {
        AboveAgain(nodes, paths, queue, kids, i);
      }
    }
  }

  lemma StillAbove(nodes: seq<Node>, paths: seq<string>, queue: seq<Item>, kids: seq<Item>, i: nat)
    requires Shape(nodes, paths) && queue != [] && Frontier(paths, queue) && i < |paths|
    requires Kids(nodes[queue[|queue| - 1].0], queue[|queue| - 1].1, kids)
    requires Above(kids + queue[..|queue| - 1], paths[i])
    ensures Above(queue, paths[i]) && i != queue[|queue| - 1].0
  {
    var n := |queue| - 1;
    var (v, s) := queue[n];
    var q := kids + queue[..n];
    var k :| 0 <= k < |q| && q[k].1 <= paths[i];
    if k < |kids| {
      assert IsKid(nodes[v], s, kids[k]);
      assert s <= paths[i] && queue[n].1 <= paths[i];
    } else {
      assert queue[k - |kids|].1 <= paths[i];
      assert !(queue[k - |kids|].1 <= queue[n].1);
    }
  }

  lemma AboveAgain(nodes: seq<Node>, paths: seq<string>, queue: seq<Item>, kids: seq<Item>, i: nat)
    requires Shape(nodes, paths) && queue != [] && Frontier(paths, queue) && i < |paths|
    requires Kids(nodes[queue[|queue| - 1].0], queue[|queue| - 1].1, kids)
    requires Above(queue, paths[i]) && i != queue[|queue| - 1].0
    ensures Above(kids + queue[..|queue| - 1], paths[i])
  {
    var n := |queue| - 1;
    var (v, s) := queue[n];
    var q := kids + queue[..n];
    var k :| 0 <= k < |queue| && queue[k].1 <= paths[i];
    if k < n {
      assert q[|kids| + k].1 <= paths[i];
    } else {
      assert paths[i] != s && |s| < |paths[i]|;
      var t := paths[i][..|s| + 1];
      PrefixExists(nodes, paths, i, |s| + 1);
      var j :| 0 <= j < |paths| && paths[j] == t;
      assert t == s + [paths[i][|s|]];
      ChildExists(nodes, paths, v, j, paths[i][|s|]);
      assert HasKid(kids, t);
      var m :| 0 <= m < |kids| && kids[m].1 == t;
      assert q[m].1 <= paths[i];
    }
  }

  class Trie {
    var nodes: seq<Node>
    ghost var paths: seq<string>
    ghost var words: set<string>

    ghost predicate Valid()
      reads this
    {
      Shape(nodes, paths) && Marks(nodes, paths, words) && Useful(paths, words)
    }

    constructor ()
      ensures Valid() && words == {}
    {
      nodes, paths, words := [Node(map[], false)], [[]], {};
    }

    /** The child of `head` by `ch`, made if there is none. */
    method Descend(head: nat, ch: char) returns (next: nat)
      requires Shape(nodes, paths) && Marks(nodes, paths, words) && head < |nodes|
      modifies this`nodes, this`paths
      ensures Shape(nodes, paths) && Marks(nodes, paths, words)
      ensures next < |nodes| && paths[next] == old(paths)[head] + [ch]
      ensures paths == old(paths) || paths == old(paths) + [old(paths)[head] + [ch]]
    {
      if ch !in nodes[head].children {
        ShapeGrows(nodes, paths, head, ch);
        NewPath(nodes, paths, head, ch);
        ghost var path := paths[head] + [ch];
        assert forall w :: w in words ==> w in paths + [path];
        nodes := WithChild(nodes, head, ch);
        paths := paths + [path];
      }
      next := nodes[head].children[ch];
      assert ChildOk(paths, head, ch, next);
    }

    /** Put one more word in. */
    method Insert(w: string)
      requires Valid()
      modifies this
      ensures Valid() && words == old(words) + {w}
    {
      ghost var all := words + {w};
      UsefulMore(paths, words, w);
      var head := Build(w, all);
      MarkEnd(nodes, paths, words, head);
      nodes := nodes[head := nodes[head].(terminal := true)];
      words := all;
    }

    /** The nodes for `w`, as far as they are missing. */
    method Build(w: string, ghost all: set<string>) returns (head: nat)
      requires Shape(nodes, paths) && Marks(nodes, paths, words) && Useful(paths, all) && w in all
      modifies this`nodes, this`paths
      ensures Shape(nodes, paths) && Marks(nodes, paths, words) && Useful(paths, all)
      ensures head < |nodes| && paths[head] == w
    {
      head := 0;
      for k := 0 to |w|
        invariant Shape(nodes, paths) && Marks(nodes, paths, words) && Useful(paths, all)
        invariant head < |nodes| && paths[head] == w[..k]
      {
        head := BuildOne(head, w, k, all);
      }
      assert w[..|w|] == w;
    }

    method BuildOne(head: nat, w: string, k: nat, ghost all: set<string>) returns (next: nat)
      requires Shape(nodes, paths) && Marks(nodes, paths, words) && Useful(paths, all) && w in all
      requires head < |nodes| && k < |w| && paths[head] == w[..k]
      modifies this`nodes, this`paths
      ensures Shape(nodes, paths) && Marks(nodes, paths, words) && Useful(paths, all)
      ensures next < |nodes| && paths[next] == w[..k + 1]
    {
      assert w[..k + 1] == w[..k] + [w[k]];
      UsefulPush(paths, all, w, k + 1);
      next := Descend(head, w[k]);
    }

    /** Follow the characters of `prefix` from the root. */
    method Locate(prefix: string) returns (r: Option<nat>)
      requires Valid()
      ensures r.Some? ==> r.value < |nodes| && paths[r.value] == prefix
      ensures r.None? ==> prefix !in paths
    {
      var head: nat, k := 0, 0;
      while k < |prefix|
        invariant 0 <= k <= |prefix| && head < |nodes| && paths[head] == prefix[..k]
      {
        if prefix[k] !in nodes[head].children {
          NoChild(nodes, paths, head, prefix, k);
          return None;
        }
        YesChild(nodes, paths, head, prefix, k);
        head := nodes[head].children[prefix[k]];
        k := k + 1;
      }
      assert prefix[..k] == prefix;
      return Some(head);
    }

    /** The children of a node, in any order. */
    method Children(node: Node, s: string) returns (kids: seq<Item>)
      ensures Kids(node, s, kids)
    {
      kids := [];
      var todo := node.children.Keys;
      while todo != {}
        invariant SomeKids(node, s, kids, todo)
        decreases |todo|
      {
        var ch :| ch in todo;
        NextKid(node, s, kids, todo, ch);
        kids := [(node.children[ch], s + [ch])] + kids;
        todo := todo - {ch};
      }
    }

    /**
     Visit everything below a node, in the order of a queue, and note the number of each terminal node: exactly those
     of the words that begin with `prefix`, each word once.
     */
    method Collect(head: nat, prefix: string) returns (found: seq<nat>)
      requires Valid() && head < |nodes| && paths[head] == prefix
      ensures Gathered(found, words, prefix)
    {
      ghost var texts: seq<string>;
      var queue: seq<Item> := [(head, prefix)];
      ghost var seen: set<nat> := {};
      ghost var all := Under(paths, queue);
      found, texts := [], [];
      InUnder(paths, queue);
      while queue != []
        invariant Visiting(nodes, paths, queue, seen, all, found, texts)
        decreases |Under(paths, queue)|
      {
        var (top, s) := queue[|queue| - 1];
        var kids := Children(nodes[top], s);
        VisitStep(nodes, paths, queue, seen, all, found, texts, kids);
        if nodes[top].terminal {
          found, texts := found + [Value(s)], texts + [s];
        }
        seen := seen + {top};
        queue := kids + queue[..|queue| - 1];
      }
      NothingUnder(paths, queue);
      EndsAll(nodes, paths, words, seen, texts, head);
    }
  }

  /** The numbers of different texts. */
  ghost predicate Noted(found: seq<nat>, texts: seq<string>) {
    && |found| == |texts|
    && (forall k :: 0 <= k < |found| ==> found[k] == Value(texts[k]))
    && forall j, k :: 0 <= j < k < |texts| ==> texts[j] != texts[k]
  }

  /** The numbers of all words that begin with `prefix`. */
  ghost predicate Gathered(found: seq<nat>, words: set<string>, prefix: string) {
    exists texts :: Noted(found, texts) && forall w :: w in texts <==> w in words && prefix <= w
  }

  /** The paths of the terminal nodes seen. */
  ghost predicate Ends(nodes: seq<Node>, paths: seq<string>, seen: set<nat>, texts: seq<string>) {
    && |nodes| == |paths| && (forall i :: i in seen ==> i < |nodes|)
    && (forall i :: i in seen && nodes[i].terminal ==> paths[i] in texts)
    && forall k :: 0 <= k < |texts| ==> IsEnd(nodes, paths, seen, texts[k])
  }

  ghost predicate IsEnd(nodes: seq<Node>, paths: seq<string>, seen: set<nat>, s: string)
    requires |nodes| == |paths| && forall i :: i in seen ==> i < |nodes|
  {
    exists i :: i in seen && nodes[i].terminal && paths[i] == s
  }

  /** What the search keeps: all that is asked for was seen, or is at or below the queue. */
  ghost predicate Visiting(
    nodes: seq<Node>, paths: seq<string>, queue: seq<Item>, seen: set<nat>, all: set<nat>,
    found: seq<nat>, texts: seq<string>
  ) {
    && Frontier(paths, queue)
    && seen !! Under(paths, queue) && seen + Under(paths, queue) == all
    && Noted(found, texts) && Ends(nodes, paths, seen, texts)
  }

  lemma VisitStep(
    nodes: seq<Node>, paths: seq<string>, queue: seq<Item>, seen: set<nat>, all: set<nat>,
    found: seq<nat>, texts: seq<string>, kids: seq<Item>
  )
    requires Shape(nodes, paths) && Visiting(nodes, paths, queue, seen, all, found, texts) && queue != []
    requires Kids(nodes[queue[|queue| - 1].0], queue[|queue| - 1].1, kids)
    ensures
      var (top, s) := queue[|queue| - 1];
      var queue' := kids + queue[..|queue| - 1];
      && Visiting(nodes, paths, queue', seen + {top}, all,
                  if nodes[top].terminal then found + [Value(s)] else found,
                  if nodes[top].terminal then texts + [s] else texts)
      && |Under(paths, queue')| < |Under(paths, queue)|
  {
    var (top, s) := queue[|queue| - 1];
    FrontierStep(nodes, paths, queue, kids);
    UnderStep(nodes, paths, queue, kids);
    InUnder(paths, queue);
    SeenNext(seen, Under(paths, queue), top);
    EndsNext(nodes, paths, seen, texts, top);
    if nodes[top].terminal {
      NotedNext(found, texts, s);
    }
  }

  lemma SeenNext(seen: set<nat>, under: set<nat>, top: nat)
    requires seen !! under && top in under
    ensures (seen + {top}) !! (under - {top}) && (seen + {top}) + (under - {top}) == seen + under
    ensures |under - {top}| < |under|
  {
    assert under == (under - {top}) + {top};
  }

  lemma NotedNext(found: seq<nat>, texts: seq<string>, s: string)
    requires Noted(found, texts) && s !in texts
    ensures Noted(found + [Value(s)], texts + [s])
  {
  }

  lemma NothingUnder(paths: seq<string>, queue: seq<Item>)
    requires queue == []
    ensures Under(paths, queue) == {}
  {
  }

  lemma InUnder(paths: seq<string>, queue: seq<Item>)
    requires queue != [] && Frontier(paths, queue)
    ensures queue[|queue| - 1].0 in Under(paths, queue)
  {
    var n := |queue| - 1;
    assert queue[n].1 <= paths[queue[n].0];
  }

  lemma EndsNext(nodes: seq<Node>, paths: seq<string>, seen: set<nat>, texts: seq<string>, top: nat)
    requires Shape(nodes, paths) && Ends(nodes, paths, seen, texts) && top < |nodes| && top !in seen
    ensures paths[top] !in texts
    ensures Ends(nodes, paths, seen + {top}, if nodes[top].terminal then texts + [paths[top]] else texts)
  {
    var seen' := seen + {top};
    forall k | 0 <= k < |texts|
      ensures texts[k] != paths[top] && IsEnd(nodes, paths, seen', texts[k])
    {
      assert IsEnd(nodes, paths, seen, texts[k]);
      var i :| i in seen && nodes[i].terminal && paths[i] == texts[k];
      assert i in seen';
    }
    if nodes[top].terminal {
      assert top in seen' && IsEnd(nodes, paths, seen', paths[top]);
    }
  }

  lemma EndsAll(nodes: seq<Node>, paths: seq<string>, words: set<string>, seen: set<nat>, texts: seq<string>, head: nat)
    requires Shape(nodes, paths) && Marks(nodes, paths, words) && Ends(nodes, paths, seen, texts) && head < |paths|
    requires seen == Under(paths, [(head, paths[head])])
    ensures forall w :: w in texts <==> w in words && paths[head] <= w
  {
    var q := [(head, paths[head])];
    forall w
      ensures w in texts <==> w in words && paths[head] <= w
    {
      if w in texts {
        assert IsEnd(nodes, paths, seen, w);
        var i :| i in seen && nodes[i].terminal && paths[i] == w;
        assert Above(q, w);
      }
      if w in words && paths[head] <= w {
        var i :| 0 <= i < |paths| && paths[i] == w;
        assert q[0].1 <= paths[i];
        assert i in seen;
      }
    }
  }
}
