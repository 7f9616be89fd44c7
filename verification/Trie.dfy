/** The radix tree as a value: insertion and lookup, the map they implement, canonical shape. */
module Trie {
  import opened Bytes

  /** A node and its outgoing edges; an edge is labelled with the first byte of the child's prefix. */
  datatype Node<V> = Node(prefix: seq<byte>, children: seq<(byte, Node<V>)>, value: Option<V>)

  // ---- the operations ----

  /** Length of the longest common prefix. */
  function Lcp(a: seq<byte>, b: seq<byte>): (n: nat)
    ensures n <= |a| && n <= |b|
    ensures a[..n] == b[..n]
    ensures n < |a| && n < |b| ==> a[n] != b[n]
  {
    if |a| == 0 || |b| == 0 || a[0] != b[0] then 0
    else
      assert a == [a[0]] + a[1..] && b == [b[0]] + b[1..];
      1 + Lcp(a[1..], b[1..])
  }

  /** The first edge with a given label. */
  function FindEdge<T>(edges: seq<(byte, T)>, tag: byte): (r: Option<nat>)
    ensures r.Some? ==> r.value < |edges| && edges[r.value].0 == tag
    ensures r.Some? ==> forall i :: 0 <= i < r.value ==> edges[i].0 != tag
    ensures r.None? ==> forall i :: 0 <= i < |edges| ==> edges[i].0 != tag
  {
    FindEdgeFrom(edges, tag, 0)
  }

  function FindEdgeFrom<T>(edges: seq<(byte, T)>, tag: byte, start: nat): (r: Option<nat>)
    requires start <= |edges|
    ensures r.Some? ==> start <= r.value < |edges| && edges[r.value].0 == tag
    ensures r.Some? ==> forall i :: start <= i < r.value ==> edges[i].0 != tag
    ensures r.None? ==> forall i :: start <= i < |edges| ==> edges[i].0 != tag
    decreases |edges| - start
  {
    if start == |edges| then None
    else if edges[start].0 == tag then Some(start)
    else FindEdgeFrom(edges, tag, start + 1)
  }

  /** Stable insertion by label. */
  function InsertByLabel<T>(edges: seq<(byte, T)>, e: (byte, T)): (r: seq<(byte, T)>)
    ensures |r| == |edges| + 1
  {
    if |edges| == 0 then [e]
    else if e.0 < edges[0].0 then [e] + edges
    else [edges[0]] + InsertByLabel(edges[1..], e)
  }

  /** A stable sort by label, as `sort_by_key` performs. */
  function SortByLabel<T>(edges: seq<(byte, T)>): (r: seq<(byte, T)>)
    ensures |r| == |edges|
  {
    if |edges| == 0 then []
    else InsertByLabel(SortByLabel(edges[..|edges| - 1]), edges[|edges| - 1])
  }

  function Get<V>(node: Node<V>, key: seq<byte>): Option<V>
    decreases node
  {
    if !(node.prefix <= key) then None
    else
      var rem := key[|node.prefix|..];
      if |rem| == 0 then node.value
      else
        match FindEdge(node.children, rem[0])
        case Some(i) => Get(node.children[i].1, rem)
        case None => None
  }

  /** Cuts a node's prefix after n bytes: the rest moves into a single child. */
  function Split<V>(node: Node<V>, n: nat): Node<V>
    requires n < |node.prefix|
  {
    Node(node.prefix[..n], [(node.prefix[n], Node(node.prefix[n..], node.children, node.value))], None)
  }

  function Insert<V>(node: Node<V>, key: seq<byte>, value: V): Node<V>
    decreases node
  {
    var common := Lcp(node.prefix, key);
    var m := if common < |node.prefix| then Split(node, common) else node;
    if common == |key| then m.(value := Some(value))
    else
      var next := key[common];
      match FindEdge(m.children, next)
      case Some(i) =>
        assert m == node;
        m.(children := m.children[i := (next, Insert(m.children[i].1, key[common..], value))])
      case None =>
        m.(children := SortByLabel(m.children + [(next, Node(key[common..], [], Some(value)))]))
  }

  function Empty<V>(): Node<V>
  {
    Node([], [], None)
  }

  // ---- shape ----

  predicate StrictlySorted<T>(edges: seq<(byte, T)>)
  {
    forall i, j :: 0 <= i < j < |edges| ==> edges[i].0 < edges[j].0
  }

  /** Edges are strictly sorted, carry the child's first byte, and lead to well-formed inner nodes. */
  predicate WfChildren<V>(node: Node<V>)
    decreases node, 0
  {
    && StrictlySorted(node.children)
    && forall i :: 0 <= i < |node.children| ==> WfEdge(node.children[i].0, node.children[i].1)
  }

  predicate WfEdge<V>(tag: byte, child: Node<V>)
    decreases child, 2
  {
    |child.prefix| > 0 && child.prefix[0] == tag && WfInner(child)
  }

  /** An inner node carries a value or branches. */
  predicate WfInner<V>(node: Node<V>)
    decreases node, 1
  {
    |node.prefix| > 0 && (node.value.Some? || |node.children| >= 2) && WfChildren(node)
  }

  lemma InnerIsWf<V>(node: Node<V>)
    requires WfInner(node)
    ensures WfChildren(node)
  {
  }

  predicate WfRoot<V>(node: Node<V>)
  {
    |node.prefix| == 0 && WfChildren(node)
  }

  // ---- sorting in an edge ----

  lemma {:induction false} SortedIsFixed<T>(edges: seq<(byte, T)>)
    requires StrictlySorted(edges)
    ensures SortByLabel(edges) == edges
  {
    if |edges| == 0 {
    } else {
      var n := |edges| - 1;
      SortedIsFixed(edges[..n]);
      InsertLast(edges[..n], edges[n]);
      assert edges == edges[..n] + [edges[n]];
    }
  }

  lemma {:induction false} InsertLast<T>(edges: seq<(byte, T)>, e: (byte, T))
    requires forall i :: 0 <= i < |edges| ==> edges[i].0 <= e.0
    ensures InsertByLabel(edges, e) == edges + [e]
  {
    if |edges| == 0 {
    } else {
      InsertLast(edges[1..], e);
    }
  }

  /** Number of edges whose label is at most the given one. */
  function Rank<T>(edges: seq<(byte, T)>, tag: byte): (p: nat)
    ensures p <= |edges|
  {
    if |edges| == 0 || tag < edges[0].0 then 0 else 1 + Rank(edges[1..], tag)
  }

  lemma {:induction false} RankSplits<T>(edges: seq<(byte, T)>, tag: byte)
    requires StrictlySorted(edges)
    ensures var p := Rank(edges, tag);
            (forall i :: 0 <= i < p ==> edges[i].0 <= tag) && (forall i :: p <= i < |edges| ==> tag < edges[i].0)
  {
    if |edges| == 0 {
    } else {
      RankSplits(edges[1..], tag);
      var p := Rank(edges, tag);
      if p > 0 {
        forall i | 0 <= i < p ensures edges[i].0 <= tag {
          if i > 0 { assert edges[i] == edges[1..][i - 1]; }
        }
        forall i | p <= i < |edges| ensures tag < edges[i].0 {
          assert edges[i] == edges[1..][i - 1];
        }
      }
    }
  }

  lemma {:induction false} InsertAtRank<T>(edges: seq<(byte, T)>, e: (byte, T))
    ensures var p := Rank(edges, e.0);
            InsertByLabel(edges, e) == edges[..p] + [e] + edges[p..]
  {
    if |edges| == 0 || e.0 < edges[0].0 {
    } else {
      InsertAtRank(edges[1..], e);
    }
  }

  /** Sorting after pushing one edge onto a sorted list puts it at its rank. */
  lemma SortPushed<T>(edges: seq<(byte, T)>, e: (byte, T))
    requires StrictlySorted(edges)
    ensures var p := Rank(edges, e.0);
            SortByLabel(edges + [e]) == edges[..p] + [e] + edges[p..]
  {
    SortedIsFixed(edges);
    assert (edges + [e])[..|edges|] == edges;
    InsertAtRank(edges, e);
  }

  lemma PushedSorted<T>(edges: seq<(byte, T)>, e: (byte, T))
    requires StrictlySorted(edges) && FindEdge(edges, e.0).None?
    ensures StrictlySorted(SortByLabel(edges + [e]))
  {
    hide SortByLabel, Rank;
    SortPushed(edges, e);
    RankSplits(edges, e.0);
    var p, r := Rank(edges, e.0), SortByLabel(edges + [e]);
    assert forall i :: 0 <= i < |r| ==> r[i] == if i < p then edges[i] else if i == p then e else edges[i - 1];
  }

  /** Looking for an edge after one more has been sorted in. */
  lemma PushedFind<T>(edges: seq<(byte, T)>, e: (byte, T), tag: byte)
    requires StrictlySorted(edges) && FindEdge(edges, e.0).None?
    ensures var r := SortByLabel(edges + [e]);
            var f := FindEdge(r, tag);
            if tag == e.0 then f.Some? && r[f.value] == e
            else (f.Some? <==> FindEdge(edges, tag).Some?)
                 && (f.Some? ==> r[f.value] == edges[FindEdge(edges, tag).value])
  {
    SortPushed(edges, e);
    PushedSorted(edges, e);
    var r, p := SortByLabel(edges + [e]), Rank(edges, e.0);
    assert r[p] == e;
    var f, g := FindEdge(r, tag), FindEdge(edges, tag);
    if tag != e.0 && g.Some? {
      var k := if g.value < p then g.value else g.value + 1;
      assert r[k] == edges[g.value];
    }
    if tag != e.0 && f.Some? {
      var k := if f.value < p then f.value else f.value - 1;
      assert r[f.value] == edges[k];
    }
  }

  // ---- insertion is a map update ----

  /** Cutting a prefix changes no lookup. */
  lemma SplitGet<V>(node: Node<V>, n: nat, key: seq<byte>)
    requires n < |node.prefix|
    ensures Get(Split(node, n), key) == Get(node, key)
  {
    var head, tail := node.prefix[..n], node.prefix[n..];
    assert node.prefix == head + tail;
    if head <= key {
      var rem := key[n..];
      assert key == head + rem;
      if tail <= rem {
        assert node.prefix <= key;
        assert rem[|tail|..] == key[|node.prefix|..];
      }
      assert node.prefix <= key ==> key[..|node.prefix|][n..] == rem[..|tail|];
    }
  }

  lemma SameLabelsFind<T, U>(a: seq<(byte, T)>, b: seq<(byte, U)>, tag: byte)
    requires |a| == |b| && forall i :: 0 <= i < |a| ==> a[i].0 == b[i].0
    ensures FindEdge(a, tag) == FindEdge(b, tag)
  {
    var f, g := FindEdge(a, tag), FindEdge(b, tag);
    if f.Some? { assert b[f.value].0 == tag; }
    if g.Some? { assert a[g.value].0 == tag; }
  }

  /** The node insertion works on after a possible split. */
  function Prepared<V>(node: Node<V>, key: seq<byte>): (m: Node<V>)
    ensures m.prefix == node.prefix[..Lcp(node.prefix, key)]
    ensures m.prefix <= key
  {
    var common := Lcp(node.prefix, key);
    assert node.prefix[..common] == key[..common];
    if common < |node.prefix| then Split(node, common) else node
  }

  /** Insertion updates the map at one key and nowhere else. */
  lemma {:induction false} InsertGet<V>(node: Node<V>, key: seq<byte>, value: V, k: seq<byte>)
    requires WfChildren(node)
    ensures Get(Insert(node, key, value), k) == if k == key then Some(value) else Get(node, k)
    decreases node
  {
    hide Lcp, FindEdge, SortByLabel;
    var common := Lcp(node.prefix, key);
    var m := Prepared(node, key);
    if common < |node.prefix| {
      SplitGet(node, common, k);
    }
    assert Get(m, k) == Get(node, k);
    var r := Insert(node, key, value);
    assert r.prefix == m.prefix;
    if common == |key| {
      assert m.prefix == key;
      assert m.prefix <= k && |k[common..]| == 0 ==> k == key;
    } else {
      var next, rest := key[common], key[common..];
      assert key == m.prefix + rest;
      if m.prefix <= k && |k| > common {
        var rem := k[common..];
        assert k == m.prefix + rem;
        assert k == key <==> rem == rest;
        match FindEdge(m.children, next)
        case Some(i) =>
          assert m == node;
          SameLabelsFind(m.children, r.children, rem[0]);
          assert WfEdge(m.children[i].0, m.children[i].1) && WfInner(m.children[i].1);
          InsertGet(m.children[i].1, rest, value, rem);
        case None =>
          var leaf := Node(rest, [], Some(value));
          PushedFind(m.children, (next, leaf), rem[0]);
          assert Get(leaf, rem) == (if rem == rest then Some(value) else None) by {
            if rest <= rem && |rem| == |rest| { assert rem == rest; }
          }
      }
    }
  }

  /** The three ways insertion ends, on the node it works on. */
  lemma InsertCases<V>(node: Node<V>, key: seq<byte>, value: V)
    ensures var common, m := Lcp(node.prefix, key), Prepared(node, key);
            Insert(node, key, value) ==
            if common == |key| then m.(value := Some(value))
            else
              match FindEdge(m.children, key[common])
              case Some(i) =>
                m.(children := m.children[i := (key[common], Insert(m.children[i].1, key[common..], value))])
              case None =>
                m.(children := SortByLabel(m.children + [(key[common], Node(key[common..], [], Some(value)))]))
    ensures var common, m := Lcp(node.prefix, key), Prepared(node, key);
            common < |key| && FindEdge(m.children, key[common]).Some? ==> m == node && common == |node.prefix|
    ensures WfChildren(node) ==> StrictlySorted(Prepared(node, key).children)
  {
  }

  // ---- insertion keeps the shape ----

  lemma ReplacedChild<V>(node: Node<V>, i: nat, child: Node<V>)
    requires i < |node.children| && WfChildren(node)
    requires WfEdge(node.children[i].0, child)
    ensures WfChildren(node.(children := node.children[i := (node.children[i].0, child)]))
  {
    var r := node.(children := node.children[i := (node.children[i].0, child)]);
    forall j | 0 <= j < |r.children| ensures WfEdge(r.children[j].0, r.children[j].1) {
      if j != i { assert r.children[j] == node.children[j]; }
    }
  }

  lemma AddedChild<V>(node: Node<V>, tag: byte, child: Node<V>)
    requires WfChildren(node) && FindEdge(node.children, tag).None? && WfEdge(tag, child)
    ensures WfChildren(node.(children := SortByLabel(node.children + [(tag, child)])))
  {
    hide SortByLabel, FindEdge, Rank, WfEdge, WfInner;
    var r := SortByLabel(node.children + [(tag, child)]);
    SortPushed(node.children, (tag, child));
    PushedSorted(node.children, (tag, child));
    var p := Rank(node.children, tag);
    forall j | 0 <= j < |r| ensures WfEdge(r[j].0, r[j].1) {
      if j < p { assert r[j] == node.children[j]; }
      if j > p { assert r[j] == node.children[j - 1]; }
    }
  }

  lemma SplitWf<V>(node: Node<V>, n: nat)
    requires WfInner(node) && n < |node.prefix|
    ensures WfChildren(Split(node, n))
  {
    var child := Node(node.prefix[n..], node.children, node.value);
    assert WfChildren(child);
    assert WfEdge(node.prefix[n], child);
  }

  /** Insertion below an inner node keeps it well-formed and keeps its first prefix byte. */
  lemma {:induction false} InsertWfInner<V>(node: Node<V>, key: seq<byte>, value: V)
    requires WfInner(node) && |key| > 0 && key[0] == node.prefix[0]
    ensures WfEdge(key[0], Insert(node, key, value))
    decreases node, 1
  {
    if Lcp(node.prefix, key) < |node.prefix| {
      SplitWf(node, Lcp(node.prefix, key));
    }
    InsertWfChildren(node, key, value);
  }

  lemma {:induction false} InsertWfChildren<V>(node: Node<V>, key: seq<byte>, value: V)
    requires WfChildren(node) && WfChildren(Prepared(node, key))
    ensures WfChildren(Insert(node, key, value))
    decreases node, 0
  {
    var common := Lcp(node.prefix, key);
    var m := Prepared(node, key);
    if common == |key| {
      assert WfChildren(m.(value := Some(value)));
    } else {
      var next, rest := key[common], key[common..];
      match FindEdge(m.children, next)
      case Some(i) =>
        assert m == node;
        var child := m.children[i].1;
        assert WfEdge(next, child) && WfInner(child);
        InsertWfInner(child, rest, value);
        ReplacedChild(node, i, Insert(child, rest, value));
      case None =>
        var leaf := Node(rest, [], Some(value));
        assert WfEdge(next, leaf);
        AddedChild(m, next, leaf);
    }
  }

  /** Insertion at the root keeps a well-formed tree. */
  lemma InsertWfRoot<V>(root: Node<V>, key: seq<byte>, value: V)
    requires WfRoot(root)
    ensures WfRoot(Insert(root, key, value))
  {
    InsertWfChildren(root, key, value);
  }

  // ---- canonical shape ----

  /** Two nodes denote the same map. */
  ghost predicate SameMap<V>(a: Node<V>, b: Node<V>)
  {
    forall k: seq<byte> :: Get(a, k) == Get(b, k)
  }

  /** Below a node's prefix, lookup is lookup in the child whose edge carries the next byte. */
  lemma GetChild<V>(node: Node<V>, i: nat, k: seq<byte>)
    requires WfChildren(node) && i < |node.children|
    requires |k| > 0 && k[0] == node.children[i].0
    ensures Get(node, node.prefix + k) == Get(node.children[i].1, k)
    ensures FindEdge(node.children, k[0]) == Some(i)
  {
    assert (node.prefix + k)[|node.prefix|..] == k;
  }

  /** An inner node holds at least one key. */
  lemma SomeKey<V>(node: Node<V>) returns (k: seq<byte>)
    requires WfInner(node)
    ensures node.prefix <= k && Get(node, k).Some?
    decreases node
  {
    if node.value.Some? {
      k := node.prefix;
    } else {
      assert WfEdge(node.children[0].0, node.children[0].1);
      var rest := SomeKey(node.children[0].1);
      GetChild(node, 0, rest);
      k := node.prefix + rest;
    }
  }

  /** The prefix of an inner node is the longest one all its keys share. */
  lemma PrefixWithin<V>(a: Node<V>, b: Node<V>)
    requires WfInner(a) && SameMap(a, b)
    ensures b.prefix <= a.prefix
  {
    if a.value.Some? {
      assert Get(a, a.prefix).Some?;
      assert Get(b, a.prefix).Some?;
    } else {
      assert WfEdge(a.children[0].0, a.children[0].1) && WfEdge(a.children[1].0, a.children[1].1);
      var k0 := SomeKey(a.children[0].1);
      var k1 := SomeKey(a.children[1].1);
      GetChild(a, 0, k0);
      GetChild(a, 1, k1);
      assert Get(b, a.prefix + k0).Some? && Get(b, a.prefix + k1).Some?;
      assert k0[0] != k1[0];
      assert (a.prefix + k0)[|a.prefix|] != (a.prefix + k1)[|a.prefix|];
    }
  }

  /** Same map, same prefix: each edge of one node has a counterpart with the same map. */
  lemma MatchingEdge<V>(a: Node<V>, b: Node<V>, i: nat) returns (j: nat)
    requires WfChildren(a) && WfChildren(b) && a.prefix == b.prefix && SameMap(a, b)
    requires i < |a.children|
    ensures j < |b.children| && b.children[j].0 == a.children[i].0
    ensures SameMap(a.children[i].1, b.children[j].1)
  {
    var (tag, child) := a.children[i];
    assert WfEdge(tag, child);
    var k := SomeKey(child);
    GetChild(a, i, k);
    assert Get(b, b.prefix + k).Some?;
    assert (b.prefix + k)[|b.prefix|..] == k;
    j := FindEdge(b.children, tag).value;
    var other := b.children[j].1;
    assert WfEdge(tag, other);
    forall r: seq<byte> ensures Get(child, r) == Get(other, r) {
      if |r| > 0 && r[0] == tag {
        GetChild(a, i, r);
        GetChild(b, j, r);
      }
    }
  }

  lemma SameFirst<T>(a: seq<(byte, T)>, b: seq<(byte, T)>)
    requires StrictlySorted(a) && StrictlySorted(b) && |a| > 0
    requires forall e :: e in a <==> e in b
    ensures |b| > 0 && a[0] == b[0]
  {
    assert a[0] in b;
    var j :| 0 <= j < |b| && b[j] == a[0];
    assert b[0] in a;
    var i :| 0 <= i < |a| && a[i] == b[0];
    assert a[0].0 <= a[i].0 == b[0].0 <= b[j].0 == a[0].0;
  }

  lemma TailMember<T>(a: seq<(byte, T)>, e: (byte, T))
    requires StrictlySorted(a) && |a| > 0
    ensures e in a[1..] <==> e in a && e != a[0]
  {
    assert a == [a[0]] + a[1..];
  }

  /** Sorted edge lists with the same members are equal. */
  lemma {:induction false} SameEdges<T>(a: seq<(byte, T)>, b: seq<(byte, T)>)
    requires StrictlySorted(a) && StrictlySorted(b)
    requires forall e :: e in a <==> e in b
    ensures a == b
  {
    assert |b| > 0 ==> b[0] in b;
    if |a| == 0 {
    } else {
      SameFirst(a, b);
      forall e ensures e in a[1..] <==> e in b[1..] {
        TailMember(a, e);
        TailMember(b, e);
      }
      SameEdges(a[1..], b[1..]);
      assert a == [a[0]] + a[1..] && b == [b[0]] + b[1..];
    }
  }

  /** Shape is determined by content: well-formed nodes that denote the same map are equal. */
  lemma {:induction false} Canonical<V>(a: Node<V>, b: Node<V>)
    requires (WfInner(a) && WfInner(b)) || (WfRoot(a) && WfRoot(b))
    requires SameMap(a, b)
    ensures a == b
    decreases a
  {
    hide FindEdge, Get, WfEdge, SameMap;
    SamePrefix(a, b);
    forall i | 0 <= i < |a.children| ensures a.children[i] in b.children {
      var j := MatchingEdge(a, b, i);
      EdgeInner(a, i);
      EdgeInner(b, j);
      Canonical(a.children[i].1, b.children[j].1);
      assert b.children[j] == a.children[i];
    }
    forall j | 0 <= j < |b.children| ensures b.children[j] in a.children {
      SameMapSymmetric(a, b);
      var i := MatchingEdge(b, a, j);
      EdgeInner(a, i);
      EdgeInner(b, j);
      SameMapSymmetric(b.children[j].1, a.children[i].1);
      Canonical(a.children[i].1, b.children[j].1);
      assert a.children[i] == b.children[j];
    }
    assert forall e :: e in a.children <==> e in b.children;
    SameEdges(a.children, b.children);
  }

  lemma SamePrefix<V>(a: Node<V>, b: Node<V>)
    requires (WfInner(a) && WfInner(b)) || (WfRoot(a) && WfRoot(b))
    requires SameMap(a, b)
    ensures a.prefix == b.prefix && a.value == b.value && WfChildren(a) && WfChildren(b)
  {
    hide FindEdge;
    if WfInner(a) {
      PrefixWithin(a, b);
      PrefixWithin(b, a);
    }
    assert a.prefix == b.prefix;
    assert Get(a, a.prefix) == a.value && Get(b, a.prefix) == b.value;
  }

  lemma SameMapSymmetric<V>(a: Node<V>, b: Node<V>)
    requires SameMap(a, b)
    ensures SameMap(b, a)
  {
  }

  lemma EdgeInner<V>(node: Node<V>, i: nat)
    requires WfChildren(node) && i < |node.children|
    ensures WfInner(node.children[i].1)
  {
    assert WfEdge(node.children[i].0, node.children[i].1);
  }

  /** The tree any sequence of insertions builds. */
  function Built<V>(entries: seq<(seq<byte>, V)>): Node<V>
  {
    if |entries| == 0 then Empty()
    else
      var last := entries[|entries| - 1];
      Insert(Built(entries[..|entries| - 1]), last.0, last.1)
  }

  /** The value the last insertion under a key left there. */
  function LastValue<V>(entries: seq<(seq<byte>, V)>, key: seq<byte>): Option<V>
  {
    if |entries| == 0 then None
    else
      var last := entries[|entries| - 1];
      if last.0 == key then Some(last.1) else LastValue(entries[..|entries| - 1], key)
  }

  /** A built tree is well-formed and behaves as the map of last-inserted values. */
  lemma {:induction false} BuiltIsMap<V>(entries: seq<(seq<byte>, V)>)
    ensures WfRoot(Built(entries))
    ensures forall key :: Get(Built(entries), key) == LastValue(entries, key)
  {
    if |entries| == 0 {
    } else {
      var init, last := entries[..|entries| - 1], entries[|entries| - 1];
      BuiltIsMap(init);
      InsertWfRoot(Built(init), last.0, last.1);
      forall key ensures Get(Built(entries), key) == LastValue(entries, key) {
        InsertGet(Built(init), last.0, last.1, key);
      }
    }
  }

  /** Shape does not depend on insertion order: insertion sequences that leave the same map
      leave the same tree. */
  lemma BuiltCanonical<V>(a: seq<(seq<byte>, V)>, b: seq<(seq<byte>, V)>)
    requires forall key :: LastValue(a, key) == LastValue(b, key)
    ensures Built(a) == Built(b)
  {
    BuiltIsMap(a);
    BuiltIsMap(b);
    forall key: seq<byte> ensures Get(Built(a), key) == Get(Built(b), key) {
      assert LastValue(a, key) == LastValue(b, key);
    }
    Canonical(Built(a), Built(b));
  }

  // ---- order of a walk ----

  predicate Ascending(keys: seq<seq<byte>>)
  {
    forall i, j :: 0 <= i < j < |keys| ==> LexLess(keys[i], keys[j])
  }

  function Prepend(p: seq<byte>, keys: seq<seq<byte>>): (r: seq<seq<byte>>)
    ensures |r| == |keys| && forall i :: 0 <= i < |keys| ==> r[i] == p + keys[i]
  {
    seq(|keys|, i requires 0 <= i < |keys| => p + keys[i])
  }

  /** The keys met by a preorder walk. */
  function Keys<V>(node: Node<V>): seq<seq<byte>>
    decreases node, |node.children| + 1
  {
    (if node.value.Some? then [node.prefix] else []) + Prepend(node.prefix, ChildKeys(node, 0))
  }

  function ChildKeys<V>(node: Node<V>, i: nat): seq<seq<byte>>
    requires i <= |node.children|
    decreases node, |node.children| - i
  {
    if i == |node.children| then [] else Keys(node.children[i].1) + ChildKeys(node, i + 1)
  }

  lemma {:induction false} ChildKeysExact<V>(node: Node<V>, i: nat, k: seq<byte>)
    requires i <= |node.children|
    ensures k in ChildKeys(node, i) <==> exists j :: i <= j < |node.children| && k in Keys(node.children[j].1)
    decreases |node.children| - i
  {
    if i == |node.children| {
    } else {
      ChildKeysExact(node, i + 1, k);
    }
  }

  /** The walk meets exactly the keys that lookup finds. */
  lemma {:induction false} KeysExact<V>(node: Node<V>, k: seq<byte>)
    requires WfChildren(node)
    ensures k in Keys(node) <==> Get(node, k).Some?
    decreases node
  {
    var below := ChildKeys(node, 0);
    assert k in Prepend(node.prefix, below) <==> node.prefix <= k && k[|node.prefix|..] in below by {
      if node.prefix <= k { assert k == node.prefix + k[|node.prefix|..]; }
      forall i | 0 <= i < |below| ensures (node.prefix + below[i])[|node.prefix|..] == below[i] {}
    }
    if node.prefix <= k {
      var rem := k[|node.prefix|..];
      assert k == node.prefix + rem;
      ChildKeysExact(node, 0, rem);
      forall j | 0 <= j < |node.children|
        ensures rem in Keys(node.children[j].1) <==> Get(node.children[j].1, rem).Some?
        ensures Get(node.children[j].1, rem).Some? ==> |rem| > 0 && FindEdge(node.children, rem[0]) == Some(j)
      {
        assert WfEdge(node.children[j].0, node.children[j].1) && WfInner(node.children[j].1);
        KeysExact(node.children[j].1, rem);
        if Get(node.children[j].1, rem).Some? { GetChild(node, j, rem); }
      }
      var own := if node.value.Some? then [node.prefix] else [];
      assert Keys(node) == own + Prepend(node.prefix, below);
      assert k in own <==> |rem| == 0 && node.value.Some? by {
        if |rem| == 0 { assert k == node.prefix; }
        if node.value.Some? { assert own[0] == node.prefix; }
      }
      assert k in Keys(node) <==> (|rem| == 0 && node.value.Some?) || rem in below;
      if |rem| > 0 && FindEdge(node.children, rem[0]).Some? {
        GetChild(node, FindEdge(node.children, rem[0]).value, rem);
      }
    }
  }

  lemma {:induction false} ChildKeysAscend<V>(node: Node<V>, i: nat)
    requires WfChildren(node) && i <= |node.children|
    ensures Ascending(ChildKeys(node, i))
    ensures forall k :: k in ChildKeys(node, i) ==> |k| > 0 && i < |node.children| && k[0] >= node.children[i].0
    decreases node, |node.children| - i
  {
    hide Keys, Get;
    if i == |node.children| {
    } else {
      var (tag, child) := node.children[i];
      assert WfEdge(tag, child) && WfInner(child);
      KeysAscend(child);
      ChildKeysAscend(node, i + 1);
      forall k | k in Keys(child) ensures |k| > 0 && k[0] == tag {
        EdgeKey(tag, child, k);
      }
      AscendingConcat(Keys(child), ChildKeys(node, i + 1), tag);
    }
  }

  /** The keys below an edge start with its label. */
  lemma EdgeKey<V>(tag: byte, child: Node<V>, k: seq<byte>)
    requires WfEdge(tag, child) && k in Keys(child)
    ensures |k| > 0 && k[0] == tag
  {
    hide Keys;
    KeysExact(child, k);
  }

  lemma AscendingConcat(a: seq<seq<byte>>, b: seq<seq<byte>>, tag: byte)
    requires Ascending(a) && forall k :: k in a ==> |k| > 0 && k[0] == tag
    requires Ascending(b) && forall k :: k in b ==> |k| > 0 && k[0] > tag
    ensures Ascending(a + b)
    ensures forall k :: k in a + b ==> |k| > 0 && k[0] >= tag
  {
    forall i, j | 0 <= i < j < |a + b| ensures LexLess((a + b)[i], (a + b)[j]) {
      if i < |a| <= j {
        assert (a + b)[i] in a && (a + b)[j] in b;
      }
    }
  }

  /** The walk lists the keys in strictly ascending byte order. */
  lemma {:induction false} KeysAscend<V>(node: Node<V>)
    requires WfChildren(node)
    ensures Ascending(Keys(node))
    decreases node, |node.children| + 1
  {
    ChildKeysAscend(node, 0);
    var below := ChildKeys(node, 0);
    forall i, j | 0 <= i < j < |below| ensures LexLess(node.prefix + below[i], node.prefix + below[j]) {
      LexCommonPrefix(node.prefix, below[i], below[j]);
    }
    forall i | 0 <= i < |below| ensures LexLess(node.prefix, node.prefix + below[i]) {
      assert below[i] in below;
      LexCommonPrefix(node.prefix, [], below[i]);
      assert node.prefix + [] == node.prefix;
    }
  }

  /** Two ascending lists with the same members are the same list. */
  lemma {:induction false} SameAscending(a: seq<seq<byte>>, b: seq<seq<byte>>)
    requires Ascending(a) && Ascending(b)
    requires forall k :: k in a <==> k in b
    ensures a == b
  {
    assert |b| == 0 || b[0] in a;
    if |a| == 0 {
    } else {
      assert a[0] in b && |b| > 0;
      assert b[0] in a;
      var i :| 0 <= i < |a| && a[i] == b[0];
      var j :| 0 <= j < |b| && b[j] == a[0];
      if i > 0 && j > 0 {
        LexTransitive(a[0], b[0], a[0]);
        LexIrreflexive(a[0]);
      }
      assert a[0] == b[0];
      var ta, tb := a[1..], b[1..];
      assert a == [a[0]] + ta && b == [b[0]] + tb;
      LexIrreflexive(a[0]);
      forall k ensures k in ta <==> k in tb {
        assert k in ta ==> LexLess(a[0], k);
        assert k in tb ==> LexLess(b[0], k);
        assert k in a <==> k == a[0] || k in ta;
        assert k in b <==> k == b[0] || k in tb;
      }
      SameAscending(ta, tb);
    }
  }
}
