/** The radix tree as the program keeps it: nodes that insertion rewrites in place. */
module Radix {
  import opened Bytes
  import T = Trie

  method Lcp(a: seq<byte>, b: seq<byte>) returns (n: nat)
    ensures n == T.Lcp(a, b)
  {
    var len := if |a| < |b| then |a| else |b|;
    for i := 0 to len
      invariant T.Lcp(a, b) == i + T.Lcp(a[i..], b[i..])
    {
      if a[i] != b[i] {
        return i;
      }
    }
    return len;
  }

  class RadixNode<V> {
    var prefix: seq<byte>
    var children: seq<(byte, RadixNode<V>)>
    var value: Option<V>
    ghost var Model: T.Node<V>  // the tree from this node down, as a value
    ghost var Repr: set<object>

    ghost predicate Valid()
      reads this, Repr
      decreases Repr
    {
      && this in Repr
      && (forall i :: 0 <= i < |children| ==>
            && children[i].1 in Repr && children[i].1.Repr <= Repr && this !in children[i].1.Repr
            && children[i].1.Valid())
      && (forall i, j :: 0 <= i < j < |children| ==> children[i].1.Repr !! children[j].1.Repr)
      && Model.prefix == prefix && Model.value == value && |Model.children| == |children|
      && (forall i :: 0 <= i < |children| ==> Model.children[i] == (children[i].0, children[i].1.Model))
    }

    constructor Leaf(prefix: seq<byte>, value: Option<V>)
      ensures Valid() && Repr == {this}
      ensures Model == T.Node(prefix, [], value)
    {
      this.prefix := prefix;
      this.children := [];
      this.value := value;
      Model := T.Node(prefix, [], value);
      Repr := {this};
    }

    /** A node that takes over what is left of a node's prefix, its children and its value. */
    constructor Lower(upper: RadixNode<V>, n: nat)
      requires upper.Valid() && n < |upper.prefix|
      ensures Valid() && Repr == upper.Repr - {upper} + {this}
      ensures Model == upper.Model.(prefix := upper.prefix[n..])
    {
      prefix := upper.prefix[n..];
      children := upper.children;
      value := upper.value;
      Model := upper.Model.(prefix := upper.prefix[n..]);
      Repr := upper.Repr - {upper} + {this};
    }

    function Get(key: seq<byte>): (r: Option<V>)
      requires Valid()
      reads this, Repr
      ensures r == T.Get(Model, key)
      decreases Repr
    {
      if !(prefix <= key) then None
      else
        var rem := key[|prefix|..];
        if |rem| == 0 then value
        else
          T.SameLabelsFind(children, Model.children, rem[0]);
          match T.FindEdge(children, rem[0])
          case Some(i) => children[i].1.Get(rem)
          case None => None
    }

    /** Cuts the prefix after n bytes; the rest moves, with children and value, into a new child. */
    method SplitNode(n: nat)
      requires Valid() && n < |prefix|
      modifies this
      ensures Valid() && fresh(Repr - old(Repr))
      ensures Model == T.Split(old(Model), n)
    {
      var child := new RadixNode.Lower(this, n);
      Model := T.Split(Model, n);
      prefix := prefix[..n];
      children := [(child.prefix[0], child)];
      value := None;
      Repr := Repr + {child};
    }

    /** The loop over the edges. */
    method FindChild(next: byte) returns (r: Option<nat>)
      ensures r == T.FindEdge(children, next)
    {
      for i := 0 to |children|
        invariant forall j :: 0 <= j < i ==> children[j].0 != next
      {
        if children[i].0 == next {
          return Some(i);
        }
      }
      return None;
    }

    /** The new leaf goes to the end of the edge list, which is then sorted by label. */
    method PushChild(next: byte, key: seq<byte>, value: V)
      requires Valid() && T.StrictlySorted(Model.children)
      modifies this
      ensures Valid() && fresh(Repr - old(Repr))
      ensures var m := old(Model);
              Model == m.(children := T.SortByLabel(m.children + [(next, T.Node(key, [], Some(value)))]))
    {
      hide T.SortByLabel;
      var node := new RadixNode.Leaf(key, Some(value));
      ghost var p := SortedAlike(children, Model.children, next, node, node.Model);
      InsertedApart(T.SortByLabel(children + [(next, node)]), children, p, (next, node));
      children := children + [(next, node)];
      children := T.SortByLabel(children);
      Model := Model.(children := T.SortByLabel(Model.children + [(next, node.Model)]));
      Repr := Repr + {node};
    }

    method Descend(i: nat, key: seq<byte>, value: V)
      requires Valid() && i < |children| && T.WfInner(children[i].1.Model)
      modifies Repr
      ensures Valid() && fresh(Repr - old(Repr))
      ensures var m := old(Model);
              Model == m.(children := m.children[i := (m.children[i].0, T.Insert(m.children[i].1, key, value))])
      decreases Repr, 0
    {
      hide T.Insert, T.WfInner, T.WfChildren;
      var child := children[i].1;
      T.InnerIsWf(child.Model);
      child.InsertRec(key, value);
      Model := Model.(children := Model.children[i := (Model.children[i].0, child.Model)]);
      Repr := Repr + child.Repr;
    }

    method InsertRec(key: seq<byte>, value: V)
      requires Valid() && T.WfChildren(Model)
      modifies Repr
      ensures Valid() && fresh(Repr - old(Repr))
      ensures Model == T.Insert(old(Model), key, value)
      decreases Repr, 1
    {
      T.InsertCases(Model, key, value);
      hide T.Insert, T.Lcp, T.FindEdge, T.SortByLabel;
      var common := Lcp(prefix, key);
      if common < |prefix| {
        SplitNode(common);
      }
      if common == |key| {
        this.value := Some(value);
        Model := Model.(value := Some(value));
        return;
      }
      var next := key[common];
      T.SameLabelsFind(children, Model.children, next);
      var i := FindChild(next);
      if i.Some? {
        assert T.WfEdge(Model.children[i.value].0, Model.children[i.value].1);
        Descend(i.value, key[common..], value);
      } else {
        PushChild(next, key[common..], value);
      }
    }
  }

  lemma {:induction false} SameRank<A, B>(a: seq<(byte, A)>, b: seq<(byte, B)>, c: byte)
    requires |a| == |b| && forall i :: 0 <= i < |a| ==> a[i].0 == b[i].0
    ensures T.Rank(a, c) == T.Rank(b, c)
  {
    if |a| == 0 {
    } else {
      assert a[0].0 == b[0].0;
      SameRank(a[1..], b[1..], c);
    }
  }

  ghost predicate Inserted<E>(r: seq<E>, s: seq<E>, p: nat, e: E)
  {
    && |r| == |s| + 1 && p <= |s|
    && (forall i {:trigger r[i]} :: 0 <= i < |r| ==> r[i] == if i < p then s[i] else if i == p then e else s[i - 1])
  }

  lemma InsertedApart<V>(r: seq<(byte, RadixNode<V>)>, s: seq<(byte, RadixNode<V>)>, p: nat, e: (byte, RadixNode<V>))
    requires Inserted(r, s, p, e)
    requires forall i, j :: 0 <= i < j < |s| ==> s[i].1.Repr !! s[j].1.Repr
    requires forall i :: 0 <= i < |s| ==> s[i].1.Repr !! e.1.Repr
    ensures forall i, j :: 0 <= i < j < |r| ==> r[i].1.Repr !! r[j].1.Repr
  {
  }

  /** Edge lists with the same labels sort a pushed edge to the same position. */
  lemma SortedAlike<A, B>(a: seq<(byte, A)>, b: seq<(byte, B)>, c: byte, x: A, y: B) returns (p: nat)
    requires |a| == |b| && forall i :: 0 <= i < |a| ==> a[i].0 == b[i].0
    requires T.StrictlySorted(b)
    ensures p <= |a|
    ensures Inserted(T.SortByLabel(a + [(c, x)]), a, p, (c, x))
    ensures Inserted(T.SortByLabel(b + [(c, y)]), b, p, (c, y))
  {
    hide T.SortByLabel, T.Rank;
    p := T.Rank(a, c);
    SameRank(a, b, c);
    T.SortPushed(a, (c, x));
    T.SortPushed(b, (c, y));
  }

  class RadixTree<V> {
    var root: RadixNode<V>
    ghost var Repr: set<object>

    ghost predicate Valid()
      reads this, Repr
    {
      && this in Repr && root in Repr && root.Repr <= Repr && this !in root.Repr
      && root.Valid() && T.WfRoot(root.Model)
    }

    ghost function Model(): (m: T.Node<V>)
      requires Valid()
      reads this, Repr
      ensures T.WfRoot(m)
    {
      root.Model
    }

    constructor ()
      ensures Valid() && fresh(Repr) && Model() == T.Empty()
    {
      root := new RadixNode.Leaf([], None);
      new;
      Repr := {this, root};
    }

    method Insert(key: seq<byte>, value: V)
      requires Valid()
      modifies Repr
      ensures Valid() && fresh(Repr - old(Repr))
      ensures Model() == T.Insert(old(Model()), key, value)
      ensures forall k :: T.Get(Model(), k) == if k == key then Some(value) else T.Get(old(Model()), k)
    {
      ghost var before := Model();
      forall k ensures T.Get(T.Insert(before, key, value), k) == if k == key then Some(value) else T.Get(before, k) {
        T.InsertGet(before, key, value, k);
      }
      T.InsertWfRoot(Model(), key, value);
      root.InsertRec(key, value);
      Repr := Repr + root.Repr;
    }

    function Get(key: seq<byte>): (r: Option<V>)
      requires Valid()
      reads this, Repr
      ensures r == T.Get(Model(), key)
    {
      root.Get(key)
    }
  }
}
