/** A min-heap on times, as the sequence in which its entries would be popped. */
module Heap {

  /** Earlier times come first; at equal times the greater item does. */
  function PushHeap<T>(h: seq<(int, T)>, e: (int, T), greater: (T, T) -> bool): (r: seq<(int, T)>)
    ensures |r| == |h| + 1
  {
    if |h| == 0 || e.0 < h[0].0 || (e.0 == h[0].0 && greater(e.1, h[0].1)) then [e] + h
    else [h[0]] + PushHeap(h[1..], e, greater)
  }

  predicate ByTime<T>(h: seq<(int, T)>)
  {
    forall i, j :: 0 <= i < j < |h| ==> h[i].0 <= h[j].0
  }

  lemma {:induction false} PushMembers<T>(h: seq<(int, T)>, e: (int, T), greater: (T, T) -> bool, x: (int, T))
    ensures x in PushHeap(h, e, greater) <==> x == e || x in h
  {
    if |h| == 0 || e.0 < h[0].0 || (e.0 == h[0].0 && greater(e.1, h[0].1)) {
    } else {
      PushMembers(h[1..], e, greater, x);
      assert h == [h[0]] + h[1..];
    }
  }

  lemma {:induction false} PushKeepsOrder<T>(h: seq<(int, T)>, e: (int, T), greater: (T, T) -> bool)
    requires ByTime(h)
    ensures ByTime(PushHeap(h, e, greater))
    ensures forall x :: x in PushHeap(h, e, greater) <==> x == e || x in h
  {
    if |h| == 0 || e.0 < h[0].0 || (e.0 == h[0].0 && greater(e.1, h[0].1)) {
    } else {
      PushKeepsOrder(h[1..], e, greater);
      var r := PushHeap(h[1..], e, greater);
      forall i | 0 <= i < |r| ensures h[0].0 <= r[i].0 {
        PushMembers(h[1..], e, greater, r[i]);
        if r[i] in h[1..] {
          var j :| 0 <= j < |h| - 1 && h[1..][j] == r[i];
          assert h[0].0 <= h[j + 1].0;
        }
      }
    }
    forall x ensures x in PushHeap(h, e, greater) <==> x == e || x in h {
      PushMembers(h, e, greater, x);
    }
  }

  /** One entry may be popped before the other. */
  predicate NotAfter<T>(a: (int, T), b: (int, T), greater: (T, T) -> bool)
  {
    a.0 < b.0 || (a.0 == b.0 && !greater(b.1, a.1))
  }

  /** Earlier times first, and at equal times the greater item first. */
  ghost predicate InPopOrder<T(!new)>(h: seq<(int, T)>, greater: (T, T) -> bool)
  {
    forall i, j :: 0 <= i < j < |h| ==> NotAfter(h[i], h[j], greater)
  }

  ghost predicate StrictOrder<T(!new)>(greater: (T, T) -> bool)
  {
    && (forall a, b :: greater(a, b) ==> !greater(b, a))
    && (forall a, b, c :: greater(a, b) && greater(b, c) ==> greater(a, c))
  }

  lemma {:induction false} PushedMembers<T>(h: seq<(int, T)>, e: (int, T), greater: (T, T) -> bool)
    ensures multiset(PushHeap(h, e, greater)) == multiset(h) + multiset{e}
  {
    if |h| == 0 || e.0 < h[0].0 || (e.0 == h[0].0 && greater(e.1, h[0].1)) {
    } else {
      PushedMembers(h[1..], e, greater);
      assert h == [h[0]] + h[1..];
    }
  }

  /** A push keeps the heap in the order in which its entries are to be popped, ties included. */
  lemma {:induction false} PushKeepsPopOrder<T(!new)>(h: seq<(int, T)>, e: (int, T), greater: (T, T) -> bool)
    requires InPopOrder(h, greater) && StrictOrder(greater)
    ensures InPopOrder(PushHeap(h, e, greater), greater)
    ensures multiset(PushHeap(h, e, greater)) == multiset(h) + multiset{e}
  {
    PushedMembers(h, e, greater);
    if |h| == 0 {
    } else if e.0 < h[0].0 || (e.0 == h[0].0 && greater(e.1, h[0].1)) {
      forall j | 0 <= j < |h| ensures NotAfter(e, h[j], greater) {
        assert j == 0 || NotAfter(h[0], h[j], greater);
      }
      InPopOrderCons(e, h, greater);
    } else {
      var rest := PushHeap(h[1..], e, greater);
      PushKeepsPopOrder(h[1..], e, greater);
      forall j | 0 <= j < |rest| ensures NotAfter(h[0], rest[j], greater) {
        PushMembers(h[1..], e, greater, rest[j]);
        if rest[j] in h[1..] {
          var k :| 0 <= k < |h| - 1 && h[1..][k] == rest[j];
          assert h[k + 1] == rest[j];
        }
      }
      InPopOrderCons(h[0], rest, greater);
    }
  }

  lemma InPopOrderCons<T(!new)>(e: (int, T), h: seq<(int, T)>, greater: (T, T) -> bool)
    requires InPopOrder(h, greater) && forall j :: 0 <= j < |h| ==> NotAfter(e, h[j], greater)
    ensures InPopOrder([e] + h, greater)
  {
    var r := [e] + h;
    forall i, j | 0 <= i < j < |r| ensures NotAfter(r[i], r[j], greater) {
      assert r[j] == h[j - 1] && (i > 0 ==> r[i] == h[i - 1]);
    }
  }

  /** The number of entries at the top whose time has come. */
  function Due<T>(h: seq<(int, T)>, now: int): (n: nat)
    ensures n <= |h| && (forall i :: 0 <= i < n ==> h[i].0 <= now) && (n < |h| ==> h[n].0 > now)
  {
    if |h| == 0 || h[0].0 > now then 0
    else
      var n := Due(h[1..], now);
      assert forall i :: 1 <= i < n + 1 ==> h[i] == h[1..][i - 1];
      n + 1
  }

  /** In a heap, every entry whose time has come is among the due ones. */
  lemma DueAll<T>(h: seq<(int, T)>, now: int, e: (int, T))
    requires ByTime(h) && e in h && e.0 <= now
    ensures e in h[..Due(h, now)]
  {
    var i :| 0 <= i < |h| && h[i] == e;
    var n := Due(h, now);
    assert i < n;
    assert h[..n][i] == e;
  }
}
