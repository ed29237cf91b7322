/**
 * The shapes of query the handlers run against their tables: the first row
 * a WHERE clause selects, a join-and-project over one table in table order,
 * and the reversal behind an ORDER BY ... DESC over a table kept in
 * ascending time order.
 */
module Seqs {
  import opened Wrappers

  /** Position of the first element that satisfies p. */
  function FirstIndex<T>(s: seq<T>, p: T -> bool): (r: Option<nat>)
    ensures r.Some? ==> r.value < |s| && p(s[r.value])
    ensures r.Some? ==> forall k :: 0 <= k < r.value ==> !p(s[k])
    ensures r.None? <==> forall k :: 0 <= k < |s| ==> !p(s[k])
  {
    if s == [] then None
    else if p(s[0]) then Some(0)
    else
      match FirstIndex(s[1..], p)
      case None => None
      case Some(k) => Some(k + 1)
  }

  function Unit<U>(o: Option<U>): seq<U> {
    match o
    case None => []
    case Some(u) => [u]
  }

  /** Keeps, in order, the rows f maps to Some, projected as f says. */
  function Collect<T, U>(s: seq<T>, f: T -> Option<U>): (r: seq<U>)
    ensures |r| <= |s|
  {
    if s == [] then [] else Unit(f(s[0])) + Collect(s[1..], f)
  }

  lemma {:induction false} CollectMembership<T, U>(s: seq<T>, f: T -> Option<U>)
    ensures forall u :: u in Collect(s, f) <==> exists i :: 0 <= i < |s| && f(s[i]) == Some(u)
  {
    if s != [] {
      CollectMembership(s[1..], f);
      forall u ensures u in Collect(s, f) <==> exists i :: 0 <= i < |s| && f(s[i]) == Some(u) {
        if u in Collect(s[1..], f) {
          var i :| 0 <= i < |s[1..]| && f(s[1..][i]) == Some(u);
          assert f(s[i + 1]) == Some(u);
        }
        if exists i :: 0 <= i < |s| && f(s[i]) == Some(u) {
          var i :| 0 <= i < |s| && f(s[i]) == Some(u);
          if i > 0 {
            assert f(s[1..][i - 1]) == Some(u);
          }
        }
      }
    }
  }

  /** The row a collected value came from. */
  lemma CollectSource<T, U>(s: seq<T>, f: T -> Option<U>, u: U) returns (i: nat)
    requires u in Collect(s, f)
    ensures i < |s| && f(s[i]) == Some(u)
  {
    CollectMembership(s, f);
    i :| 0 <= i < |s| && f(s[i]) == Some(u);
  }

  lemma {:induction false} CollectAppend<T, U>(a: seq<T>, b: seq<T>, f: T -> Option<U>)
    ensures Collect(a + b, f) == Collect(a, f) + Collect(b, f)
  {
    if a == [] {
      assert a + b == b;
    } else {
      assert (a + b)[0] == a[0];
      assert (a + b)[1..] == a[1..] + b;
      CollectAppend(a[1..], b, f);
    }
  }

  /** Rows that f keeps in full keep their order and all come out. */
  lemma {:induction false} CollectAll<T, U>(s: seq<T>, f: T -> Option<U>, g: T -> U)
    requires forall i :: 0 <= i < |s| ==> f(s[i]) == Some(g(s[i]))
    ensures |Collect(s, f)| == |s|
    ensures forall i :: 0 <= i < |s| ==> Collect(s, f)[i] == g(s[i])
  {
    if s != [] {
      CollectAll(s[1..], f, g);
    }
  }

  /** Rows that f drops contribute nothing. */
  lemma {:induction false} CollectNone<T, U>(s: seq<T>, f: T -> Option<U>)
    requires forall i :: 0 <= i < |s| ==> f(s[i]).None?
    ensures Collect(s, f) == []
  {
    if s != [] {
      CollectNone(s[1..], f);
    }
  }

  /** A projection that carries each row's key over keeps an ascending table ascending. */
  lemma {:induction false} CollectAscending<T, U>(s: seq<T>, f: T -> Option<U>, key: T -> int, ukey: U -> int)
    requires forall i, j :: 0 <= i < j < |s| ==> key(s[i]) <= key(s[j])
    requires forall i :: 0 <= i < |s| && f(s[i]).Some? ==> ukey(f(s[i]).value) == key(s[i])
    ensures forall i, j :: 0 <= i < j < |Collect(s, f)| ==> ukey(Collect(s, f)[i]) <= ukey(Collect(s, f)[j])
  {
    if s != [] {
      var tail := Collect(s[1..], f);
      CollectAscending(s[1..], f, key, ukey);
      forall v | v in tail ensures key(s[0]) <= ukey(v) {
        var i := CollectSource(s[1..], f, v);
        assert s[1..][i] == s[i + 1];
      }
      var r := Collect(s, f);
      assert r == Unit(f(s[0])) + tail;
      if f(s[0]).Some? {
        forall i, j | 0 <= i < j < |r| ensures ukey(r[i]) <= ukey(r[j]) {
          if i == 0 {
            assert r[j] == tail[j - 1];
            assert tail[j - 1] in tail;
          } else {
            assert r[i] == tail[i - 1] && r[j] == tail[j - 1];
          }
        }
      }
    }
  }

  function Reverse<T>(s: seq<T>): (r: seq<T>)
    ensures |r| == |s|
    ensures forall i :: 0 <= i < |s| ==> r[i] == s[|s| - 1 - i]
  {
    if s == [] then [] else Reverse(s[1..]) + [s[0]]
  }

  /** Reversing keeps the elements. */
  lemma ReverseSameElements<T>(s: seq<T>)
    ensures forall x :: x in Reverse(s) <==> x in s
  {
    var r := Reverse(s);
    forall x ensures x in r <==> x in s {
      if x in r {
        var i :| 0 <= i < |r| && r[i] == x;
        assert s[|s| - 1 - i] == x;
      }
      if x in s {
        var i :| 0 <= i < |s| && s[i] == x;
        assert r[|s| - 1 - i] == x;
      }
    }
  }
}
