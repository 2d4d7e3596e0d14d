/** Stable sorting by a key of two times and an id, as the scheduler sorts its messages and events. */
module Sorting {
  import opened Order

  datatype Key = Key(first: int, second: int, id: string)

  function Codes(s: string): (codes: seq<int>)
    ensures |codes| == |s| && forall i :: 0 <= i < |s| ==> codes[i] == s[i] as int
  {
    seq(|s|, i requires 0 <= i < |s| => s[i] as int)
  }

  /** Tuple order: the times first, then the id, character by character. */
  predicate KeyLess(a: Key, b: Key) {
    || a.first < b.first
    || (a.first == b.first && a.second < b.second)
    || (a.first == b.first && a.second == b.second && LexLess(Codes(a.id), Codes(b.id)))
  }

  predicate KeyLeq(a: Key, b: Key) {
    !KeyLess(b, a)
  }

  lemma CodesInjective(a: string, b: string)
    requires Codes(a) == Codes(b)
    ensures a == b
  {
    assert |Codes(a)| == |a| && |Codes(b)| == |b|;
    assert forall i :: 0 <= i < |a| ==> Codes(a)[i] == Codes(b)[i];
  }

  lemma KeyTrichotomy(a: Key, b: Key)
    ensures KeyLess(a, b) || a == b || KeyLess(b, a)
    ensures !(KeyLess(a, b) && KeyLess(b, a)) && !KeyLess(a, a)
    ensures KeyLeq(a, b) && KeyLeq(b, a) ==> a == b
  {
    LexTrichotomy(Codes(a.id), Codes(b.id));
    LexTrichotomy(Codes(a.id), Codes(a.id));
    if Codes(a.id) == Codes(b.id) {
      CodesInjective(a.id, b.id);
    }
  }

  lemma KeyTransitive(a: Key, b: Key, c: Key)
    requires KeyLess(a, b) && KeyLess(b, c)
    ensures KeyLess(a, c)
  {
    if a.first == b.first == c.first && a.second == b.second == c.second {
      LexTransitive(Codes(a.id), Codes(b.id), Codes(c.id));
    }
  }

  lemma KeyLeqTransitive(a: Key, b: Key, c: Key)
    requires KeyLeq(a, b) && KeyLeq(b, c)
    ensures KeyLeq(a, c)
  {
    KeyTrichotomy(a, b);
    KeyTrichotomy(b, c);
    KeyTrichotomy(a, c);
    if KeyLess(a, b) && KeyLess(b, c) {
      KeyTransitive(a, b, c);
    }
  }

  // ---------------------------------------------------------------- the sort

  ghost predicate Sorted<T>(s: seq<T>, key: T -> Key) {
    forall i, j :: 0 <= i < j < |s| ==> KeyLeq(key(s[i]), key(s[j]))
  }

  /** Insertion behind every element whose key is not greater. */
  function Insert<T>(s: seq<T>, x: T, key: T -> Key): seq<T> {
    if s == [] then [x] else
    var last := |s| - 1;
    if KeyLess(key(x), key(s[last])) then Insert(s[..last], x, key) + [s[last]] else s + [x]
  }

  /** `sorted(xs, key=key)` */
  function SortedBy<T>(xs: seq<T>, key: T -> Key): seq<T> {
    if xs == [] then [] else
    var last := |xs| - 1;
    Insert(SortedBy(xs[..last], key), xs[last], key)
  }

  /** The elements with one key, in order. */
  function WithKey<T>(xs: seq<T>, key: T -> Key, k: Key): seq<T> {
    if xs == [] then [] else
    var last := |xs| - 1;
    WithKey(xs[..last], key, k) + if key(xs[last]) == k then [xs[last]] else []
  }

  lemma {:induction false} InsertAdds<T>(s: seq<T>, x: T, key: T -> Key)
    ensures multiset(Insert(s, x, key)) == multiset(s) + multiset{x}
  {
    hide KeyLess;
    if s == [] {
    } else {
      var last := |s| - 1;
      assert s == s[..last] + [s[last]];
      InsertAdds(s[..last], x, key);
    }
  }

  lemma {:induction false} InsertSorts<T>(s: seq<T>, x: T, key: T -> Key)
    requires Sorted(s, key)
    ensures Sorted(Insert(s, x, key), key)
    ensures multiset(Insert(s, x, key)) == multiset(s) + multiset{x}
  {
    InsertAdds(s, x, key);
    if s == [] {
    } else {
      var last := |s| - 1;
      var front, y := s[..last], s[last];
      assert s == front + [y];
      KeyTrichotomy(key(x), key(y));
      if KeyLess(key(x), key(y)) {
        InsertSorts(front, x, key);
        var r := Insert(front, x, key);
        assert KeyLeq(key(x), key(y));
        hide KeyLess, KeyLeq;
        forall i | 0 <= i < |r| ensures KeyLeq(key(r[i]), key(y)) {
          assert r[i] in multiset(r);
          if r[i] != x {
            assert r[i] in front;
          }
        }
      } else {
        forall i | 0 <= i < |s| ensures KeyLeq(key(s[i]), key(x)) {
          if i < last {
            KeyLeqTransitive(key(s[i]), key(y), key(x));
          }
        }
      }
    }
  }

  lemma {:induction false} SortSorts<T>(xs: seq<T>, key: T -> Key)
    ensures Sorted(SortedBy(xs, key), key)
    ensures multiset(SortedBy(xs, key)) == multiset(xs)
  {
    if xs == [] {
    } else {
      var last := |xs| - 1;
      SortSorts(xs[..last], key);
      InsertSorts(SortedBy(xs[..last], key), xs[last], key);
      assert xs == xs[..last] + [xs[last]];
    }
  }

  lemma SameElements<T>(a: seq<T>, b: seq<T>)
    requires multiset(a) == multiset(b)
    ensures |a| == |b| && forall x :: x in a <==> x in b
  {
    assert |multiset(a)| == |multiset(b)|;
    assert forall x :: x in a <==> x in multiset(a);
    assert forall x :: x in b <==> x in multiset(b);
  }

  // ---------------------------------------------------------------- stability

  lemma {:induction false} WithKeyConcat<T>(u: seq<T>, v: seq<T>, key: T -> Key, k: Key)
    ensures WithKey(u + v, key, k) == WithKey(u, key, k) + WithKey(v, key, k)
  {
    if v == [] {
      assert u + v == u;
    } else {
      var last := |v| - 1;
      WithKeyConcat(u, v[..last], key, k);
      assert (u + v)[..|u + v| - 1] == u + v[..last];
    }
  }

  lemma {:induction false} WithKeyNone<T>(s: seq<T>, key: T -> Key, k: Key)
    requires forall i :: 0 <= i < |s| ==> key(s[i]) != k
    ensures WithKey(s, key, k) == []
  {
    if s == [] {
    } else {
      WithKeyNone(s[..|s| - 1], key, k);
    }
  }

  lemma {:induction false} InsertStable<T>(s: seq<T>, x: T, key: T -> Key, k: Key)
    requires Sorted(s, key)
    ensures WithKey(Insert(s, x, key), key, k) == WithKey(s, key, k) + if key(x) == k then [x] else []
  {
    if s == [] {
      assert Insert(s, x, key)[..0] == [];
    } else {
      var last := |s| - 1;
      var front, y := s[..last], s[last];
      if KeyLess(key(x), key(y)) {
        InsertStable(front, x, key, k);
        var r := Insert(front, x, key) + [y];
        assert r[..|r| - 1] == Insert(front, x, key);
        KeyTrichotomy(key(x), key(y));
      } else {
        assert (s + [x])[..|s|] == s;
      }
    }
  }

  /** The sort keeps the order of elements with equal keys. */
  lemma {:induction false} SortStable<T>(xs: seq<T>, key: T -> Key, k: Key)
    ensures WithKey(SortedBy(xs, key), key, k) == WithKey(xs, key, k)
  {
    if xs == [] {
    } else {
      var last := |xs| - 1;
      SortStable(xs[..last], key, k);
      SortSorts(xs[..last], key);
      InsertStable(SortedBy(xs[..last], key), xs[last], key, k);
    }
  }

  lemma {:induction false} WithKeyMember<T>(s: seq<T>, key: T -> Key, k: Key, i: nat)
    requires i < |s| && key(s[i]) == k
    ensures s[i] in WithKey(s, key, k)
  {
    var last := |s| - 1;
    if i == last {
    } else {
      WithKeyMember(s[..last], key, k, i);
    }
  }

  lemma NoneWithKey<T>(s: seq<T>, key: T -> Key, k: Key)
    requires WithKey(s, key, k) == []
    ensures forall i :: 0 <= i < |s| ==> key(s[i]) != k
  {
    forall i | 0 <= i < |s| ensures key(s[i]) != k {
      if key(s[i]) == k {
        WithKeyMember(s, key, k, i);
      }
    }
  }

  lemma {:induction false} WithKeyOnly<T>(s: seq<T>, key: T -> Key, k: Key, x: T)
    requires x in WithKey(s, key, k)
    ensures x in s && key(x) == k
  {
    var last := |s| - 1;
    if x !in WithKey(s[..last], key, k) {
    } else {
      WithKeyOnly(s[..last], key, k, x);
    }
  }

  /** A sorted sequence is determined by its elements at each key, in order. */
  lemma {:induction false} SortedDetermined<T>(a: seq<T>, b: seq<T>, key: T -> Key)
    requires Sorted(a, key) && Sorted(b, key)
    requires forall k :: WithKey(a, key, k) == WithKey(b, key, k)
    ensures a == b
    decreases |a| + |b|
  {
    assert a != [] ==> |a| - 1 < |a| && WithKey(a, key, key(a[|a| - 1])) == WithKey(b, key, key(a[|a| - 1]));
    assert b != [] ==> |b| - 1 < |b| && WithKey(a, key, key(b[|b| - 1])) == WithKey(b, key, key(b[|b| - 1]));
    if a == [] {
    } else {
      WithKeyMember(a, key, key(a[|a| - 1]), |a| - 1);
      WithKeyOnly(b, key, key(a[|a| - 1]), a[|a| - 1]);
    }
    if b == [] {
    } else {
      WithKeyMember(b, key, key(b[|b| - 1]), |b| - 1);
      WithKeyOnly(a, key, key(b[|b| - 1]), b[|b| - 1]);
    }
    if a != [] && b != [] {
      var x, y := a[|a| - 1], b[|b| - 1];
      LastIsGreatest(a, key, y);
      LastIsGreatest(b, key, x);
      KeyTrichotomy(key(x), key(y));
      assert key(x) == key(y);
      var fa, fb := a[..|a| - 1], b[..|b| - 1];
      forall k ensures WithKey(fa, key, k) == WithKey(fb, key, k) {
        assert WithKey(a, key, k) == WithKey(b, key, k);
        WithoutLast(a, key, k);
        WithoutLast(b, key, k);
      }
      SortedDetermined(fa, fb, key);
      LastOfWithKey(a, key);
      LastOfWithKey(b, key);
      assert WithKey(a, key, key(x)) == WithKey(b, key, key(x));
      assert a == fa + [x] && b == fb + [y];
    }
  }

  lemma WithoutLast<T>(s: seq<T>, key: T -> Key, k: Key)
    requires s != []
    ensures var w := WithKey(s, key, k);
            WithKey(s[..|s| - 1], key, k) == if key(s[|s| - 1]) == k then w[..|w| - 1] else w
  {
  }

  lemma LastOfWithKey<T>(s: seq<T>, key: T -> Key)
    requires s != []
    ensures var x := s[|s| - 1]; var w := WithKey(s, key, key(x));
            w != [] && w[|w| - 1] == x && w[..|w| - 1] == WithKey(s[..|s| - 1], key, key(x))
  {
  }

  lemma LastIsGreatest<T>(s: seq<T>, key: T -> Key, y: T)
    requires Sorted(s, key) && y in s
    ensures KeyLeq(key(y), key(s[|s| - 1]))
  {
    KeyTrichotomy(key(y), key(y));
  }

  // ---------------------------------------------------------------- keys that differ

  lemma TwiceIn<T>(s: seq<T>, i: nat, j: nat)
    requires i < j < |s| && s[i] == s[j]
    ensures multiset(s)[s[i]] >= 2
  {
    assert s == s[..j] + [s[j]] + s[j + 1..];
    assert s[i] == s[..j][i];
    assert multiset(s) == multiset(s[..j]) + multiset{s[j]} + multiset(s[j + 1..]);
    assert s[i] in multiset(s[..j]);
  }

  lemma {:induction false} OnceIn<T>(s: seq<T>, m: T)
    requires forall i, j :: 0 <= i < j < |s| ==> s[i] != s[j]
    ensures multiset(s)[m] <= 1
  {
    if s == [] {
    } else {
      var last := |s| - 1;
      OnceIn(s[..last], m);
      assert s[last] !in multiset(s[..last]);
      assert s == s[..last] + [s[last]];
      assert multiset(s) == multiset(s[..last]) + multiset{s[last]};
    }
  }

  /** Items that all differ in a key still do in any other order. */
  lemma DistinctPermuted<T, K>(a: seq<T>, b: seq<T>, key: T -> K)
    requires multiset(a) == multiset(b)
    requires forall i, j :: 0 <= i < j < |a| ==> key(a[i]) != key(a[j])
    ensures forall i, j :: 0 <= i < j < |b| ==> key(b[i]) != key(b[j])
  {
    SameElements(a, b);
    forall i, j | 0 <= i < j < |b| ensures key(b[i]) != key(b[j]) {
      assert forall p, q :: 0 <= p < q < |a| ==> key(a[p]) != key(a[q]);
      OnceIn(a, b[i]);
      assert b[i] != b[j] by {
        if b[i] == b[j] {
          TwiceIn(b, i, j);
        }
      }
      assert b[i] in a && b[j] in a;
      var p :| 0 <= p < |a| && a[p] == b[i];
      var q :| 0 <= q < |a| && a[q] == b[j];
      assert p < q || q < p;
    }
  }
}
