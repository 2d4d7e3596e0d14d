/** Lexicographic order, and sets kept as sorted sequences. */
module Order {
  import opened Prelude

  /** Strict lexicographic order on sequences of codes. */
  predicate LexLess(a: seq<int>, b: seq<int>)
    decreases |a|
  {
    b != [] && (a == [] || a[0] < b[0] || (a[0] == b[0] && LexLess(a[1..], b[1..])))
  }

  lemma {:induction false} LexTrichotomy(a: seq<int>, b: seq<int>)
    ensures LexLess(a, b) || a == b || LexLess(b, a)
    ensures !(LexLess(a, b) && LexLess(b, a))
    ensures a == b ==> !LexLess(a, b)
    decreases |a|
  {
    if a == [] || b == [] {
    } else {
      LexTrichotomy(a[1..], b[1..]);
      if a[0] == b[0] && a[1..] == b[1..] {
        assert a == [a[0]] + a[1..] && b == [b[0]] + b[1..];
      }
    }
  }

  lemma {:induction false} LexTransitive(a: seq<int>, b: seq<int>, c: seq<int>)
    requires LexLess(a, b) && LexLess(b, c)
    ensures LexLess(a, c)
    decreases |a|
  {
    if a == [] || !(a[0] == b[0] == c[0]) {
    } else {
      LexTransitive(a[1..], b[1..], c[1..]);
    }
  }

  /** Lexicographic order in one statement: behind a common beginning, `a` ends or goes on lower. */
  ghost predicate Precedes(a: seq<int>, b: seq<int>) {
    exists k :: 0 <= k <= |a| && k < |b| && a[..k] == b[..k] && (k == |a| || a[k] < b[k])
  }

  lemma {:induction false} LexMeaning(a: seq<int>, b: seq<int>)
    ensures LexLess(a, b) <==> Precedes(a, b)
    decreases |a|
  {
    if a == [] || b == [] {
      assert b != [] ==> a[..0] == b[..0];
    } else {
      var s, t := a[1..], b[1..];
      LexMeaning(s, t);
      if Precedes(a, b) {
        var k :| 0 <= k <= |a| && k < |b| && a[..k] == b[..k] && (k == |a| || a[k] < b[k]);
        if k > 0 {
          assert a[..k][0] == b[..k][0] && s[..k - 1] == a[..k][1..] && t[..k - 1] == b[..k][1..];
        }
      }
      if a[0] < b[0] {
        assert a[..0] == b[..0];
      }
      if a[0] == b[0] && Precedes(s, t) {
        var k :| 0 <= k <= |s| && k < |t| && s[..k] == t[..k] && (k == |s| || s[k] < t[k]);
        assert a[..k + 1] == [a[0]] + s[..k] && b[..k + 1] == [b[0]] + t[..k];
      }
    }
  }

  // ---------------------------------------------------------------- sorted sets of texts

  ghost predicate StrictlySorted(s: seq<Text>) {
    forall i, j :: 0 <= i < j < |s| ==> LexLess(s[i], s[j])
  }

  /** Insertion into a sorted set; an element already present is not repeated. */
  function Insert(x: Text, s: seq<Text>): (r: seq<Text>)
    requires StrictlySorted(s)
    ensures StrictlySorted(r)
    ensures forall y :: y in r <==> y == x || y in s
  {
    if s == [] then [x]
    else if x == s[0] then s
    else if LexLess(x, s[0]) then
      InsertFront(x, s);
      [x] + s
    else
      LexTrichotomy(x, s[0]);
      var rest := Insert(x, s[1..]);
      assert s == [s[0]] + s[1..];
      assert forall y :: y in rest ==> LexLess(s[0], y);
      [s[0]] + rest
  }

  lemma InsertFront(x: Text, s: seq<Text>)
    requires s != [] && StrictlySorted(s) && LexLess(x, s[0])
    ensures StrictlySorted([x] + s)
  {
    forall j | 0 < j < |s| ensures LexLess(x, s[j]) {
      LexTransitive(x, s[0], s[j]);
    }
  }

  /** The sorted set of a list's elements. */
  function SortedSet(xs: seq<Text>): (r: seq<Text>)
    ensures StrictlySorted(r)
    ensures forall y :: y in r <==> y in xs
  {
    if xs == [] then [] else
    var last := |xs| - 1;
    assert xs == xs[..last] + [xs[last]];
    Insert(xs[last], SortedSet(xs[..last]))
  }

  /** A set has one sorted listing. */
  lemma {:induction false} SortedUnique(a: seq<Text>, b: seq<Text>)
    requires StrictlySorted(a) && StrictlySorted(b)
    requires forall y :: y in a <==> y in b
    ensures a == b
    decreases |a|
  {
    assert a != [] ==> a[0] in a;
    assert b != [] ==> b[0] in b;
    if a == [] {
    } else {
      SmallestFirst(a, b[0]);
      SmallestFirst(b, a[0]);
      LexTrichotomy(a[0], b[0]);
      assert a[0] == b[0];
      forall y ensures y in a[1..] <==> y in b[1..] {
        TailElements(a, y);
        TailElements(b, y);
      }
      SortedUnique(a[1..], b[1..]);
      assert a == [a[0]] + a[1..] && b == [b[0]] + b[1..];
    }
  }

  lemma SmallestFirst(s: seq<Text>, y: Text)
    requires StrictlySorted(s) && y in s
    ensures s[0] == y || LexLess(s[0], y)
  {
  }

  lemma TailElements(s: seq<Text>, y: Text)
    requires s != [] && StrictlySorted(s)
    ensures y in s[1..] <==> y in s && y != s[0]
  {
    LexTrichotomy(s[0], s[0]);
    assert s == [s[0]] + s[1..];
    assert forall i :: 0 <= i < |s| - 1 ==> s[1..][i] == s[i + 1];
  }
}
