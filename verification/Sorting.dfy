/** Sorting under a total preorder, where the sort need not be stable: what any two sorted
    arrangements of the same elements share, and when they must coincide. */
module Sorting {
  ghost predicate TotalPreorder<T(!new)>(leq: (T, T) -> bool) {
    && (forall x, y :: leq(x, y) || leq(y, x))
    && (forall x, y, z :: leq(x, y) && leq(y, z) ==> leq(x, z))
  }

  ghost predicate Tie<T>(leq: (T, T) -> bool, x: T, y: T) {
    leq(x, y) && leq(y, x)
  }

  ghost predicate Sorted<T>(leq: (T, T) -> bool, s: seq<T>) {
    forall i, j | 0 <= i < j < |s| :: leq(s[i], s[j])
  }

  ghost predicate SortedPermutation<T>(leq: (T, T) -> bool, out: seq<T>, s: seq<T>) {
    multiset(out) == multiset(s) && Sorted(leq, out)
  }

  // Elements that tie are equal.
  ghost predicate NoTies<T>(leq: (T, T) -> bool, s: seq<T>) {
    forall x, y | x in s && y in s && Tie(leq, x, y) :: x == y
  }

  lemma MultisetMember<T>(a: seq<T>, b: seq<T>, x: T)
    requires multiset(a) == multiset(b) && x in a
    ensures x in b
  {
    assert x in multiset(a);
  }

  // Overwriting position j by the front element and dropping the front removes exactly the element at j.
  lemma DropSwapped<T>(b: seq<T>, j: nat)
    requires j < |b|
    ensures multiset(b[j := b[0]][1..]) == multiset(b) - multiset{b[j]}
  {
    var c := b[j := b[0]];
    assert multiset(c) == multiset(b) - multiset{b[j]} + multiset{b[0]};
    assert c == [b[0]] + c[1..];
    assert multiset(c) == multiset{b[0]} + multiset(c[1..]);
    assert multiset(c[1..]) == multiset(c) - multiset{b[0]};
  }

  // Replacing an element by one it ties with keeps a list sorted.
  lemma ReplaceTie<T(!new)>(leq: (T, T) -> bool, s: seq<T>, i: nat, x: T)
    requires TotalPreorder(leq) && Sorted(leq, s) && i < |s| && Tie(leq, s[i], x)
    ensures Sorted(leq, s[i := x])
  {
    var t := s[i := x];
    forall m, n | 0 <= m < n < |t| ensures leq(t[m], t[n]) {
      assert leq(s[m], s[n]);
    }
  }

  // The front elements of two sorted arrangements tie. Transitivity plays no part in this.
  lemma FrontsTie<T>(leq: (T, T) -> bool, a: seq<T>, b: seq<T>)
    requires a != [] && b != [] && leq(a[0], a[0])
    requires multiset(a) == multiset(b) && Sorted(leq, a) && Sorted(leq, b)
    ensures Tie(leq, a[0], b[0])
  {
    MultisetMember(a, b, a[0]);
    MultisetMember(b, a, b[0]);
    var i :| 0 <= i < |a| && a[i] == b[0];
    var j :| 0 <= j < |b| && b[j] == a[0];
    assert i > 0 ==> leq(a[0], a[i]);
    assert j > 0 ==> leq(b[0], b[j]);
  }

  // Moving the front element over the one at j leaves, tie for tie, what followed the front.
  lemma SwappedTies<T>(leq: (T, T) -> bool, b: seq<T>, j: nat)
    requires j < |b| && Tie(leq, b[0], b[j]) && forall x | x in b :: leq(x, x)
    requires Sorted(leq, b[j := b[0]])
    ensures var c := b[j := b[0]][1..]; Sorted(leq, c) && forall k | 0 <= k < |c| :: Tie(leq, c[k], b[k + 1])
  {
    var swapped := b[j := b[0]];
    var c := swapped[1..];
    assert forall k | 0 <= k < |c| :: c[k] == swapped[k + 1] == if k + 1 == j then b[0] else b[k + 1];
  }

  // Without a[0], what is left of b is, tie for tie, a sorted arrangement of what is left of a.
  lemma FrontTraded<T(!new)>(leq: (T, T) -> bool, a: seq<T>, b: seq<T>) returns (c: seq<T>)
    requires TotalPreorder(leq) && a != []
    requires multiset(a) == multiset(b) && Sorted(leq, a) && Sorted(leq, b)
    ensures |a| == |b| == |c| + 1 && Tie(leq, a[0], b[0])
    ensures multiset(c) == multiset(a[1..]) && Sorted(leq, c)
    ensures forall k | 0 <= k < |c| :: Tie(leq, c[k], b[k + 1])
  {
    assert |a| == |multiset(a)| == |multiset(b)| == |b|;
    FrontsTie(leq, a, b);
    MultisetMember(a, b, a[0]);
    var j :| 0 <= j < |b| && b[j] == a[0];
    ReplaceTie(leq, b, j, b[0]);
    SwappedTies(leq, b, j);
    DropSwapped(b, j);
    assert a == [a[0]] + a[1..];
    c := b[j := b[0]][1..];
  }

  // The sort may order ties as it likes, yet position by position any two sorted arrangements tie.
  lemma {:induction false} ArrangementsTie<T(!new)>(leq: (T, T) -> bool, a: seq<T>, b: seq<T>)
    requires TotalPreorder(leq)
    requires multiset(a) == multiset(b) && Sorted(leq, a) && Sorted(leq, b)
    ensures |a| == |b|
    ensures forall i | 0 <= i < |a| :: Tie(leq, a[i], b[i])
  {
    if a == [] {
      assert |b| == |multiset(b)| == 0;
    } else {
      var c := FrontTraded(leq, a, b);
      ArrangementsTie(leq, a[1..], c);
      forall k | 0 < k < |a| ensures Tie(leq, a[k], b[k]) {
        assert Tie(leq, a[1..][k - 1], c[k - 1]) && Tie(leq, c[k - 1], b[k - 1 + 1]);
      }
    }
  }

  function Insert<T>(leq: (T, T) -> bool, x: T, s: seq<T>): (out: seq<T>) {
    if s == [] then [x]
    else if leq(x, s[0]) then [x] + s
    else [s[0]] + Insert(leq, x, s[1..])
  }

  ghost function SortedCopy<T>(leq: (T, T) -> bool, s: seq<T>): (out: seq<T>) {
    if s == [] then [] else Insert(leq, s[0], SortedCopy(leq, s[1..]))
  }

  lemma {:induction false} InsertMultiset<T>(leq: (T, T) -> bool, x: T, s: seq<T>)
    ensures multiset(Insert(leq, x, s)) == multiset(s) + multiset{x}
  {
    if s != [] {
      assert s == [s[0]] + s[1..];
      InsertMultiset(leq, x, s[1..]);
    }
  }

  lemma {:induction false} InsertSorted<T(!new)>(leq: (T, T) -> bool, x: T, s: seq<T>)
    requires TotalPreorder(leq) && Sorted(leq, s)
    ensures Sorted(leq, Insert(leq, x, s))
  {
    if s != [] && !leq(x, s[0]) {
      InsertSorted(leq, x, s[1..]);
      var rest := Insert(leq, x, s[1..]);
      InsertMultiset(leq, x, s[1..]);
      forall j | 0 <= j < |rest| ensures leq(s[0], rest[j]) {
        assert rest[j] in multiset(rest);
      }
    }
  }

  lemma {:induction false} SortedCopyIsSorted<T(!new)>(leq: (T, T) -> bool, s: seq<T>)
    requires TotalPreorder(leq)
    ensures SortedPermutation(leq, SortedCopy(leq, s), s)
  {
    if s != [] {
      assert s == [s[0]] + s[1..];
      SortedCopyIsSorted(leq, s[1..]);
      InsertMultiset(leq, s[0], SortedCopy(leq, s[1..]));
      InsertSorted(leq, s[0], SortedCopy(leq, s[1..]));
    }
  }

  // Two different elements that tie can trade places in a sorted list.
  lemma TwoArrangements<T(!new)>(leq: (T, T) -> bool, s: seq<T>, x: T, y: T) returns (a: seq<T>, b: seq<T>)
    requires TotalPreorder(leq)
    requires x in s && y in s && Tie(leq, x, y) && x != y
    ensures SortedPermutation(leq, a, s) && SortedPermutation(leq, b, s) && a != b
  {
    a := SortedCopy(leq, s);
    SortedCopyIsSorted(leq, s);
    MultisetMember(s, a, x);
    MultisetMember(s, a, y);
    var i :| 0 <= i < |a| && a[i] == x;
    var j :| 0 <= j < |a| && a[j] == y;
    ReplaceTie(leq, a, i, y);
    ReplaceTie(leq, a[i := y], j, x);
    b := a[i := y][j := x];
    assert multiset(b) == multiset(a);
  }

  // Sorting determines the list exactly when no two different elements tie.
  lemma SortedUniqueIffNoTies<T(!new)>(leq: (T, T) -> bool, s: seq<T>)
    requires TotalPreorder(leq)
    ensures NoTies(leq, s) <==>
            forall a, b | SortedPermutation(leq, a, s) && SortedPermutation(leq, b, s) :: a == b
  {
    if NoTies(leq, s) {
      forall a, b | SortedPermutation(leq, a, s) && SortedPermutation(leq, b, s) ensures a == b {
        ArrangementsTie(leq, a, b);
        forall i | 0 <= i < |a| ensures a[i] == b[i] {
          MultisetMember(a, s, a[i]);
          MultisetMember(b, s, b[i]);
        }
      }
    } else {
      var x, y :| x in s && y in s && Tie(leq, x, y) && x != y;
      var a, b := TwoArrangements(leq, s, x, y);
      assert SortedPermutation(leq, a, s) && SortedPermutation(leq, b, s) && a != b;
    }
  }

  // slices.SortFunc: callers may rely on a sorted permutation and on nothing about the order of ties.
  method SortFunc<T(!new)>(leq: (T, T) -> bool, s: seq<T>) returns (out: seq<T>)
    requires TotalPreorder(leq)
    ensures SortedPermutation(leq, out, s)
  {
    out := [];
    for i := 0 to |s|
      invariant SortedPermutation(leq, out, s[..i])
    {
      assert s[..i + 1] == s[..i] + [s[i]];
      InsertMultiset(leq, s[i], out);
      InsertSorted(leq, s[i], out);
      out := Insert(leq, s[i], out);
    }
    assert s[..|s|] == s;
  }
}
