/** Port records and the order in which both backends sort them: `cmpPort` of driver_docker.go
    and the comparison inside `resolveEphemeralPorts` of currustest/fake.go use the same key. */
module Ports {
  import opened Decimal
  import Sorting

  datatype Port = Port(container: uint16, host: uint16, hostIP: string, protocol: string)

  // Both backends read an empty protocol as "tcp".
  function Protocol(p: Port): string {
    if p.protocol == "" then "tcp" else p.protocol
  }

  // What the sort key keeps of a port: everything but the host address.
  datatype Key = Key(container: uint16, protocol: string, host: uint16)

  function KeyOf(p: Port): Key {
    Key(p.container, p.protocol, p.host)
  }

  ghost function Keys(ps: seq<Port>): seq<Key> {
    seq(|ps|, i requires 0 <= i < |ps| => KeyOf(ps[i]))
  }

  // strings.Compare: lexicographic, a proper prefix first.
  function CompareText(a: string, b: string): (d: int) {
    if a == [] && b == [] then 0
    else if a == [] then -1
    else if b == [] then 1
    else if a[0] < b[0] then -1
    else if a[0] > b[0] then 1
    else CompareText(a[1..], b[1..])
  }

  function CmpPort(a: Port, b: Port): (d: int) {
    if a.container != b.container then a.container - b.container
    else if CompareText(a.protocol, b.protocol) != 0 then CompareText(a.protocol, b.protocol)
    else a.host - b.host
  }

  predicate PortLeq(a: Port, b: Port) {
    CmpPort(a, b) <= 0
  }

  lemma {:induction false} CompareTextOrder(a: string, b: string)
    ensures CompareText(a, b) == 0 <==> a == b
    ensures CompareText(a, b) == -CompareText(b, a)
  {
    if a != [] && b != [] && a[0] == b[0] {
      CompareTextOrder(a[1..], b[1..]);
      assert a == [a[0]] + a[1..] && b == [b[0]] + b[1..];
    }
  }

  lemma {:induction false} CompareTextTransitive(a: string, b: string, c: string)
    requires CompareText(a, b) <= 0 && CompareText(b, c) <= 0
    ensures CompareText(a, c) <= 0
    ensures CompareText(a, c) == 0 ==> a == b == c
  {
    CompareTextOrder(a, c);
    CompareTextOrder(a, b);
    if a != [] && b != [] && c != [] && a[0] == b[0] == c[0] {
      CompareTextTransitive(a[1..], b[1..], c[1..]);
      assert a == [a[0]] + a[1..] && b == [b[0]] + b[1..];
    }
  }

  // The sign of cmpPort is antisymmetric and it is zero exactly on equal keys.
  lemma CmpPortTies(a: Port, b: Port)
    ensures CmpPort(a, b) == 0 <==> KeyOf(a) == KeyOf(b)
    ensures CmpPort(a, b) == -CmpPort(b, a)
  {
    CompareTextOrder(a.protocol, b.protocol);
  }

  lemma CmpPortTransitive(a: Port, b: Port, c: Port)
    requires CmpPort(a, b) <= 0 && CmpPort(b, c) <= 0
    ensures CmpPort(a, c) <= 0
  {
    CompareTextOrder(a.protocol, b.protocol);
    CompareTextOrder(b.protocol, c.protocol);
    if a.container == b.container == c.container {
      CompareTextTransitive(a.protocol, b.protocol, c.protocol);
    }
  }

  // cmpPort is a total preorder whose ties are exactly equal (container, protocol, host).
  lemma CmpPortIsTotalPreorder()
    ensures Sorting.TotalPreorder(PortLeq)
    ensures forall a, b :: Sorting.Tie(PortLeq, a, b) <==> KeyOf(a) == KeyOf(b)
  {
    forall a, b
      ensures PortLeq(a, b) || PortLeq(b, a)
      ensures Sorting.Tie(PortLeq, a, b) <==> KeyOf(a) == KeyOf(b)
    {
      CmpPortTies(a, b);
    }
    forall a, b, c | PortLeq(a, b) && PortLeq(b, c) ensures PortLeq(a, c) {
      CmpPortTransitive(a, b, c);
    }
  }

  ghost predicate TextSplitsAt(a: string, b: string, k: nat) {
    k <= |a| && k < |b| && a[..k] == b[..k] && (k < |a| ==> a[k] < b[k])
  }

  // a comes before b in text order: after a common prefix a ends, or has the smaller character.
  ghost predicate TextBefore(a: string, b: string) {
    exists k: nat :: TextSplitsAt(a, b, k)
  }

  lemma SplitsShift(a: string, b: string)
    requires a != [] && b != [] && a[0] == b[0]
    ensures TextBefore(a, b) <==> TextBefore(a[1..], b[1..])
  {
    if k: nat :| TextSplitsAt(a, b, k) {
      assert a[1..][..k - 1] == a[..k][1..] && b[1..][..k - 1] == b[..k][1..];
      assert TextSplitsAt(a[1..], b[1..], k - 1);
    }
    if k: nat :| TextSplitsAt(a[1..], b[1..], k) {
      assert a[..k + 1] == [a[0]] + a[1..][..k] && b[..k + 1] == [b[0]] + b[1..][..k];
      assert TextSplitsAt(a, b, k + 1);
    }
  }

  lemma {:induction false} CompareTextBefore(a: string, b: string)
    ensures CompareText(a, b) < 0 <==> TextBefore(a, b)
  {
    if a == [] || b == [] || a[0] != b[0] {
      if b != [] {
        assert a == [] || a[0] < b[0] ==> TextSplitsAt(a, b, 0);
      }
    } else {
      CompareTextBefore(a[1..], b[1..]);
      SplitsShift(a, b);
    }
  }

  // p may stand before q: ascending container port, then protocol in text order, then ascending host port.
  ghost predicate InOrder(p: Port, q: Port) {
    || p.container < q.container
    || (p.container == q.container && TextBefore(p.protocol, q.protocol))
    || (p.container == q.container && p.protocol == q.protocol && p.host <= q.host)
  }

  ghost predicate Ascending(out: seq<Port>) {
    forall i, j | 0 <= i < j < |out| :: InOrder(out[i], out[j])
  }

  // The comparison of the code is that order.
  lemma PortLeqIsInOrder(p: Port, q: Port)
    ensures PortLeq(p, q) <==> InOrder(p, q)
  {
    CompareTextOrder(p.protocol, q.protocol);
    CompareTextBefore(p.protocol, q.protocol);
  }

  ghost predicate SortedPorts(out: seq<Port>, ps: seq<Port>) {
    multiset(out) == multiset(ps) && Ascending(out)
  }

  lemma SortedIffSorting(out: seq<Port>, ps: seq<Port>)
    ensures SortedPorts(out, ps) <==> Sorting.SortedPermutation(PortLeq, out, ps)
  {
    forall i, j | 0 <= i < j < |out| ensures PortLeq(out[i], out[j]) <==> InOrder(out[i], out[j]) {
      PortLeqIsInOrder(out[i], out[j]);
    }
  }

  // slices.SortFunc with cmpPort: ascending, with ties in any order.
  method SortPorts(ps: seq<Port>) returns (out: seq<Port>)
    ensures SortedPorts(out, ps)
  {
    CmpPortIsTotalPreorder();
    out := Sorting.SortFunc(PortLeq, ps);
    SortedIffSorting(out, ps);
  }

  lemma SomeArrangement(ps: seq<Port>) returns (out: seq<Port>)
    ensures SortedPorts(out, ps)
  {
    CmpPortIsTotalPreorder();
    Sorting.SortedCopyIsSorted(PortLeq, ps);
    out := Sorting.SortedCopy(PortLeq, ps);
    SortedIffSorting(out, ps);
  }

  // Two ports with one sort key are the same port.
  ghost predicate DistinctKeys(ps: seq<Port>) {
    forall p, q | p in ps && q in ps && KeyOf(p) == KeyOf(q) :: p == q
  }

  // However ties fall, the keys come out in one order.
  lemma SortedKeysAgree(a: seq<Port>, b: seq<Port>, ps: seq<Port>, qs: seq<Port>)
    requires multiset(ps) == multiset(qs) && SortedPorts(a, ps) && SortedPorts(b, qs)
    ensures Keys(a) == Keys(b)
    ensures DistinctKeys(ps) ==> a == b
  {
    CmpPortIsTotalPreorder();
    SortedIffSorting(a, ps);
    SortedIffSorting(b, qs);
    Sorting.ArrangementsTie(PortLeq, a, b);
    assert forall i | 0 <= i < |a| :: Sorting.Tie(PortLeq, a[i], b[i]);
    if DistinctKeys(ps) {
      forall i | 0 <= i < |a| ensures a[i] == b[i] {
        Sorting.MultisetMember(a, ps, a[i]);
        Sorting.MultisetMember(b, ps, b[i]);
      }
    }
  }

  // The sorted list is a function of the multiset exactly when no two different ports share a key.
  lemma SortedListUniqueIff(ps: seq<Port>)
    ensures DistinctKeys(ps) <==> forall a, b | SortedPorts(a, ps) && SortedPorts(b, ps) :: a == b
  {
    CmpPortIsTotalPreorder();
    Sorting.SortedUniqueIffNoTies(PortLeq, ps);
    assert DistinctKeys(ps) <==> Sorting.NoTies(PortLeq, ps);
    forall a ensures SortedPorts(a, ps) <==> Sorting.SortedPermutation(PortLeq, a, ps) {
      SortedIffSorting(a, ps);
    }
  }
}
