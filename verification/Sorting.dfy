/**
 * A stable sort by string keys, whatever the elements are: an empty key goes last, equal
 * keys keep the array order.
 */
module Sorting {
  import opened Text
  import opened Document

  /** The comparator returns a negative number for the elements at a and b. */
  predicate Before(keys: seq<string>, a: nat, b: nat)
    requires a < |keys| && b < |keys|
  {
    if keys[a] == "" && keys[b] == "" then a < b
    else if keys[a] == "" then false
    else if keys[b] == "" then true
    else if keys[a] != keys[b] then AtMost(keys[a], keys[b])
    else a < b
  }

  lemma BeforeIsStrictTotal(keys: seq<string>, a: nat, b: nat, c: nat)
    requires a < |keys| && b < |keys| && c < |keys|
    ensures !Before(keys, a, a)
    ensures a != b ==> (Before(keys, a, b) <==> !Before(keys, b, a))
    ensures Before(keys, a, b) && Before(keys, b, c) ==> Before(keys, a, c)
  {
    AtMostTotal(keys[a], keys[b]);
    AtMostTotal(keys[b], keys[c]);
    AtMostTotal(keys[a], keys[c]);
    if AtMost(keys[a], keys[b]) && AtMost(keys[b], keys[c]) {
      AtMostTransitive(keys[a], keys[b], keys[c]);
    }
  }

  /** The indices of `keys`, each once, ascending by the comparator. */
  ghost predicate IsOrdering(keys: seq<string>, o: seq<nat>) {
    && |o| == |keys|
    && (forall p :: 0 <= p < |o| ==> o[p] < |keys|)
    && (forall p, q :: 0 <= p < q < |o| ==> Before(keys, o[p], o[q]))
    && (forall i: nat :: i < |keys| ==> i in o)
  }

  function Insert(keys: seq<string>, o: seq<nat>, k: nat): (r: seq<nat>)
    requires k < |keys| && forall p :: 0 <= p < |o| ==> o[p] < |keys|
    ensures |r| == |o| + 1
    ensures forall p :: 0 <= p < |r| ==> r[p] == k || r[p] in o
  {
    if o == [] || Before(keys, k, o[0]) then [k] + o
    else [o[0]] + Insert(keys, o[1..], k)
  }

  function OrderFirst(keys: seq<string>, n: nat): (o: seq<nat>)
    requires n <= |keys|
    ensures forall p :: 0 <= p < |o| ==> o[p] < n
  {
    if n == 0 then [] else Insert(keys, OrderFirst(keys, n - 1), n - 1)
  }

  function Order(keys: seq<string>): seq<nat> {
    OrderFirst(keys, |keys|)
  }

  ghost predicate Ascending(keys: seq<string>, o: seq<nat>)
    requires forall p :: 0 <= p < |o| ==> o[p] < |keys|
  {
    forall p, q :: 0 <= p < q < |o| ==> Before(keys, o[p], o[q])
  }

  lemma {:induction false} InsertKeepsOrder(keys: seq<string>, o: seq<nat>, k: nat)
    requires k < |keys| && (forall p :: 0 <= p < |o| ==> o[p] < |keys|) && k !in o
    requires Ascending(keys, o)
    ensures Ascending(keys, Insert(keys, o, k))
    ensures forall i: nat :: i == k || i in o ==> i in Insert(keys, o, k)
  {
    var r := Insert(keys, o, k);
    if o == [] {
      assert r == [k];
    } else if Before(keys, k, o[0]) {
      assert r == [k] + o;
      forall q | 0 < q < |o| ensures Before(keys, k, o[q]) {
        BeforeIsStrictTotal(keys, k, o[0], o[q]);
      }
    } else {
      var rest := Insert(keys, o[1..], k);
      assert r == [o[0]] + rest && o == [o[0]] + o[1..];
      InsertKeepsOrder(keys, o[1..], k);
      BeforeIsStrictTotal(keys, o[0], k, k);
      forall x | x in rest ensures Before(keys, o[0], x) { }
    }
  }

  lemma {:induction false} OrderFirstIsOrdered(keys: seq<string>, n: nat)
    requires n <= |keys|
    ensures |OrderFirst(keys, n)| == n && Ascending(keys, OrderFirst(keys, n))
    ensures forall i: nat :: i < n ==> i in OrderFirst(keys, n)
  {
    hide Insert, Before;
    if n > 0 {
      OrderFirstIsOrdered(keys, n - 1);
      InsertKeepsOrder(keys, OrderFirst(keys, n - 1), n - 1);
    }
  }

  lemma OrderIsOrdering(keys: seq<string>)
    ensures IsOrdering(keys, Order(keys))
  {
    OrderFirstIsOrdered(keys, |keys|);
  }

  lemma {:induction false} OrderingAgreesAt(keys: seq<string>, o: seq<nat>, r: seq<nat>, p: nat)
    requires IsOrdering(keys, o) && IsOrdering(keys, r) && p < |o|
    ensures o[p] == r[p]
  {
    forall k | 0 <= k < p ensures o[k] == r[k] { OrderingAgreesAt(keys, o, r, k); }
    assert o[p] in r && r[p] in o;
    var q :| 0 <= q < |r| && r[q] == o[p];
    var s :| 0 <= s < |o| && o[s] == r[p];
    BeforeIsStrictTotal(keys, o[p], r[p], r[p]);
  }

  /** Whatever algorithm the engine sorts with, there is one possible result. */
  lemma OrderingIsUnique(keys: seq<string>, o: seq<nat>, r: seq<nat>)
    requires IsOrdering(keys, o) && IsOrdering(keys, r)
    ensures o == r
  {
    forall p | 0 <= p < |o| ensures o[p] == r[p] { OrderingAgreesAt(keys, o, r, p); }
  }

  function Pick<T>(xs: seq<T>, o: seq<nat>): (r: seq<T>)
    requires forall p :: 0 <= p < |o| ==> o[p] < |xs|
    ensures |r| == |o| && forall p :: 0 <= p < |o| ==> r[p] == xs[o[p]]
  {
    seq(|o|, p requires 0 <= p < |o| => xs[o[p]])
  }

  function Sorted<T>(xs: seq<T>, keys: seq<string>): (r: seq<T>)
    requires |xs| == |keys|
    ensures |r| == |xs|
    ensures forall x <- r :: x in xs
  {
    OrderIsOrdering(keys);
    Pick(xs, Order(keys))
  }

  // ------------------------------------------------------------ the prefix

  predicate ReachedBy(reachedOn: string, viewDate: string) {
    reachedOn != "" && viewDate != "" && AtMost(reachedOn, viewDate)
  }

  /** In the sorted row, what is left of a reached element is reached. */
  lemma ReachedGoesLeft(keys: seq<string>, viewDate: string, p: nat, q: nat)
    requires p <= q < |keys|
    requires ReachedBy(Sorted(keys, keys)[q], viewDate)
    ensures ReachedBy(Sorted(keys, keys)[p], viewDate)
  {
    var o := Order(keys);
    OrderIsOrdering(keys);
    if p < q {
      assert Before(keys, o[p], o[q]);
      AtMostTotal(keys[o[p]], keys[o[q]]);
      AtMostTransitive(keys[o[p]], keys[o[q]], viewDate);
    }
  }

  // ------------------------------------------------------ swapping neighbours

  function Swap<T>(xs: seq<T>, i: nat, j: nat): (r: seq<T>)
    requires i < |xs| && j < |xs|
    ensures |r| == |xs| && r[i] == xs[j] && r[j] == xs[i]
    ensures forall k :: 0 <= k < |xs| && k != i && k != j ==> r[k] == xs[k]
  {
    xs[i := xs[j]][j := xs[i]]
  }

  /** Two equal keys with no equal key between them. */
  ghost predicate Neighbours(keys: seq<string>, i: nat, j: nat) {
    && i < j < |keys| && keys[i] == keys[j]
    && forall k :: i < k < j ==> keys[k] != keys[i]
  }

  lemma NeighboursStandTogether(keys: seq<string>, i: nat, j: nat) returns (p: nat)
    requires Neighbours(keys, i, j) && keys[i] != ""
    ensures IsOrdering(keys, Order(keys))
    ensures p + 1 < |keys| && Order(keys)[p] == i && Order(keys)[p + 1] == j
  {
    var o := Order(keys);
    OrderIsOrdering(keys);
    assert i in o && j in o;
    p :| 0 <= p < |o| && o[p] == i;
    var q :| 0 <= q < |o| && o[q] == j;
    BeforeIsStrictTotal(keys, i, j, j);
    assert p + 1 < q ==> Before(keys, i, o[p + 1]) && Before(keys, o[p + 1], j);
    if p + 1 < q { AtMostTotal(keys[i], keys[o[p + 1]]); }
  }

  /** Exchanging two such elements exchanges two neighbours of the sorted row, and no more. */
  lemma SwapTransposesNeighbours<T>(xs: seq<T>, keys: seq<string>, i: nat, j: nat) returns (p: nat)
    requires |xs| == |keys| && Neighbours(keys, i, j) && keys[i] != ""
    ensures p + 1 < |xs| && Sorted(xs, keys)[p] == xs[i] && Sorted(xs, keys)[p + 1] == xs[j]
    ensures Sorted(Swap(xs, i, j), keys) == Swap(Sorted(xs, keys), p, p + 1)
  {
    p := NeighboursStandTogether(keys, i, j);
    var o := Order(keys);
    forall k | 0 <= k < |o| && k != p && k != p + 1 ensures o[k] != i && o[k] != j {
      DistinctAt(keys, o, k, p); DistinctAt(keys, o, k, p + 1);
    }
  }

  lemma DistinctAt(keys: seq<string>, o: seq<nat>, p: nat, q: nat)
    requires IsOrdering(keys, o) && p < |o| && q < |o| && p != q
    ensures o[p] != o[q]
  {
    assert Before(keys, o[p], o[q]) || Before(keys, o[q], o[p]);
    BeforeIsStrictTotal(keys, o[p], o[q], o[q]);
  }

  // ----------------------------------------------------- peers: equal ties

  /** The indices below n that carry the tie, in array order. */
  function PeerIndexes(ties: seq<string>, tie: string, n: nat): (r: seq<nat>)
    requires n <= |ties|
    ensures forall i: nat :: i in r <==> i < n && ties[i] == tie
    ensures forall a :: 0 <= a < |r| ==> r[a] < n && ties[r[a]] == tie
    ensures forall a, b :: 0 <= a < b < |r| ==> r[a] < r[b]
  {
    if n == 0 then []
    else if ties[n - 1] == tie then PeerIndexes(ties, tie, n - 1) + [n - 1]
    else PeerIndexes(ties, tie, n - 1)
  }

  function Position(r: seq<nat>, i: nat): (p: nat)
    requires i in r
    ensures p < |r| && r[p] == i
  {
    if r[0] == i then 0 else 1 + Position(r[1..], i)
  }

  datatype Direction = Sooner | Later

  function Stride(d: Direction): int { if d == Later then 1 else -1 }

  function Opposite(d: Direction): Direction { if d == Later then Sooner else Later }

  /** The index the element at i is exchanged with, if it has a peer on that side. */
  function Target(ties: seq<string>, i: nat, d: Direction): (t: Option<nat>)
    requires i < |ties|
    ensures t.Some? ==> t.value < |ties| && ties[t.value] == ties[i]
  {
    var peers := PeerIndexes(ties, ties[i], |ties|);
    var p := Position(peers, i) + Stride(d);
    if 0 <= p < |peers| then Some(peers[p]) else None
  }

  ghost predicate OnSide(i: nat, k: nat, d: Direction) {
    if d == Later then i < k else k < i
  }

  /** The target is the nearest peer on that side; there is none only if no peer lies there. */
  lemma TargetIsNearest(ties: seq<string>, i: nat, d: Direction)
    requires i < |ties|
    ensures var t := Target(ties, i, d);
      if t.None? then forall k: nat :: k < |ties| && OnSide(i, k, d) ==> ties[k] != ties[i]
      else OnSide(i, t.value, d) &&
           forall k: nat :: OnSide(i, k, d) && OnSide(k, t.value, d) ==> ties[k] != ties[i]
  {
    var peers := PeerIndexes(ties, ties[i], |ties|);
    var p := Position(peers, i);
    var q := p + Stride(d);
    forall k: nat | k < |ties| && OnSide(i, k, d) && ties[k] == ties[i]
      ensures 0 <= q < |peers| && (k == peers[q] || OnSide(peers[q], k, d))
    {
      assert k in peers;
      var a :| 0 <= a < |peers| && peers[a] == k;
      assert if d == Later then a >= q else a <= q;
    }
  }

  lemma TargetOfTarget(ties: seq<string>, i: nat, d: Direction)
    requires i < |ties| && Target(ties, i, d).Some?
    ensures Target(ties, Target(ties, i, d).value, Opposite(d)) == Some(i)
  {
    var j := Target(ties, i, d).value;
    TargetIsNearest(ties, i, d);
    TargetIsNearest(ties, j, Opposite(d));
    assert OnSide(j, i, Opposite(d));
  }

  function Move<T>(xs: seq<T>, ties: seq<string>, i: nat, d: Direction): (r: seq<T>)
    requires i < |xs| == |ties|
    ensures |r| == |xs|
  {
    match Target(ties, i, d)
    case None => xs
    case Some(j) => Swap(xs, i, j)
  }

  /** Different elements are tied exactly when they share a key that is set. */
  ghost predicate TiesFollowKeys(keys: seq<string>, ties: seq<string>) {
    && |keys| == |ties|
    && forall i, j :: 0 <= i < j < |keys| ==> (ties[i] == ties[j] <==> keys[i] == keys[j] != "")
  }

  lemma MoveTransposes<T>(xs: seq<T>, keys: seq<string>, ties: seq<string>, i: nat, d: Direction) returns (p: nat)
    requires |xs| == |keys| && TiesFollowKeys(keys, ties) && i < |xs|
    requires Target(ties, i, d).Some?
    ensures p + 1 < |xs| && Sorted(xs, keys)[if d == Later then p else p + 1] == xs[i]
    ensures Sorted(Move(xs, ties, i, d), keys) == Swap(Sorted(xs, keys), p, p + 1)
  {
    hide Target;
    var j := Target(ties, i, d).value;
    TargetIsNearest(ties, i, d);
    var a, b := if d == Later then i else j, if d == Later then j else i;
    assert forall k: nat :: a < k < b ==> OnSide(i, k, d) && OnSide(k, j, d);
    assert Swap(xs, i, j) == Swap(xs, a, b);
    p := SwapTransposesNeighbours(xs, keys, a, b);
  }
}
