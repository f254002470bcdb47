/**
 * The positions a filtering loop keeps: `for ($i = 0; $i < $n; $i++) if (keep($i)) ...`
 * visits `0 .. n-1` in order and acts on those that pass. Stating a loop's
 * output against these positions says it acts on exactly the passing
 * positions, once each, in increasing order.
 */
module Selection {

  /** The positions below `n` that pass `keep`, in increasing order. */
  function Positions(n: nat, keep: nat -> bool): (ps: seq<nat>)
    ensures |ps| <= n
    ensures forall k :: 0 <= k < |ps| ==> ps[k] < n && keep(ps[k])
    ensures forall k1, k2 :: 0 <= k1 < k2 < |ps| ==> ps[k1] < ps[k2]
    ensures forall j :: 0 <= j < n && keep(j) ==> j in ps
  {
    if n == 0 then [] else Positions(n - 1, keep) + (if keep(n - 1) then [n - 1] else [])
  }

  /** A position is kept exactly when it passes. */
  lemma PositionsExactly(n: nat, keep: nat -> bool, j: nat)
    ensures j in Positions(n, keep) <==> j < n && keep(j)
  {
  }

  /** Nothing is kept when nothing passes. */
  lemma {:induction false} PositionsEmpty(n: nat, keep: nat -> bool)
    requires forall j :: 0 <= j < n ==> !keep(j)
    ensures Positions(n, keep) == []
  {
    if n > 0 {
      PositionsEmpty(n - 1, keep);
    }
  }

  /** Appending in two steps is appending once. */
  lemma AppendAssoc<T>(a: seq<T>, b: seq<T>, c: seq<T>)
    ensures (a + b) + c == a + (b + c)
  {
  }

  /** What such a loop collects: the item of every kept position below `n`, in position order. */
  function Kept<T>(n: nat, keep: nat -> bool, item: nat --> T): seq<T>
    requires forall i: nat :: i < n && keep(i) ==> item.requires(i)
  {
    if n == 0 then [] else Kept(n - 1, keep, item) + (if keep(n - 1) then [item(n - 1)] else [])
  }

  /** The collected items are exactly the items of the kept positions: one each, in the same order. */
  lemma {:induction false} KeptExactly<T>(n: nat, keep: nat -> bool, item: nat --> T)
    requires forall i: nat :: i < n && keep(i) ==> item.requires(i)
    ensures |Kept(n, keep, item)| == |Positions(n, keep)|
    ensures forall k :: 0 <= k < |Positions(n, keep)| ==> Kept(n, keep, item)[k] == item(Positions(n, keep)[k])
  {
    if n > 0 {
      KeptExactly(n - 1, keep, item);
      var ps, prev := Positions(n, keep), Positions(n - 1, keep);
      var xs, prevX := Kept(n, keep, item), Kept(n - 1, keep, item);
      if keep(n - 1) {
        assert ps == prev + [n - 1] && xs == prevX + [item(n - 1)];
        forall k | 0 <= k < |ps|
          ensures xs[k] == item(ps[k])
        {
          if k < |prev| {
            assert ps[k] == prev[k] && xs[k] == prevX[k];
          }
        }
      } else {
        assert ps == prev && xs == prevX;
      }
    }
  }
}
