/** The list operation at the heart of classify_mood.py: appending an element
    only when it is not there yet (`if x not in l: l.append(x)`), and the
    order-preserving de-duplication it amounts to (also pandas' `unique`). */
module MoodLists {
  import opened Dict

  /** `l` after `if x not in l: l.append(x)`. */
  function AppendAbsent<T(==)>(l: seq<T>, x: T): seq<T>
  {
    if x in l then l else l + [x]
  }

  /** `l` after appending-if-absent every element of `xs` in order. */
  function Deduped<T(==)>(l: seq<T>, xs: seq<T>): seq<T>
  {
    if xs == [] then l else AppendAbsent(Deduped(l, xs[..|xs| - 1]), xs[|xs| - 1])
  }

  /** Going through `x + y` is going through `x`, then `y`. */
  lemma {:induction false} DedupedAppend<T>(l: seq<T>, x: seq<T>, y: seq<T>)
    ensures Deduped(l, x + y) == Deduped(Deduped(l, x), y)
  {
    if y != [] {
      assert (x + y)[..|x + y| - 1] == x + y[..|y| - 1];
      DedupedAppend(l, x, y[..|y| - 1]);
    } else {
      assert x + y == x;
    }
  }

  /** The start list stays in front, an element is in the result exactly when
      it was in the start list or in `xs`, no element is repeated when the
      start list has none, and the result is no longer than both together. */
  lemma {:induction false} DedupedContents<T>(l: seq<T>, xs: seq<T>)
    ensures |Deduped(l, xs)| >= |l| && Deduped(l, xs)[..|l|] == l
    ensures forall z :: z in Deduped(l, xs) <==> z in l || z in xs
    ensures Distinct(l) ==> Distinct(Deduped(l, xs))
    ensures |Deduped(l, xs)| <= |l| + |xs|
  {
    if xs != [] {
      var init := xs[..|xs| - 1];
      DedupedContents(l, init);
      var d := Deduped(l, init);
      assert xs == init + [xs[|xs| - 1]];
      if xs[|xs| - 1] !in d {
        assert (d + [xs[|xs| - 1]])[..|l|] == d[..|l|];
      }
    }
  }

  /** Position of the first occurrence of `z` in `xs`. */
  function IndexOf<T(==)>(xs: seq<T>, z: T): (i: nat)
    requires z in xs
    ensures i < |xs| && xs[i] == z && z !in xs[..i]
  {
    if xs[0] == z then 0
    else
      assert xs[1..][..IndexOf(xs[1..], z)] == xs[..IndexOf(xs[1..], z) + 1][1..];
      1 + IndexOf(xs[1..], z)
  }

  /** Starting from the empty list, elements come out in the order of their
      first occurrence in `xs`. */
  lemma {:induction false} DedupedOrder<T>(xs: seq<T>)
    ensures forall i, j :: 0 <= i < j < |Deduped([], xs)| ==>
      Deduped([], xs)[i] in xs && Deduped([], xs)[j] in xs &&
      IndexOf(xs, Deduped([], xs)[i]) < IndexOf(xs, Deduped([], xs)[j])
  {
    if xs != [] {
      var init := xs[..|xs| - 1];
      var x := xs[|xs| - 1];
      DedupedOrder(init);
      DedupedContents([], init);
      var d := Deduped([], init);
      assert xs == init + [x];
      var dd := Deduped([], xs);
      forall i, j | 0 <= i < j < |dd|
        ensures dd[i] in xs && dd[j] in xs && IndexOf(xs, dd[i]) < IndexOf(xs, dd[j])
      {
        assert dd[i] == d[i];
        assert d[i] in init;
        IndexOfPrefix(init, [x], d[i]);
        if j < |d| {
          assert dd[j] == d[j];
          assert d[j] in init;
          IndexOfPrefix(init, [x], d[j]);
          assert IndexOf(init, d[i]) < IndexOf(init, d[j]);
        } else {
          assert dd[j] == x && x !in init;
          assert xs[|init|] == x && xs[..|init|] == init;
          assert IndexOf(xs, x) == |init|;
        }
      }
    } else {
      assert Deduped([], xs) == [];
    }
  }

  /** Extending a sequence does not move the first occurrence of an element it had. */
  lemma IndexOfPrefix<T>(xs: seq<T>, ys: seq<T>, z: T)
    requires z in xs
    ensures z in xs + ys && IndexOf(xs + ys, z) == IndexOf(xs, z)
  {
    var i := IndexOf(xs, z);
    assert (xs + ys)[..i] == xs[..i];
    var k := IndexOf(xs + ys, z);
    if i < k {
      OccursBefore(xs + ys, z, i, k);
    } else if k < i {
      OccursBefore(xs, z, k, i);
    }
  }

  /** An occurrence at `i` is inside every prefix longer than `i`. */
  lemma OccursBefore<T>(s: seq<T>, z: T, i: nat, k: nat)
    requires i < k <= |s| && s[i] == z
    ensures z in s[..k]
  {
    assert s[..k][i] == z;
  }
}
