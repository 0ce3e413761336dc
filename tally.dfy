/**
 * Insertion-ordered count maps: the `by_category` and `by_team` dictionaries
 * of the batch summary. A Python dict keeps its keys in order of first
 * insertion, so it is modelled as a sequence of (key, count) pairs.
 */
module Tally {

  type Tally<K> = seq<(K, nat)>

  /** The keys, in dictionary order. */
  function Keys<K>(t: Tally<K>): (r: seq<K>)
    ensures |r| == |t|
  {
    seq(|t|, i requires 0 <= i < |t| => t[i].0)
  }

  /** `d.get(k, 0)`. */
  function Get<K(==)>(t: Tally<K>, k: K): nat
  {
    if t == [] then 0
    else if t[0].0 == k then t[0].1
    else Get(t[1..], k)
  }

  /** `d[k] = d.get(k, 0) + 1`: bump the entry in place, or append a new one. */
  function Bump<K(==)>(t: Tally<K>, k: K): (r: Tally<K>)
    ensures |r| == |t| || |r| == |t| + 1
  {
    if t == [] then [(k, 1)]
    else if t[0].0 == k then [(k, t[0].1 + 1)] + t[1..]
    else [t[0]] + Bump(t[1..], k)
  }

  /** The sum of the counts: `sum(d.values())`. */
  function Sum<K>(t: Tally<K>): nat
  {
    if t == [] then 0 else t[0].1 + Sum(t[1..])
  }

  /** The dictionary left by bumping every element of `xs`, in order, from empty. */
  function TallyOf<K(==)>(xs: seq<K>): Tally<K>
  {
    if xs == [] then [] else Bump(TallyOf(xs[..|xs| - 1]), xs[|xs| - 1])
  }

  predicate Distinct<K(==)>(s: seq<K>)
  {
    forall i, j :: 0 <= i < j < |s| ==> s[i] != s[j]
  }

  /** Index of the first occurrence of `k` in `xs`. */
  function FirstIndex<K(==)>(xs: seq<K>, k: K): (r: nat)
    requires k in xs
    ensures r < |xs| && xs[r] == k
    ensures forall j :: 0 <= j < r ==> xs[j] != k
  {
    if xs[0] == k then 0 else 1 + FirstIndex(xs[1..], k)
  }

  lemma {:induction false} BumpKeys<K>(t: Tally<K>, k: K)
    ensures Keys(Bump(t, k)) == if k in Keys(t) then Keys(t) else Keys(t) + [k]
  {
    if t != [] {
      assert Keys(t) == [t[0].0] + Keys(t[1..]);
      BumpKeys(t[1..], k);
      if t[0].0 != k {
        assert Keys(Bump(t, k)) == [t[0].0] + Keys(Bump(t[1..], k));
      } else {
        assert Keys(Bump(t, k)) == [k] + Keys(t[1..]);
      }
    }
  }

  lemma {:induction false} BumpGet<K>(t: Tally<K>, k: K, x: K)
    ensures Get(Bump(t, k), x) == Get(t, x) + (if x == k then 1 else 0)
  {
    if t != [] && t[0].0 != k {
      BumpGet(t[1..], k, x);
      assert Bump(t, k)[1..] == Bump(t[1..], k);
    }
  }

  lemma {:induction false} BumpSum<K>(t: Tally<K>, k: K)
    ensures Sum(Bump(t, k)) == Sum(t) + 1
  {
    if t == [] {
      assert Sum([(k, 1)]) == 1 + Sum<K>([]);
    } else if t[0].0 == k {
      assert Bump(t, k)[1..] == t[1..];
    } else {
      BumpSum(t[1..], k);
      assert Bump(t, k)[1..] == Bump(t[1..], k);
    }
  }

  lemma FirstIndexSnoc<K>(xs: seq<K>, y: K, k: K)
    requires k in xs + [y]
    ensures FirstIndex(xs + [y], k) == if k in xs then FirstIndex(xs, k) else |xs|
  {
    var r := FirstIndex(xs + [y], k);
    if k in xs {
      var q := FirstIndex(xs, k);
      assert (xs + [y])[q] == k;
      assert r <= q;
      assert xs[r] == k;
    } else {
      assert forall j :: 0 <= j < |xs| ==> (xs + [y])[j] != k;
    }
  }

  lemma TallyOfSnoc<K>(xs: seq<K>, y: K)
    ensures TallyOf(xs + [y]) == Bump(TallyOf(xs), y)
  {
    assert (xs + [y])[..|xs|] == xs;
  }

  /** Every element of `xs` is counted once: the counts add up to `|xs|`. */
  lemma {:induction false} TallyOfSum<K>(xs: seq<K>)
    ensures Sum(TallyOf(xs)) == |xs|
  {
    if xs != [] {
      var init := xs[..|xs| - 1];
      TallyOfSum(init);
      BumpSum(TallyOf(init), xs[|xs| - 1]);
    }
  }

  /** The count of each key is its number of occurrences in `xs` (0 when absent). */
  lemma {:induction false} TallyOfCounts<K>(xs: seq<K>, k: K)
    ensures Get(TallyOf(xs), k) == multiset(xs)[k]
  {
    if xs != [] {
      var init, y := xs[..|xs| - 1], xs[|xs| - 1];
      assert xs == init + [y];
      TallyOfCounts(init, k);
      BumpGet(TallyOf(init), y, k);
    }
  }

  /** One entry per distinct element of `xs`, and no other. */
  lemma {:induction false} TallyOfKeys<K>(xs: seq<K>)
    ensures Distinct(Keys(TallyOf(xs)))
    ensures forall k :: k in Keys(TallyOf(xs)) <==> k in xs
  {
    if xs != [] {
      var init, y := xs[..|xs| - 1], xs[|xs| - 1];
      assert xs == init + [y];
      TallyOfKeys(init);
      BumpKeys(TallyOf(init), y);
    }
  }

  /** Every key occurs in `xs`, and earlier keys occur first earlier. */
  predicate InFirstOccurrenceOrder<K(==)>(keys: seq<K>, xs: seq<K>)
  {
    (forall k :: k in keys ==> k in xs) &&
    forall i, j :: 0 <= i < j < |keys| && keys[i] in xs && keys[j] in xs ==>
      FirstIndex(xs, keys[i]) < FirstIndex(xs, keys[j])
  }

  /** The entries appear in order of the first occurrence of their key in `xs`. */
  lemma {:induction false} TallyOfOrder<K>(xs: seq<K>)
    ensures InFirstOccurrenceOrder(Keys(TallyOf(xs)), xs)
  {
    if xs != [] {
      var init, y := xs[..|xs| - 1], xs[|xs| - 1];
      assert xs == init + [y];
      TallyOfOrder(init);
      TallyOfKeys(init);
      TallyOfKeys(xs);
      var before := Keys(TallyOf(init));
      BumpKeys(TallyOf(init), y);
      var keys := Keys(TallyOf(xs));
      forall i, j | 0 <= i < j < |keys| && keys[i] in xs && keys[j] in xs
        ensures FirstIndex(xs, keys[i]) < FirstIndex(xs, keys[j])
      {
        FirstIndexSnoc(init, y, keys[i]);
        FirstIndexSnoc(init, y, keys[j]);
        if j == |before| {
          assert keys[j] == y && y !in init;
          assert keys[i] == before[i];
        } else {
          assert keys[i] == before[i] && keys[j] == before[j];
        }
      }
    }
  }
}
