/**
 * The iterator `Counter` of chapt13/iterators: a `u32` field that `next`
 * raises by one while it is below 5, yielding the new value, and after that
 * yields `None` without changing anything.
 */
module Iterators {
  import opened Wrappers
  import opened Ints

  /** The bound after which the counter stops. */
  const Limit: u32 := 5

  /** What one `next` call returns and the value it leaves behind. */
  datatype Step = Step(item: Option<u32>, value: u32)

  /** The pure reading of `Counter::next` on the field value `v`. */
  function NextStep(v: u32): (s: Step)
    ensures v < Limit ==> s.item == Some(v + 1) && s.value == v + 1
    ensures v >= Limit ==> s.item == None && s.value == v
    ensures v <= Limit ==> s.value <= Limit
  {
    if v < Limit then Step(Some(v + 1), v + 1) else Step(None, v)
  }

  /** The items returned by `n` successive `next` calls starting from the value `v`. */
  function Items(v: u32, n: nat): seq<Option<u32>>
    decreases n
  {
    if n == 0 then [] else [NextStep(v).item] + Items(NextStep(v).value, n - 1)
  }

  /**
   * From any value, the `i`-th of `n` calls yields `v + i + 1` as long as that
   * does not pass the limit, and `None` from then on.
   */
  lemma {:induction false} ItemsAt(v: u32, n: nat, i: nat)
    requires i < n
    ensures |Items(v, n)| == n
    ensures Items(v, n)[i] == if v as int + i < Limit as int then Some((v as int + i + 1) as u32) else None
    decreases n
  {
    var s := NextStep(v);
    if i > 0 {
      ItemsAt(s.value, n - 1, i - 1);
      if v < Limit {
        assert s.value as int + (i - 1) == v as int + i;
      }
    } else if n > 1 {
      ItemsAt(s.value, n - 1, 0);
    }
  }

  /** The iterator is fused: once a call returns `None`, every later call does too. */
  lemma {:induction false} Fused(v: u32, n: nat)
    requires NextStep(v).item == None
    ensures Items(v, n) == seq(n, _ => None)
    decreases n
  {
    if n > 0 {
      Fused(v, n - 1);
      assert Items(v, n) == [None] + Items(v, n - 1);
    }
  }

  /** The values `next` yields from the value `v` before its first `None`. */
  function Yielded(v: u32): (r: seq<u32>)
    ensures v <= Limit ==> |r| == (Limit - v) as int
    ensures forall i :: 0 <= i < |r| ==> r[i] as int == v as int + i + 1
    decreases Limit as int - v as int
  {
    var s := NextStep(v);
    if s.item.Some? then [s.item.value] + Yielded(s.value) else []
  }

  /** `a.zip(b)`: pairs up to the shorter length. */
  function Zip(a: seq<u32>, b: seq<u32>): (r: seq<(u32, u32)>)
    ensures |r| == if |a| <= |b| then |a| else |b|
    ensures forall i :: 0 <= i < |r| ==> r[i] == (a[i], b[i])
  {
    if a == [] || b == [] then [] else [(a[0], b[0])] + Zip(a[1..], b[1..])
  }

  /** `.map(|(a, b)| a * b).filter(|x| x % 3 == 0).sum()`, on unbounded integers. */
  function SumProductsDivisibleBy3(pairs: seq<(u32, u32)>): nat
  {
    if pairs == [] then 0
    else
      var p := pairs[0].0 as nat * pairs[0].1 as nat;
      (if p % 3 == 0 then p else 0) + SumProductsDivisibleBy3(pairs[1..])
  }

  /** The test `using_other_iterator_trait_methods`: the sum is 18. */
  lemma UsingOtherIteratorTraitMethods()
    ensures Yielded(0) == [1, 2, 3, 4, 5]
    ensures SumProductsDivisibleBy3(Zip(Yielded(0), Yielded(0)[1..])) == 18
  {
    YieldedFromZero();
    ZipSumExample([1, 2, 3, 4, 5]);
  }

  lemma YieldedFromZero()
    ensures Yielded(0) == [1, 2, 3, 4, 5]
  {
    var ys := Yielded(0);
    assert |ys| == 5;
    assert ys[0] == 1 && ys[1] == 2 && ys[2] == 3 && ys[3] == 4 && ys[4] == 5;
  }

  lemma ZipSumExample(ys: seq<u32>)
    requires ys == [1, 2, 3, 4, 5]
    ensures SumProductsDivisibleBy3(Zip(ys, ys[1..])) == 18
  {
    var pairs: seq<(u32, u32)> := [(1, 2), (2, 3), (3, 4), (4, 5)];
    assert Zip(ys, ys[1..]) == pairs;
    assert SumProductsDivisibleBy3(pairs[3..]) == 0;
    assert SumProductsDivisibleBy3(pairs[2..]) == 12;
    assert SumProductsDivisibleBy3(pairs[1..]) == 18;
  }

  class Counter {
    var value: u32

    /** `Counter::new`. */
    constructor ()
      ensures value == 0
    {
      value := 0;
    }

    /** `Iterator::next` for `Counter`. */
    method Next() returns (item: Option<u32>)
      modifies this
      ensures Step(item, value) == NextStep(old(value))
      ensures old(value) < Limit ==> value == old(value) + 1 && item == Some(value)
      ensures old(value) >= Limit ==> value == old(value) && item == None
      ensures old(value) <= Limit ==> value <= Limit
    {
      if value < Limit {
        value := value + 1;
        item := Some(value);
      } else {
        item := None;
      }
    }
  }

  /** The test `filters_by_size`: a fresh counter yields 1 to 5, then `None`. */
  method FiltersBySize() returns (items: seq<Option<u32>>)
    ensures items == [Some(1), Some(2), Some(3), Some(4), Some(5), None]
  {
    var counter := new Counter();
    items := [];
    for i := 0 to 6
      invariant items == Items(0, i)
      invariant i <= 5 ==> counter.value as int == i
      invariant i > 5 ==> counter.value == Limit
    {
      var item := counter.Next();
      ItemsAt(0, i + 1, i);
      items := items + [item];
      assert items == Items(0, i + 1) by {
        forall j | 0 <= j < i + 1 ensures items[j] == Items(0, i + 1)[j] {
          ItemsAt(0, i + 1, j);
          if j < i { ItemsAt(0, i, j); }
        }
      }
    }
    forall j | 0 <= j < 6 ensures items[j] == [Some(1), Some(2), Some(3), Some(4), Some(5), None][j] {
      ItemsAt(0, 6, j);
    }
  }
}
