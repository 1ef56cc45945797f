/**
 * `get_mode` of chapt8: count every element of a vector in a hash map, then
 * walk the map keeping the key with the largest count seen so far.
 */
module Mode {
  import opened Ints

  /** How often `x` occurs in `v`. */
  function Occurrences(v: seq<i32>, x: i32): nat
  {
    multiset(v)[x]
  }

  /** `m` is a mode of `v`: an element of `v` that no other element outnumbers. */
  ghost predicate IsMode(v: seq<i32>, m: i32)
  {
    m in v && forall x :: x in v ==> Occurrences(v, x) <= Occurrences(v, m)
  }

  /**
   * `get_mode`. The source indexes `vec[0]` after the counting loop, so an
   * empty vector panics. The map is iterated in an unspecified order, so
   * which of several equally frequent elements comes out is left open.
   */
  method GetMode(v: seq<i32>) returns (res: i32)
    requires |v| > 0
    ensures IsMode(v, res)
  {
    var counts: map<i32, int> := map[];
    for i := 0 to |v|
      invariant counts.Keys == set x | x in v[..i]
      invariant forall x :: x in counts ==> counts[x] == Occurrences(v[..i], x)
    {
      var el := v[i];
      var count := if el in counts then counts[el] else 0;
      counts := counts[el := count + 1];
      assert v[..i + 1] == v[..i] + [el];
    }
    assert v[..|v|] == v;

    var max := 0;
    res := v[0];
    var visited: set<i32> := {};
    while visited != counts.Keys
      invariant visited <= counts.Keys
      invariant res in v
      invariant forall k :: k in visited ==> counts[k] <= max
      invariant max == 0 || (res in counts && counts[res] == max)
      invariant visited != {} ==> max > 0
      decreases |counts.Keys - visited|
    {
      var key :| key in counts.Keys - visited;
      if counts[key] > max {
        max := counts[key];
        res := key;
      }
      visited := visited + {key};
    }
    assert v[0] in counts;
  }

  /** When one element occurs strictly more often than every other, it is the only mode. */
  lemma StrictMaximumIsTheMode(v: seq<i32>, m: i32, x: i32)
    requires m in v
    requires forall y :: y in v && y != m ==> Occurrences(v, y) < Occurrences(v, m)
    requires IsMode(v, x)
    ensures x == m
  {
  }

  /** Every non-empty vector has a mode. */
  lemma {:induction false} ModeExists(v: seq<i32>)
    requires |v| > 0
    ensures exists m :: IsMode(v, m)
    decreases |v|
  {
    if |v| == 1 {
      assert IsMode(v, v[0]);
    } else {
      ModeExists(v[1..]);
      var m :| IsMode(v[1..], m);
      assert v == [v[0]] + v[1..];
      if Occurrences(v, v[0]) > Occurrences(v, m) {
        assert IsMode(v, v[0]);
      } else {
        assert IsMode(v, m);
      }
    }
  }

  /** The example of `main`: the mode of [2, 4, 5, 6, 7, 7] is 7. */
  method MainExample() returns (mode: i32)
    ensures mode == 7
  {
    var input: seq<i32> := [2, 4, 5, 6, 7, 7];
    mode := GetMode(input);
    assert Occurrences(input, 7) == 2;
    assert forall y :: y in input && y != 7 ==> Occurrences(input, y) == 1;
  }
}
