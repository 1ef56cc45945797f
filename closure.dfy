/**
 * The memoizing cache `Cacher` of chapt13/closure: a computation held as a
 * field and a hash map from argument to the value computed for it.
 * `value(arg)` returns the stored value when there is one and otherwise runs
 * the computation once, stores the result and returns it.
 *
 * The computation is a Dafny total function `K -> V`, so it is pure by
 * construction. The ghost field `calls` counts how often it has been run;
 * the invariant ties it to the number of cached arguments.
 */
module Closure {
  import opened Ints

  /** A cache map is consistent with `compute` when every stored value is what `compute` computes. */
  ghost predicate Consistent<K, V>(compute: K -> V, m: map<K, V>)
  {
    forall k :: k in m ==> m[k] == compute(k)
  }

  /** What one call of `value` returns and leaves behind. */
  datatype Step<K, V> = Step(value: V, cache: map<K, V>, computed: bool)

  /**
   * The pure reading of `Cacher::value`: look `arg` up in `m`; on a miss,
   * compute it and insert it.
   */
  function Lookup<K, V>(compute: K -> V, m: map<K, V>, arg: K): (r: Step<K, V>)
    ensures r.computed <==> arg !in m
    ensures Consistent(compute, m) ==> r.value == compute(arg) && Consistent(compute, r.cache)
    ensures r.cache.Keys == m.Keys + {arg}
    ensures forall k :: k in m ==> r.cache[k] == m[k]
    ensures arg !in m ==> r.cache[arg] == compute(arg)
  {
    if arg in m then Step(m[arg], m, false)
    else
      var v := compute(arg);
      Step(v, m[arg := v], true)
  }

  /** The outcome of a sequence of `value` calls. */
  datatype Run<K, V> = Run(values: seq<V>, cache: map<K, V>, computations: nat)

  /** Folds `Lookup` over `args`, starting from the cache `m`. */
  function Replay<K, V>(compute: K -> V, m: map<K, V>, args: seq<K>): Run<K, V>
    decreases |args|
  {
    if args == [] then Run([], m, 0)
    else
      var s := Lookup(compute, m, args[0]);
      var rest := Replay(compute, s.cache, args[1..]);
      Run([s.value] + rest.values, rest.cache, rest.computations + (if s.computed then 1 else 0))
  }

  /** The set of distinct arguments in `args`. */
  function Distinct<K>(args: seq<K>): set<K>
  {
    set k | k in args
  }

  lemma DistinctCons<K>(args: seq<K>)
    requires args != []
    ensures Distinct(args) == {args[0]} + Distinct(args[1..])
  {
    forall k | k in Distinct(args) ensures k == args[0] || k in Distinct(args[1..]) {
      var i :| 0 <= i < |args| && args[i] == k;
      if i > 0 { assert args[1..][i - 1] == k; }
    }
  }

  /**
   * Over any sequence of queries on a consistent cache every answer is the
   * computation's value, and the cache stays consistent.
   */
  lemma {:induction false} ReplayAnswers<K, V>(compute: K -> V, m: map<K, V>, args: seq<K>)
    requires Consistent(compute, m)
    ensures |Replay(compute, m, args).values| == |args|
    ensures forall i :: 0 <= i < |args| ==> Replay(compute, m, args).values[i] == compute(args[i])
    ensures Consistent(compute, Replay(compute, m, args).cache)
    decreases |args|
  {
    if args != [] {
      var s := Lookup(compute, m, args[0]);
      ReplayAnswers(compute, s.cache, args[1..]);
      var r := Replay(compute, m, args);
      var rest := Replay(compute, s.cache, args[1..]);
      forall i | 0 <= i < |args| ensures r.values[i] == compute(args[i]) {
        if i > 0 { assert r.values[i] == rest.values[i - 1]; }
      }
    }
  }

  /**
   * The cache only grows: it ends up holding exactly the old keys plus the
   * queried ones, and no old entry is changed.
   */
  lemma {:induction false} ReplayGrows<K, V>(compute: K -> V, m: map<K, V>, args: seq<K>)
    ensures Replay(compute, m, args).cache.Keys == m.Keys + Distinct(args)
    ensures forall k :: k in m ==> Replay(compute, m, args).cache[k] == m[k]
    decreases |args|
  {
    if args != [] {
      var s := Lookup(compute, m, args[0]);
      ReplayGrows(compute, s.cache, args[1..]);
      DistinctCons(args);
    }
  }

  /**
   * The computation runs once per distinct queried argument that was not
   * cached yet.
   */
  lemma {:induction false} ReplayComputations<K, V>(compute: K -> V, m: map<K, V>, args: seq<K>)
    ensures Replay(compute, m, args).computations == |Distinct(args) - m.Keys|
    decreases |args|
  {
    if args != [] {
      var s := Lookup(compute, m, args[0]);
      ReplayComputations(compute, s.cache, args[1..]);
      DistinctCons(args);
      NewKeysStep(args[0], Distinct(args[1..]), m.Keys);
    }
  }

  lemma NewKeysStep<K>(a: K, rest: set<K>, known: set<K>)
    ensures a !in known ==> |({a} + rest) - known| == 1 + |rest - (known + {a})|
    ensures a in known ==> ({a} + rest) - known == rest - (known + {a})
  {
    if a !in known {
      var tail := rest - (known + {a});
      assert ({a} + rest) - known == {a} + tail;
      assert a !in tail;
    }
  }

  /** Querying from an empty cache runs the computation exactly once per distinct argument. */
  lemma CountsDistinctArguments<K, V>(compute: K -> V, args: seq<K>)
    ensures Replay(compute, map[], args).computations == |Distinct(args)|
    ensures Replay(compute, map[], args).cache == map k | k in Distinct(args) :: compute(k)
  {
    ReplayAnswers(compute, map[], args);
    ReplayGrows(compute, map[], args);
    ReplayComputations(compute, map[], args);
    assert Distinct(args) - {} == Distinct(args);
  }

  class Cacher<K(==), V> {
    const calculation: K -> V
    var values: map<K, V>
    /** How many times `calculation` has been run. */
    ghost var calls: nat

    ghost predicate Valid()
      reads this
    {
      && Consistent(calculation, values)
      && calls == |values.Keys|
    }

    /** `Cacher::new`: keep the computation, start with an empty map. */
    constructor (calculation: K -> V)
      ensures Valid()
      ensures this.calculation == calculation
      ensures values == map[] && calls == 0
    {
      this.calculation := calculation;
      values := map[];
      calls := 0;
    }

    /**
     * `Cacher::value`: return the cached value of `arg`, computing and
     * inserting it first when it is missing.
     */
    method Value(arg: K) returns (v: V)
      requires Valid()
      modifies this
      ensures Valid()
      ensures v == calculation(arg)
      ensures var s := Lookup(calculation, old(values), arg);
        && v == s.value
        && values == s.cache
        && calls == old(calls) + (if s.computed then 1 else 0)
      ensures arg in old(values) ==> values == old(values) && calls == old(calls)
      ensures arg !in old(values) ==> values == old(values)[arg := v] && calls == old(calls) + 1
      ensures values.Keys == old(values.Keys) + {arg}
      ensures forall k :: k in old(values) ==> k in values && values[k] == old(values)[k]
    {
      if arg in values {
        v := values[arg];
      } else {
        v := calculation(arg);
        values := values[arg := v];
        calls := calls + 1;
      }
    }
  }

  /** The test `call_with_different_values`: an identity cache answers 1 and then 2. */
  method CallWithDifferentValues() returns (v1: u32, v2: u32)
    ensures v1 == 1 && v2 == 2
  {
    var c := new Cacher((a: u32) => a);
    v1 := c.Value(1);
    v2 := c.Value(2);
  }

  /** Asking twice for the same argument runs the computation once and answers the same. */
  method QueryTwice<K(==), V>(compute: K -> V, arg: K) returns (first: V, second: V, ghost runs: nat)
    ensures first == second == compute(arg)
    ensures runs == 1
  {
    var c := new Cacher(compute);
    first := c.Value(arg);
    second := c.Value(arg);
    runs := c.calls;
  }
}
