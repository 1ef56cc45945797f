# Rust book exercises, modelled in Dafny

The repository is a set of separate exercises from an introductory Rust
course. This project models the ones whose behaviour can be stated exactly,
each in its own module:

- `Closure` (chapt13/closure): the memoizing cache `Cacher`. It holds a
  computation and a hash map. `value(arg)` returns the stored value, or runs
  the computation once, stores the result and returns it. It is a class with a
  map field and a ghost counter of computations. `Lookup` is the pure reading of one call. `Replay` folds it over a
  sequence of calls, and the lemmas about sequences of calls are stated on it.
- `Iterators` (chapt13/iterators): the iterator `Counter`. It yields 1 to 5 and
  then `None` forever. It is a class whose `Next` changes its `u32` field.
  `NextStep` and `Items` are the pure reading used by the lemmas.
- `Minigrep` (chapt12/minigrep): `Config::new` as a function of the command
  line and of whether `CASE_INSENSITIVE` is set. `search` and
  `search_case_insensitive` filter the lines of a text.
- `RustStr`: the standard-library string operations that minigrep and chapt9
  rely on. These are `str::lines`, `str::contains` and `to_lowercase`.
- `Mode` (chapt8): `get_mode`, a counting loop over a hash map followed by a
  loop that picks the key with the largest count.
- `Slice` (chapt4): `first_word`, a loop over the bytes of a string.
- `Panic` (chapt9): `last_char_of_first_line`.
- `Fibonacci` (chapt3/exercise): `nth_fibonacci` on `i32`, and the while-loop
  version that the file keeps as a comment.
- `Rectangles` (chapt5/rectangles), `PlusOne` (chapt6), `Adder` (chapt11).

`Ints` declares `i32`, `u32` and `byte` as newtypes. Dafny checks every
operation on them against the type's range. That is how the model captures
Rust's overflow panic in a debug build: each operation that could overflow
has a precondition that rules the overflow out. `Wrappers` declares `Option`
and `Result`.

`str::lines` follows the standard library's documentation. Lines end at
`'\n'`, and a `'\r'` directly before that `'\n'` is dropped. A final line
ending adds no empty line. A `'\r'` at the very end of the text stays in the
last line. Rust releases before 1.77 dropped that last `'\r'` too.

The minigrep tests write their text as one string literal. The model builds
the same text from its lines (`TestContents`).

The commented-out loop version of `nth_fibonacci` returns 1 for `n <= 0`,
where the recursive version returns 0. It agrees with the recursive version
for `n >= 1`. Its first test, `n - 1 > 0`, would itself overflow for
`n == i32::MIN`. That is why `NthFibonacciLoop` requires `n > i32::MIN`.

## Model

| member | source | states |
|---|---|---|
| `Closure.Lookup` | chapt13/closure/src/main.rs:36-45 | The computation runs exactly when the argument is not cached. On a consistent cache the answer is the computation's value and the cache stays consistent. The keys become the old keys plus the argument, and every old entry keeps its value. |
| `Closure.Cacher.constructor` | chapt13/closure/src/main.rs:29-34 | `new` keeps the given computation and starts with an empty map and no computations. |
| `Closure.Cacher.Value` | chapt13/closure/src/main.rs:36-45 | `value(arg)` returns `calculation(arg)`. On a hit the map and the counter are unchanged. On a miss the map gains exactly `arg ↦ calculation(arg)` and the counter grows by one. Old entries are never removed or overwritten. The key set grows by exactly `arg`. The invariant "every entry is the computation's value, and the count of computations equals the number of keys" is kept. |
| `Closure.ReplayAnswers` | chapt13/closure/src/main.rs:36-45 | Over any sequence of calls, every answer is the computation's value for that argument. |
| `Closure.ReplayGrows` | chapt13/closure/src/main.rs:36-45 | Over any sequence of calls, the key set only grows, by exactly the queried arguments. No old entry changes. |
| `Closure.ReplayComputations` | chapt13/closure/src/main.rs:37-43 | Over any sequence of calls, the computation runs once for each distinct argument that was not cached yet. |
| `Closure.CountsDistinctArguments` | chapt13/closure/src/main.rs:29-45 | From a new cache, the number of computations equals the number of distinct arguments queried. The final map sends each of them to its computed value. |
| `Closure.QueryTwice` | chapt13/closure/src/main.rs:37-43 | Asking twice for the same argument gives the same answer both times. The computation runs once. |
| `Closure.CallWithDifferentValues` | chapt13/closure/src/main.rs:70-79 | With the identity computation, `value(1)` is 1 and then `value(2)` is 2. |
| `Iterators.Counter.constructor` | chapt13/iterators/src/lib.rs:7-9 | A new counter's value is 0. |
| `Iterators.Counter.Next` | chapt13/iterators/src/lib.rs:15-22 | Below 5, `next` adds one to the value and returns `Some` of the new value. At 5 or more, it returns `None` and leaves the value unchanged. The bound `value <= 5` is preserved. |
| `Iterators.NextStep` | chapt13/iterators/src/lib.rs:15-22 | The same step as a function of the old value, including the preserved bound. |
| `Iterators.ItemsAt` | chapt13/iterators/src/lib.rs:15-22 | From any value `v`, the `i`-th call returns `Some(v + i + 1)` while that stays within 5, and `None` after that. |
| `Iterators.Fused` | chapt13/iterators/src/lib.rs:16-21 | Once a call returns `None`, every later call returns `None` too. |
| `Iterators.FiltersBySize` | chapt13/iterators/src/lib.rs:29-39 | Six calls on a new counter return `Some(1)` through `Some(5)` and then `None`. |
| `Iterators.Yielded` | chapt13/iterators/src/lib.rs:15-22 | The values `next` yields before its first `None` are `v + 1` up to 5. |
| `Iterators.Zip` | chapt13/iterators/src/lib.rs:43-44 | `zip` pairs the two sequences position by position and stops at the shorter one. |
| `Iterators.SumProductsDivisibleBy3` | chapt13/iterators/src/lib.rs:46-50 | No contract of its own: the `map`, `filter` and `sum` steps as a function. The value it gives for the test is stated by `Iterators.UsingOtherIteratorTraitMethods`. |
| `Iterators.UsingOtherIteratorTraitMethods` | chapt13/iterators/src/lib.rs:41-52 | Zipping the counter with itself shifted by one, multiplying each pair and keeping the multiples of 3 sums to 18. |
| `Minigrep.NewConfig` | chapt12/minigrep/src/lib.rs:15-31 | The program name is skipped. Without a query the result is `Err("Didn't get a query string")`. Without a file name it is `Err("Didn't get a filename")`. Otherwise it is `Ok` with the next two arguments. Case sensitivity is "the third argument is not `--insensitive`", or "`CASE_INSENSITIVE` is unset" when there is no third argument. |
| `Minigrep.ExtraArgumentsIgnored` | chapt12/minigrep/src/lib.rs:26-29 | Arguments after the case flag do not change the result. |
| `Minigrep.ParseCommandLine` | chapt12/minigrep/src/lib.rs:15-31 | Parsing the command line written for a configuration gives that configuration back. |
| `Minigrep.Filter` | chapt12/minigrep/src/lib.rs:71 | No contract of its own: `filter().collect()` over lines, as used at lib.rs:71 and lib.rs:75-78. Its meaning is stated by `Minigrep.FilterCharacterised` and `Minigrep.FilterWeaker`. |
| `Minigrep.FilterCharacterised` | chapt12/minigrep/src/lib.rs:71 | `filter().collect()` gives a subsequence of the lines. Each line that passes appears as often as in the input, and no other line appears. |
| `Minigrep.Search` | chapt12/minigrep/src/lib.rs:70-72 | `search` returns exactly the lines of `contents` that contain the query, in their original order and with their multiplicity. |
| `Minigrep.SearchCaseInsensitive` | chapt12/minigrep/src/lib.rs:74-78 | `search_case_insensitive` returns exactly the lines whose lowercase form contains the lowercase query, in order and with their multiplicity. |
| `Minigrep.FilterWeaker` | chapt12/minigrep/src/lib.rs:71 | A stricter filter keeps a subsequence of what a looser filter keeps. |
| `Minigrep.SensitiveWithinInsensitive` | chapt12/minigrep/src/lib.rs:70-78 | Every line that `search` finds, `search_case_insensitive` also finds, in the same order. |
| `Minigrep.QueryCaseIrrelevant` | chapt12/minigrep/src/lib.rs:74-78 | The case-insensitive search gives the same result for a query and for its lowercase form. |
| `Minigrep.CaseSensitiveExample` | chapt12/minigrep/src/lib.rs:85-95 | `search("duct", …)` returns only "safe, fast, productive."; "Duct tape." is left out because of case. |
| `Minigrep.CaseInsensitiveExample` | chapt12/minigrep/src/lib.rs:97-110 | `search_case_insensitive("rUsT", …)` returns "Rust:" and "Trust me.". |
| `RustStr.NewlineIndex` | chapt12/minigrep/src/lib.rs:71 | Returns the position of the first `'\n'`, or the length of the text when it has none. |
| `RustStr.Lines` | chapt12/minigrep/src/lib.rs:71 | `str::lines` gives no lines exactly when the text is empty. Its other properties are the `Lines*`, `FirstLine`, `FinalLineEndingOptional` and `FinalCrLfOptional` lemmas. It is also used at chapt9/panic/src/main.rs:11. |
| `RustStr.LinesHaveNoNewline` | chapt12/minigrep/src/lib.rs:71 | No line produced by `lines()` holds a `'\n'`. |
| `RustStr.FirstLine` | chapt9/panic/src/main.rs:11 | The first line is the text up to the first `'\n'`, without the `'\r'` of a `"\r\n"` ending. It is the whole text when there is no `'\n'`. |
| `RustStr.LinesCons` | chapt12/minigrep/src/lib.rs:71 | A line ended by `'\n'` is split off the front, and the rest is split the same way. |
| `RustStr.FinalLineEndingOptional` | chapt12/minigrep/src/lib.rs:71 | Adding a final `'\n'` to a text whose last line is not yet ended gives the same lines. |
| `RustStr.FinalCrLfOptional` | chapt12/minigrep/src/lib.rs:71 | Adding a final `"\r\n"` to a non-empty text that does not end in `'\n'` gives the same lines. This holds even when the text ends in `'\r'`. |
| `RustStr.LinesUnlines` | chapt12/minigrep/src/lib.rs:71 | `lines()` recovers a list of lines joined with `'\n'`, provided each line has no `'\n'` and does not end in `'\r'`. |
| `RustStr.Contains` | chapt12/minigrep/src/lib.rs:71 | No contract of its own: `str::contains` says that the pattern occurs at some position. It is also used at lib.rs:77. `RustStr.ContainsLowercase` and the minigrep examples state its properties. |
| `RustStr.ToLowercase` | chapt12/minigrep/src/lib.rs:77 | The result has the input's length, and each character is that character lowercased (ASCII letters only). `RustStr.LowercaseIdempotent` and `RustStr.ContainsLowercase` state its properties. |
| `RustStr.ContainsLowercase` | chapt12/minigrep/src/lib.rs:77 | If a line contains the query, its lowercase form contains the lowercase query. |
| `RustStr.LowercaseIdempotent` | chapt12/minigrep/src/lib.rs:77 | Lowercasing twice gives the same result as lowercasing once. |
| `Mode.GetMode` | chapt8/test.rs:14-33 | For a non-empty vector, the result is an element of the vector. No element occurs more often than it. The loop invariants say that the map holds each element's occurrence count with no other keys, and that `max` is the largest count seen with `res` having that count. |
| `Mode.ModeExists` | chapt8/test.rs:14-33 | Every non-empty vector has an element that no other element outnumbers. |
| `Mode.StrictMaximumIsTheMode` | chapt8/test.rs:25-30 | When one element occurs strictly more often than all others, it is the only possible result. |
| `Mode.MainExample` | chapt8/test.rs:5-12 | The mode of [2, 4, 5, 6, 7, 7] is 7. |
| `Slice.FirstWord` | chapt4/slice.rs:10-20 | The result is a prefix of the string and holds no space. When it is shorter than the string, the next byte is a space. A string without a space is returned whole. An empty string, or one that starts with a space, gives the empty word. |
| `Slice.MainExample` | chapt4/slice.rs:1-8 | The first word of "tom goes to school" is "tom". |
| `Panic.LastCharOfFirstLine` | chapt9/panic/src/main.rs:10-12 | The result is `None` exactly when the text is empty or starts with `"\n"` or `"\r\n"`. Otherwise it is a character of the first line and never `'\n'`. |
| `Panic.EndedLine` | chapt9/panic/src/main.rs:11 | For a text with a line ending, the result is the last character of the first line, with the `'\r'` of a `"\r\n"` ending not counted. It is `None` when that line is empty. |
| `Panic.UnendedLine` | chapt9/panic/src/main.rs:11 | For a text without `'\n'`, the result is the text's last character, a final `'\r'` included. |
| `Panic.FirstLineOnly` | chapt9/panic/src/main.rs:11 | The characters after the first `'\n'` never affect the result. |
| `Panic.MainExample` | chapt9/panic/src/main.rs:1-2 | The result for "asd\nhi" is `Some('d')`. |
| `Fibonacci.NthFibonacci` | chapt3/exercise/src/main.rs:30-41 | For `n <= 46` the `i32` result is the Fibonacci number F(n) for `n >= 0`, and 0 for `n < 0`. This includes the early return for 5, which gives what the recursion would. |
| `Fibonacci.FibI32Limit` | chapt3/exercise/src/main.rs:39 | F(46) fits in an `i32` and F(47) does not. |
| `Fibonacci.OverflowAt47` | chapt3/exercise/src/main.rs:39 | At `n = 47` the final addition exceeds `i32::MAX`, so 46 is the largest argument that does not panic. |
| `Fibonacci.TestNthFibonacci` | chapt3/exercise/src/main.rs:5-14 | The values for n = 1 to 8 are 1, 1, 2, 3, 5, 8, 13, 21. |
| `Fibonacci.FibMonotonic` | chapt3/exercise/src/main.rs:38-40 | The Fibonacci numbers never decrease. |
| `Fibonacci.NthFibonacciLoop` | chapt3/exercise/src/main.rs:16-28 | The loop version returns F(n) for `n >= 1`, so it agrees with the recursive version there. It returns 1 for `n <= 0`. |
| `Rectangles.Area` | chapt5/rectangles/src/main.rs:72-74 | `area` is width times height. It requires the product to fit in a `u32`. |
| `Rectangles.Square` | chapt5/rectangles/src/main.rs:80-85 | `square(size)` has width and height both equal to `size`. |
| `Rectangles.CanHold` | chapt5/rectangles/src/main.rs:76-78 | No contract of its own: `can_hold` is strictly wider and strictly taller. Its properties are the `CanHold*` lemmas below. |
| `Rectangles.SquareArea` | chapt5/rectangles/src/main.rs:72-85 | A square's area is its side squared. |
| `Rectangles.CanHoldIrreflexive` | chapt5/rectangles/src/main.rs:76-78 | No rectangle can hold itself. |
| `Rectangles.CanHoldAsymmetric` | chapt5/rectangles/src/main.rs:76-78 | Two rectangles never hold each other. |
| `Rectangles.CanHoldTransitive` | chapt5/rectangles/src/main.rs:76-78 | `can_hold` is transitive. |
| `Rectangles.CanHoldLargerArea` | chapt5/rectangles/src/main.rs:72-78 | A rectangle that holds another has a strictly larger area, and the smaller area cannot overflow. |
| `Rectangles.MainExample` | chapt5/rectangles/src/main.rs:88-111 | A 30×50 rectangle has area 1500 and cannot hold a 70×40 one. `square(3)` is 3×3. |
| `PlusOne.PlusOne` | chapt6/plus_one.rs:9-14 | The result is `Some` exactly when the input is, and then it holds the input's value plus one. The value must be below `i32::MAX`. |
| `PlusOne.PlusOneInjective` | chapt6/plus_one.rs:9-14 | Different inputs give different results. |
| `PlusOne.MainExample` | chapt6/plus_one.rs:1-7 | `Some(5)` gives `Some(6)`, and `None` gives `None`. |
| `Adder.AddTwo` | chapt11/adder/src/lib.rs:1-3 | The result is the argument plus two. The argument must be at most `i32::MAX - 2`. |
| `Adder.AddTwoIncreasing` | chapt11/adder/src/lib.rs:1-3 | `add_two` is strictly increasing. |
| `Adder.ItWorks` | chapt11/adder/src/lib.rs:9-17 | `add_two(2)` is 4. |

## Left out

- `run` and `main.rs` of minigrep: reading a file, `env::args` and printing are I/O. The environment lookup that `Config::new` makes becomes a boolean parameter of `NewConfig`. That parameter is true when `env::var("CASE_INSENSITIVE")` succeeds, so a variable whose value is not valid Unicode counts as unset, as in the source.
- `generate_workout` and `main` of chapt13/closure: printing and `thread::sleep`.
- `print_option` and every `main` function: they only print. The values that the `main` functions compute are checked by the `MainExample` members.
- `Closure.Cacher`: the computation is a Dafny total function, so it is pure and cannot fail. A computation that panics, and the rule that no entry is stored after a failure, are not modelled. Rust's `Copy` bounds on keys and values are not modelled, and neither is `HashMap` hashing, which is replaced by Dafny's `map`.
- `RustStr.ToLowercase`: only the ASCII letters A to Z are lowercased. Full Unicode case mapping is context-sensitive and changes string lengths, so it is not modelled.
- `Iterators.SumProductsDivisibleBy3`: it computes on unbounded integers. The source multiplies and sums in `u32`, which could overflow only for values far above the counter's bound of 5.
- `Mode.GetMode`: the counts are unbounded integers. The source's `i32` counter could overflow only for a vector with more than `i32::MAX` elements. Which of several equally frequent elements is returned depends on the hash map's iteration order; the model leaves that choice open.
- `Slice.FirstWord`: a string is its UTF-8 bytes. Slicing at a space is always on a character boundary, so the byte-level result is the `&str` result.
- The strings in the minigrep tests are built from their lines rather than written as one literal.
- `Iterators.UsingOtherIteratorTraitMethods`: the lazy `zip`, `skip`, `map`, `filter` and `sum` adaptors are modelled as functions on the finished sequence of yielded values.
- playground/src/main.rs (`merge_two_lists`): the merge is unfinished and commented out, so there is no behaviour to model.
- test.rs, chapt3/variables, chapt2/guessing_game, chapt5/test.rs, chapt6/test.rs and chapt15/drop: these are floating-point, I/O and language-feature demonstrations with no stated result.
