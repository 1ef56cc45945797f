/** `plus_one` of chapt6: add one to the value inside an `Option<i32>`. */
module PlusOne {
  import opened Wrappers
  import opened Ints

  /** The `Some` case would overflow (a panic in a debug build) at `i32::MAX`. */
  function PlusOne(num: Option<i32>): (r: Option<i32>)
    requires num.Some? ==> num.value as int < I32_MAX
    ensures r.Some? <==> num.Some?
    ensures r.Some? ==> r.value as int == num.value as int + 1
  {
    match num
    case None => None
    case Some(i) => Some(i + 1)
  }

  /** Different inputs give different outputs. */
  lemma PlusOneInjective(a: Option<i32>, b: Option<i32>)
    requires a.Some? ==> a.value as int < I32_MAX
    requires b.Some? ==> b.value as int < I32_MAX
    requires PlusOne(a) == PlusOne(b)
    ensures a == b
  {
  }

  /** The values of `main`: `Some(5)` becomes `Some(6)` and `None` stays `None`. */
  lemma MainExample()
    ensures PlusOne(Some(5)) == Some(6)
    ensures PlusOne(None) == None
  {
  }
}
