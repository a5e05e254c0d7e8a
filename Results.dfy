/** ResultManager: the running score. Each submitted die result is added to
    a running sum held in a C# int, and both the result and the new sum are
    pushed to their displays. */
module Results {
  import opened Geometry

  const TwoTo31: int := 0x8000_0000
  const TwoTo32: int := 0x1_0000_0000

  /** A C# int. */
  type Int32 = x: int | -0x8000_0000 <= x < 0x8000_0000

  /** The value a C# int holds when unchecked arithmetic produces x: x
      reduced modulo 2^32 into the signed range. */
  function Wrap32(x: int): (r: Int32)
    ensures -TwoTo31 <= x < TwoTo31 ==> r == x
  {
    ((x + TwoTo31) % TwoTo32) - TwoTo31
  }

  lemma ModSubMultiple(y: int, q: int)
    ensures (y - TwoTo32 * q) % TwoTo32 == y % TwoTo32
  {
    var d, r := y / TwoTo32, y % TwoTo32;
    assert y - TwoTo32 * q == TwoTo32 * (d - q) + r;
  }

  /** Wrapping an intermediate sum does not change the wrapped total. */
  lemma WrapAdd(a: int, b: int)
    ensures Wrap32(Wrap32(a) + b) == Wrap32(a + b)
  {
    var q := (a + TwoTo31) / TwoTo32;
    assert Wrap32(a) == a - TwoTo32 * q;
    ModSubMultiple(a + b + TwoTo31, q);
  }

  /** The mathematical total of the submitted results. */
  function Total(results: seq<Int32>): int {
    if results == [] then 0 else Total(results[..|results| - 1]) + results[|results| - 1]
  }

  /** The sum field after the results were added one at a time, from 0. */
  function RunningSum(results: seq<Int32>): Int32 {
    if results == [] then 0 else Wrap32(RunningSum(results[..|results| - 1]) + results[|results| - 1])
  }

  /** After any sequence of submissions the sum field holds the total of all
      submitted results, reduced into the int range. */
  lemma {:induction false} RunningSumIsWrappedTotal(results: seq<Int32>)
    ensures RunningSum(results) == Wrap32(Total(results))
  {
    if results != [] {
      var front, last := results[..|results| - 1], results[|results| - 1];
      RunningSumIsWrappedTotal(front);
      WrapAdd(Total(front), last);
    }
  }

  /** As long as the total fits in an int, the sum field is exactly the total. */
  lemma RunningSumIsTotal(results: seq<Int32>)
    requires -TwoTo31 <= Total(results) < TwoTo31
    ensures RunningSum(results) == Total(results)
  {
    RunningSumIsWrappedTotal(results);
  }

  class ResultManager {
    /** The _currenRollSum field. */
    var currentRollSum: Int32
    /** Every result submitted so far, in order. */
    ghost var submitted: seq<Int32>
    /** The last value pushed to each display (None before the first push). */
    ghost var currentResultDisplay: Option<int>
    ghost var resultSumDisplay: Option<int>

    ghost predicate Valid()
      reads this
    {
      currentRollSum == RunningSum(submitted)
    }

    constructor ()
      ensures Valid()
      ensures currentRollSum == 0 && submitted == []
      ensures currentResultDisplay == None && resultSumDisplay == None
    {
      currentRollSum := 0;
      submitted := [];
      currentResultDisplay := None;
      resultSumDisplay := None;
    }

    /** Adds a result to the running sum (with int wrap-around), shows the
        result on the current display and the new sum on the sum display. */
    method AddDiceResult(result: Int32)
      requires Valid()
      modifies this
      ensures Valid()
      ensures submitted == old(submitted) + [result]
      ensures currentRollSum == Wrap32(old(currentRollSum) + result)
      ensures currentResultDisplay == Some(result)
      ensures resultSumDisplay == Some(currentRollSum as int)
    {
      currentRollSum := Wrap32(currentRollSum + result);
      submitted := submitted + [result];
      assert submitted[..|submitted| - 1] == old(submitted);
      currentResultDisplay := Some(result);
      resultSumDisplay := Some(currentRollSum as int);
    }
  }
}
