/**
 * src/util/timer.hpp: a sliding window of the most recent frame durations
 * and their average. The clock is not modelled: `End` is handed the
 * measured duration (end - start) in nanoseconds.
 */
module Timer {

  /** The suffix of `s` of length at most `n`: its `n` most recent elements. */
  function Recent(s: seq<nat>, n: nat): seq<nat> {
    if |s| <= n then s else s[|s| - n..]
  }

  function Sum(s: seq<nat>): nat {
    if s == [] then 0 else Sum(s[..|s| - 1]) + s[|s| - 1]
  }

  function Min(s: seq<nat>): nat requires s != [] {
    if |s| == 1 then s[0] else var m := Min(s[..|s| - 1]); if s[|s| - 1] < m then s[|s| - 1] else m
  }

  function Max(s: seq<nat>): nat requires s != [] {
    if |s| == 1 then s[0] else var m := Max(s[..|s| - 1]); if s[|s| - 1] > m then s[|s| - 1] else m
  }

  /** Recording one more duration shifts the window by one element once it is full. */
  lemma {:induction false} RecentAppend(s: seq<nat>, n: nat, d: nat)
    ensures Recent(s + [d], n) ==
      var w := Recent(s, n) + [d]; if |w| > n then w[1..] else w
  {
    var w := Recent(s, n) + [d];
    if |s| + 1 <= n {
    } else if |s| <= n {
      assert |s| + 1 == n + 1;
      assert (s + [d])[|s| + 1 - n..] == w[1..];
    } else {
      assert (s + [d])[|s| + 1 - n..] == w[1..];
    }
  }

  /** The sum of n durations lies between n times the smallest and n times the largest. */
  lemma SumBounds(s: seq<nat>)
    requires s != []
    ensures |s| * Min(s) <= Sum(s) <= |s| * Max(s)
  {
    SumLower(s, Min(s));
    SumUpper(s, Max(s));
  }

  lemma {:induction false} SumLower(s: seq<nat>, m: nat)
    requires s != [] && m <= Min(s)
    ensures |s| * m <= Sum(s)
  {
    if |s| > 1 {
      var init := s[..|s| - 1];
      SumLower(init, m);
      MulSucc(|init|, m);
    }
  }

  lemma {:induction false} SumUpper(s: seq<nat>, m: nat)
    requires s != [] && Max(s) <= m
    ensures Sum(s) <= |s| * m
  {
    if |s| > 1 {
      var init := s[..|s| - 1];
      SumUpper(init, m);
      MulSucc(|init|, m);
    }
  }

  lemma MulSucc(a: nat, b: nat)
    ensures (a + 1) * b == a * b + b
  {
  }

  lemma MulMonotone(n: nat, a: nat, b: nat)
    requires a <= b
    ensures n * a <= n * b
  {
  }

  class Timer {
    var bufferSize: nat
    var durations: seq<nat>
    /** Every duration ever recorded, oldest first. */
    ghost var history: seq<nat>

    /** The window holds exactly the `bufferSize` most recent durations, in arrival order. */
    ghost predicate Valid()
      reads this
    {
      durations == Recent(history, bufferSize)
    }

    /** `Timer(bufferSize = 20)`. */
    constructor (bufferSize: nat := 20)
      ensures Valid() && this.bufferSize == bufferSize
      ensures durations == [] && history == []
    {
      this.bufferSize := bufferSize;
      durations := [];
      history := [];
    }

    /** Appends the newest duration and drops the oldest once there are more than `bufferSize`. */
    method End(elapsed: nat)
      requires Valid()
      modifies this`durations, this`history
      ensures Valid() && history == old(history) + [elapsed]
      ensures |durations| <= bufferSize
      ensures durations ==
        if |old(durations)| + 1 > bufferSize then (old(durations) + [elapsed])[1..]
        else old(durations) + [elapsed]
    {
      durations := durations + [elapsed];
      if |durations| > bufferSize {
        durations := durations[1..];
      }
      RecentAppend(history, bufferSize, elapsed);
      history := history + [elapsed];
    }

    /**
     * The mean of the window, truncated like the source's integer
     * nanosecond division; undefined (a division by zero) on an empty window.
     */
    function GetAverageDuration(): (avg: nat)
      reads this
      requires |durations| > 0
      ensures avg * |durations| <= Sum(durations) < (avg + 1) * |durations|
      ensures Min(durations) <= avg <= Max(durations)
    {
      var n := |durations|;
      var avg := Sum(durations) / n;
      SumBounds(durations);
      AverageBetween(Sum(durations), n, Min(durations), Max(durations));
      avg
    }
  }

  /** Truncated division of a total lying in [n * lo, n * hi] by n lies in [lo, hi]. */
  lemma AverageBetween(total: nat, n: nat, lo: nat, hi: nat)
    requires n > 0 && n * lo <= total <= n * hi
    ensures lo <= total / n <= hi
    ensures (total / n) * n <= total < (total / n + 1) * n
  {
    var q := total / n;
    assert q * n <= total < (q + 1) * n;
    if q < lo {
      MulMonotone(n, q + 1, lo);
    }
    if q > hi {
      MulMonotone(n, hi + 1, q);
    }
  }
}
