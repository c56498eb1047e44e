/**
 * `options.sort((a, b) => a.rate - b.rate)`: the stable sort of insurance options by ascending rate
 * that JavaScript's `Array.prototype.sort` performs, written as an insertion sort.
 */
module RateSort {
  import opened SimulationTypes

  predicate SortedByRate(s: seq<DbInsurance>) {
    forall i, j :: 0 <= i < j < |s| ==> s[i].rate <= s[j].rate
  }

  /** The options of `s` whose rate is exactly `q`, in their order in `s`. */
  function WithRate(s: seq<DbInsurance>, q: real): seq<DbInsurance> {
    if |s| == 0 then [] else (if s[0].rate == q then [s[0]] else []) + WithRate(s[1..], q)
  }

  /** The options of rate `q` in a concatenation are those of each part, in order. */
  lemma {:induction false} WithRateAppend(a: seq<DbInsurance>, b: seq<DbInsurance>, q: real)
    ensures WithRate(a + b, q) == WithRate(a, q) + WithRate(b, q)
  {
    if |a| > 0 {
      WithRateAppend(a[1..], b, q);
      assert (a + b)[1..] == a[1..] + b;
    } else {
      assert a + b == b;
    }
  }

  /** Inserts `x` before the first option whose rate is not below its own. */
  function InsertByRate(x: DbInsurance, s: seq<DbInsurance>): (r: seq<DbInsurance>)
    ensures multiset(r) == multiset(s) + multiset{x}
  {
    if |s| == 0 || x.rate <= s[0].rate then [x] + s
    else
      assert s == [s[0]] + s[1..];
      [s[0]] + InsertByRate(x, s[1..])
  }

  /** `WithRate` of a sequence with a known head. */
  lemma WithRateCons(a: DbInsurance, t: seq<DbInsurance>, q: real)
    ensures WithRate([a] + t, q) == (if a.rate == q then [a] else []) + WithRate(t, q)
  {
    assert ([a] + t)[1..] == t;
  }

  /** Inserting an option at or above a bound into options at or above it keeps them all above it. */
  lemma {:induction false} InsertStaysAbove(x: DbInsurance, s: seq<DbInsurance>, bound: real)
    requires bound <= x.rate
    requires forall k :: 0 <= k < |s| ==> bound <= s[k].rate
    ensures forall k :: 0 <= k < |InsertByRate(x, s)| ==> bound <= InsertByRate(x, s)[k].rate
  {
    if |s| > 0 && x.rate > s[0].rate {
      InsertStaysAbove(x, s[1..], bound);
    }
  }

  lemma {:induction false} InsertKeepsSorted(x: DbInsurance, s: seq<DbInsurance>)
    requires SortedByRate(s)
    ensures SortedByRate(InsertByRate(x, s))
  {
    if |s| > 0 && x.rate > s[0].rate {
      InsertKeepsSorted(x, s[1..]);
      InsertStaysAbove(x, s[1..], s[0].rate);
    }
  }

  /** Inserting `x` puts it before every option of equal rate, and moves nothing else. */
  lemma {:induction false} InsertWithRate(x: DbInsurance, s: seq<DbInsurance>, q: real)
    requires SortedByRate(s)
    ensures WithRate(InsertByRate(x, s), q) == (if x.rate == q then [x] else []) + WithRate(s, q)
  {
    if |s| == 0 || x.rate <= s[0].rate {
      WithRateCons(x, s, q);
    } else {
      InsertWithRate(x, s[1..], q);
      WithRateCons(s[0], InsertByRate(x, s[1..]), q);
      WithRateCons(s[0], s[1..], q);
      assert s == [s[0]] + s[1..];
    }
  }

  /**
   * Sorts by ascending rate; the result is a permutation of the input, and options with equal
   * rates keep their relative order (the sort is stable).
   */
  function SortByRate(s: seq<DbInsurance>): (r: seq<DbInsurance>)
    ensures SortedByRate(r)
    ensures multiset(r) == multiset(s)
    ensures forall q :: WithRate(r, q) == WithRate(s, q)
  {
    if |s| == 0 then []
    else
      var sortedRest := SortByRate(s[1..]);
      assert s == [s[0]] + s[1..];
      InsertKeepsSorted(s[0], sortedRest);
      assert forall q :: WithRate(InsertByRate(s[0], sortedRest), q) == WithRate(s, q) by {
        forall q ensures WithRate(InsertByRate(s[0], sortedRest), q) == WithRate(s, q) {
          InsertWithRate(s[0], sortedRest, q);
          WithRateCons(s[0], s[1..], q);
        }
      }
      InsertByRate(s[0], sortedRest)
  }
}
