/** Aggregation pieces shared by the run scorecard (proxy/app/api/runs.py) and the
    leaderboard (proxy/app/api/leaderboard.py): averages that are absent without samples,
    the error rate, the assertion counts read back from a stored provider payload, and
    the ranking order of the result rows. Rates and averages are mathematical reals. */
module Ranking {
  import opened Wrappers
  import opened Json

  // ---------------------------------------------------------------------------------------
  // Averages
  // ---------------------------------------------------------------------------------------

  /** A running sum and sample count. */
  datatype Acc = Acc(sum: real, count: nat)

  const NoSamples := Acc(0.0, 0)

  /** Count a sample when there is one; a null value is skipped. */
  function AddSample(a: Acc, x: Option<real>): (r: Acc)
    ensures x.None? ==> r == a
    ensures x.Some? ==> r.count == a.count + 1 && r.sum == a.sum + x.value
  {
    if x.Some? then Acc(a.sum + x.value, a.count + 1) else a
  }

  /** An integer column read as a float. */
  function AsReal(x: Option<int>): (r: Option<real>)
    ensures r.Some? <==> x.Some?
    ensures r.Some? ==> r.value == x.value as real
  {
    if x.Some? then Some(x.value as real) else None
  }

  /** The average, absent when there are no samples. */
  function Mean(a: Acc): (m: Option<real>)
    ensures m.None? <==> a.count == 0
    ensures m.Some? ==> m.value * (a.count as real) == a.sum
  {
    if a.count > 0 then Some(a.sum / a.count as real) else None
  }

  function Sum(xs: seq<real>): real {
    if |xs| == 0 then 0.0 else Sum(xs[..|xs| - 1]) + xs[|xs| - 1]
  }

  /** Accumulating a list of samples sums them and counts them. */
  function Collect(xs: seq<real>): (a: Acc)
    ensures a == Acc(Sum(xs), |xs|)
  {
    if |xs| == 0 then NoSamples else AddSample(Collect(xs[..|xs| - 1]), Some(xs[|xs| - 1]))
  }

  lemma {:induction false} SumBounds(xs: seq<real>, lo: real, hi: real)
    requires forall k :: 0 <= k < |xs| ==> lo <= xs[k] <= hi
    ensures lo * |xs| as real <= Sum(xs) <= hi * |xs| as real
    decreases |xs|
  {
    if |xs| > 0 {
      SumBounds(xs[..|xs| - 1], lo, hi);
    }
  }

  /** The average of samples that all lie in `[lo, hi]` lies there too. */
  lemma MeanBounds(xs: seq<real>, lo: real, hi: real)
    requires |xs| > 0
    requires forall k :: 0 <= k < |xs| ==> lo <= xs[k] <= hi
    ensures Mean(Collect(xs)).Some?
    ensures lo <= Mean(Collect(xs)).value <= hi
  {
    SumQuotientBounds(xs, lo, hi);
    MeanOfCollect(xs);
  }

  lemma SumQuotientBounds(xs: seq<real>, lo: real, hi: real)
    requires |xs| > 0
    requires forall k :: 0 <= k < |xs| ==> lo <= xs[k] <= hi
    ensures lo <= Sum(xs) / |xs| as real <= hi
  {
    SumBounds(xs, lo, hi);
    QuotientBetween(Sum(xs), |xs| as real, lo, hi);
  }

  lemma MeanOfCollect(xs: seq<real>)
    requires |xs| > 0
    ensures Mean(Collect(xs)) == Some(Sum(xs) / |xs| as real)
  {
  }

  lemma QuotientBetween(s: real, n: real, lo: real, hi: real)
    requires n > 0.0 && lo * n <= s <= hi * n
    ensures lo <= s / n <= hi
  {
    assert (s / n) * n == s;
  }

  // ---------------------------------------------------------------------------------------
  // Error rate
  // ---------------------------------------------------------------------------------------

  lemma QuotientBounds(n: nat, d: nat)
    requires d > 0
    ensures (n as real / d as real) * d as real == n as real
    ensures n <= d ==> 0.0 <= n as real / d as real <= 1.0
  {
    var q := n as real / d as real;
    if q > 1.0 {
      assert q * d as real > 1.0 * d as real;
    }
  }

  /** `error_count / items_total`, or 0.0 for a row without items. */
  function ErrorRate(errors: nat, total: nat): (r: real)
    ensures total == 0 ==> r == 0.0
    ensures total > 0 ==> r * total as real == errors as real
    ensures errors <= total ==> 0.0 <= r <= 1.0
  {
    if total > 0 then
      QuotientBounds(errors, total);
      errors as real / total as real
    else 0.0
  }

  // ---------------------------------------------------------------------------------------
  // Assertion counts in a stored payload
  // ---------------------------------------------------------------------------------------

  /** `(passed, total)` of the assertion summary stored in a provider payload: the payload
      and its "assertions" entry are objects, both counts are integers (a boolean counts as
      one), and the total is positive. Anything else contributes nothing. */
  function AssertionCounts(payload: Json): (r: Option<(int, int)>)
    ensures r.Some? ==> r.value.1 > 0
    ensures r.Some? <==>
              payload.JObj? && "assertions" in payload.fields && payload.fields["assertions"].JObj? &&
              AsPyInt(Get(payload.fields["assertions"].fields, "passed", JNull)).Some? &&
              AsPyInt(Get(payload.fields["assertions"].fields, "total", JNull)).Some? &&
              AsPyInt(Get(payload.fields["assertions"].fields, "total", JNull)).value > 0
    ensures r.Some? ==> r.value == (AsPyInt(Get(payload.fields["assertions"].fields, "passed", JNull)).value,
                                    AsPyInt(Get(payload.fields["assertions"].fields, "total", JNull)).value)
  {
    if payload.JObj? && "assertions" in payload.fields && payload.fields["assertions"].JObj? then
      var a := payload.fields["assertions"].fields;
      var total := AsPyInt(Get(a, "total", JNull));
      var passed := AsPyInt(Get(a, "passed", JNull));
      if total.Some? && passed.Some? && total.value > 0 then Some((passed.value, total.value)) else None
    else None
  }

  // ---------------------------------------------------------------------------------------
  // Ranking order
  // ---------------------------------------------------------------------------------------

  /** The sort key of a result row: judge average, assertion pass rate, error rate. */
  datatype RankKey = RankKey(judge: Option<real>, passRate: Option<real>, errorRate: real)

  /** A missing average ranks as -1. */
  function OrMinusOne(x: Option<real>): (r: real)
    ensures x.Some? ==> r == x.value
    ensures x.None? ==> r == -1.0
  {
    if x.Some? then x.value else -1.0
  }

  /** `a` may be listed before `b`: `(judge or -1, rate or -1, -error_rate)` of `a` is at
      least that of `b` in tuple order (the rows are sorted on that tuple with
      `reverse=True`, which keeps equal rows in their order). */
  predicate RankGe(a: RankKey, b: RankKey) {
    OrMinusOne(a.judge) > OrMinusOne(b.judge) ||
    (OrMinusOne(a.judge) == OrMinusOne(b.judge) &&
     (OrMinusOne(a.passRate) > OrMinusOne(b.passRate) ||
      (OrMinusOne(a.passRate) == OrMinusOne(b.passRate) && -a.errorRate >= -b.errorRate)))
  }

  lemma RankGeTotal(a: RankKey, b: RankKey)
    ensures RankGe(a, b) || RankGe(b, a)
  {
  }

  lemma RankGeTransitive(a: RankKey, b: RankKey, c: RankKey)
    requires RankGe(a, b) && RankGe(b, c)
    ensures RankGe(a, c)
  {
  }

  /** Two keys rank equal exactly when their tuples are equal. */
  lemma RankTies(a: RankKey, b: RankKey)
    ensures RankGe(a, b) && RankGe(b, a) <==>
            OrMinusOne(a.judge) == OrMinusOne(b.judge) && OrMinusOne(a.passRate) == OrMinusOne(b.passRate) &&
            a.errorRate == b.errorRate
  {
  }

  /** A judged row always ranks above an unjudged one, since scores are at least 0. */
  lemma JudgedRanksFirst(a: RankKey, b: RankKey)
    requires a.judge.Some? && a.judge.value >= 0.0 && b.judge.None?
    ensures RankGe(a, b) && !RankGe(b, a)
  {
  }
}
