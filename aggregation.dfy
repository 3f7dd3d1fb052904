/**
 The aggregator of sds011.py: `avg` over one channel, the transposition
 `zip(*measurements)` of the raw samples, and the column-wise reduction that
 turns a burst of raw samples into one optional value per channel.
 Values are exact reals; a missing reading is `None`.
 */
module Aggregation {
  import opened Wrappers

  /** One raw sample: an optional value per channel (PM2.5, PM10 for this device). */
  type Sample = seq<Option<real>>

  /** Python's `sum`: a left fold starting from 0. */
  function Sum(xs: seq<real>): real
  {
    if |xs| == 0 then 0.0 else Sum(xs[..|xs| - 1]) + xs[|xs| - 1]
  }

  /** The comprehension `[v for v in data if v is not None]`, order kept. */
  function Present(data: seq<Option<real>>): (r: seq<real>)
    ensures |r| <= |data|
  {
    if |data| == 0 then []
    else (if data[0].Some? then [data[0].value] else []) + Present(data[1..])
  }

  /** `avg`: the mean of the present entries, `None` when there is none. */
  function Avg(data: seq<Option<real>>): Option<real>
  {
    var vals := Present(data);
    if |vals| > 0 then Some(Sum(vals) / |vals| as real) else None
  }

  // ---- an independent, entry-by-entry reference definition of the mean ----

  /** The number of present entries. */
  function CountPresent(data: seq<Option<real>>): nat
  {
    if |data| == 0 then 0 else (if data[0].Some? then 1 else 0) + CountPresent(data[1..])
  }

  /** The sum of the present entries, a missing entry adding nothing. */
  function SumPresent(data: seq<Option<real>>): real
  {
    if |data| == 0 then 0.0
    else (if data[0].Some? then data[0].value else 0.0) + SumPresent(data[1..])
  }

  lemma {:induction false} SumCons(x: real, xs: seq<real>)
    ensures Sum([x] + xs) == x + Sum(xs)
    decreases |xs|
  {
    if |xs| > 0 {
      var front := xs[..|xs| - 1];
      assert ([x] + xs)[..|xs|] == [x] + front;
      SumCons(x, front);
    }
  }

  lemma {:induction false} PresentAppend(a: seq<Option<real>>, b: seq<Option<real>>)
    ensures Present(a + b) == Present(a) + Present(b)
    decreases |a|
  {
    if |a| == 0 {
      assert a + b == b;
    } else {
      var head := if a[0].Some? then [a[0].value] else [];
      assert (a + b)[0] == a[0];
      assert (a + b)[1..] == a[1..] + b;
      assert Present(a + b) == head + Present(a[1..] + b);
      PresentAppend(a[1..], b);
      assert Present(a) == head + Present(a[1..]);
    }
  }

  /** Filtering keeps exactly the present entries: count and sum agree with the reference. */
  lemma {:induction false} PresentMatchesReference(data: seq<Option<real>>)
    ensures |Present(data)| == CountPresent(data)
    ensures Sum(Present(data)) == SumPresent(data)
    decreases |data|
  {
    if |data| > 0 {
      PresentMatchesReference(data[1..]);
      if data[0].Some? {
        SumCons(data[0].value, Present(data[1..]));
      } else {
        assert Present(data) == Present(data[1..]);
      }
    }
  }

  /** No entry is present exactly when every entry is `None`. */
  lemma {:induction false} CountPresentZero(data: seq<Option<real>>)
    ensures CountPresent(data) == 0 <==> forall i :: 0 <= i < |data| ==> data[i].None?
    decreases |data|
  {
    if |data| > 0 {
      CountPresentZero(data[1..]);
      assert forall i :: 1 <= i < |data| ==> data[i] == data[1..][i - 1];
    }
  }

  /** `avg` is the sum of the present entries divided by their count, `None` if there are none. */
  lemma AvgIsMean(data: seq<Option<real>>)
    ensures Avg(data) == if CountPresent(data) == 0 then None
                         else Some(SumPresent(data) / CountPresent(data) as real)
  {
    PresentMatchesReference(data);
  }

  /** `avg` returns `None` exactly when the input is empty or holds only `None`. */
  lemma AvgNoneIff(data: seq<Option<real>>)
    ensures Avg(data).None? <==> forall i :: 0 <= i < |data| ==> data[i].None?
  {
    AvgIsMean(data);
    CountPresentZero(data);
  }

  /** A `None` anywhere in the input changes nothing: `avg` ignores it exactly. */
  lemma AvgIgnoresNone(a: seq<Option<real>>, b: seq<Option<real>>)
    ensures Avg(a + [None] + b) == Avg(a + b)
  {
    PresentAppend(a + [None], b);
    PresentAppend(a, [None]);
    assert Present([None]) == [];
    assert Present(a + [None]) == Present(a);
    PresentAppend(a, b);
  }

  lemma {:induction false} SumPresentBounds(data: seq<Option<real>>, lo: real, hi: real)
    requires forall i :: 0 <= i < |data| && data[i].Some? ==> lo <= data[i].value <= hi
    ensures CountPresent(data) as real * lo <= SumPresent(data) <= CountPresent(data) as real * hi
    decreases |data|
  {
    if |data| > 0 {
      assert forall i :: 1 <= i < |data| ==> data[i] == data[1..][i - 1];
      SumPresentBounds(data[1..], lo, hi);
    }
  }

  /** The mean lies between any lower and upper bound of the present entries. */
  lemma AvgBounds(data: seq<Option<real>>, lo: real, hi: real)
    requires forall i :: 0 <= i < |data| && data[i].Some? ==> lo <= data[i].value <= hi
    ensures Avg(data).Some? ==> lo <= Avg(data).value <= hi
  {
    AvgIsMean(data);
    SumPresentBounds(data, lo, hi);
    if CountPresent(data) > 0 {
      DivBounds(SumPresent(data), CountPresent(data) as real, lo, hi);
    }
  }

  lemma DivBounds(s: real, c: real, lo: real, hi: real)
    requires c > 0.0 && c * lo <= s <= c * hi
    ensures lo <= s / c <= hi
  {
    var m := s / c;
    assert m * c == s;
    if m < lo { MulLess(m, lo, c); }
    if m > hi { MulLess(hi, m, c); }
  }

  lemma MulLess(x: real, y: real, c: real)
    requires c > 0.0 && x < y
    ensures x * c < y * c
  {
  }

  // ---- zip(*measurements) and the column-wise reduction ----

  /** The width `zip` gives: the length of the shortest sample, 0 for no samples. */
  function MinWidth(samples: seq<Sample>): (w: nat)
    ensures |samples| == 0 ==> w == 0
    ensures forall k :: 0 <= k < |samples| ==> w <= |samples[k]|
    ensures |samples| > 0 ==> exists k :: 0 <= k < |samples| && w == |samples[k]|
  {
    if |samples| == 0 then 0
    else if |samples| == 1 then |samples[0]|
    else
      var rest := MinWidth(samples[1..]);
      assert forall k :: 1 <= k < |samples| ==> samples[k] == samples[1..][k - 1];
      if |samples[0]| <= rest then |samples[0]| else rest
  }

  /** Channel `i` of every sample, in sample order. */
  function Column(samples: seq<Sample>, i: nat): (c: seq<Option<real>>)
    requires forall k :: 0 <= k < |samples| ==> i < |samples[k]|
    ensures |c| == |samples|
    ensures forall k :: 0 <= k < |samples| ==> c[k] == samples[k][i]
  {
    seq(|samples|, k requires 0 <= k < |samples| => samples[k][i])
  }

  /** `zip(*samples)`: row `i` of the result gathers channel `i` of every sample. */
  function Transpose(samples: seq<Sample>): (cols: seq<seq<Option<real>>>)
    ensures |cols| == MinWidth(samples)
    ensures forall i :: 0 <= i < |cols| ==> |cols[i]| == |samples|
    ensures forall i, k :: 0 <= i < |cols| && 0 <= k < |samples| ==> cols[i][k] == samples[k][i]
  {
    seq(MinWidth(samples), i requires 0 <= i < MinWidth(samples) => Column(samples, i))
  }

  /** `[avg(values) for values in zip(*measurements)]`. */
  function Aggregate(samples: seq<Sample>): (r: seq<Option<real>>)
    ensures |r| == MinWidth(samples)
  {
    var cols := Transpose(samples);
    seq(|cols|, i requires 0 <= i < |cols| => Avg(cols[i]))
  }

  /** No samples give no channels at all (`zip()` is empty). */
  lemma AggregateEmpty()
    ensures Aggregate([]) == []
  {
  }

  /** Samples of one common width `w` give exactly `w` averaged channels. */
  lemma AggregateWidth(samples: seq<Sample>, w: nat)
    requires |samples| > 0
    requires forall k :: 0 <= k < |samples| ==> |samples[k]| == w
    ensures |Aggregate(samples)| == w
  {
  }

  /**
   Channel `i` of the aggregate is the mean of the present channel-`i` readings
   over all samples, and `None` exactly when every one of them is missing.
   */
  lemma AggregateChannel(samples: seq<Sample>, i: nat)
    requires i < MinWidth(samples)
    ensures Aggregate(samples)[i].None? <==> forall k :: 0 <= k < |samples| ==> samples[k][i].None?
    ensures Aggregate(samples)[i] ==
      var col := Column(samples, i);
      if CountPresent(col) == 0 then None else Some(SumPresent(col) / CountPresent(col) as real)
  {
    var col := Column(samples, i);
    assert Transpose(samples)[i] == col;
    AvgIsMean(col);
    AvgNoneIff(col);
  }

  /** Each channel is averaged on its own: it depends only on that channel's readings. */
  lemma AggregateChannelsIndependent(s: seq<Sample>, t: seq<Sample>, i: nat)
    requires |s| == |t| && i < MinWidth(s) && i < MinWidth(t)
    requires forall k :: 0 <= k < |s| ==> s[k][i] == t[k][i]
    ensures Aggregate(s)[i] == Aggregate(t)[i]
  {
    assert Transpose(s)[i] == Column(s, i);
    assert Transpose(t)[i] == Column(t, i);
    assert Column(s, i) == Column(t, i);
  }

  lemma AvgExamplePm25()
    ensures Avg([Some(10.0), Some(12.0), Some(11.0), Some(13.0)]) == Some(11.5)
  {
    var c: seq<Option<real>> := [Some(10.0), Some(12.0), Some(11.0), Some(13.0)];
    AvgIsMean(c);
    assert c[1..][1..][1..][1..] == [];
    assert CountPresent(c[1..][1..][1..]) == 1 && SumPresent(c[1..][1..][1..]) == 13.0;
    assert CountPresent(c[1..][1..]) == 2 && SumPresent(c[1..][1..]) == 24.0;
    assert CountPresent(c[1..]) == 3 && SumPresent(c[1..]) == 36.0;
  }

  lemma AvgExamplePm10()
    ensures Avg([Some(20.0), None, Some(18.0), Some(19.0)]) == Some(19.0)
  {
    var c: seq<Option<real>> := [Some(20.0), None, Some(18.0), Some(19.0)];
    AvgIsMean(c);
    assert c[1..][1..][1..][1..] == [];
    assert CountPresent(c[1..][1..][1..]) == 1 && SumPresent(c[1..][1..][1..]) == 19.0;
    assert CountPresent(c[1..][1..]) == 2 && SumPresent(c[1..][1..]) == 37.0;
    assert CountPresent(c[1..]) == 2 && SumPresent(c[1..]) == 37.0;
  }

  /** A burst of four PM2.5/PM10 samples, one PM10 reading missing. */
  lemma AggregateExample()
    ensures Aggregate([[Some(10.0), Some(20.0)], [Some(12.0), None],
                       [Some(11.0), Some(18.0)], [Some(13.0), Some(19.0)]])
            == [Some(11.5), Some(19.0)]
  {
    var s: seq<Sample> := [[Some(10.0), Some(20.0)], [Some(12.0), None],
                           [Some(11.0), Some(18.0)], [Some(13.0), Some(19.0)]];
    assert MinWidth(s) == 2;
    var cols := Transpose(s);
    assert cols[0] == [Some(10.0), Some(12.0), Some(11.0), Some(13.0)];
    assert cols[1] == [Some(20.0), None, Some(18.0), Some(19.0)];
    AvgExamplePm25();
    AvgExamplePm10();
  }
}
