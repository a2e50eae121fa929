/** Latency histograms, one per thread: recording, the in-place correction for coordinated
    omission, and queries over all threads. */
module LatencyStats {
  const U64_MAX: nat := 0xffff_ffff_ffff_ffff

  function Sum(s: seq<nat>): (r: nat) {
    if s == [] then 0 else Sum(s[..|s| - 1]) + s[|s| - 1]
  }

  lemma {:induction false} SumUpdate(s: seq<nat>, i: nat, v: nat)
    requires i < |s|
    ensures Sum(s[i := v]) == Sum(s) - s[i] + v
    decreases |s|
  {
    var t := s[i := v];
    if i == |s| - 1 {
      assert t[..|s| - 1] == s[..|s| - 1];
    } else {
      assert t[..|s| - 1] == s[..|s| - 1][i := v];
      SumUpdate(s[..|s| - 1], i, v);
    }
  }

  // ---- the correction, declaratively

  /** `n` is reached from `m` in steps of `e`. */
  predicate Hits(m: nat, n: nat, e: nat)
    requires e > 0
    decreases if m <= n then n - m else 0
  {
    m == n || (m < n && Hits(m + e, n, e))
  }

  /** All samples at `m`, `m + e`, `m + 2e`, ... below `n`. */
  function Above(d: seq<nat>, m: nat, e: nat, n: nat): (r: nat)
    requires e > 0 && n <= |d|
    decreases if m < n then n - m else 0
  {
    if m >= n then 0 else d[m] + Above(d, m + e, e, n)
  }

  /** Bucket `m` once every sample below `n` was handed down: each sample adds one at
      itself minus every multiple of `e`, as long as that is above `e`. */
  function HandedDown(d: seq<nat>, e: nat, n: nat, m: nat): (r: nat)
    requires e > 0 && n <= |d| && m < |d|
  {
    if m > e then d[m] + Above(d, m + e, e, n) else d[m]
  }

  function Corrected(d: seq<nat>, e: nat, max: nat, m: nat): (r: nat)
    requires e > 0 && max < |d| && m < |d|
  {
    HandedDown(d, e, max + 1, m)
  }

  lemma {:induction false} AboveStep(d: seq<nat>, m: nat, e: nat, n: nat)
    requires e > 0 && n < |d|
    ensures Above(d, m, e, n + 1) == Above(d, m, e, n) + (if Hits(m, n, e) then d[n] else 0)
    decreases if m <= n then n - m else 0
  {
    if m < n {
      AboveStep(d, m + e, e, n);
    } else if m == n {
      assert Above(d, m + e, e, n + 1) == 0;
    }
  }

  /** Two values less than a step apart cannot both be hit. */
  lemma {:induction false} HitsApart(p: nat, q: nat, n: nat, e: nat)
    requires e > 0 && p < q < p + e
    ensures !(Hits(p, n, e) && Hits(q, n, e))
    decreases if p <= n then n - p else 0
  {
    if p < n && q < n { HitsApart(p + e, q + e, n, e); }
  }

  class Local {
    const data: array<nat>
    var count: nat
    var min: nat
    var max: nat

    ghost predicate Valid()
      reads this, data
    {
      max < data.Length <= U64_MAX && count == Sum(data[..])
    }

    /** The range is the one of the samples recorded. */
    ghost predicate Tight()
      reads this, data
    {
      if count == 0 then min == U64_MAX && max == 0
      else min <= max < data.Length && data[min] > 0 && data[max] > 0
    }

    /** The recorded range covers all samples. */
    ghost predicate Covers()
      reads this, data
    {
      forall v :: 0 <= v < data.Length && data[v] > 0 ==> min <= v <= max
    }

    /** What the queries read. */
    ghost function Snapshot(): (h: Hist)
      reads this, data
      ensures Valid() && Covers() ==> HistOk(h, data.Length)
      ensures Tight() ==> HistTight(h)
    {
      Hist(data[..], count, min, max)
    }

    constructor (limit: nat)
      requires 0 < limit <= U64_MAX
      ensures Valid() && Covers() && Tight() && fresh(data) && data.Length == limit && min == U64_MAX && max == 0
      ensures forall v :: 0 <= v < limit ==> data[v] == 0
    {
      data := new nat[limit](_ => 0);
      count, min, max := 0, U64_MAX, 0;
      new;
      SumZeros(data[..]);
    }

    /** stats_record */
    method Record(n: nat) returns (ok: bool)
      requires Valid() && Covers() && Tight()
      modifies this, data
      ensures Valid() && Covers() && Tight()
      ensures ok <==> n < data.Length
      ensures data[..] == if ok then old(data[..])[n := old(data[..])[n] + 1] else old(data[..])
      ensures min == if ok && n < old(min) then n else old(min)
      ensures max == if ok && n > old(max) then n else old(max)
      ensures count == old(count) + if ok then 1 else 0
    {
      if n >= data.Length { return false; }
      SumUpdate(data[..], n, data[n] + 1);
      ghost var d := data[..];
      data[n] := data[n] + 1;
      assert data[..] == d[n := d[n] + 1];
      count := count + 1;
      if n < min { min := n; }
      if n > max { max := n; }
      return true;
    }

    /** stats_correct on one thread: one ascending pass that adds the missing samples. */
    method Correct(expected: nat)
      requires Valid() && Tight() && expected > 0
      modifies data, this`count
      ensures Valid() && Tight()
      ensures forall m :: 0 <= m < data.Length ==> data[m] == Corrected(old(data[..]), expected, max, m)
    {
      hide HandedDown, Sum;
      ghost var d := data[..];
      var n := expected * 2;
      StartsAsRecorded(d, expected, if n <= max then n else max + 1);
      while n <= max
        invariant expected * 2 <= n && data.Length == |d|
        invariant n <= max + 1 || n == expected * 2
        invariant forall m :: n <= m < |d| ==> data[m] == d[m]
        invariant forall m :: 0 <= m < |d| ==>
          data[m] == HandedDown(d, expected, if n <= max then n else max + 1, m)
        invariant count == Sum(data[..])
        invariant count >= old(count) && (max == 0 ==> count == old(count))
      {
        CorrectFrom(n, expected, d);
        n := n + 1;
      }
      if count > 0 && old(count) > 0 {
        NeverLess(d, expected, max + 1, min);
        NeverLess(d, expected, max + 1, max);
      }
    }

    /** The inner loop: bucket `n`, still as recorded, is handed down. */
    method CorrectFrom(n: nat, expected: nat, ghost d: seq<nat>)
      requires expected > 0 && expected * 2 <= n < data.Length == |d|
      requires forall m :: n <= m < |d| ==> data[m] == d[m]
      requires forall m :: 0 <= m < |d| ==> data[m] == HandedDown(d, expected, n, m)
      requires count == Sum(data[..])
      modifies data, this`count
      ensures forall m :: n + 1 <= m < |d| ==> data[m] == d[m]
      ensures forall m :: 0 <= m < |d| ==> data[m] == HandedDown(d, expected, n + 1, m)
      ensures count == Sum(data[..]) && count >= old(count)
    {
      hide Above, Hits, Sum;
      var c := data[n];
      var m: int := n - expected;
      HitsSelf(n, expected);
      TopUnchanged(d, expected, n, m);
      while c != 0 && m > expected
        invariant 0 <= m < n && Hits(m + expected, n, expected)
        invariant forall p :: m < p < |d| ==> data[p] == HandedDown(d, expected, n + 1, p)
        invariant forall p :: n < p < |d| ==> data[p] == d[p]
        invariant forall p :: 0 <= p <= m ==> data[p] == HandedDown(d, expected, n, p)
        invariant count == Sum(data[..]) && count >= old(count)
        decreases m
      {
        ghost var before := data[..];
        SumUpdate(before, m, data[m] + c);
        data[m] := data[m] + c;
        assert data[..] == before[m := before[m] + c];
        count := count + c;
        AboveStep(d, m + expected, expected, n);
        GapUnchanged(d, expected, n, m);
        HitsBelow(m, n, expected);
        m := m - expected;
      }
      if c == 0 { EmptyUnchanged(d, expected, n); }
    }
  }

  lemma NeverLess(d: seq<nat>, e: nat, n: nat, m: nat)
    requires e > 0 && n <= |d| && m < |d|
    ensures HandedDown(d, e, n, m) >= d[m]
  {
  }

  lemma StartsAsRecorded(d: seq<nat>, e: nat, n: nat)
    requires e > 0 && n <= |d| && n <= 2 * e
    ensures forall m :: 0 <= m < |d| ==> HandedDown(d, e, n, m) == d[m]
  {
  }

  lemma HitsSelf(n: nat, e: nat)
    requires e > 0
    ensures Hits(n, n, e)
  {
  }

  lemma HitsBelow(m: nat, n: nat, e: nat)
    requires e > 0 && m < n && Hits(m + e, n, e)
    ensures Hits(m, n, e)
  {
  }

  lemma TopUnchanged(d: seq<nat>, e: nat, n: nat, m: nat)
    requires e > 0 && n < |d| && m + e == n
    ensures forall p :: m < p < |d| ==> HandedDown(d, e, n + 1, p) == HandedDown(d, e, n, p)
  {
    forall p | m < p < |d| ensures HandedDown(d, e, n + 1, p) == HandedDown(d, e, n, p) {
      AboveStep(d, p + e, e, n);
    }
  }

  lemma GapUnchanged(d: seq<nat>, e: nat, n: nat, m: nat)
    requires e > 0 && n < |d| && e < m < n && Hits(m + e, n, e)
    ensures forall p :: m - e < p < m ==> HandedDown(d, e, n + 1, p) == HandedDown(d, e, n, p)
  {
    forall p | m - e < p < m ensures HandedDown(d, e, n + 1, p) == HandedDown(d, e, n, p) {
      AboveStep(d, p + e, e, n);
      HitsApart(p + e, m + e, n, e);
    }
  }

  lemma EmptyUnchanged(d: seq<nat>, e: nat, n: nat)
    requires e > 0 && n < |d| && d[n] == 0
    ensures forall p :: 0 <= p < |d| ==> HandedDown(d, e, n + 1, p) == HandedDown(d, e, n, p)
  {
    forall p | 0 <= p < |d| ensures HandedDown(d, e, n + 1, p) == HandedDown(d, e, n, p) {
      AboveStep(d, p + e, e, n);
    }
  }

  lemma {:induction false} SumZeros(s: seq<nat>)
    requires forall i :: 0 <= i < |s| ==> s[i] == 0
    ensures Sum(s) == 0
  {
    if s != [] { SumZeros(s[..|s| - 1]); }
  }

  // ---- whether the recorded range still covers the samples

  lemma {:induction false} AbovePositive(d: seq<nat>, m: nat, e: nat, n: nat)
    requires e > 0 && n <= |d|
    ensures Above(d, m, e, n) > 0 <==> exists y :: m <= y < n && d[y] > 0 && Hits(m, y, e)
    decreases if m < n then n - m else 0
  {
    if m < n {
      AbovePositive(d, m + e, e, n);
      if y :| m <= y < n && d[y] > 0 && Hits(m, y, e) {
        if y != m { assert m + e <= y by { HitsAtLeast(m + e, y, e); } }
      }
      if y :| m + e <= y < n && d[y] > 0 && Hits(m + e, y, e) {
        assert Hits(m, y, e);
      }
      if d[m] > 0 { assert Hits(m, m, e); }
    }
  }

  lemma HitsAtLeast(m: nat, n: nat, e: nat)
    requires e > 0 && Hits(m, n, e)
    ensures m <= n
  {
  }

  /** Some recorded sample is handed down to a value below the recorded minimum. */
  ghost predicate FallsBelow(d: seq<nat>, e: nat, min: nat, max: nat)
    requires e > 0 && max < |d|
  {
    exists m, n :: e < m < min && m < n <= max && d[n] > 0 && Hits(m, n, e)
  }

  /** The correction does not move `min`: the range still covers all samples exactly when
      no sample is handed down below it. */
  lemma CorrectedCovers(d: seq<nat>, e: nat, min: nat, max: nat)
    requires e > 0 && max < |d| && forall v :: 0 <= v < |d| && d[v] > 0 ==> min <= v <= max
    ensures (forall v :: 0 <= v < |d| && Corrected(d, e, max, v) > 0 ==> min <= v <= max)
            <==> !FallsBelow(d, e, min, max)
  {
    hide Hits, Above;
    forall v | 0 <= v < |d|
      ensures v > e && v < min ==> (Corrected(d, e, max, v) > 0 <==>
                exists n :: v < n <= max && d[n] > 0 && Hits(v, n, e))
      ensures Corrected(d, e, max, v) > 0 ==> v <= max
    {
      AbovePositive(d, v + e, e, max + 1);
      HitsShift(d, v, e, max);
    }
    if FallsBelow(d, e, min, max) {
      var m, n :| e < m < min && m < n <= max && d[n] > 0 && Hits(m, n, e);
      assert Corrected(d, e, max, m) > 0;
    }
  }

  lemma HitsShift(d: seq<nat>, m: nat, e: nat, max: nat)
    requires e > 0 && max < |d|
    ensures (exists y :: m + e <= y < max + 1 && d[y] > 0 && Hits(m + e, y, e))
            <==> (exists n :: m < n <= max && d[n] > 0 && Hits(m, n, e))
  {
    if n :| m < n <= max && d[n] > 0 && Hits(m, n, e) {
      HitsAtLeast(m + e, n, e);
      assert Hits(m + e, n, e);
    }
    if y :| m + e <= y < max + 1 && d[y] > 0 && Hits(m + e, y, e) {
      assert Hits(m, y, e);
    }
  }

  /** One sample of 5 corrected for an interval of 1 leaves samples below the minimum 5. */
  lemma CorrectionUncovers()
    ensures FallsBelow([0, 0, 0, 0, 0, 1], 1, 5, 5)
  {
    var d: seq<nat> := [0, 0, 0, 0, 0, 1];
    assert Hits(5, 5, 1);
    assert Hits(4, 5, 1);
    assert 1 < 4 < 5 && 4 < 5 <= 5 && d[5] > 0 && Hits(4, 5, 1);
  }

  // ---- queries over all threads

  datatype Hist = Hist(data: seq<nat>, count: nat, min: nat, max: nat)

  ghost predicate HistOk(h: Hist, limit: nat) {
    && |h.data| == limit && h.count == Sum(h.data) && h.max < limit
    && forall v :: 0 <= v < limit && h.data[v] > 0 ==> h.min <= v <= h.max
  }

  /** The range is the one of the samples recorded. */
  ghost predicate HistTight(h: Hist) {
    if h.count == 0 then h.min == U64_MAX && h.max == 0
    else h.min <= h.max < |h.data| && h.data[h.min] > 0 && h.data[h.max] > 0
  }

  ghost predicate AllOk(hs: seq<Hist>, limit: nat) {
    forall j :: 0 <= j < |hs| ==> HistOk(hs[j], limit)
  }

  /** Samples with value `v`, over all threads. */
  function Merged(hs: seq<Hist>, v: nat): (r: nat)
    requires forall j :: 0 <= j < |hs| ==> v < |hs[j].data|
  {
    if hs == [] then 0 else Merged(hs[..|hs| - 1], v) + hs[|hs| - 1].data[v]
  }

  /** Samples with values below `v`, over all threads. */
  function Cum(hs: seq<Hist>, v: nat): (r: nat)
    requires forall j :: 0 <= j < |hs| ==> v <= |hs[j].data|
  {
    if v == 0 then 0 else Cum(hs, v - 1) + Merged(hs, v - 1)
  }

  function Total(hs: seq<Hist>): (r: nat) {
    if hs == [] then 0 else Total(hs[..|hs| - 1]) + hs[|hs| - 1].count
  }

  function MinOf(hs: seq<Hist>): (r: nat) {
    if hs == [] then U64_MAX
    else if MinOf(hs[..|hs| - 1]) > hs[|hs| - 1].min then hs[|hs| - 1].min else MinOf(hs[..|hs| - 1])
  }

  function MaxOf(hs: seq<Hist>): (r: nat) {
    if hs == [] then 0
    else if MaxOf(hs[..|hs| - 1]) < hs[|hs| - 1].max then hs[|hs| - 1].max else MaxOf(hs[..|hs| - 1])
  }

  lemma {:induction false} MergedInRange(hs: seq<Hist>, limit: nat, v: nat)
    requires AllOk(hs, limit) && v < limit
    ensures Merged(hs, v) > 0 ==> MinOf(hs) <= v <= MaxOf(hs)
    ensures Merged(hs, v) > 0 <==> exists j :: 0 <= j < |hs| && hs[j].data[v] > 0
    ensures limit > 0 ==> MaxOf(hs) < limit
  {
    if hs != [] {
      var t := hs[..|hs| - 1];
      MergedInRange(t, limit, v);
      assert HistOk(hs[|hs| - 1], limit);
      if j :| 0 <= j < |hs| && hs[j].data[v] > 0 { assert j < |t| ==> t[j].data[v] > 0; }
      if j :| 0 <= j < |t| && t[j].data[v] > 0 { assert hs[j].data[v] > 0; }
    }
  }

  /** Some thread with samples has the common minimum, and some has the common maximum. */
  lemma {:induction false} Attained(hs: seq<Hist>)
    requires forall j :: 0 <= j < |hs| ==> HistTight(hs[j]) && |hs[j].data| <= U64_MAX
    ensures Total(hs) > 0 ==> exists j :: 0 <= j < |hs| && hs[j].count > 0 && hs[j].min == MinOf(hs)
    ensures Total(hs) > 0 ==> exists j :: 0 <= j < |hs| && hs[j].count > 0 && hs[j].max == MaxOf(hs)
    ensures Total(hs) == 0 ==> MinOf(hs) == U64_MAX && MaxOf(hs) == 0
    ensures MinOf(hs) <= U64_MAX
  {
    if hs != [] {
      var n := |hs| - 1;
      var t := hs[..n];
      Attained(t);
      assert HistTight(hs[n]);
      if Total(t) > 0 {
        var j :| 0 <= j < |t| && t[j].count > 0 && t[j].min == MinOf(t);
        var k :| 0 <= k < |t| && t[k].count > 0 && t[k].max == MaxOf(t);
        assert hs[j] == t[j] && hs[k] == t[k];
        assert HistTight(t[j]);
      }
      if hs[n].count > 0 { assert hs[n].min == MinOf(hs) || MinOf(t) == MinOf(hs); }
    }
  }

  /** stats_min and stats_max are the least and the greatest value that any thread recorded. */
  lemma ExtremesExact(hs: seq<Hist>, limit: nat)
    requires AllOk(hs, limit) && limit <= U64_MAX && Total(hs) > 0
    requires forall j :: 0 <= j < |hs| ==> HistTight(hs[j])
    ensures MinOf(hs) < limit && MaxOf(hs) < limit
    ensures forall j :: 0 <= j < |hs| ==> |hs[j].data| == limit
    ensures Merged(hs, MinOf(hs)) > 0 && Merged(hs, MaxOf(hs)) > 0
    ensures forall v :: 0 <= v < limit && Merged(hs, v) > 0 ==> MinOf(hs) <= v <= MaxOf(hs)
  {
    hide Merged, MinOf, MaxOf, Total;
    forall j | 0 <= j < |hs| ensures |hs[j].data| == limit { assert HistOk(hs[j], limit); }
    Attained(hs);
    var j :| 0 <= j < |hs| && hs[j].count > 0 && hs[j].min == MinOf(hs);
    var k :| 0 <= k < |hs| && hs[k].count > 0 && hs[k].max == MaxOf(hs);
    assert HistTight(hs[j]) && HistTight(hs[k]);
    MergedInRange(hs, limit, MinOf(hs));
    MergedInRange(hs, limit, MaxOf(hs));
    forall v | 0 <= v < limit ensures Merged(hs, v) > 0 ==> MinOf(hs) <= v <= MaxOf(hs) { MergedInRange(hs, limit, v); }
  }

  /** Counting by value and counting by thread agree. */
  lemma {:induction false} CumByThread(hs: seq<Hist>, limit: nat, v: nat)
    requires AllOk(hs, limit) && v <= limit && hs != []
    ensures Cum(hs, v) == Cum(hs[..|hs| - 1], v) + Sum(hs[|hs| - 1].data[..v])
    decreases v
  {
    var t, d := hs[..|hs| - 1], hs[|hs| - 1].data;
    if v > 0 {
      CumByThread(hs, limit, v - 1);
      assert d[..v][..v - 1] == d[..v - 1];
    }
  }

  lemma {:induction false} CumTotal(hs: seq<Hist>, limit: nat)
    requires AllOk(hs, limit)
    ensures Cum(hs, limit) == Total(hs)
  {
    if hs == [] {
      CumEmpty(limit);
    } else {
      var t := hs[..|hs| - 1];
      CumTotal(t, limit);
      CumByThread(hs, limit, limit);
      var d := hs[|hs| - 1].data;
      assert HistOk(hs[|hs| - 1], limit);
      assert d[..limit] == d;
    }
  }

  lemma {:induction false} CumEmpty(v: nat)
    ensures Cum([], v) == 0
  {
    if v > 0 { CumEmpty(v - 1); }
  }

  lemma {:induction false} CumMonotone(hs: seq<Hist>, limit: nat, a: nat, b: nat)
    requires AllOk(hs, limit) && a <= b <= limit
    ensures Cum(hs, a) <= Cum(hs, b)
    ensures (forall v :: a <= v < b ==> Merged(hs, v) == 0) ==> Cum(hs, a) == Cum(hs, b)
    decreases b
  {
    if a < b { CumMonotone(hs, limit, a, b - 1); }
  }

  method StatsMin(hs: seq<Hist>) returns (m: nat)
    ensures m == MinOf(hs)
  {
    m := U64_MAX;
    for j := 0 to |hs|
      invariant m == MinOf(hs[..j])
    {
      assert hs[..j + 1][..j] == hs[..j];
      if m > hs[j].min { m := hs[j].min; }
    }
    assert hs[..|hs|] == hs;
  }

  method StatsMax(hs: seq<Hist>) returns (m: nat)
    ensures m == MaxOf(hs)
  {
    m := 0;
    for j := 0 to |hs|
      invariant m == MaxOf(hs[..j])
    {
      assert hs[..j + 1][..j] == hs[..j];
      if m < hs[j].max { m := hs[j].max; }
    }
    assert hs[..|hs|] == hs;
  }

  /** The inner loops of the queries: one value, all threads. */
  method SumAt(hs: seq<Hist>, v: nat) returns (r: nat)
    requires forall j :: 0 <= j < |hs| ==> v < |hs[j].data|
    ensures r == Merged(hs, v)
  {
    r := 0;
    for j := 0 to |hs|
      invariant r == Merged(hs[..j], v)
    {
      assert hs[..j + 1][..j] == hs[..j];
      r := r + hs[j].data[v];
    }
    assert hs[..|hs|] == hs;
  }

  /** stats_percentile for a rank: the least value whose merged cumulative count reaches it. */
  method Percentile(hs: seq<Hist>, rank: nat, ghost limit: nat) returns (v: nat)
    requires AllOk(hs, limit) && limit > 0
    ensures 1 <= rank <= Total(hs) ==>
      v < limit && Cum(hs, v + 1) >= rank && forall u :: 0 <= u <= v ==> Cum(hs, u) < rank
    ensures rank > Total(hs) ==> v == 0
  {
    hide HistOk;
    var total := 0;
    var min := StatsMin(hs);
    var max := StatsMax(hs);
    RangeFacts(hs, limit);
    CumTotal(hs, limit);
    var i := min;
    while i <= max
      invariant min <= i && (min <= max ==> i <= max + 1)
      invariant i <= max + 1 ==> total == Cum(hs, i)
      invariant min < i ==> total < rank
    {
      var n := SumAt(hs, i);
      total := total + n;
      if total >= rank {
        if rank > 0 {
          forall u | 0 <= u <= i ensures Cum(hs, u) < rank { CumMonotone(hs, limit, u, i); }
        }
        CumMonotone(hs, limit, i + 1, limit);
        return i;
      }
      i := i + 1;
    }
    v := 0;
  }

  /** Nothing is recorded outside the common range. */
  lemma RangeFacts(hs: seq<Hist>, limit: nat)
    requires AllOk(hs, limit) && limit > 0
    ensures MaxOf(hs) < limit
    ensures forall j :: 0 <= j < |hs| ==> |hs[j].data| == limit
    ensures MinOf(hs) <= limit ==> Cum(hs, MinOf(hs)) == 0
    ensures Cum(hs, limit) == Cum(hs, MaxOf(hs) + 1)
    ensures MinOf(hs) > MaxOf(hs) ==> Cum(hs, limit) == 0
  {
    hide Cum, MinOf, MaxOf, Merged;
    MergedInRange(hs, limit, 0);
    forall v | 0 <= v < limit ensures Merged(hs, v) > 0 ==> MinOf(hs) <= v <= MaxOf(hs) {
      MergedInRange(hs, limit, v);
    }
    CumZero(hs);
    if MinOf(hs) <= limit { CumMonotone(hs, limit, 0, MinOf(hs)); }
    CumMonotone(hs, limit, MaxOf(hs) + 1, limit);
    if MinOf(hs) > MaxOf(hs) { CumMonotone(hs, limit, 0, limit); }
    forall j | 0 <= j < |hs| ensures |hs[j].data| == limit { assert HistOk(hs[j], limit); }
  }

  lemma CumZero(hs: seq<Hist>)
    ensures Cum(hs, 0) == 0
  {
  }

  /** The distinct values below `v` that some thread recorded, ascending. */
  function Distinct(hs: seq<Hist>, v: nat): (r: seq<nat>)
    requires forall j :: 0 <= j < |hs| ==> v <= |hs[j].data|
  {
    if v == 0 then [] else Distinct(hs, v - 1) + (if Merged(hs, v - 1) > 0 then [v - 1] else [])
  }

  /** Distinct lists every merged value once, in ascending order. */
  lemma {:induction false} DistinctExact(hs: seq<Hist>, v: nat)
    requires forall j :: 0 <= j < |hs| ==> v <= |hs[j].data|
    ensures forall u :: u in Distinct(hs, v) <==> 0 <= u < v && Merged(hs, u) > 0
    ensures forall a, b :: 0 <= a < b < |Distinct(hs, v)| ==> Distinct(hs, v)[a] < Distinct(hs, v)[b]
  {
    if v > 0 {
      DistinctExact(hs, v - 1);
      var d := Distinct(hs, v - 1);
      assert forall a :: 0 <= a < |d| ==> d[a] in d;
    }
  }

  lemma {:induction false} DistinctGrows(hs: seq<Hist>, a: nat, b: nat)
    requires a <= b && forall j :: 0 <= j < |hs| ==> b <= |hs[j].data|
    ensures Distinct(hs, a) <= Distinct(hs, b)
    ensures (forall v :: a <= v < b ==> Merged(hs, v) == 0) ==> Distinct(hs, a) == Distinct(hs, b)
    decreases b
  {
    if a < b { DistinctGrows(hs, a, b - 1); }
  }

  lemma DistinctRange(hs: seq<Hist>, limit: nat)
    requires AllOk(hs, limit) && limit > 0
    ensures MaxOf(hs) < limit
    ensures forall j :: 0 <= j < |hs| ==> |hs[j].data| == limit
    ensures MinOf(hs) <= limit ==> Distinct(hs, MinOf(hs)) == []
    ensures Distinct(hs, limit) == Distinct(hs, MaxOf(hs) + 1)
    ensures MinOf(hs) > MaxOf(hs) ==> Distinct(hs, limit) == []
  {
    hide MinOf, MaxOf, Merged;
    RangeFacts(hs, limit);
    forall v | 0 <= v < limit ensures Merged(hs, v) > 0 ==> MinOf(hs) <= v <= MaxOf(hs) {
      MergedInRange(hs, limit, v);
    }
    if MinOf(hs) <= limit { DistinctGrows(hs, 0, MinOf(hs)); }
    DistinctGrows(hs, MaxOf(hs) + 1, limit);
    if MinOf(hs) > MaxOf(hs) { DistinctGrows(hs, 0, limit); }
  }

  /** stats_value_at: the index-th merged value and its merged count, or 0 and the number
      of distinct values when there are not that many. */
  method ValueAt(hs: seq<Hist>, index: nat, ghost limit: nat) returns (v: nat, count: nat)
    requires AllOk(hs, limit) && limit > 0
    ensures index < |Distinct(hs, limit)| ==>
      v == Distinct(hs, limit)[index] && v < limit && count == Merged(hs, v)
    ensures index >= |Distinct(hs, limit)| ==> v == 0 && count == |Distinct(hs, limit)|
  {
    hide HistOk, Merged, MinOf, MaxOf;
    DistinctRange(hs, limit);
    var min := StatsMin(hs);
    var max := StatsMax(hs);
    count := 0;
    var i := min;
    while i <= max
      invariant min <= i && (min <= max ==> i <= max + 1)
      invariant i <= max + 1 ==> count == |Distinct(hs, i)|
      invariant min > max ==> count == 0
      invariant count <= index
    {
      var data := SumAt(hs, i);
      if data > 0 {
        count := count + 1;
        if count - 1 == index {
          assert Distinct(hs, i + 1)[index] == i;
          DistinctGrows(hs, i + 1, limit);
          return i, data;
        }
      }
      i := i + 1;
    }
    v := 0;
  }

  /** Nonzero buckets below `v`. */
  function NonZero(d: seq<nat>, v: nat): (r: nat)
    requires v <= |d|
  {
    if v == 0 then 0 else NonZero(d, v - 1) + (if d[v - 1] > 0 then 1 else 0)
  }

  /** Nonzero buckets below `v`, counted per thread and added up. */
  function PerThread(hs: seq<Hist>, v: nat): (r: nat)
    requires forall j :: 0 <= j < |hs| ==> v <= |hs[j].data|
  {
    if hs == [] then 0 else PerThread(hs[..|hs| - 1], v) + NonZero(hs[|hs| - 1].data, v)
  }

  /** Threads that recorded the value `v`. */
  function Holders(hs: seq<Hist>, v: nat): (r: nat)
    requires forall j :: 0 <= j < |hs| ==> v < |hs[j].data|
  {
    if hs == [] then 0 else Holders(hs[..|hs| - 1], v) + (if hs[|hs| - 1].data[v] > 0 then 1 else 0)
  }

  lemma {:induction false} PerThreadStep(hs: seq<Hist>, v: nat)
    requires forall j :: 0 <= j < |hs| ==> v < |hs[j].data|
    ensures PerThread(hs, v + 1) == PerThread(hs, v) + Holders(hs, v)
  {
    if hs != [] { PerThreadStep(hs[..|hs| - 1], v); }
  }

  lemma {:induction false} PerThreadZero(hs: seq<Hist>)
    ensures PerThread(hs, 0) == 0
  {
    if hs != [] { PerThreadZero(hs[..|hs| - 1]); }
  }

  /** Thread `j` recorded the value `v`. */
  predicate Has(hs: seq<Hist>, j: nat, v: nat)
    requires forall k :: 0 <= k < |hs| ==> v < |hs[k].data|
  {
    j < |hs| && hs[j].data[v] > 0
  }

  /** Two threads recorded the value `v`. */
  ghost predicate SharedBy(hs: seq<Hist>, v: nat)
    requires forall j :: 0 <= j < |hs| ==> v < |hs[j].data|
  {
    exists j, k :: 0 <= j < k && Has(hs, j, v) && Has(hs, k, v)
  }

  lemma {:induction false} HoldersPositive(hs: seq<Hist>, v: nat)
    requires forall j :: 0 <= j < |hs| ==> v < |hs[j].data|
    ensures Holders(hs, v) > 0 <==> Merged(hs, v) > 0
    ensures Holders(hs, v) > 0 <==> exists j :: 0 <= j && Has(hs, j, v)
  {
    if hs != [] {
      var n := |hs| - 1;
      var t := hs[..n];
      HoldersPositive(t, v);
      if j :| 0 <= j && Has(t, j, v) { assert Has(hs, j, v); }
      if j :| 0 <= j && Has(hs, j, v) { assert j < n ==> Has(t, j, v); }
      assert hs[n].data[v] > 0 ==> Has(hs, n, v);
    }
  }

  lemma {:induction false} HoldersShared(hs: seq<Hist>, v: nat)
    requires forall j :: 0 <= j < |hs| ==> v < |hs[j].data|
    ensures Holders(hs, v) > 1 <==> SharedBy(hs, v)
  {
    if hs != [] {
      var n := |hs| - 1;
      var t := hs[..n];
      HoldersShared(t, v);
      HoldersPositive(t, v);
      if SharedBy(hs, v) {
        var j, k :| 0 <= j < k && Has(hs, j, v) && Has(hs, k, v);
        assert Has(t, j, v);
        if k < n { assert Has(t, k, v); }
      }
      if SharedBy(t, v) {
        var j, k :| 0 <= j < k && Has(t, j, v) && Has(t, k, v);
        assert Has(hs, j, v) && Has(hs, k, v);
      }
      if Has(hs, n, v) && exists j :: 0 <= j && Has(t, j, v) {
        var j :| 0 <= j && Has(t, j, v);
        assert Has(hs, j, v);
      }
    }
  }

  /** The per-thread sum is the number of merged distinct values exactly when no value is
      shared between threads; otherwise it is larger. */
  lemma {:induction false} PopcountExact(hs: seq<Hist>, v: nat)
    requires forall j :: 0 <= j < |hs| ==> v <= |hs[j].data|
    ensures PerThread(hs, v) >= |Distinct(hs, v)|
    ensures PerThread(hs, v) == |Distinct(hs, v)| <==> forall u :: 0 <= u < v ==> !SharedBy(hs, u)
  {
    hide SharedBy, Holders, Merged, PerThread, Has;
    if v == 0 {
      PerThreadZero(hs);
    } else {
      PopcountExact(hs, v - 1);
      PerThreadStep(hs, v - 1);
      HoldersPositive(hs, v - 1);
      HoldersShared(hs, v - 1);
    }
  }

  /** Two threads that both recorded the value 0: counted twice, though it is one value. */
  lemma PopcountCountsTwice()
    ensures var h := Hist([1], 1, 0, 0); PerThread([h, h], 1) == 2 && |Distinct([h, h], 1)| == 1
  {
    var h := Hist([1], 1, 0, 0);
    var hs := [h, h];
    assert Has(hs, 0, 0) && Has(hs, 1, 0);
    assert SharedBy(hs, 0);
    assert hs[..1] == [h] && [h][..0] == [];
    assert NonZero([1], 1) == 1;
    assert PerThread([h], 1) == 1;
    assert Merged([h], 0) == 1;
    assert Merged(hs, 0) == 2;
    assert Distinct(hs, 1) == [0];
  }

  lemma {:induction false} NonZeroFlat(d: seq<nat>, a: nat, b: nat)
    requires a <= b <= |d| && forall v :: a <= v < b ==> d[v] == 0
    ensures NonZero(d, a) == NonZero(d, b)
  {
    if a < b { NonZeroFlat(d, a, b - 1); }
  }

  method Popcount(hs: seq<Hist>, ghost limit: nat) returns (count: nat)
    requires AllOk(hs, limit) && limit > 0
    ensures forall j :: 0 <= j < |hs| ==> |hs[j].data| == limit
    ensures count == PerThread(hs, limit)
  {
    count := 0;
    assert forall j :: 0 <= j < |hs| ==> HistOk(hs[j], limit);
    for j := 0 to |hs|
      invariant count == PerThread(hs[..j], limit)
    {
      var n := CountNonZero(hs[j], limit);
      assert hs[..j + 1][..j] == hs[..j];
      count := count + n;
    }
    assert hs[..|hs|] == hs;
  }

  /** The inner loop of stats_popcount. */
  method CountNonZero(h: Hist, ghost limit: nat) returns (count: nat)
    requires HistOk(h, limit)
    ensures count == NonZero(h.data, limit)
  {
    count := 0;
    NonZeroFlat(h.data, h.max + 1, limit);
    if h.min <= h.max {
      NonZeroFlat(h.data, 0, h.min);
    } else {
      NonZeroFlat(h.data, 0, limit);
    }
    var i := h.min;
    while i <= h.max
      invariant h.min <= i && (h.min <= h.max ==> i <= h.max + 1)
      invariant i <= h.max + 1 ==> count == NonZero(h.data, i)
      invariant h.min > h.max ==> count == 0
    {
      if h.data[i] > 0 { count := count + 1; }
      i := i + 1;
    }
  }
}
