/** The window aggregator: it walks down from the head block by a fixed stride,
    fetches each sampled block from the chain client, runs the per-block
    extractor on it, collects three series (base fees, positive median effective
    prices, positive median tips) and turns them into percentiles and an
    EIP-1559 recommendation. The chain client is a map from height to block; a
    height it does not hold is a fetch failure, which ends the whole analysis. */
module Window {
  import opened Outcomes
  import opened Stats
  import opened Fees
  import Networks

  /** The height the chain client failed to return. */
  datatype FetchError = BlockNotFound(height: int)

  datatype BaseFeeSummary = BaseFeeSummary(p50: real, pTarget: real, min: real, max: real)
  datatype TipSummary = TipSummary(p50: real, pTarget: real)
  datatype Recommendation = Recommendation(maxPriorityFee: real, maxFeePerGas: real)

  /** The result of one analysis; every fee is in gwei, rounded to three decimals. */
  datatype FeeReport = FeeReport(
    chainId: int,
    network: string,
    head: int,
    sampledBlocks: nat,
    blockWindow: int,
    step: int,
    targetPercentile: real,
    baseFee: BaseFeeSummary,
    medianEffectivePrice: real,
    medianTip: TipSummary,
    recommended: Recommendation)

  /** The three series one analysis collects, in sampling order. */
  datatype Series = Series(baseFees: seq<real>, effs: seq<real>, tips: seq<real>)

  /** The lowest height of the window, `max(0, head - blocks + 1)`. */
  function StartBlock(head: int, blocks: int): (s: nat)
    ensures s >= head - blocks + 1
    ensures s == 0 || s == head - blocks + 1
  {
    if head - blocks + 1 > 0 then head - blocks + 1 else 0
  }

  /** The heights `range(n, floor - 1, -step)` visits: it starts at `n`, each
      height is `step` below the previous one, none is below `floor`, and the
      next one would be. */
  function SampledHeights(n: int, floor: int, step: int): (hs: seq<int>)
    requires step > 0
    ensures hs == [] <==> n < floor
    ensures hs != [] ==> hs[0] == n && hs[|hs| - 1] - step < floor
    ensures forall k :: 0 <= k < |hs| ==> hs[k] >= floor
    ensures forall k :: 0 <= k < |hs| - 1 ==> hs[k + 1] == hs[k] - step
    decreases if n < floor then 0 else n - floor + 1
  {
    if n < floor then [] else [n] + SampledHeights(n - step, floor, step)
  }

  /** The sampled heights strictly descend. */
  lemma {:induction false} SampledHeightsDescend(n: int, floor: int, step: int, i: int, j: int)
    requires step > 0
    requires 0 <= i < j < |SampledHeights(n, floor, step)|
    ensures SampledHeights(n, floor, step)[i] > SampledHeights(n, floor, step)[j]
    decreases j - i
  {
    if j > i + 1 {
      SampledHeightsDescend(n, floor, step, i, j - 1);
    }
  }

  lemma MulAtLeast(k: int, d: int)
    requires k >= 1 && d > 0
    ensures k * d >= d
  {
    assert k * d == (k - 1) * d + d;
    assert (k - 1) * d >= 0;
  }

  /** Euclidean division is determined by quotient and remainder. */
  lemma DivUnique(a: int, d: int, q: int, r: int)
    requires d > 0 && 0 <= r < d && a == q * d + r
    ensures a / d == q
  {
    var q0, r0 := a / d, a % d;
    assert a == q0 * d + r0 && 0 <= r0 < d;
    if q0 > q {
      assert (q0 - q) * d == r - r0 by { assert (q0 - q) * d == q0 * d - q * d; }
      MulAtLeast(q0 - q, d);
    } else if q0 < q {
      assert (q - q0) * d == r0 - r by { assert (q - q0) * d == q * d - q0 * d; }
      MulAtLeast(q - q0, d);
    }
  }

  lemma DivStep(a: int, d: int)
    requires a >= d > 0
    ensures a / d == (a - d) / d + 1
  {
    var q, r := (a - d) / d, (a - d) % d;
    assert a - d == q * d + r;
    assert a == (q + 1) * d + r;
    DivUnique(a, d, q + 1, r);
  }

  lemma DivSmall(a: int, d: int)
    requires 0 <= a < d
    ensures a / d == 0
  {
    DivUnique(a, d, 0, a);
  }

  /** How many heights are sampled: `(n - floor) / step + 1` when `n >= floor`. */
  lemma {:induction false} SampledHeightsCount(n: int, floor: int, step: int)
    requires step > 0
    ensures |SampledHeights(n, floor, step)| == if n < floor then 0 else (n - floor) / step + 1
    decreases if n < floor then 0 else n - floor + 1
  {
    if n >= floor {
      SampledHeightsCount(n - step, floor, step);
      if n - step < floor {
        DivSmall(n - floor, step);
      } else {
        DivStep(n - floor, step);
      }
    }
  }

  /** A window of 1000 blocks below head 5 with stride 3 samples heights 5 and 2. */
  lemma SmallHeadExample()
    ensures SampledHeights(5, StartBlock(5, 1000), 3) == [5, 2]
  {
    assert StartBlock(5, 1000) == 0;
    assert SampledHeights(-1, 0, 3) == [];
    assert SampledHeights(2, 0, 3) == [2];
  }

  /** The index of the first height the chain client does not hold, or the
      number of heights when it holds them all. */
  function FirstMissing(chain: map<int, Block>, hs: seq<int>): (i: nat)
    ensures i <= |hs|
    ensures forall k :: 0 <= k < i ==> hs[k] in chain
    ensures i < |hs| ==> hs[i] !in chain
  {
    if hs == [] then 0
    else if hs[0] !in chain then 0
    else 1 + FirstMissing(chain, hs[1..])
  }

  /** The series the sampling loop builds from the statistics of the sampled
      blocks, one block at a time: every base fee, and a block's median effective
      price and median tip only when they are positive. */
  function CollectSeries(ss: seq<BlockFeeStats>): Series {
    if ss == [] then Series([], [], [])
    else
      var prev := CollectSeries(ss[..|ss| - 1]);
      var st := ss[|ss| - 1];
      Series(
        prev.baseFees + [st.baseFee],
        if st.medianEffective > 0.0 then prev.effs + [st.medianEffective] else prev.effs,
        if st.medianTip > 0.0 then prev.tips + [st.medianTip] else prev.tips)
  }

  /** The base-fee series has one entry per sampled block, that block's base fee;
      the other two series hold only positive values and at most one per block. */
  lemma {:induction false} SeriesShape(ss: seq<BlockFeeStats>)
    ensures var sr := CollectSeries(ss);
      && |sr.baseFees| == |ss|
      && (forall k :: 0 <= k < |ss| ==> sr.baseFees[k] == ss[k].baseFee)
      && |sr.effs| <= |ss| && |sr.tips| <= |ss|
      && (forall x :: x in sr.effs ==> x > 0.0)
      && (forall x :: x in sr.tips ==> x > 0.0)
  {
    if ss != [] {
      var prefix := ss[..|ss| - 1];
      SeriesShape(prefix);
      assert forall k :: 0 <= k < |prefix| ==> prefix[k] == ss[k];
    }
  }

  /** Every block whose median effective price (median tip) is positive has it
      in the effective-price (tip) series. */
  lemma {:induction false} SeriesKeepsPositive(ss: seq<BlockFeeStats>, k: int)
    requires 0 <= k < |ss|
    ensures ss[k].medianEffective > 0.0 ==> ss[k].medianEffective in CollectSeries(ss).effs
    ensures ss[k].medianTip > 0.0 ==> ss[k].medianTip in CollectSeries(ss).tips
  {
    if k < |ss| - 1 {
      var prefix := ss[..|ss| - 1];
      SeriesKeepsPositive(prefix, k);
      assert prefix[k] == ss[k];
    }
  }

  /** Every entry of the effective-price (tip) series is the median effective
      price (median tip) of some sampled block. */
  lemma {:induction false} SeriesSources(ss: seq<BlockFeeStats>, x: real)
    ensures x in CollectSeries(ss).effs ==>
      exists k :: 0 <= k < |ss| && ss[k].medianEffective == x
    ensures x in CollectSeries(ss).tips ==>
      exists k :: 0 <= k < |ss| && ss[k].medianTip == x
  {
    if ss != [] {
      var prefix := ss[..|ss| - 1];
      var last := |ss| - 1;
      SeriesSources(prefix, x);
      if x in CollectSeries(prefix).effs {
        var k :| 0 <= k < |prefix| && prefix[k].medianEffective == x;
        assert ss[k].medianEffective == x;
      }
      if x in CollectSeries(prefix).tips {
        var k :| 0 <= k < |prefix| && prefix[k].medianTip == x;
        assert ss[k].medianTip == x;
      }
      assert ss[last].medianEffective == x ==> exists k :: 0 <= k < |ss| && ss[k].medianEffective == x;
      assert ss[last].medianTip == x ==> exists k :: 0 <= k < |ss| && ss[k].medianTip == x;
    }
  }

  /** `max(tip_p50, tip_target) * 1.2`: a 20% margin over the larger of the two
      tips, so it is at least either of them once they are not negative. */
  function RecommendedTip(tipP50: real, tipTarget: real): (t: real)
    ensures t >= 1.2 * tipP50 && t >= 1.2 * tipTarget
    ensures t == 1.2 * tipP50 || t == 1.2 * tipTarget
    ensures tipP50 >= 0.0 || tipTarget >= 0.0 ==> t >= tipP50 && t >= tipTarget && t >= 0.0
  {
    var larger := if tipTarget > tipP50 then tipTarget else tipP50;
    larger * 1.2
  }

  /** The base-fee summary: median, target percentile, minimum and maximum of
      the base-fee series, each rounded to three decimals (all 0 when the series
      is empty). */
  function BaseFeeStats(baseFees: seq<real>, q: real): BaseFeeSummary {
    BaseFeeSummary(
      Round3(MedianOrZero(baseFees)), Round3(Pct(baseFees, q)),
      if |baseFees| > 0 then Round3(SeqMin(baseFees)) else 0.0,
      if |baseFees| > 0 then Round3(SeqMax(baseFees)) else 0.0)
  }

  /** The tip summary: median and target percentile of the tip series, rounded. */
  function TipStats(tips: seq<real>, q: real): TipSummary {
    TipSummary(Round3(MedianOrZero(tips)), Round3(Pct(tips, q)))
  }

  /** The recommendation, from the unrounded target base fee, median tip and
      target tip: the priority fee is `round(max(tip_p50, tip_target) * 1.2, 3)`
      and the fee cap `round(base_target + priority_fee, 3)`. */
  function Recommend(baseTarget: real, tipP50: real, tipTarget: real): Recommendation {
    var recommendedTip := Round3(RecommendedTip(tipP50, tipTarget));
    Recommendation(recommendedTip, Round3(baseTarget + recommendedTip))
  }

  /** The aggregation tail of `analyze_fees`: the summaries of the base-fee and
      tip series, the median of the effective-price series and the recommendation. */
  function Report(
    chainId: int, head: int, sampled: nat, blocks: int, step: int, q: real, sr: Series
  ): FeeReport
  {
    FeeReport(
      chainId, Networks.NetworkName(chainId), head, sampled, blocks, step, q,
      BaseFeeStats(sr.baseFees, q),
      if |sr.effs| > 0 then Round3(Median(sr.effs)) else 0.0,
      TipStats(sr.tips, q),
      Recommend(Pct(sr.baseFees, q), MedianOrZero(sr.tips), Pct(sr.tips, q)))
  }

  /** The statistics of the sampled blocks, in sampling order; defined when the
      chain client holds every sampled height. */
  function SampledStats(chain: map<int, Block>, hs: seq<int>): (ss: seq<BlockFeeStats>)
    requires forall k :: 0 <= k < |hs| ==> hs[k] in chain
    ensures |ss| == |hs|
  {
    seq(|hs|, k requires 0 <= k < |hs| => BlockStats(chain[hs[k]]))
  }

  /** What `analyze_fees` returns for a chain, a head height, a window size, a
      stride and a target percentile: the report, or the first sampled height the
      chain client could not return. */
  function Analyze(
    chain: map<int, Block>, chainId: int, head: int, blocks: int, step: int, q: real
  ): Result<FeeReport, FetchError>
    requires blocks > 0 && step > 0
  {
    var hs := SampledHeights(head, StartBlock(head, blocks), step);
    var i := FirstMissing(chain, hs);
    if i < |hs| then Err(BlockNotFound(hs[i]))
    else Ok(Report(chainId, head, |hs|, blocks, step, q, CollectSeries(SampledStats(chain, hs))))
  }

  /** One step of the sampling walk: from the height at position `i`, the walk
      goes on exactly when the height `step` lower is still within the window. */
  lemma WalkStep(hs: seq<int>, head: int, floor: int, step: int, i: nat)
    requires step > 0 && hs == SampledHeights(head, floor, step)
    requires i < |hs|
    ensures i + 1 < |hs| <==> hs[i] - step >= floor
    ensures i + 1 < |hs| ==> hs[i + 1] == hs[i] - step
  {
    if i + 1 < |hs| {
      assert hs[i + 1] == hs[i] - step && hs[i + 1] >= floor;
    } else {
      assert hs[|hs| - 1] - step < floor;
    }
  }

  lemma SampledStatsSnoc(chain: map<int, Block>, hs: seq<int>, i: nat)
    requires i < |hs| && forall k :: 0 <= k <= i ==> hs[k] in chain
    ensures SampledStats(chain, hs[..i + 1]) == SampledStats(chain, hs[..i]) + [BlockStats(chain[hs[i]])]
  {
    var longer := SampledStats(chain, hs[..i + 1]);
    var extended := SampledStats(chain, hs[..i]) + [BlockStats(chain[hs[i]])];
    assert |longer| == i + 1 == |extended|;
    forall k | 0 <= k < i + 1
      ensures longer[k] == extended[k]
    {
      assert hs[..i + 1][k] == hs[k];
      if k < i {
        assert hs[..i][k] == hs[k];
      }
    }
  }

  lemma CollectSeriesSnoc(ss: seq<BlockFeeStats>, st: BlockFeeStats)
    ensures CollectSeries(ss + [st]) == Series(
      CollectSeries(ss).baseFees + [st.baseFee],
      if st.medianEffective > 0.0 then CollectSeries(ss).effs + [st.medianEffective] else CollectSeries(ss).effs,
      if st.medianTip > 0.0 then CollectSeries(ss).tips + [st.medianTip] else CollectSeries(ss).tips)
  {
    assert (ss + [st])[..|ss|] == ss;
  }

  /** The analysis fails at the first sampled height the chain client lacks. */
  lemma AnalyzeAtMissing(
    chain: map<int, Block>, chainId: int, head: int, blocks: int, step: int, q: real,
    hs: seq<int>, i: nat)
    requires blocks > 0 && step > 0
    requires hs == SampledHeights(head, StartBlock(head, blocks), step)
    requires i < |hs| && hs[i] !in chain && forall k :: 0 <= k < i ==> hs[k] in chain
    ensures Analyze(chain, chainId, head, blocks, step, q) == Err(BlockNotFound(hs[i]))
  {
    assert FirstMissing(chain, hs) == i;
  }

  lemma AnalyzeAllPresent(
    chain: map<int, Block>, chainId: int, head: int, blocks: int, step: int, q: real,
    hs: seq<int>)
    requires blocks > 0 && step > 0
    requires hs == SampledHeights(head, StartBlock(head, blocks), step)
    requires forall k :: 0 <= k < |hs| ==> hs[k] in chain
    ensures Analyze(chain, chainId, head, blocks, step, q)
      == Ok(Report(chainId, head, |hs|, blocks, step, q, CollectSeries(SampledStats(chain, hs))))
  {
  }

  /** The state of the sampling loop after `sampled` passes: the next height to
      fetch is `n` while heights remain, every height so far was present, `seen`
      holds their statistics and `sr` the series collected from them. */
  ghost predicate Sampling(
    chain: map<int, Block>, hs: seq<int>, start: int, sampled: nat, n: int,
    seen: seq<BlockFeeStats>, sr: Series)
  {
    && sampled <= |hs|
    && (sampled < |hs| <==> n >= start)
    && (sampled < |hs| ==> hs[sampled] == n)
    && (forall k :: 0 <= k < sampled ==> hs[k] in chain)
    && seen == SampledStats(chain, hs[..sampled])
    && sr == CollectSeries(seen)
  }

  /** One pass of the sampling loop over a present block keeps `Sampling`: the
      walk moves `step` lower, the records gain the block's statistics, and the
      series grow as zkapp.py appends to them. */
  lemma SamplingStep(
    chain: map<int, Block>, hs: seq<int>, head: int, start: int, step: int,
    sampled: nat, n: int, seen: seq<BlockFeeStats>, sr: Series, stats: BlockFeeStats)
    requires step > 0 && hs == SampledHeights(head, start, step)
    requires Sampling(chain, hs, start, sampled, n, seen, sr)
    requires n >= start && n in chain && stats == BlockStats(chain[n])
    ensures Sampling(chain, hs, start, sampled + 1, n - step, seen + [stats], Series(
      sr.baseFees + [stats.baseFee],
      if stats.medianEffective > 0.0 then sr.effs + [stats.medianEffective] else sr.effs,
      if stats.medianTip > 0.0 then sr.tips + [stats.medianTip] else sr.tips))
  {
    WalkStep(hs, head, start, step, sampled);
    SampledStatsSnoc(chain, hs, sampled);
    CollectSeriesSnoc(seen, stats);
  }

  /** The loop meets a sampled height the chain client lacks: the analysis fails there. */
  lemma SamplingMissing(
    chain: map<int, Block>, chainId: int, head: int, blocks: int, step: int, q: real,
    hs: seq<int>, sampled: nat, n: int, seen: seq<BlockFeeStats>, sr: Series)
    requires blocks > 0 && step > 0
    requires hs == SampledHeights(head, StartBlock(head, blocks), step)
    requires Sampling(chain, hs, StartBlock(head, blocks), sampled, n, seen, sr)
    requires n >= StartBlock(head, blocks) && n !in chain
    ensures Analyze(chain, chainId, head, blocks, step, q) == Err(BlockNotFound(n))
  {
    AnalyzeAtMissing(chain, chainId, head, blocks, step, q, hs, sampled);
  }

  /** The loop walks below the window: every sampled height was present, and the
      analysis reports the collected series. */
  lemma SamplingDone(
    chain: map<int, Block>, chainId: int, head: int, blocks: int, step: int, q: real,
    hs: seq<int>, sampled: nat, n: int, seen: seq<BlockFeeStats>, sr: Series)
    requires blocks > 0 && step > 0
    requires hs == SampledHeights(head, StartBlock(head, blocks), step)
    requires Sampling(chain, hs, StartBlock(head, blocks), sampled, n, seen, sr)
    requires n < StartBlock(head, blocks)
    ensures Analyze(chain, chainId, head, blocks, step, q)
      == Ok(Report(chainId, head, sampled, blocks, step, q, sr))
  {
    assert hs[..sampled] == hs;
    AnalyzeAllPresent(chain, chainId, head, blocks, step, q, hs);
  }

  /** The sampling loop of `analyze_fees`: fetch each sampled block, run the
      extractor on it, append to the three series, then aggregate. */
  method AnalyzeFees(
    chain: map<int, Block>, chainId: int, head: int, blocks: int, step: int, q: real
  ) returns (r: Result<FeeReport, FetchError>)
    requires blocks > 0 && step > 0
    ensures r == Analyze(chain, chainId, head, blocks, step, q)
  {
    var start := StartBlock(head, blocks);
    ghost var hs := SampledHeights(head, start, step);
    var baseFees: seq<real> := [];
    var effs: seq<real> := [];
    var tips: seq<real> := [];
    var sampled: nat := 0;
    ghost var seen: seq<BlockFeeStats> := [];
    var n := head;
    while n >= start
      invariant Sampling(chain, hs, start, sampled, n, seen, Series(baseFees, effs, tips))
      decreases n - start
    {
      if n !in chain {
        SamplingMissing(chain, chainId, head, blocks, step, q, hs, sampled, n, seen, Series(baseFees, effs, tips));
        r := Err(BlockNotFound(n));
        return;
      }
      var blk := chain[n];
      var stats := SampleBlockFees(blk);
      SamplingStep(chain, hs, head, start, step, sampled, n, seen, Series(baseFees, effs, tips), stats);
      baseFees := baseFees + [stats.baseFee];
      if stats.medianEffective > 0.0 {
        effs := effs + [stats.medianEffective];
      }
      if stats.medianTip > 0.0 {
        tips := tips + [stats.medianTip];
      }
      seen := seen + [stats];
      sampled := sampled + 1;
      n := n - step;
    }
    SamplingDone(chain, chainId, head, blocks, step, q, hs, sampled, n, seen, Series(baseFees, effs, tips));
    r := Ok(Report(chainId, head, sampled, blocks, step, q, Series(baseFees, effs, tips)));
  }

  /** `(n - floor) / step` never exceeds `n - floor`. */
  lemma DivAtMost(a: int, d: int)
    requires a >= 0 && d > 0
    ensures 0 <= a / d <= a
  {
    var q, r := a / d, a % d;
    assert a == q * d + r;
    if q > 0 {
      MulAtLeast(d, q);
    }
  }

  /** The analysis fails exactly when some sampled height is missing from the
      chain client, and then it names the first such height in sampling order;
      no report is produced in that case. */
  lemma AnalyzeFailsIffMissing(
    chain: map<int, Block>, chainId: int, head: int, blocks: int, step: int, q: real)
    requires blocks > 0 && step > 0
    ensures var hs := SampledHeights(head, StartBlock(head, blocks), step);
      var r := Analyze(chain, chainId, head, blocks, step, q);
      && (r.Err? <==> exists k :: 0 <= k < |hs| && hs[k] !in chain)
      && (r.Err? ==> exists i :: 0 <= i < |hs| && hs[i] == r.error.height && hs[i] !in chain
                                && forall k :: 0 <= k < i ==> hs[k] in chain)
  {
    var hs := SampledHeights(head, StartBlock(head, blocks), step);
    var i := FirstMissing(chain, hs);
    if i < |hs| {
      AnalyzeAtMissing(chain, chainId, head, blocks, step, q, hs, i);
      assert hs[i] !in chain;
    } else {
      AnalyzeAllPresent(chain, chainId, head, blocks, step, q, hs);
      assert forall k :: 0 <= k < |hs| ==> hs[k] in chain;
    }
  }

  /** A successful analysis samples `(head - start) / step + 1` blocks (none when
      the head is below the start of the window), never more than the window
      holds, and echoes its inputs and the network name of the chain ID. */
  lemma AnalyzeSampleCount(
    chain: map<int, Block>, chainId: int, head: int, blocks: int, step: int, q: real)
    requires blocks > 0 && step > 0
    ensures var r := Analyze(chain, chainId, head, blocks, step, q);
      var start := StartBlock(head, blocks);
      r.Ok? ==>
        && r.value.sampledBlocks == (if head < start then 0 else (head - start) / step + 1)
        && r.value.sampledBlocks <= blocks
        && r.value.chainId == chainId && r.value.network == Networks.NetworkName(chainId)
        && r.value.head == head && r.value.blockWindow == blocks && r.value.step == step
        && r.value.targetPercentile == q
  {
    var start := StartBlock(head, blocks);
    var hs := SampledHeights(head, start, step);
    SampledHeightsCount(head, start, step);
    if FirstMissing(chain, hs) == |hs| {
      assert Analyze(chain, chainId, head, blocks, step, q).value.sampledBlocks == |hs|;
      if head >= start {
        DivAtMost(head - start, step);
        assert head - start <= blocks - 1;
      }
    }
  }

  /** The base-fee summary is ordered: its minimum is at most its median and its
      target percentile, which are at most its maximum. */
  lemma BaseFeeStatsOrdered(baseFees: seq<real>, q: real)
    ensures var b := BaseFeeStats(baseFees, q);
      b.min <= b.p50 <= b.max && b.min <= b.pTarget <= b.max
  {
    if |baseFees| > 0 {
      var p50, target := MedianOrZero(baseFees), Pct(baseFees, q);
      Round3Monotone(SeqMin(baseFees), p50);
      Round3Monotone(p50, SeqMax(baseFees));
      Round3Monotone(SeqMin(baseFees), target);
      Round3Monotone(target, SeqMax(baseFees));
    } else {
      RoundOfInteger(0);
      assert Round3(0.0) == 0.0;
    }
  }

  /** With non-negative inputs, the recommended priority fee is non-negative and
      covers the rounded median and target tips, and the recommended fee cap
      covers the rounded target base fee and the priority fee (as EIP-1559
      requires of a fee cap). */
  lemma RecommendBounds(baseTarget: real, tipP50: real, tipTarget: real)
    requires baseTarget >= 0.0 && tipP50 >= 0.0 && tipTarget >= 0.0
    ensures var rec := Recommend(baseTarget, tipP50, tipTarget);
      && rec.maxPriorityFee >= 0.0
      && rec.maxPriorityFee >= Round3(tipP50) && rec.maxPriorityFee >= Round3(tipTarget)
      && rec.maxFeePerGas >= Round3(baseTarget)
      && rec.maxFeePerGas >= rec.maxPriorityFee
    ensures var rec := Recommend(baseTarget, tipP50, tipTarget);
      baseTarget + rec.maxPriorityFee - 0.0005 <= rec.maxFeePerGas <= baseTarget + rec.maxPriorityFee + 0.0005
  {
    var larger := RecommendedTip(tipP50, tipTarget);
    var recTip := Round3(larger);
    Round3Monotone(tipP50, larger);
    Round3Monotone(tipTarget, larger);
    Round3NonNegative(larger);
    Round3Monotone(baseTarget, baseTarget + recTip);
    Round3Monotone(recTip, baseTarget + recTip);
    Round3Idempotent(larger);
  }

  /** A higher target base fee or target tip never lowers the recommendation. */
  lemma RecommendMonotone(b1: real, b2: real, tipP50: real, t1: real, t2: real)
    requires b1 <= b2 && t1 <= t2
    ensures Recommend(b1, tipP50, t1).maxPriorityFee <= Recommend(b2, tipP50, t2).maxPriorityFee
    ensures Recommend(b1, tipP50, t1).maxFeePerGas <= Recommend(b2, tipP50, t2).maxFeePerGas
  {
    var l1, l2 := RecommendedTip(tipP50, t1), RecommendedTip(tipP50, t2);
    Round3Monotone(l1, l2);
    Round3Monotone(b1 + Round3(l1), b2 + Round3(l2));
  }

  /** Target base fee 12 gwei, median tip 1 and target tip 2 gwei: the priority
      fee is 1.2 * 2 = 2.4 gwei and the fee cap 12 + 2.4 = 14.4 gwei. */
  lemma RecommendExample()
    ensures Recommend(12.0, 1.0, 2.0) == Recommendation(2.4, 14.4)
  {
    assert RecommendedTip(1.0, 2.0) == 2.4;
    RoundOfInteger(2400);
    assert 2.4 * 1000.0 == 2400 as real;
    assert Round3(2.4) == 2.4;
    RoundOfInteger(14400);
    assert (12.0 + 2.4) * 1000.0 == 14400 as real;
    assert Round3(12.0 + 2.4) == 14.4;
  }

  /** What a report guarantees once its base fees are non-negative and its tips
      positive: an ordered base-fee summary and a recommendation covering the
      reported median and target tips and the reported target base fee. */
  lemma ReportBounds(
    chainId: int, head: int, sampled: nat, blocks: int, step: int, q: real, sr: Series)
    requires forall x :: x in sr.baseFees ==> x >= 0.0
    requires forall x :: x in sr.tips ==> x > 0.0
    ensures var rep := Report(chainId, head, sampled, blocks, step, q, sr);
      && rep.baseFee.min <= rep.baseFee.p50 <= rep.baseFee.max
      && rep.baseFee.min <= rep.baseFee.pTarget <= rep.baseFee.max
      && rep.recommended.maxPriorityFee >= rep.medianTip.p50
      && rep.recommended.maxPriorityFee >= rep.medianTip.pTarget
      && rep.recommended.maxPriorityFee >= 0.0
      && rep.recommended.maxFeePerGas >= rep.baseFee.pTarget
      && rep.recommended.maxFeePerGas >= rep.recommended.maxPriorityFee
      && rep.baseFee.pTarget + rep.recommended.maxPriorityFee - 0.001 <= rep.recommended.maxFeePerGas
      && rep.recommended.maxFeePerGas <= rep.baseFee.pTarget + rep.recommended.maxPriorityFee + 0.001
  {
    BaseFeeStatsOrdered(sr.baseFees, q);
    RecommendBounds(Pct(sr.baseFees, q), MedianOrZero(sr.tips), Pct(sr.tips, q));
  }

  /** The series of a successful analysis meet the premises of `ReportBounds`, so
      its report carries the same guarantees. */
  lemma AnalyzeRecommendationBounds(
    chain: map<int, Block>, chainId: int, head: int, blocks: int, step: int, q: real)
    requires blocks > 0 && step > 0
    ensures var r := Analyze(chain, chainId, head, blocks, step, q);
      r.Ok? ==>
        && r.value.baseFee.min <= r.value.baseFee.p50 <= r.value.baseFee.max
        && r.value.baseFee.min <= r.value.baseFee.pTarget <= r.value.baseFee.max
        && r.value.recommended.maxPriorityFee >= r.value.medianTip.p50
        && r.value.recommended.maxPriorityFee >= r.value.medianTip.pTarget
        && r.value.recommended.maxPriorityFee >= 0.0
        && r.value.recommended.maxFeePerGas >= r.value.baseFee.pTarget
        && r.value.recommended.maxFeePerGas >= r.value.recommended.maxPriorityFee
        && r.value.baseFee.pTarget + r.value.recommended.maxPriorityFee - 0.001 <= r.value.recommended.maxFeePerGas
        && r.value.recommended.maxFeePerGas <= r.value.baseFee.pTarget + r.value.recommended.maxPriorityFee + 0.001
  {
    var hs := SampledHeights(head, StartBlock(head, blocks), step);
    if FirstMissing(chain, hs) == |hs| {
      var ss := SampledStats(chain, hs);
      var sr := CollectSeries(ss);
      SeriesShape(ss);
      assert forall x :: x in sr.baseFees ==> x >= 0.0 by {
        forall x | x in sr.baseFees ensures x >= 0.0 {
          var k :| 0 <= k < |sr.baseFees| && sr.baseFees[k] == x;
          assert x == ss[k].baseFee;
        }
      }
      ReportBounds(chainId, head, |hs|, blocks, step, q, sr);
    }
  }

  /** The report depends on the three series only through the values they hold,
      not on the order in which the blocks were sampled. */
  lemma ReportOrderIndependent(
    chainId: int, head: int, sampled: nat, blocks: int, step: int, q: real, sr1: Series, sr2: Series)
    requires multiset(sr1.baseFees) == multiset(sr2.baseFees)
    requires multiset(sr1.effs) == multiset(sr2.effs)
    requires multiset(sr1.tips) == multiset(sr2.tips)
    ensures Report(chainId, head, sampled, blocks, step, q, sr1)
         == Report(chainId, head, sampled, blocks, step, q, sr2)
  {
    PctPermutation(sr1.baseFees, sr2.baseFees, q);
    PctPermutation(sr1.tips, sr2.tips, q);
    MedianOrZeroPermutation(sr1.baseFees, sr2.baseFees);
    MedianOrZeroPermutation(sr1.tips, sr2.tips);
    MedianOrZeroPermutation(sr1.effs, sr2.effs);
    assert |sr1.baseFees| == |multiset(sr1.baseFees)| == |multiset(sr2.baseFees)| == |sr2.baseFees|;
    assert |sr1.effs| == |multiset(sr1.effs)| == |multiset(sr2.effs)| == |sr2.effs|;
    if |sr1.baseFees| > 0 {
      MinMaxPermutation(sr1.baseFees, sr2.baseFees);
    }
    assert BaseFeeStats(sr1.baseFees, q) == BaseFeeStats(sr2.baseFees, q);
    assert TipStats(sr1.tips, q) == TipStats(sr2.tips, q);
    if |sr1.effs| > 0 {
      assert Median(sr1.effs) == MedianOrZero(sr1.effs) == MedianOrZero(sr2.effs) == Median(sr2.effs);
    }
  }

  /** Asking for a higher target percentile never lowers the recommendation. */
  lemma ReportMonotoneInTarget(
    chainId: int, head: int, sampled: nat, blocks: int, step: int, q1: real, q2: real, sr: Series)
    requires q1 <= q2
    ensures var r1 := Report(chainId, head, sampled, blocks, step, q1, sr).recommended;
      var r2 := Report(chainId, head, sampled, blocks, step, q2, sr).recommended;
      r1.maxPriorityFee <= r2.maxPriorityFee && r1.maxFeePerGas <= r2.maxFeePerGas
  {
    PctMonotone(sr.tips, q1, q2);
    PctMonotone(sr.baseFees, q1, q2);
    RecommendMonotone(Pct(sr.baseFees, q1), Pct(sr.baseFees, q2), MedianOrZero(sr.tips),
      Pct(sr.tips, q1), Pct(sr.tips, q2));
  }

  /** The same holds for whole analyses: the fetch outcome does not depend on the
      target, and a successful one recommends no less for a higher target. */
  lemma AnalyzeMonotoneInTarget(
    chain: map<int, Block>, chainId: int, head: int, blocks: int, step: int, q1: real, q2: real)
    requires blocks > 0 && step > 0 && q1 <= q2
    ensures var r1 := Analyze(chain, chainId, head, blocks, step, q1);
      var r2 := Analyze(chain, chainId, head, blocks, step, q2);
      && r1.Ok? == r2.Ok?
      && (r1.Ok? ==>
            r1.value.recommended.maxPriorityFee <= r2.value.recommended.maxPriorityFee
            && r1.value.recommended.maxFeePerGas <= r2.value.recommended.maxFeePerGas)
  {
    var hs := SampledHeights(head, StartBlock(head, blocks), step);
    if FirstMissing(chain, hs) == |hs| {
      ReportMonotoneInTarget(chainId, head, |hs|, blocks, step, q1, q2,
        CollectSeries(SampledStats(chain, hs)));
    }
  }

  /** Three blocks without transactions at heights 0, 1, 2 with base fees 10, 12
      and 11 gwei. */
  function ExampleChain(): map<int, Block> {
    map[0 := Block(Some(10_000_000_000), []),
        1 := Block(Some(12_000_000_000), []),
        2 := Block(Some(11_000_000_000), [])]
  }

  /** The example window samples heights 2, 1 and 0, all held by the chain. */
  lemma ExampleHeights()
    ensures SampledHeights(2, StartBlock(2, 3), 1) == [2, 1, 0]
    ensures FirstMissing(ExampleChain(), [2, 1, 0]) == 3
  {
    assert StartBlock(2, 3) == 0;
    assert SampledHeights(-1, 0, 1) == [];
    assert SampledHeights(0, 0, 1) == [0];
    assert SampledHeights(1, 0, 1) == [1, 0];
    assert FirstMissing(ExampleChain(), [0]) == 1;
    assert FirstMissing(ExampleChain(), [1, 0]) == 2;
  }

  /** Each example block has no transactions, so its statistics are its base fee
      and two zero medians. */
  lemma ExampleStats()
    ensures SampledStats(ExampleChain(), [2, 1, 0])
      == [BlockFeeStats(11.0, 0.0, 0.0), BlockFeeStats(12.0, 0.0, 0.0), BlockFeeStats(10.0, 0.0, 0.0)]
  {
    var chain := ExampleChain();
    EmptyBlockStats(chain[2]);
    EmptyBlockStats(chain[1]);
    EmptyBlockStats(chain[0]);
    assert ToGwei(11_000_000_000) == 11.0;
    assert ToGwei(12_000_000_000) == 12.0;
    assert ToGwei(10_000_000_000) == 10.0;
  }

  /** Collecting three records without positive medians keeps only their base fees. */
  lemma ExampleCollect()
    ensures CollectSeries([BlockFeeStats(11.0, 0.0, 0.0), BlockFeeStats(12.0, 0.0, 0.0), BlockFeeStats(10.0, 0.0, 0.0)])
      == Series([11.0, 12.0, 10.0], [], [])
  {
    var a, b, c := BlockFeeStats(11.0, 0.0, 0.0), BlockFeeStats(12.0, 0.0, 0.0), BlockFeeStats(10.0, 0.0, 0.0);
    CollectSeriesSnoc([], a);
    CollectSeriesSnoc([a], b);
    CollectSeriesSnoc([a, b], c);
    assert [] + [a] == [a] && [a] + [b] == [a, b] && [a, b] + [c] == [a, b, c];
  }

  /** The series of the example are its base fees in sampling order, with no
      effective prices and no tips since no block has transactions. */
  lemma ExampleSeries()
    ensures CollectSeries(SampledStats(ExampleChain(), [2, 1, 0])) == Series([11.0, 12.0, 10.0], [], [])
  {
    ExampleStats();
    ExampleCollect();
  }

  /** Sorting base fees 11, 12, 10 gives 10, 11, 12. */
  lemma ExampleSort()
    ensures SortAsc([11.0, 12.0, 10.0]) == [10.0, 11.0, 12.0]
  {
    assert [11.0, 12.0, 10.0][1..] == [12.0, 10.0];
    assert [12.0, 10.0][1..] == [10.0];
    assert SortAsc([10.0]) == [10.0];
    assert Insert(12.0, [10.0]) == [10.0, 12.0];
    assert SortAsc([12.0, 10.0]) == [10.0, 12.0];
    assert Insert(11.0, [12.0]) == [11.0, 12.0];
    assert Insert(11.0, [10.0, 12.0]) == [10.0, 11.0, 12.0];
  }

  /** Base fees 11, 12, 10 summarise to median 11, 80th percentile 12 (rank
      round(0.8 * 2) = 2 of [10, 11, 12]), minimum 10 and maximum 12. */
  lemma ExampleBaseFeeStats()
    ensures BaseFeeStats([11.0, 12.0, 10.0], 0.8) == BaseFeeSummary(11.0, 12.0, 10.0, 12.0)
    ensures Pct([11.0, 12.0, 10.0], 0.8) == 12.0
  {
    ExamplePct();
    ExampleMedian();
    ExampleMinMax();
    Round3OfInteger(10);
    Round3OfInteger(11);
    Round3OfInteger(12);
  }

  /** The 80th percentile of base fees 11, 12, 10 is the element at rank
      round(0.8 * 2) = 2 of [10, 11, 12]. */
  lemma ExamplePct()
    ensures Pct([11.0, 12.0, 10.0], 0.8) == 12.0
  {
    ExampleSort();
    assert Times(0.8, 2) == 1.6;
    assert RoundHalfEven(1.6) == 2;
    assert PctIndex(3, 0.8) == 2;
  }

  /** The median of base fees 11, 12, 10 is the middle of [10, 11, 12]. */
  lemma ExampleMedian()
    ensures MedianOrZero([11.0, 12.0, 10.0]) == 11.0
  {
    ExampleSort();
    assert Median([11.0, 12.0, 10.0]) == 11.0;
  }

  /** The minimum and the maximum of base fees 11, 12, 10. */
  lemma ExampleMinMax()
    ensures SeqMin([11.0, 12.0, 10.0]) == 10.0 && SeqMax([11.0, 12.0, 10.0]) == 12.0
  {
    var fees := [11.0, 12.0, 10.0];
    PermutationWithinRange(fees, fees, 0);
    PermutationWithinRange(fees, fees, 1);
    PermutationWithinRange(fees, fees, 2);
  }

  /** The report of the example series for the 80th percentile: base-fee
      median 11 and target 12, no tips, a zero priority fee and a fee cap of 12. */
  lemma ExampleReport()
    ensures var rep := Report(1, 2, 3, 3, 1, 0.8, Series([11.0, 12.0, 10.0], [], []));
      && rep.sampledBlocks == 3
      && rep.baseFee == BaseFeeSummary(11.0, 12.0, 10.0, 12.0)
      && rep.medianEffectivePrice == 0.0
      && rep.medianTip == TipSummary(0.0, 0.0)
      && rep.recommended == Recommendation(0.0, 12.0)
  {
    var sr := Series([11.0, 12.0, 10.0], [], []);
    ExampleBaseFeeStats();
    Round3OfInteger(0);
    Round3OfInteger(12);
    assert MedianOrZero([]) == 0.0 && Pct([], 0.8) == 0.0;
    assert Report(1, 2, 3, 3, 1, 0.8, sr).recommended
      == Recommend(Pct(sr.baseFees, 0.8), MedianOrZero(sr.tips), Pct(sr.tips, 0.8));
    assert TipStats([], 0.8) == TipSummary(0.0, 0.0);
    assert RecommendedTip(0.0, 0.0) == 0.0;
    assert Recommend(12.0, 0.0, 0.0) == Recommendation(0.0, 12.0);
  }

  /** Sampling all three blocks for the 80th percentile succeeds with the report
      of `ExampleReport`. */
  lemma ExampleAnalysis()
    ensures var r := Analyze(ExampleChain(), 1, 2, 3, 1, 0.8);
      && r.Ok?
      && r.value.sampledBlocks == 3
      && r.value.baseFee == BaseFeeSummary(11.0, 12.0, 10.0, 12.0)
      && r.value.medianEffectivePrice == 0.0
      && r.value.medianTip == TipSummary(0.0, 0.0)
      && r.value.recommended == Recommendation(0.0, 12.0)
  {
    ExampleHeights();
    ExampleSeries();
    ExampleReport();
    var sr := Series([11.0, 12.0, 10.0], [], []);
    assert Analyze(ExampleChain(), 1, 2, 3, 1, 0.8) == Ok(Report(1, 2, 3, 3, 1, 0.8, sr));
  }

  /** Without block 1 the same analysis fails at height 1, after height 2. */
  lemma ExampleMissingBlock()
    ensures Analyze(ExampleChain() - {1}, 1, 2, 3, 1, 0.8) == Err(BlockNotFound(1))
  {
    var hs := SampledHeights(2, StartBlock(2, 3), 1);
    assert SampledHeights(-1, 0, 1) == [];
    assert hs == [2, 1, 0];
    assert FirstMissing(ExampleChain() - {1}, hs) == 1;
  }
}
