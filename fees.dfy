/** The per-block fee extractor: how one block's base fee and its transactions
    turn into a base fee, a median effective gas price and a median priority tip,
    all in gwei. Fees on the chain are integers in wei; a gwei is 10^9 wei. */
module Fees {
  import opened Outcomes
  import opened Stats

  const WeiPerGwei: nat := 1_000_000_000

  /** `Web3.from_wei(wei, "gwei")`, read as an exact quotient. */
  function ToGwei(wei: nat): (g: real)
    ensures g >= 0.0
    ensures g * WeiPerGwei as real == wei as real
  {
    wei as real / WeiPerGwei as real
  }

  /** A transaction as the chain client hands it over: a type tag and three fee
      fields, each of which may be absent. */
  datatype RawTx = RawTx(
    txType: Option<int>,
    gasPrice: Option<nat>,
    maxFeePerGas: Option<nat>,
    maxPriorityFeePerGas: Option<nat>)

  /** A transaction after decoding: a dynamic-fee transaction (EIP-1559, type 2)
      declares a fee cap and a priority fee; every other type is read as legacy
      and declares one gas price. */
  datatype Tx = Legacy(gasPrice: nat) | Dynamic(maxFee: nat, maxPriority: nat)

  /** A block as the chain client hands it over; `baseFeePerGas` is absent before
      EIP-1559 was activated. */
  datatype Block = Block(baseFeePerGas: Option<nat>, transactions: seq<RawTx>)

  /** The statistics of one block, in gwei. */
  datatype BlockFeeStats = BlockFeeStats(baseFee: real, medianEffective: real, medianTip: real)

  /** Reads a transaction: a missing type tag counts as 0, only tag 2 selects the
      dynamic-fee reading, and a missing fee field counts as 0. */
  function Classify(raw: RawTx): (tx: Tx)
    ensures tx.Dynamic? <==> raw.txType.GetOr(0) == 2
    ensures tx.Dynamic? ==>
      tx.maxFee == raw.maxFeePerGas.GetOr(0) && tx.maxPriority == raw.maxPriorityFeePerGas.GetOr(0)
    ensures tx.Legacy? ==> tx.gasPrice == raw.gasPrice.GetOr(0)
  {
    if raw.txType.GetOr(0) == 2 then
      Dynamic(raw.maxFeePerGas.GetOr(0), raw.maxPriorityFeePerGas.GetOr(0))
    else
      Legacy(raw.gasPrice.GetOr(0))
  }

  /** The block's base fee in wei; a block without one reads as 0. */
  function BaseFeeWei(b: Block): nat {
    b.baseFeePerGas.GetOr(0)
  }

  /** The price per gas a transaction pays in a block whose base fee is `baseFee`:
      for a dynamic-fee transaction the smaller of its cap and base fee plus its
      priority fee, for a legacy one its gas price. */
  function EffectivePriceWei(tx: Tx, baseFee: nat): (p: nat)
    ensures tx.Dynamic? ==> p <= tx.maxFee && p <= baseFee + tx.maxPriority
    ensures tx.Dynamic? ==> p == tx.maxFee || p == baseFee + tx.maxPriority
    ensures tx.Legacy? ==> p == tx.gasPrice
  {
    match tx
    case Dynamic(maxFee, maxPriority) =>
      if maxFee <= baseFee + maxPriority then maxFee else baseFee + maxPriority
    case Legacy(gasPrice) => gasPrice
  }

  /** The tip recorded for a transaction: the declared priority fee of a
      dynamic-fee transaction, and for a legacy one the part of its gas price
      above the base fee, or 0 when there is none. */
  function TipWei(tx: Tx, baseFee: nat): (t: nat)
    ensures tx.Dynamic? ==> t == tx.maxPriority
    ensures tx.Legacy? ==> t <= tx.gasPrice
    ensures tx.Legacy? && tx.gasPrice >= baseFee ==> t + baseFee == tx.gasPrice
    ensures tx.Legacy? && tx.gasPrice < baseFee ==> t == 0
  {
    match tx
    case Dynamic(_, maxPriority) => maxPriority
    case Legacy(gasPrice) => if gasPrice >= baseFee then gasPrice - baseFee else 0
  }

  /** One effective price, in gwei, per transaction of the block, in block order. */
  function EffectivePrices(b: Block): (s: seq<real>)
    ensures |s| == |b.transactions|
  {
    seq(|b.transactions|, k requires 0 <= k < |b.transactions| =>
      ToGwei(EffectivePriceWei(Classify(b.transactions[k]), BaseFeeWei(b))))
  }

  /** One tip, in gwei, per transaction of the block, in block order. */
  function Tips(b: Block): (s: seq<real>)
    ensures |s| == |b.transactions|
  {
    seq(|b.transactions|, k requires 0 <= k < |b.transactions| =>
      ToGwei(TipWei(Classify(b.transactions[k]), BaseFeeWei(b))))
  }

  /** What `sample_block_fees` returns for a block. Every statistic is
      non-negative, and each median lies between the smallest and the largest
      per-transaction value. */
  function BlockStats(b: Block): (st: BlockFeeStats)
    ensures st.baseFee >= 0.0 && st.medianEffective >= 0.0 && st.medianTip >= 0.0
    ensures |b.transactions| > 0 ==>
      SeqMin(EffectivePrices(b)) <= st.medianEffective <= SeqMax(EffectivePrices(b))
    ensures |b.transactions| > 0 ==>
      SeqMin(Tips(b)) <= st.medianTip <= SeqMax(Tips(b))
  {
    var effs, tips := EffectivePrices(b), Tips(b);
    assert forall x :: x in effs ==> x >= 0.0;
    assert forall x :: x in tips ==> x >= 0.0;
    BlockFeeStats(ToGwei(BaseFeeWei(b)), MedianOrZero(effs), MedianOrZero(tips))
  }

  /** The extractor as the profiler runs it: one pass over the transactions that
      appends one effective price and one tip per transaction, then the medians. */
  method SampleBlockFees(block: Block) returns (stats: BlockFeeStats)
    ensures stats == BlockStats(block)
  {
    var baseFeeWei := BaseFeeWei(block);
    var baseFeeGwei := ToGwei(baseFeeWei);
    var effectivePrices: seq<real> := [];
    var tips: seq<real> := [];
    var txs := block.transactions;
    for i := 0 to |txs|
      invariant effectivePrices == EffectivePrices(block)[..i]
      invariant tips == Tips(block)[..i]
    {
      match Classify(txs[i])
      case Dynamic(maxFee, maxPriority) =>
        var eff := if maxFee <= baseFeeWei + maxPriority then maxFee else baseFeeWei + maxPriority;
        effectivePrices := effectivePrices + [ToGwei(eff)];
        tips := tips + [ToGwei(maxPriority)];
      case Legacy(gasPrice) =>
        effectivePrices := effectivePrices + [ToGwei(gasPrice)];
        var tipWei := if gasPrice > baseFeeWei then gasPrice - baseFeeWei else 0;
        tips := tips + [ToGwei(tipWei)];
    }
    assert effectivePrices == EffectivePrices(block);
    assert tips == Tips(block);
    var medianEffective := if |effectivePrices| > 0 then Median(effectivePrices) else 0.0;
    var medianTip := if |tips| > 0 then Median(tips) else 0.0;
    stats := BlockFeeStats(baseFeeGwei, medianEffective, medianTip);
  }

  /** A block without transactions has zero medians and keeps its base fee
      (0 when the block has none). */
  lemma EmptyBlockStats(b: Block)
    requires b.transactions == []
    ensures BlockStats(b).medianEffective == 0.0 && BlockStats(b).medianTip == 0.0
    ensures BlockStats(b).baseFee == ToGwei(b.baseFeePerGas.GetOr(0))
  {
  }

  /** When every transaction of a block pays a positive price, the block's median
      effective price is positive, so the block enters the effective-price series. */
  lemma PositivePricesGivePositiveMedian(b: Block)
    requires |b.transactions| > 0
    requires forall k :: 0 <= k < |b.transactions| ==>
      EffectivePriceWei(Classify(b.transactions[k]), BaseFeeWei(b)) > 0
    ensures BlockStats(b).medianEffective > 0.0
  {
    var effs := EffectivePrices(b);
    var k :| 0 <= k < |effs| && effs[k] == SeqMin(effs);
    assert effs[k] > 0.0;
  }

  /** A lone legacy transaction paying 5 wei above the base fee records a tip of
      5 wei, 5e-9 gwei, and its own gas price as effective price. */
  lemma LegacyExample(baseFee: nat)
    ensures var b := Block(Some(baseFee), [RawTx(Some(0), Some(baseFee + 5), None, None)]);
            BlockStats(b).medianTip == 0.000000005
            && BlockStats(b).medianEffective == ToGwei(baseFee + 5)
  {
    var b := Block(Some(baseFee), [RawTx(Some(0), Some(baseFee + 5), None, None)]);
    assert Tips(b) == [ToGwei(5)];
    assert EffectivePrices(b) == [ToGwei(baseFee + 5)];
    assert SortAsc([ToGwei(5)]) == [ToGwei(5)];
    assert SortAsc([ToGwei(baseFee + 5)]) == [ToGwei(baseFee + 5)];
  }

  /** A dynamic-fee transaction with cap 100 and priority fee 10 in a block with
      base fee 50 pays min(100, 60) = 60 wei and records a 10 wei tip. */
  lemma DynamicExample()
    ensures var b := Block(Some(50), [RawTx(Some(2), None, Some(100), Some(10))]);
            BlockStats(b).medianEffective == ToGwei(60) && BlockStats(b).medianTip == ToGwei(10)
  {
    var b := Block(Some(50), [RawTx(Some(2), None, Some(100), Some(10))]);
    assert Tips(b) == [ToGwei(10)];
    assert EffectivePrices(b) == [ToGwei(60)];
    assert SortAsc([ToGwei(10)]) == [ToGwei(10)];
    assert SortAsc([ToGwei(60)]) == [ToGwei(60)];
  }

  /** The recorded tip of a dynamic-fee transaction is its declared priority fee,
      which exceeds the part of its effective price above the base fee whenever
      the fee cap binds (the capped tip of EIP-1559 is not what is recorded). */
  lemma DeclaredTipExceedsPaidTipWhenCapped(maxFee: nat, maxPriority: nat, baseFee: nat)
    requires baseFee <= maxFee < baseFee + maxPriority
    ensures TipWei(Dynamic(maxFee, maxPriority), baseFee)
          > EffectivePriceWei(Dynamic(maxFee, maxPriority), baseFee) - baseFee
  {
  }
}
