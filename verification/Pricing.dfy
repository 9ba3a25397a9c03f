/** Transaction pricing in checked 128-bit arithmetic. */
module Pricing {
  import opened Primitives
  import opened ChainTypes

  datatype TransactionError = TransactionOverflow | InsufficientMaxFee(baseFee: u128, maxFee: u128)

  /** The most a transaction may pay per unit of gas. */
  function FeeCap(tx: Transaction): u128 {
    if tx.Legacy? then tx.gasPrice else tx.maxFeePerGas
  }

  /** A typed transaction has a price when its cap covers the base fee and the tip can be added to that. */
  predicate Priced(tx: Transaction, baseFee: u128) {
    tx.Legacy? || (baseFee <= tx.maxFeePerGas && baseFee + tx.maxPriorityFeePerGas < U128_LIMIT)
  }

  function EffectiveGasPrice(tx: Transaction, baseFee: u128): (r: Result<u128, TransactionError>)
    ensures r.Ok? <==> Priced(tx, baseFee)
    ensures r.Err? && baseFee > FeeCap(tx) ==> r.error == InsufficientMaxFee(baseFee, FeeCap(tx))
    ensures r.Err? && baseFee <= FeeCap(tx) ==> r.error == TransactionOverflow
    ensures r.Ok? ==> r.value <= FeeCap(tx)
    ensures r.Ok? && tx.Legacy? ==> r.value == FeeCap(tx)
    ensures r.Ok? && !tx.Legacy? ==> baseFee <= r.value <= baseFee + tx.maxPriorityFeePerGas
    ensures r.Ok? && !tx.Legacy? ==> r.value == FeeCap(tx) || r.value == baseFee + tx.maxPriorityFeePerGas
  {
    match tx
    case Legacy(_, gasPrice, _, _, _, _) => Ok(gasPrice)
    case _ =>
      if baseFee > tx.maxFeePerGas then Err(InsufficientMaxFee(baseFee, tx.maxFeePerGas))
      else if baseFee + tx.maxPriorityFeePerGas >= U128_LIMIT then Err(TransactionOverflow)
      else if tx.maxFeePerGas <= baseFee + tx.maxPriorityFeePerGas then Ok(tx.maxFeePerGas)
      else Ok(baseFee + tx.maxPriorityFeePerGas)
  }

  function MaxCost(tx: Transaction): (r: Result<u128, TransactionError>)
    ensures r.Ok? <==> FeeCap(tx) * tx.gasLimit + tx.value < U128_LIMIT
    ensures r == if r.Ok? then Ok(FeeCap(tx) * tx.gasLimit + tx.value) else Err(TransactionOverflow)
  {
    var product := FeeCap(tx) * tx.gasLimit;
    if product >= U128_LIMIT then Err(TransactionOverflow)
    else if product + tx.value >= U128_LIMIT then Err(TransactionOverflow)
    else Ok(product + tx.value)
  }

  lemma {:induction false} MulMonotone(a: nat, b: nat, c: nat)
    requires a <= b
    ensures a * c <= b * c
  {
  }

  /** What is debited never exceeds the maximum cost that was checked against the balance. */
  lemma {:induction false} DebitWithinMaxCost(tx: Transaction, baseFee: u128)
    requires MaxCost(tx).Ok? && EffectiveGasPrice(tx, baseFee).Ok?
    ensures EffectiveGasPrice(tx, baseFee).value * tx.gasLimit + tx.value <= MaxCost(tx).value
  {
    MulMonotone(EffectiveGasPrice(tx, baseFee).value, FeeCap(tx), tx.gasLimit);
  }
}
