/** Fee estimation in saturating 128-bit arithmetic. */
module FeeEstimation {
  import opened Bytes
  import opened Arithmetic

  const MAX_U128: nat := 0xffff_ffff_ffff_ffff_ffff_ffff_ffff_ffff

  function Capped(n: nat): U128 {
    if n > MAX_U128 then MAX_U128 else n
  }

  function SaturatingMul(a: U128, b: U128): U128 {
    Capped(a * b)
  }

  function SaturatingAdd(a: U128, b: U128): U128 {
    Capped(a + b)
  }

  function SaturatingSub(a: U128, b: U128): U128 {
    if a < b then 0 else a - b
  }

  function Quotient(n: U128, d: nat): U128
    requires d > 0
  {
    DivisionBound(n, d);
    n / d
  }

  datatype FeeEstimate = FeeEstimate(
    gasConsumed: U128,
    gasPrice: U128,
    dataGasConsumed: U128,
    dataGasPrice: U128,
    overallFee: U128)

  datatype GasVector = GasVector(l1Gas: U128, l1DataGas: U128)

  /** The gas that the actual fee pays for after the data gas, before the minimum is applied. */
  function PaidGas(actualFee: U128, dataGas: U128, gasPrice: U128, dataGasPrice: U128): U128 {
    Quotient(SaturatingSub(actualFee, SaturatingMul(dataGas, dataGasPrice)), Max(gasPrice, 1))
  }

  /** `actualFee` and `dataGas` are what the execution reports. */
  function Estimate(actualFee: U128, dataGas: U128, gasPrice: U128, dataGasPrice: U128, minimal: GasVector)
    : FeeEstimate
  {
    var gas := Max(PaidGas(actualFee, dataGas, gasPrice, dataGasPrice), minimal.l1Gas);
    var dataGas' := Max(dataGas, minimal.l1DataGas);
    FeeEstimate(gas, gasPrice, dataGas', dataGasPrice,
                SaturatingAdd(SaturatingMul(gas, gasPrice), SaturatingMul(dataGas', dataGasPrice)))
  }

  /** The fee of an amount of gas without any limit. */
  function Fee(gas: nat, gasPrice: nat, dataGas: nat, dataGasPrice: nat): nat {
    gas * gasPrice + dataGas * dataGasPrice
  }

  // ----- What an estimate means

  /** Saturating step by step is the same as capping the exact fee once. */
  lemma OverallFeeIsCapped(actualFee: U128, dataGas: U128, gasPrice: U128, dataGasPrice: U128, minimal: GasVector)
    ensures var e := Estimate(actualFee, dataGas, gasPrice, dataGasPrice, minimal);
            e.overallFee == Capped(Fee(e.gasConsumed, gasPrice, e.dataGasConsumed, dataGasPrice))
  {
    var e := Estimate(actualFee, dataGas, gasPrice, dataGasPrice, minimal);
    assert e.gasConsumed * gasPrice >= 0 && e.dataGasConsumed * dataGasPrice >= 0;
  }

  /** An estimate is less than one unit of gas short of the actual fee. */
  lemma CoversActualFee(actualFee: U128, dataGas: U128, gasPrice: U128, dataGasPrice: U128, minimal: GasVector)
    requires gasPrice >= 1
    ensures Estimate(actualFee, dataGas, gasPrice, dataGasPrice, minimal).overallFee + gasPrice > actualFee
  {
    var e := Estimate(actualFee, dataGas, gasPrice, dataGasPrice, minimal);
    OverallFeeIsCapped(actualFee, dataGas, gasPrice, dataGasPrice, minimal);
    var paid := PaidGas(actualFee, dataGas, gasPrice, dataGasPrice);
    MulMonotone(dataGas, e.dataGasConsumed, dataGasPrice);
    MulMonotone(paid, e.gasConsumed, gasPrice);
    DivisionBound(SaturatingSub(actualFee, SaturatingMul(dataGas, dataGasPrice)), gasPrice);
  }

  /** It is never below the fee of the minimal gas. */
  lemma CoversMinimalGas(actualFee: U128, dataGas: U128, gasPrice: U128, dataGasPrice: U128, minimal: GasVector)
    ensures Estimate(actualFee, dataGas, gasPrice, dataGasPrice, minimal).overallFee
         >= Capped(Fee(minimal.l1Gas, gasPrice, minimal.l1DataGas, dataGasPrice))
  {
    var e := Estimate(actualFee, dataGas, gasPrice, dataGasPrice, minimal);
    OverallFeeIsCapped(actualFee, dataGas, gasPrice, dataGasPrice, minimal);
    MulMonotone(minimal.l1Gas, e.gasConsumed, gasPrice);
    MulMonotone(minimal.l1DataGas, e.dataGasConsumed, dataGasPrice);
  }

  /** Where the minima do not matter, it is above the actual fee exactly if the data gas alone is. */
  lemma AtMostActualFee(actualFee: U128, dataGas: U128, gasPrice: U128, dataGasPrice: U128, minimal: GasVector)
    requires gasPrice >= 1
    requires minimal.l1Gas <= PaidGas(actualFee, dataGas, gasPrice, dataGasPrice) && minimal.l1DataGas <= dataGas
    ensures Estimate(actualFee, dataGas, gasPrice, dataGasPrice, minimal).overallFee <= actualFee
       <==> Capped(dataGas * dataGasPrice) <= actualFee
  {
    var e := Estimate(actualFee, dataGas, gasPrice, dataGasPrice, minimal);
    OverallFeeIsCapped(actualFee, dataGas, gasPrice, dataGasPrice, minimal);
    var dataFee := SaturatingMul(dataGas, dataGasPrice);
    DivisionBound(SaturatingSub(actualFee, dataFee), gasPrice);
    assert e.gasConsumed * gasPrice <= SaturatingSub(actualFee, dataFee);
    assert e.gasConsumed * gasPrice >= 0;
  }

  /** Estimating an execution that charges an estimate gives the same estimate again, unless it was capped. */
  lemma FixedPoint(actualFee: U128, dataGas: U128, gasPrice: U128, dataGasPrice: U128, minimal: GasVector)
    requires gasPrice >= 1
    ensures var e := Estimate(actualFee, dataGas, gasPrice, dataGasPrice, minimal);
            Fee(e.gasConsumed, gasPrice, e.dataGasConsumed, dataGasPrice) <= MAX_U128 ==>
              Estimate(e.overallFee, e.dataGasConsumed, gasPrice, dataGasPrice, minimal) == e
  {
    var e := Estimate(actualFee, dataGas, gasPrice, dataGasPrice, minimal);
    OverallFeeIsCapped(actualFee, dataGas, gasPrice, dataGasPrice, minimal);
    if Fee(e.gasConsumed, gasPrice, e.dataGasConsumed, dataGasPrice) <= MAX_U128 {
      assert e.gasConsumed * gasPrice >= 0;
      assert SaturatingMul(e.dataGasConsumed, dataGasPrice) == e.dataGasConsumed * dataGasPrice;
      assert SaturatingSub(e.overallFee, SaturatingMul(e.dataGasConsumed, dataGasPrice)) == e.gasConsumed * gasPrice;
      QuotientIs(e.gasConsumed * gasPrice, gasPrice, e.gasConsumed, 0);
    }
  }
}
