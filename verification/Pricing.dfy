/** When a stuck transaction may be replaced, and at what price. Amounts are in wei, percentages are not negative. */
module Pricing {
  import opened Wrappers

  /** An EIP-1559 transaction has a fee cap and a miner tip; a legacy one only a gas price. */
  datatype Fees = Dynamic(feeCap: nat, tip: nat) | Legacy(gasPrice: nat)

  datatype Policy = Policy(gasPricePercentage: nat, gasFeeCap: Option<nat>, tipPercentage: nat)

  /** What the policy asks of the replacement; an absent amount is left to the transaction's creator. */
  datatype Quote = Quote(gasPrice: Option<nat>, feeCap: Option<nat>, tip: Option<nat>)

  function NewPolicy(gasPricePercentage: nat, gasFeeCap: nat, tipPercentage: nat): Policy {
    Policy(
      if gasPricePercentage == 0 then 10 else gasPricePercentage,
      if gasFeeCap == 0 then None else Some(gasFeeCap),
      if tipPercentage == 0 then 10 else tipPercentage)
  }

  /** One is added only at ten percent, because nodes take only replacements that pay more than ten percent extra. */
  function Increase(amount: nat, percentage: nat): nat {
    amount * (100 + percentage) / 100 + if percentage == 10 then 1 else 0
  }

  function Reprice(pol: Policy, fees: Fees): Quote {
    match fees
    case Dynamic(feeCap, tip) =>
      var raised := Increase(feeCap, 10) + 1;
      if pol.gasFeeCap.None? then Quote(None, None, Some(Increase(tip, pol.tipPercentage)))
      else Quote(
        None, Some(if raised > pol.gasFeeCap.value then pol.gasFeeCap.value else raised),
        Some(Increase(tip, pol.tipPercentage)))
    case Legacy(gasPrice) => Quote(Some(Increase(gasPrice, pol.gasPricePercentage)), None, None)
  }

  const DEFAULT_TIMEOUT := 5_000_000_000

  predicate Eligible(timeout: nat, lastSubmit: int, now: int) {
    now - lastSubmit >= if timeout == 0 then DEFAULT_TIMEOUT else timeout
  }

  // ---------- the bump ----------

  /** What a node asks of a replacement. */
  predicate Outbids(amount: nat, former: nat) {
    100 * amount > 110 * former
  }

  /** Rounding down loses `former * (100 + percentage) % 100` hundredths; the bump is enough exactly if it can. */
  lemma IncreaseOutbids(former: nat, percentage: nat)
    ensures Outbids(Increase(former, percentage), former) <==>
      percentage == 10 || former * (100 + percentage) % 100 < former * (percentage - 10)
  {
    var raised := former * (100 + percentage);
    assert raised == 100 * (raised / 100) + raised % 100;
    assert raised - 110 * former == former * (percentage - 10);
  }

  lemma Multiply(a: nat, b: nat, c: nat)
    requires a >= b
    ensures a * c >= b * c
  {
    assert a * c == b * c + (a - b) * c;
  }

  /** At the default ten percent every replacement outbids the one before; above that, every one from 100 wei up. */
  lemma LargeIncreaseOutbids(former: nat, percentage: nat)
    requires percentage == 10 || (percentage > 10 && former >= 100)
    ensures Outbids(Increase(former, percentage), former)
  {
    hide Increase;
    IncreaseOutbids(former, percentage);
    if percentage > 10 {
      Multiply(percentage - 10, 1, former);
    }
  }

  /** Below 100 wei a percentage above ten can fail to outbid, although ten percent would not. */
  lemma SmallIncreaseFails()
    ensures !Outbids(Increase(5, 11), 5) && Outbids(Increase(5, 10), 5)
  {
  }

  function Power(base: nat, k: nat): nat {
    if k == 0 then 1 else base * Power(base, k - 1)
  }

  /** The tip after `k` replacements. */
  function TipAfter(tip: nat, percentage: nat, k: nat): nat {
    if k == 0 then tip else Increase(TipAfter(tip, percentage, k - 1), percentage)
  }

  lemma IncreaseStep(former: nat)
    ensures 10 * Increase(former, 10) >= 11 * former && Increase(former, 10) >= former + 1
  {
    IncreaseOutbids(former, 10);
  }

  lemma Compound(raised: nat, former: nat, tens: nat, elevens: nat, tip: nat)
    requires 10 * raised >= 11 * former && former * tens >= elevens * tip
    ensures raised * (10 * tens) >= (11 * elevens) * tip
  {
    assert raised * (10 * tens) == (10 * raised) * tens;
    assert (10 * raised) * tens >= (11 * former) * tens by { Multiply(10 * raised, 11 * former, tens); }
    assert (11 * former) * tens == 11 * (former * tens) && (11 * elevens) * tip == 11 * (elevens * tip);
  }

  /** Replacements compound: after `k` of them at ten percent, tip * 10^k is at least 11^k times the first tip. */
  lemma {:induction false} TipCompounds(tip: nat, k: nat)
    ensures TipAfter(tip, 10, k) * Power(10, k) >= Power(11, k) * tip
    ensures TipAfter(tip, 10, k) >= tip + k
  {
    hide Increase;
    if k > 0 {
      TipCompounds(tip, k - 1);
      var former := TipAfter(tip, 10, k - 1);
      IncreaseStep(former);
      Compound(Increase(former, 10), former, Power(10, k - 1), Power(11, k - 1), tip);
    }
  }

  // ---------- the operator's cap ----------

  predicate WithinCap(pol: Policy, feeCap: nat) {
    pol.gasFeeCap.Some? ==> feeCap <= pol.gasFeeCap.value
  }

  /** No quote exceeds the cap, and it is below the raised amount only because of the cap. */
  lemma RepriceWithinCap(pol: Policy, feeCap: nat, tip: nat)
    requires pol.gasFeeCap.Some?
    ensures var q := Reprice(pol, Dynamic(feeCap, tip));
      && q.feeCap.Some? && WithinCap(pol, q.feeCap.value)
      && (q.feeCap.value < pol.gasFeeCap.value ==> Outbids(q.feeCap.value, feeCap))
  {
    IncreaseOutbids(feeCap, 10);
  }

  /** The least amount a node takes as a replacement. */
  ghost predicate LeastOutbid(amount: nat, former: nat) {
    Outbids(amount, former) && forall m: nat :: m < amount ==> !Outbids(m, former)
  }

  /** `raised` is `amount` plus this many percent, rounded down. */
  predicate PercentMore(raised: nat, amount: nat, percentage: nat) {
    100 * raised <= amount * (100 + percentage) < 100 * (raised + 1)
  }

  lemma TenPercentIsLeast(former: nat)
    ensures LeastOutbid(Increase(former, 10), former)
  {
    var raised := former * 110;
    assert raised == 100 * (raised / 100) + raised % 100;
  }

  lemma PercentIsMore(former: nat, percentage: nat)
    requires percentage != 10
    ensures PercentMore(Increase(former, percentage), former, percentage)
  {
    var raised := former * (100 + percentage);
    assert raised == 100 * (raised / 100) + raised % 100;
  }

  lemma LeastIsUnique(a: nat, b: nat, former: nat)
    requires LeastOutbid(a, former) && LeastOutbid(b, former)
    ensures a == b
  {
  }

  /**
   * The quote for a configuration, where zero stands for ten percent and for no cap. The fee cap is left open without a
   * cap, otherwise it is one more than the least amount that outbids the former, or the cap if that is less. The tip is
   * the least that outbids the former at ten percent, otherwise the percentage more.
   */
  lemma QuotedExactly(gasPricePercentage: nat, cap: nat, tipPercentage: nat, feeCap: nat, tip: nat, least: nat)
    requires LeastOutbid(least, feeCap)
    ensures
      var q := Reprice(NewPolicy(gasPricePercentage, cap, tipPercentage), Dynamic(feeCap, tip));
      && q.gasPrice.None?
      && q.feeCap == (if cap == 0 then None else if least < cap then Some(least + 1) else Some(cap))
      && q.tip.Some?
      && if tipPercentage == 0 || tipPercentage == 10 then LeastOutbid(q.tip.value, tip)
         else PercentMore(q.tip.value, tip, tipPercentage)
  {
    hide LeastOutbid, PercentMore, Increase;
    TenPercentIsLeast(feeCap);
    LeastIsUnique(least, Increase(feeCap, 10), feeCap);
    if tipPercentage == 0 || tipPercentage == 10 {
      TenPercentIsLeast(tip);
    } else {
      PercentIsMore(tip, tipPercentage);
    }
  }

  /** A legacy transaction only gets a new gas price. */
  lemma LegacyQuotedExactly(gasPricePercentage: nat, cap: nat, tipPercentage: nat, gasPrice: nat)
    ensures
      var q := Reprice(NewPolicy(gasPricePercentage, cap, tipPercentage), Legacy(gasPrice));
      && q.gasPrice.Some? && q.feeCap.None? && q.tip.None?
      && if gasPricePercentage == 0 || gasPricePercentage == 10 then LeastOutbid(q.gasPrice.value, gasPrice)
         else PercentMore(q.gasPrice.value, gasPrice, gasPricePercentage)
  {
    hide LeastOutbid, PercentMore, Increase;
    if gasPricePercentage == 0 || gasPricePercentage == 10 {
      TenPercentIsLeast(gasPrice);
    } else {
      PercentIsMore(gasPrice, gasPricePercentage);
    }
  }

  lemma Floor(x: nat, y: nat)
    requires x <= y
    ensures x / 100 <= y / 100
  {
  }

  lemma IncreaseMonotone(a: nat, b: nat, percentage: nat)
    requires a <= b
    ensures Increase(a, percentage) <= Increase(b, percentage)
  {
    var f := 100 + percentage;
    assert b * f == a * f + (b - a) * f;
    assert (b - a) * f >= 0;
    Floor(a * f, b * f);
  }

  /**
   * A replacement of a well-formed transaction is itself well-formed, with the tip within the fee cap, exactly while
   * the raised tip is within the operator's cap. Zero stands for the default percentages and for no cap.
   */
  lemma ReplacementWellFormed(cap: nat, feeCap: nat, tip: nat)
    requires tip <= feeCap && cap != 0
    ensures var q := Reprice(NewPolicy(0, cap, 0), Dynamic(feeCap, tip));
      q.tip.value <= q.feeCap.value <==> Increase(tip, 10) <= cap
  {
    IncreaseMonotone(tip, feeCap, 10);
  }

  /** So a transaction can only be replaced finitely often: in the end the tip alone exceeds the cap. */
  lemma ReplacementsRunOut(cap: nat, tip: nat, k: nat)
    requires k > cap
    ensures TipAfter(tip, 10, k) > cap
  {
    TipCompounds(tip, k);
  }
}
