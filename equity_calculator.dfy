/**
 * The invoice equity split calculator (InvoiceEquityCalculator#calculate).
 *
 * Given a contractor's equity percentage, the contractor's unvested grant for
 * the invoice year (if any), the company's fallback FMV share price and its
 * equity switch, and the service amount in cents, it decides how much of the
 * invoice is settled in equity and how many whole option shares that buys,
 * or returns no result.
 */
module EquityCalculator {
  import opened Wrappers

  /** A strictly positive whole number. */
  type PosNat = n: nat | n > 0 witness 1

  /** A share price in USD as the exact rational num / den (a BigDecimal in the source). */
  datatype Price = Price(num: PosNat, den: PosNat)

  /** The contractor's unique unvested equity grant for the invoice year. */
  datatype Grant = Grant(sharePriceUsd: Option<Price>, unvestedShares: int)

  /** What the calculator reads from the company record. */
  datatype Company = Company(fmvPerShareInUsd: Option<Price>, equityEnabled: bool)

  /** The hash returned on success: equity_cents, equity_options, equity_percentage. */
  datatype Calculation = Calculation(equityCents: int, equityOptions: int, equityPercentage: int)

  /** The all-zero result of the "no equity" branch. */
  const NoEquity := Calculation(0, 0, 0)

  /**
   * The quotient a / b rounded to the nearest integer, halves away from zero
   * (BigDecimal#round in its default ROUND_HALF_UP mode). The ensures clauses
   * say that r is within one half of a / b, and on which side a tie lands.
   */
  function RoundHalfAway(a: int, b: PosNat): (r: int)
    ensures a >= 0 ==> 2 * b * r - b <= 2 * a < 2 * b * r + b
    ensures a < 0 ==> 2 * b * r - b < 2 * a <= 2 * b * r + b
  {
    if a >= 0 then Quotient(2 * a + b, 2 * b) else -(Quotient(-2 * a + b, 2 * b) as int)
  }

  /** Euclidean quotient of a non-negative number, with its defining bounds. */
  function Quotient(m: nat, d: PosNat): (q: nat)
    ensures d * q <= m < d * q + d
  {
    var q := m / d;
    assert m == d * q + m % d;
    q
  }

  /** Rounding is determined by its bounds: any r within them is RoundHalfAway(a, b). */
  lemma RoundHalfAwayUnique(a: int, b: PosNat, r: int)
    requires a >= 0 ==> 2 * b * r - b <= 2 * a < 2 * b * r + b
    requires a < 0 ==> 2 * b * r - b < 2 * a <= 2 * b * r + b
    ensures r == RoundHalfAway(a, b)
  {
    var s := RoundHalfAway(a, b);
    // Both r and s lie in an interval of width 2b around 2a, so |2b(r - s)| < 2b.
    if r < s {
      assert 2 * b * r + 2 * b <= 2 * b * s by { MulMonotone(2 * b, r + 1, s); }
    } else if r > s {
      assert 2 * b * s + 2 * b <= 2 * b * r by { MulMonotone(2 * b, s + 1, r); }
    }
  }

  lemma MulMonotone(k: nat, x: int, y: int)
    requires x <= y
    ensures k * x <= k * y
  {
  }

  /** An exact quotient needs no rounding. */
  lemma RoundHalfAwayExact(a: int, b: PosNat, q: int)
    requires a == q * b
    ensures RoundHalfAway(a, b) == q
  {
    RoundHalfAwayUnique(a, b, q);
  }

  /** Rounding preserves the sign of the quotient: r > 0 only if a > 0, r < 0 only if a < 0. */
  lemma RoundHalfAwaySign(a: int, b: PosNat)
    ensures RoundHalfAway(a, b) > 0 ==> a > 0
    ensures RoundHalfAway(a, b) < 0 ==> a < 0
  {
    var r := RoundHalfAway(a, b);
    if r > 0 {
      MulMonotone(2 * b, 1, r);
    } else if r < 0 {
      MulMonotone(2 * b, r, -1);
    }
  }

  /**
   * Resolves the share price: the grant's price when the grant has one, otherwise
   * the company's FMV (Ruby `grant&.share_price_usd || company.fmv_per_share_in_usd`).
   */
  function SharePrice(grant: Option<Grant>, company: Company): (p: Option<Price>)
    // A priced grant always wins ...
    ensures grant.Some? && grant.value.sharePriceUsd.Some? ==> p == grant.value.sharePriceUsd
    // ... and otherwise the company FMV is used.
    ensures !(grant.Some? && grant.value.sharePriceUsd.Some?) ==> p == company.fmvPerShareInUsd
  {
    if grant.Some? && grant.value.sharePriceUsd.Some? then grant.value.sharePriceUsd
    else company.fmvPerShareInUsd
  }

  /** round(service_amount_cents * equity_percentage / 100): the percentage is in whole percent. */
  function EquityCents(serviceAmountCents: int, equityPercentage: int): (r: int)
    // r is within half a cent of service * percentage / 100, ties away from zero.
    ensures serviceAmountCents * equityPercentage >= 0 ==>
      200 * r - 100 <= 2 * serviceAmountCents * equityPercentage < 200 * r + 100
    ensures serviceAmountCents * equityPercentage < 0 ==>
      200 * r - 100 < 2 * serviceAmountCents * equityPercentage <= 200 * r + 100
  {
    RoundHalfAway(serviceAmountCents * equityPercentage, 100)
  }

  /** round(equity_cents / (share_price_usd * 100)), computed exactly on the rational price. */
  function OptionCount(equityCents: int, price: Price): (r: int)
    // r is within half a share of equityCents / (100 * price), ties away from zero.
    ensures equityCents >= 0 ==>
      (2 * r - 1) * (100 * price.num) <= 2 * equityCents * price.den < (2 * r + 1) * (100 * price.num)
    ensures equityCents < 0 ==>
      (2 * r - 1) * (100 * price.num) < 2 * equityCents * price.den <= (2 * r + 1) * (100 * price.num)
  {
    var b: PosNat := 100 * price.num;
    var k := RoundHalfAway(equityCents * price.den, b);
    assert equityCents >= 0 <==> equityCents * price.den >= 0 by {
      if equityCents < 0 { MulMonotone(price.den, equityCents, -1); }
    }
    assert (2 * k - 1) * b == 2 * b * k - b && (2 * k + 1) * b == 2 * b * k + b;
    k
  }

  /**
   * InvoiceEquityCalculator#calculate. `None` is each of the three early `return`s
   * (missing share price, option count that rounds to zero or below, too few
   * unvested shares).
   */
  function Calculate(equityPercentage: int, grant: Option<Grant>, company: Company,
                     serviceAmountCents: int): (r: Option<Calculation>)
    // A success carries a zero option count exactly when no equity is owed.
    ensures r.Some? ==>
      (r.value.equityOptions == 0 <==> equityPercentage == 0 || !company.equityEnabled)
    // A success with equity owed never exceeds the grant and keeps the contractor's percentage.
    ensures r.Some? && r.value.equityOptions != 0 ==>
      && grant.Some?
      && 0 < r.value.equityOptions <= grant.value.unvestedShares
      && 0 < r.value.equityCents
      && r.value.equityPercentage == equityPercentage
  {
    var price := SharePrice(grant, company);
    if equityPercentage != 0 && price.None? then
      None
    else if equityPercentage == 0 || !company.equityEnabled then
      Some(NoEquity)
    else
      var cents := EquityCents(serviceAmountCents, equityPercentage);
      var options := OptionCount(cents, price.value);
      if options <= 0 then
        None
      else if grant.None? || grant.value.unvestedShares < options then
        None
      else
        RoundHalfAwaySign(cents * price.value.den, 100 * price.value.num);
        Some(Calculation(cents, options, equityPercentage))
  }

  /** A grant that has a price overrides the company FMV: the FMV then plays no part. */
  lemma GrantPriceOverridesFmv(equityPercentage: int, grant: Grant, enabled: bool,
                               fmv1: Option<Price>, fmv2: Option<Price>, serviceAmountCents: int)
    requires grant.sharePriceUsd.Some?
    ensures Calculate(equityPercentage, Some(grant), Company(fmv1, enabled), serviceAmountCents)
         == Calculate(equityPercentage, Some(grant), Company(fmv2, enabled), serviceAmountCents)
  {
  }

  /** A grant without a price is priced at the company FMV, as if that were the grant's own price. */
  lemma FmvPricesUnpricedGrant(equityPercentage: int, unvestedShares: int, company: Company,
                               serviceAmountCents: int)
    ensures Calculate(equityPercentage, Some(Grant(None, unvestedShares)), company, serviceAmountCents)
         == Calculate(equityPercentage, Some(Grant(company.fmvPerShareInUsd, unvestedShares)),
                      Company(None, company.equityEnabled), serviceAmountCents)
  {
  }

  /** Equity owed with no resolvable price fails, whether or not equity is enabled. */
  lemma MissingSharePriceFails(equityPercentage: int, grant: Option<Grant>, company: Company,
                               serviceAmountCents: int)
    requires equityPercentage != 0 && SharePrice(grant, company).None?
    ensures Calculate(equityPercentage, grant, company, serviceAmountCents).None?
  {
  }

  /**
   * The zero branch: the result is exactly {0, 0, 0} if and only if the percentage is
   * zero, or equity is disabled and a price resolves. A zero percentage succeeds even
   * without any price.
   */
  lemma NoEquityExactly(equityPercentage: int, grant: Option<Grant>, company: Company,
                                           serviceAmountCents: int)
    ensures Calculate(equityPercentage, grant, company, serviceAmountCents) == Some(NoEquity)
        <==> equityPercentage == 0
             || (!company.equityEnabled && SharePrice(grant, company).Some?)
  {
  }

  /**
   * On the non-zero path a success carries the rounded equity cents, the rounded
   * option count at the resolved price, the contractor's percentage, and an option
   * count strictly between 0 and the grant's unvested shares.
   */
  lemma SuccessWithEquity(equityPercentage: int, grant: Option<Grant>, company: Company,
                          serviceAmountCents: int, c: Calculation)
    requires equityPercentage != 0 && company.equityEnabled
    requires Calculate(equityPercentage, grant, company, serviceAmountCents) == Some(c)
    ensures SharePrice(grant, company).Some? && grant.Some?
    ensures c.equityCents == EquityCents(serviceAmountCents, equityPercentage)
    ensures c.equityOptions == OptionCount(c.equityCents, SharePrice(grant, company).value)
    ensures 0 < c.equityOptions <= grant.value.unvestedShares
    ensures c.equityPercentage == equityPercentage
  {
  }

  /**
   * On the non-zero path the calculation succeeds exactly when the option count is
   * positive and covered by the grant; otherwise there is no result, never a zero
   * or clamped one.
   */
  lemma NonZeroOutcome(equityPercentage: int, grant: Option<Grant>, company: Company,
                                          serviceAmountCents: int, price: Price)
    requires equityPercentage != 0 && company.equityEnabled
    requires SharePrice(grant, company) == Some(price)
    ensures var options := OptionCount(EquityCents(serviceAmountCents, equityPercentage), price);
      Calculate(equityPercentage, grant, company, serviceAmountCents).Some?
      <==> 0 < options && grant.Some? && options <= grant.value.unvestedShares
  {
  }

  /** An option count that rounds to zero or below fails even when the grant has room. */
  lemma RoundsToZeroFails(equityPercentage: int, grant: Option<Grant>, company: Company,
                          serviceAmountCents: int)
    requires equityPercentage != 0 && company.equityEnabled && SharePrice(grant, company).Some?
    requires OptionCount(EquityCents(serviceAmountCents, equityPercentage), SharePrice(grant, company).value) <= 0
    ensures Calculate(equityPercentage, grant, company, serviceAmountCents).None?
  {
  }

  /** Equity owed with no grant at all fails, even when the company FMV prices it. */
  lemma MissingGrantFails(equityPercentage: int, company: Company, serviceAmountCents: int)
    requires equityPercentage != 0 && company.equityEnabled
    ensures Calculate(equityPercentage, None, company, serviceAmountCents).None?
  {
  }

  /** When the amounts divide exactly, equity cents and option count are the plain quotients. */
  lemma ExactSplit(equityPercentage: int, grant: Grant, company: Company,
                                      serviceAmountCents: int, cents: int, options: int)
    requires equityPercentage != 0 && company.equityEnabled
    requires grant.sharePriceUsd.Some?
    requires serviceAmountCents * equityPercentage == cents * 100
    requires cents * grant.sharePriceUsd.value.den == options * (100 * grant.sharePriceUsd.value.num)
    requires 0 < options <= grant.unvestedShares
    ensures Calculate(equityPercentage, Some(grant), company, serviceAmountCents)
         == Some(Calculation(cents, options, equityPercentage))
  {
    var p := grant.sharePriceUsd.value;
    RoundHalfAwayExact(serviceAmountCents * equityPercentage, 100, cents);
    RoundHalfAwayExact(cents * p.den, 100 * p.num, options);
  }

  /** $1000.00 at 25% with a $2.50 grant price: 25000 cents of equity buy 100 options. */
  lemma QuarterOfThousandDollars()
    ensures Calculate(25, Some(Grant(Some(Price(5, 2)), 1000)), Company(None, true), 100000)
         == Some(Calculation(25000, 100, 25))
    ensures Calculate(25, Some(Grant(Some(Price(5, 2)), 50)), Company(None, true), 100000)
         == None
  {
    ExactSplit(25, Grant(Some(Price(5, 2)), 1000), Company(None, true), 100000, 25000, 100);
    RoundHalfAwayExact(100000 * 25, 100, 25000);
    RoundHalfAwayExact(25000 * 2, 100 * 5, 100);
  }

  /** 1% of 10 cents rounds to 0 cents and 0 options: a failure, not a zero success. */
  lemma TenCentsAtOnePercent(price: Price, shares: int)
    ensures Calculate(1, Some(Grant(Some(price), shares)), Company(None, true), 10) == None
  {
    RoundHalfAwayUnique(10 * 1, 100, 0);
    RoundHalfAwayExact(0 * price.den, 100 * price.num, 0);
  }
}
