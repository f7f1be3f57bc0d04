/**
  The bill detail screen's own credit-card advice: a single payment that
  brings the balance down to 30% of the limit, and a warning flag for a card
  at or above 30% utilization. These use `>= 0.3`, unlike the card's
  `overUtilized` (`> 0.3`), and the two are kept apart here.

  The flag divides the balance by the limit in floating point. For a zero
  limit that quotient is +infinity for a positive balance, -infinity for a
  negative one and NaN for a zero balance; only +infinity compares
  `>= 0.3`, so a zero limit raises the flag exactly when the balance is
  positive. That case is written out below.
*/
module BillView {
  import opened Wrappers
  import opened Bills

  /** `recommendedPayment`: balance minus 30% of the limit, or nothing when that is negative or the bill has no card. */
  function ViewRecommendedPayment(b: Bill): (r: Option<real>)
    ensures b.creditCardDetails.None? ==> r.None?
    ensures b.creditCardDetails.Some? ==>
              var c := b.creditCardDetails.value;
              (r.None? <==> c.cardBalance - 0.3 * c.creditLimit < 0.0)
              && (r.Some? ==> r.value >= 0.0 && r.value + 0.3 * c.creditLimit == c.cardBalance)
  {
    match b.creditCardDetails
    case None => None
    case Some(details) =>
      var payment := details.cardBalance - details.creditLimit * 0.3;
      if payment < 0.0 then None else Some(payment)
  }

  /** `aboveMax`: the card's balance is at least 30% of its limit (see the module note for a zero limit). */
  predicate AboveMax(b: Bill)
    ensures b.creditCardDetails.None? ==> !AboveMax(b)
    ensures b.creditCardDetails.Some? ==>
              var c := b.creditCardDetails.value;
              && (c.creditLimit > 0.0 ==> (AboveMax(b) <==> c.cardBalance >= 0.3 * c.creditLimit))
              && (c.creditLimit < 0.0 ==> (AboveMax(b) <==> c.cardBalance <= 0.3 * c.creditLimit))
              && (c.creditLimit == 0.0 ==> (AboveMax(b) <==> c.cardBalance > 0.0))
  {
    match b.creditCardDetails
    case None => false
    case Some(c) =>
      if c.creditLimit == 0.0 then c.cardBalance > 0.0
      else
        var u := c.cardBalance / c.creditLimit;
        assert u * c.creditLimit == c.cardBalance;
        assert c.creditLimit > 0.0 ==> (u >= 0.3 <==> u * c.creditLimit >= 0.3 * c.creditLimit);
        assert c.creditLimit < 0.0 ==> (u >= 0.3 <==> u * c.creditLimit <= 0.3 * c.creditLimit);
        u >= 0.3
  }

  /** With a positive limit, the warning shows exactly when a payment is recommended. */
  lemma AboveMaxIffPaymentRecommended(b: Bill)
    requires b.creditCardDetails.Some? && b.creditCardDetails.value.creditLimit > 0.0
    ensures AboveMax(b) <==> ViewRecommendedPayment(b).Some?
  {
    var c := b.creditCardDetails.value;
    var u := c.cardBalance / c.creditLimit;
    assert u * c.creditLimit == c.cardBalance;
    if u >= 0.3 {
      assert u * c.creditLimit >= 0.3 * c.creditLimit;
      assert c.cardBalance - c.creditLimit * 0.3 >= 0.0;
    } else {
      assert u * c.creditLimit < 0.3 * c.creditLimit;
      assert c.cardBalance - c.creditLimit * 0.3 < 0.0;
    }
  }

  /** Without a card there is neither a warning nor a recommendation. */
  lemma NoCardNoAdvice(b: Bill)
    requires b.creditCardDetails.None?
    ensures !AboveMax(b) && ViewRecommendedPayment(b).None?
  {
  }

  /** A zero limit breaks that link: an empty card gets no warning but a recommendation of 0. */
  lemma ZeroLimitEmptyCard(b: Bill)
    requires b.creditCardDetails == Some(CreditCardDetails(0.0, 0.0))
    ensures !AboveMax(b) && ViewRecommendedPayment(b) == Some(0.0)
  {
  }

  /** A zero limit with any positive balance warns and recommends paying the whole balance. */
  lemma ZeroLimitOwing(b: Bill)
    requires b.creditCardDetails.Some? && b.creditCardDetails.value.creditLimit == 0.0
    requires b.creditCardDetails.value.cardBalance > 0.0
    ensures AboveMax(b) && ViewRecommendedPayment(b) == Some(b.creditCardDetails.value.cardBalance)
  {
  }

  /**
    At exactly 30% utilization this screen warns and recommends paying 0,
    while the card itself is not over-utilized and its own advice is to pay
    down to 10%.
  */
  lemma ThresholdDiffersFromCard()
    ensures var b := Bill(None, None, None, None, Some(CreditCard), None, None, Some(CreditCardDetails(1000.0, 300.0)), None);
            AboveMax(b) && ViewRecommendedPayment(b) == Some(0.0)
            && !OverUtilized(b.creditCardDetails.value)
            && Bills.RecommendedPayment(b.creditCardDetails.value) == 200.0
  {
  }

  /** Paying the recommended amount leaves a positive-limit card at exactly 30% utilization. */
  lemma PayingRecommendationReachesThirtyPercent(b: Bill)
    requires b.creditCardDetails.Some? && b.creditCardDetails.value.creditLimit > 0.0
    requires ViewRecommendedPayment(b).Some?
    ensures var c := b.creditCardDetails.value;
            Utilization(c.(cardBalance := c.cardBalance - ViewRecommendedPayment(b).value)) == 0.3
  {
    PayDownTo(b.creditCardDetails.value, 0.3);
  }
}
