/**
 * The payment page of `src/pages/ProcessPayment.js`: three tickets at $19.10, a
 * credit-point balance of 300 with a Yes/No redemption selector, and the submit check.
 */
module ProcessPayment {
  import opened Wrappers
  import opened Checkout

  const TicketPrice: real := 19.1
  const NumberOfTickets: nat := 3
  /** The balance the page shows. */
  const CreditPoints: int := 300

  const PageSubtotal: real := Subtotal(TicketPrice, NumberOfTickets)
  const PageTax: real := Tax(PageSubtotal)

  datatype PaymentForm = PaymentForm(card: CardDetails, useCreditPoints: string)

  const InitialForm: PaymentForm := PaymentForm(EmptyCard, NoOption)

  /** The amount due, $60.165, is above the balance's worth of $3.00, so "Yes" spends all 300
      points and the total becomes $57.165; "No" (or any other option) redeems nothing. */
  lemma RedeemsWholeBalance(option: string)
    ensures PageSubtotal + PageTax == 60.165
    ensures RedeemPoints(YesOption, CreditPoints, PageSubtotal, PageTax) == CreditPoints
    ensures Total(PageSubtotal, PageTax, CreditPoints) == 57.165
    ensures option != YesOption ==> RedeemPoints(option, CreditPoints, PageSubtotal, PageTax) == 0
  {
    RedeemingYes(CreditPoints, PageSubtotal, PageTax);
  }

  class ProcessPaymentPage {
    var form: PaymentForm
    var redeemPoints: int
    var error: string

    /** The redeemed points stay within the 300-point balance. */
    ghost predicate Valid()
      reads this
    {
      0 <= redeemPoints <= CreditPoints
    }

    /** The amount shown as "Total" and charged on submit. */
    function TotalAmount(): (total: real)
      reads this
      requires Valid()
      ensures 0.0 <= total <= PageSubtotal + PageTax
      ensures total == PageSubtotal + PageTax - PointsValue(redeemPoints)
    {
      Total(PageSubtotal, PageTax, redeemPoints)
    }

    constructor ()
      ensures Valid()
      ensures form == InitialForm && redeemPoints == 0 && error == ""
    {
      form := InitialForm;
      redeemPoints := 0;
      error := "";
    }

    /** `handleCreditPointSelection`: record the option and the points it redeems. */
    method HandleCreditPointSelection(option: string)
      requires Valid()
      modifies this
      ensures Valid()
      ensures form == old(form).(useCreditPoints := option)
      ensures redeemPoints == RedeemPoints(option, CreditPoints, PageSubtotal, PageTax)
      ensures redeemPoints == if option == YesOption then CreditPoints else 0
      ensures error == old(error)
    {
      RedeemsWholeBalance(option);
      form := form.(useCreditPoints := option);
      var subtotal := TicketPrice * NumberOfTickets as real;
      var tax := subtotal * TaxRate;
      if option == YesOption {
        var needed := Ceil((subtotal + tax) / PointValue);
        redeemPoints := if CreditPoints < needed then CreditPoints else needed;
      } else {
        redeemPoints := 0;
      }
    }

    /** One card input's change handler. */
    method HandleCardInput(field: CardField, value: string)
      modifies this
      ensures form == old(form).(card := WithField(old(form).card, field, value))
      ensures redeemPoints == old(redeemPoints) && error == old(error)
    {
      form := form.(card := WithField(form.card, field, value));
    }

    /** `handleSubmit`: set the error, and report the amount paid when the form is complete. */
    method HandleSubmit() returns (paid: Option<real>)
      requires Valid()
      modifies this
      ensures Valid()
      ensures error == SubmitError(form.card)
      ensures paid == if error == "" then Some(TotalAmount()) else None
      ensures form == old(form) && redeemPoints == old(redeemPoints)
    {
      var c := form.card;
      if c.paymentType == "" || c.cardNumber == "" || c.expiryDate == "" || c.cvv == "" {
        error := FillAllFieldsError;
        return None;
      }
      error := "";
      paid := Some(TotalAmount());
    }
  }
}
