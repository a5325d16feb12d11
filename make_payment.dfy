/**
 * The payment page of `src/pages/MakePayment.js`: three tickets at $19.10, a credit-point
 * balance of 0, two saved cards that autofill the form, and the submit check.
 */
module MakePayment {
  import opened Wrappers
  import opened Checkout

  const TicketPrice: real := 19.1
  const NumberOfTickets: nat := 3
  /** The balance the page shows. */
  const CreditPoints: int := 0

  const PageSubtotal: real := Subtotal(TicketPrice, NumberOfTickets)
  const PageTax: real := Tax(PageSubtotal)

  datatype SavedMethod = SavedMethod(
    id: int,
    methodType: string,
    owner: string,
    number: string,
    expiryDate: string,
    cvv: string)

  const SavedPaymentMethods: seq<SavedMethod> := [
    SavedMethod(1, "Debit", "John Smith", "****8123", "12/25", "123"),
    SavedMethod(2, "Credit", "Jane Doe", "****4567", "05/24", "456")
  ]

  datatype PaymentForm = PaymentForm(
    selectedPaymentMethod: Option<int>,
    card: CardDetails,
    useCreditPoints: string)

  const InitialForm: PaymentForm := PaymentForm(None, EmptyCard, NoOption)

  /** The credit-point selector is rendered only for a positive balance. */
  predicate ShowsCreditPointSelector(creditPoints: int)
  {
    creditPoints > 0
  }

  /** The selector is hidden exactly when it could not matter: with no positive balance no
      option redeems anything, and with a positive balance "Yes" redeems some points towards
      any positive amount. */
  lemma SelectorShownIffRedeemable(option: string, creditPoints: int, subtotal: real, tax: real)
    requires subtotal + tax > 0.0
    ensures !ShowsCreditPointSelector(creditPoints) ==> RedeemPoints(option, creditPoints, subtotal, tax) <= 0
    ensures ShowsCreditPointSelector(creditPoints) ==> RedeemPoints(YesOption, creditPoints, subtotal, tax) > 0
  {
    assert Ceil((subtotal + tax) / PointValue) >= 1;
  }

  /** `savedPaymentMethods.find(method => method.id === id)`. */
  function FindMethod(methods: seq<SavedMethod>, id: int): (found: Option<SavedMethod>)
    ensures found.None? <==> forall k :: 0 <= k < |methods| ==> methods[k].id != id
    ensures found.Some? ==> found.value in methods && found.value.id == id
  {
    if methods == [] then None
    else if methods[0].id == id then Some(methods[0])
    else FindMethod(methods[1..], id)
  }

  /** The card details a saved method fills in. */
  function CardOf(m: SavedMethod): (card: CardDetails)
    ensures FieldValue(card, PaymentType) == m.methodType && FieldValue(card, Owner) == m.owner
    ensures FieldValue(card, CardNumber) == m.number && FieldValue(card, ExpiryDate) == m.expiryDate
    ensures FieldValue(card, Cvv) == m.cvv
  {
    CardDetails(m.methodType, m.owner, m.number, m.expiryDate, m.cvv)
  }

  /** `handlePaymentMethodSelection`: a known id copies that card into the form and records
      the id; an unknown id leaves the form as it is. */
  function SelectSavedMethod(form: PaymentForm, id: int): (next: PaymentForm)
    ensures FindMethod(SavedPaymentMethods, id).None? ==> next == form
    ensures FindMethod(SavedPaymentMethods, id).Some? ==>
      && next.selectedPaymentMethod == Some(id)
      && next.card == CardOf(FindMethod(SavedPaymentMethods, id).value)
      && next.useCreditPoints == form.useCreditPoints
  {
    match FindMethod(SavedPaymentMethods, id)
    case None => form
    case Some(m) => form.(selectedPaymentMethod := Some(id), card := CardOf(m))
  }

  /** Choosing either saved card makes the form pass the submit check, whatever it held. */
  lemma SavedCardPassesSubmit(form: PaymentForm, id: int)
    requires id == 1 || id == 2
    ensures SelectSavedMethod(form, id).selectedPaymentMethod == Some(id)
    ensures SubmitError(SelectSavedMethod(form, id).card) == ""
  {
    assert SavedPaymentMethods[0].id == 1 && SavedPaymentMethods[1].id == 2;
  }

  /** With the page's zero balance the selector is hidden, no option redeems anything, and
      the total is the subtotal plus tax: 3 x $19.10 + 5% = $60.165. */
  lemma ZeroBalanceTotal(option: string)
    ensures !ShowsCreditPointSelector(CreditPoints)
    ensures RedeemPoints(option, CreditPoints, PageSubtotal, PageTax) == 0
    ensures Total(PageSubtotal, PageTax, 0) == PageSubtotal + PageTax == 60.165
  {
  }

  class MakePaymentPage {
    var form: PaymentForm
    var redeemPoints: int
    var error: string

    /** The redeemed points never exceed the balance (so with the page's balance they are 0). */
    ghost predicate Valid()
      reads this
    {
      0 <= redeemPoints <= CreditPoints
    }

    /** The amount shown as "Total" and charged on submit. */
    function TotalAmount(): (total: real)
      reads this
      requires Valid()
      ensures total == PageSubtotal + PageTax
    {
      Total(PageSubtotal, PageTax, redeemPoints)
    }

    constructor ()
      ensures Valid()
      ensures form == InitialForm && redeemPoints == 0 && error == ""
    {
      form := InitialForm;
      redeemPoints := 0;
      error := "";
    }

    /** `handleCreditPointSelection`: record the option and the points it redeems. */
    method HandleCreditPointSelection(option: string)
      requires Valid()
      modifies this
      ensures Valid()
      ensures form == old(form).(useCreditPoints := option)
      ensures redeemPoints == RedeemPoints(option, CreditPoints, PageSubtotal, PageTax)
      ensures error == old(error)
    {
      form := form.(useCreditPoints := option);
      var subtotal := TicketPrice * NumberOfTickets as real;
      var tax := subtotal * TaxRate;
      if option == YesOption {
        var needed := Ceil((subtotal + tax) / PointValue);
        redeemPoints := if CreditPoints < needed then CreditPoints else needed;
      } else {
        redeemPoints := 0;
      }
    }

    /** `handlePaymentMethodSelection` for the chosen option's id. */
    method HandlePaymentMethodSelection(id: int)
      modifies this
      ensures form == SelectSavedMethod(old(form), id)
      ensures redeemPoints == old(redeemPoints) && error == old(error)
    {
      var selected := FindMethod(SavedPaymentMethods, id);
      if selected.Some? {
        var m := selected.value;
        form := form.(selectedPaymentMethod := Some(id),
                      card := CardDetails(m.methodType, m.owner, m.number, m.expiryDate, m.cvv));
      }
    }

    /** One card input's change handler. */
    method HandleCardInput(field: CardField, value: string)
      modifies this
      ensures form == old(form).(card := WithField(old(form).card, field, value))
      ensures redeemPoints == old(redeemPoints) && error == old(error)
    {
      form := form.(card := WithField(form.card, field, value));
    }

    /** `handleSubmit`: set the error, and report the amount paid when the form is complete. */
    method HandleSubmit() returns (paid: Option<real>)
      requires Valid()
      modifies this
      ensures Valid()
      ensures error == SubmitError(form.card)
      ensures paid == if error == "" then Some(TotalAmount()) else None
      ensures form == old(form) && redeemPoints == old(redeemPoints)
    {
      var c := form.card;
      if c.paymentType == "" || c.cardNumber == "" || c.expiryDate == "" || c.cvv == "" {
        error := FillAllFieldsError;
        return None;
      }
      error := "";
      paid := Some(TotalAmount());
    }
  }
}
