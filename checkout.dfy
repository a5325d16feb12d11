/**
 * The checkout arithmetic and card-form rules shared, line for line, by
 * `src/pages/MakePayment.js` and `src/pages/ProcessPayment.js`: subtotal, 5% tax,
 * credit points worth $0.01 each, a total that never drops below zero, and the
 * required-field check on the card details.
 *
 * Money is `real`: the pages' IEEE doubles and `toFixed(2)` display are not modelled.
 */
module Checkout {

  const TaxRate: real := 0.05
  /** Dollar value of one credit point. */
  const PointValue: real := 0.01
  const YesOption: string := "Yes"
  const NoOption: string := "No"
  const FillAllFieldsError: string := "Please fill in all fields"

  // ---------------------------------------------------------------------------
  // Pricing

  function Subtotal(ticketPrice: real, numberOfTickets: nat): (subtotal: real)
    ensures ticketPrice >= 0.0 ==> subtotal >= 0.0
    ensures numberOfTickets == 0 ==> subtotal == 0.0
  {
    ticketPrice * numberOfTickets as real
  }

  function Tax(subtotal: real): (tax: real)
    ensures subtotal >= 0.0 ==> 0.0 <= tax <= subtotal
  {
    subtotal * TaxRate
  }

  function PointsValue(points: int): (value: real)
    ensures points >= 0 ==> value >= 0.0
  {
    points as real * PointValue
  }

  /** `Math.max(0, subtotal + tax - pointsValue)`. */
  function Total(subtotal: real, tax: real, redeemPoints: int): (total: real)
    ensures total >= 0.0
    ensures total >= subtotal + tax - PointsValue(redeemPoints)
    ensures total == 0.0 || total == subtotal + tax - PointsValue(redeemPoints)
    ensures redeemPoints >= 0 && subtotal + tax >= 0.0 ==> total <= subtotal + tax
  {
    var due := subtotal + tax - PointsValue(redeemPoints);
    if due > 0.0 then due else 0.0
  }

  /** `Math.ceil`: the least integer not below `x`. */
  function Ceil(x: real): (c: int)
    ensures x <= c as real < x + 1.0
  {
    -((-x).Floor)
  }

  /** The points redeemed for an option: with "Yes", the balance or enough points to cover the
      whole amount, whichever is fewer; with any other option, none. */
  function RedeemPoints(option: string, creditPoints: int, subtotal: real, tax: real): (points: int)
    ensures option != YesOption ==> points == 0
    ensures points <= creditPoints || points == 0
    ensures creditPoints >= 0 && subtotal + tax >= 0.0 ==> 0 <= points <= creditPoints
    ensures option == YesOption ==> points == creditPoints || PointsValue(points) >= subtotal + tax
    ensures option == YesOption && creditPoints >= 0 && subtotal + tax >= 0.0 ==>
      && (points < creditPoints ==> PointsValue(points) >= subtotal + tax)
      && (points > 0 ==> PointsValue(points - 1) < subtotal + tax)
  {
    if option == YesOption then
      var needed := Ceil((subtotal + tax) / PointValue);
      if creditPoints < needed then creditPoints else needed
    else 0
  }

  /** Saying "Yes" with a large enough balance brings the total to zero; otherwise the whole
      balance is spent and the total drops by its dollar value. */
  lemma RedeemingYes(creditPoints: nat, subtotal: real, tax: real)
    requires subtotal + tax >= 0.0
    ensures var total := Total(subtotal, tax, RedeemPoints(YesOption, creditPoints, subtotal, tax));
      if PointsValue(creditPoints) >= subtotal + tax then total == 0.0
      else total == subtotal + tax - PointsValue(creditPoints)
  {
    var needed := Ceil((subtotal + tax) / PointValue);
    if creditPoints < needed {
      assert (creditPoints as real) < (subtotal + tax) / PointValue;
    } else {
      assert PointsValue(needed) >= subtotal + tax;
    }
  }

  // ---------------------------------------------------------------------------
  // Card details

  datatype CardDetails = CardDetails(
    paymentType: string,
    owner: string,
    cardNumber: string,
    expiryDate: string,
    cvv: string)

  const EmptyCard: CardDetails := CardDetails("", "", "", "", "")

  datatype CardField = PaymentType | Owner | CardNumber | ExpiryDate | Cvv

  function FieldValue(card: CardDetails, field: CardField): string
  {
    match field
    case PaymentType => card.paymentType
    case Owner => card.owner
    case CardNumber => card.cardNumber
    case ExpiryDate => card.expiryDate
    case Cvv => card.cvv
  }

  /** What one input's change handler does: `{ ...formData, [field]: value }`. */
  function WithField(card: CardDetails, field: CardField, value: string): (next: CardDetails)
    ensures FieldValue(next, field) == value
    ensures forall other :: other != field ==> FieldValue(next, other) == FieldValue(card, other)
  {
    match field
    case PaymentType => card.(paymentType := value)
    case Owner => card.(owner := value)
    case CardNumber => card.(cardNumber := value)
    case ExpiryDate => card.(expiryDate := value)
    case Cvv => card.(cvv := value)
  }

  /** The error `handleSubmit` leaves: "Please fill in all fields" when the type, number,
      expiry or CVV is empty (the owner is not looked at), and no error otherwise. */
  function SubmitError(card: CardDetails): (error: string)
    ensures error == "" || error == FillAllFieldsError
  {
    if card.paymentType == "" || card.cardNumber == "" || card.expiryDate == "" || card.cvv == "" then
      FillAllFieldsError
    else
      ""
  }

  /** The submit check fails exactly when one of the four checked fields is empty. */
  lemma SubmitErrorIff(card: CardDetails)
    ensures SubmitError(card) == FillAllFieldsError <==>
      exists f :: f != Owner && FieldValue(card, f) == ""
  {
    if SubmitError(card) == FillAllFieldsError {
      if card.paymentType == "" { assert FieldValue(card, PaymentType) == ""; }
      else if card.cardNumber == "" { assert FieldValue(card, CardNumber) == ""; }
      else if card.expiryDate == "" { assert FieldValue(card, ExpiryDate) == ""; }
      else { assert FieldValue(card, Cvv) == ""; }
    }
  }

  /** The card owner never affects the outcome of submitting. */
  lemma OwnerNotChecked(card: CardDetails, owner: string)
    ensures SubmitError(WithField(card, Owner, owner)) == SubmitError(card)
  {
  }
}
