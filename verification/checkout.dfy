/**
 The draft shipping and payment form of the checkout page. Fields are free
 text; the only check is that none of them is empty.
 */
module CheckoutForms {

  datatype CheckoutForm = CheckoutForm(
    fullName: string,
    address: string,
    city: string,
    zipCode: string,
    cardNumber: string,
    expiryDate: string,
    cvv: string)

  datatype Field = FullName | Address | City | ZipCode | CardNumber | ExpiryDate | Cvv

  /** The form as the page first shows it. */
  const EmptyForm := CheckoutForm("", "", "", "", "", "", "")

  function Get(form: CheckoutForm, field: Field): string
  {
    match field
    case FullName => form.fullName
    case Address => form.address
    case City => form.city
    case ZipCode => form.zipCode
    case CardNumber => form.cardNumber
    case ExpiryDate => form.expiryDate
    case Cvv => form.cvv
  }

  /** Typing into one input replaces that field and no other. */
  function Set(form: CheckoutForm, field: Field, value: string): (r: CheckoutForm)
    ensures Get(r, field) == value
    ensures forall g :: g != field ==> Get(r, g) == Get(form, g)
  {
    match field
    case FullName => form.(fullName := value)
    case Address => form.(address := value)
    case City => form.(city := value)
    case ZipCode => form.(zipCode := value)
    case CardNumber => form.(cardNumber := value)
    case ExpiryDate => form.(expiryDate := value)
    case Cvv => form.(cvv := value)
  }

  /** The payment button's condition: all seven fields are non-empty. */
  predicate Ready(form: CheckoutForm)
  {
    form.fullName != "" && form.address != "" && form.city != "" &&
    form.zipCode != "" && form.cardNumber != "" && form.expiryDate != "" &&
    form.cvv != ""
  }

  /** Ready exactly when no field, whichever it is, is empty. */
  lemma ReadyIffNoEmptyField(form: CheckoutForm)
    ensures Ready(form) <==> forall f :: Get(form, f) != ""
  {
    if !Ready(form) {
      var f :| f in [FullName, Address, City, ZipCode, CardNumber, ExpiryDate, Cvv] && Get(form, f) == "";
    }
  }
}
