/**
 * The registration form of `src/pages/Register.js`: name, email and password are required,
 * the address is optional, and a complete form is acknowledged with an alert naming the email.
 */
module Register {
  import opened Strings

  const RequiredFieldsError: string := "Please fill in all required fields"
  const SuccessPrefix: string := "Registered successfully with Email: "

  datatype FormData = FormData(name: string, email: string, password: string, address: string)

  const EmptyForm: FormData := FormData("", "", "", "")

  datatype RegisterField = Name | Email | Password | Address

  function FieldValue(form: FormData, field: RegisterField): string
  {
    match field
    case Name => form.name
    case Email => form.email
    case Password => form.password
    case Address => form.address
  }

  /** One input's change handler. */
  function WithField(form: FormData, field: RegisterField, value: string): (next: FormData)
    ensures FieldValue(next, field) == value
    ensures forall other :: other != field ==> FieldValue(next, other) == FieldValue(form, other)
  {
    match field
    case Name => form.(name := value)
    case Email => form.(email := value)
    case Password => form.(password := value)
    case Address => form.(address := value)
  }

  /** The error `handleSubmit` leaves: the required-fields message when the name, email or
      password is empty, and none otherwise. */
  function SubmitError(form: FormData): (error: string)
    ensures error == "" || error == RequiredFieldsError
    ensures error == "" <==> form.name != "" && form.email != "" && form.password != ""
  {
    if form.name == "" || form.email == "" || form.password == "" then RequiredFieldsError else ""
  }

  /** The submit check fails exactly when a field other than the address is empty. */
  lemma SubmitErrorIff(form: FormData)
    ensures SubmitError(form) == RequiredFieldsError <==>
      exists f :: f != Address && FieldValue(form, f) == ""
  {
    if form.name == "" { assert FieldValue(form, Name) == ""; }
    else if form.email == "" { assert FieldValue(form, Email) == ""; }
    else if form.password == "" { assert FieldValue(form, Password) == ""; }
  }

  /** The address never affects the outcome of submitting. */
  lemma AddressNotChecked(form: FormData, address: string)
    ensures SubmitError(WithField(form, Address, address)) == SubmitError(form)
  {
  }

  class RegisterPage {
    var formData: FormData
    var error: string
    /** The messages shown with `alert`, in order. */
    var alerts: seq<string>

    constructor ()
      ensures formData == EmptyForm && error == "" && alerts == []
    {
      formData := EmptyForm;
      error := "";
      alerts := [];
    }

    /** One input of the form. */
    method HandleInput(field: RegisterField, value: string)
      modifies this
      ensures formData == WithField(old(formData), field, value)
      ensures error == old(error) && alerts == old(alerts)
    {
      formData := WithField(formData, field, value);
    }

    /** `handleSubmit`: set the error, and alert with the email when the form is complete. */
    method HandleSubmit()
      modifies this
      ensures error == SubmitError(old(formData))
      ensures alerts == old(alerts) + (if error == "" then [Prefixed(SuccessPrefix, old(formData).email)] else [])
      ensures formData == old(formData)
    {
      if formData.name == "" || formData.email == "" || formData.password == "" {
        error := RequiredFieldsError;
        return;
      }
      error := "";
      alerts := alerts + [Prefixed(SuccessPrefix, formData.email)];
    }
  }
}
