/**
 * ProductDialog: the "new product" form. A zod schema validates the three
 * fields; "Guardar" submits and closes, "Guardar y crear otro" submits, empties
 * the form and stays open, and opening the dialog empties the form.
 */
module ProductDialog {
  import opened Wrappers

  /**
   * The form as typed. The price field is coerced with Number(); a text for
   * which Number() gives NaN is `None`, while a cleared field is `Some(0.0)`,
   * since Number('') is 0.
   */
  datatype RawForm = RawForm(code: string, name: string, price: Option<real>)

  /** What `onSubmit` receives once the schema accepts the form. */
  datatype FormValues = FormValues(code: string, name: string, price: real)

  /** One message per failed field check, in the schema's field order. */
  datatype FieldError = CodeRequired | NameTooShort | NotANumber | NegativePrice

  /** The schema's acceptance condition on submitted values. */
  predicate Acceptable(v: FormValues) {
    |v.code| >= 1 && |v.name| >= 3 && v.price >= 0.0
  }

  /** The errors of the price field: not a number, or a number below zero. */
  function PriceErrors(price: Option<real>): seq<FieldError> {
    if price.None? then [NotANumber] else if price.value < 0.0 then [NegativePrice] else []
  }

  /**
   * productSchema.safeParse: the values when every check passes, otherwise
   * the failing checks of every field (zod reports all fields, not only the
   * first that fails).
   */
  function Validate(form: RawForm): (r: Result<FormValues, seq<FieldError>>)
    ensures r.Success? <==> |form.code| >= 1 && |form.name| >= 3 && form.price.Some? && form.price.value >= 0.0
    ensures r.Success? ==> r.value == FormValues(form.code, form.name, form.price.value) && Acceptable(r.value)
    ensures r.Failure? ==>
      && r.error != []
      && (CodeRequired in r.error <==> |form.code| < 1)
      && (NameTooShort in r.error <==> |form.name| < 3)
      && (NotANumber in r.error <==> form.price.None?)
      && (NegativePrice in r.error <==> form.price.Some? && form.price.value < 0.0)
  {
    var errors := (if |form.code| < 1 then [CodeRequired] else [])
                + (if |form.name| < 3 then [NameTooShort] else [])
                + PriceErrors(form.price);
    if errors == [] then Success(FormValues(form.code, form.name, form.price.value))
    else Failure(errors)
  }

  /** `{ code: '', name: '', price: 0 }`, the default and reset values. */
  const EMPTY_FORM: RawForm := RawForm("", "", Some(0.0))

  /** An untouched or freshly reset form cannot be submitted: both text fields fail. */
  lemma EmptyFormRejected()
    ensures Validate(EMPTY_FORM) == Failure([CodeRequired, NameTooShort])
  {
    assert PriceErrors(EMPTY_FORM.price) == [];
    assert [CodeRequired] + [NameTooShort] + [] == [CodeRequired, NameTooShort];
  }

  /** The length checks look at the raw text: a code made of one space passes. */
  lemma BlankCodeAccepted(name: string, price: real)
    requires |name| >= 3 && price >= 0.0
    ensures Validate(RawForm(" ", name, Some(price))) == Success(FormValues(" ", name, price))
  {
  }

  /** The dialog's state: whether it is open, and the form's fields. */
  datatype DialogState = DialogState(open: bool, form: RawForm)

  /** The `open` prop turning on: the effect resets the form. */
  function Open(s: DialogState): DialogState {
    DialogState(true, EMPTY_FORM)
  }

  /** "Cancelar", or any other close: the form keeps its fields until the next open. */
  function Close(s: DialogState): DialogState {
    s.(open := false)
  }

  /**
   * "Guardar": handleSubmit(handleSaveAndClose). A valid form is handed to
   * onSubmit and the dialog closes; an invalid one submits nothing and the
   * dialog stays as it is.
   */
  function SaveAndClose(s: DialogState): (r: (DialogState, Option<FormValues>))
    ensures r.1.Some? <==> Validate(s.form).Success?
    ensures r.1.Some? ==> r.1.value == Validate(s.form).value && r.0 == Close(s)
    ensures r.1.None? ==> r.0 == s
  {
    match Validate(s.form)
    case Success(values) => (Close(s), Some(values))
    case Failure(_) => (s, None)
  }

  /**
   * "Guardar y crear otro": handleSubmit(handleSaveAndContinue). A valid form
   * is handed to onSubmit, the fields go back to their defaults and the dialog
   * stays open; an invalid one submits nothing.
   */
  function SaveAndContinue(s: DialogState): (r: (DialogState, Option<FormValues>))
    ensures r.1.Some? <==> Validate(s.form).Success?
    ensures r.1.Some? ==> r.1.value == Validate(s.form).value && r.0 == DialogState(s.open, EMPTY_FORM)
    ensures r.1.None? ==> r.0 == s
  {
    match Validate(s.form)
    case Success(values) => (DialogState(s.open, EMPTY_FORM), Some(values))
    case Failure(_) => (s, None)
  }

  /**
   * Whatever either button hands to onSubmit satisfies the schema, and
   * pressing "Guardar y crear otro" twice without typing submits once.
   */
  lemma SubmittedValuesAcceptable(s: DialogState)
    ensures SaveAndClose(s).1.Some? ==> Acceptable(SaveAndClose(s).1.value)
    ensures SaveAndContinue(s).1.Some? ==> Acceptable(SaveAndContinue(s).1.value)
    ensures SaveAndContinue(s).1.Some? ==> SaveAndContinue(SaveAndContinue(s).0).1 == None
    ensures SaveAndClose(Open(s)).1 == None && SaveAndContinue(Open(s)).1 == None
  {
    EmptyFormRejected();
  }
}
