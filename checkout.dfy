/**
 * The checkout page's two-step form: the per-field checks, the per-step
 * error dictionary, the step counter moved by the Next and Back buttons,
 * and the error clearing done on every edit. The form data is the
 * page's dictionary from field name to value; text inputs hold strings
 * and the one checkbox holds a flag.
 */
module Checkout {
  import opened Wrappers
  import opened Text

  // ---------------------------------------------------------------------
  // Form data

  datatype FieldValue = Str(text: string) | Flag(on: bool)

  /** The `name` attributes of the page's inputs; `saveCard` is the one checkbox. */
  datatype FieldName =
    | Address | Apartment | City | Instructions
    | PaymentMethod | CardNumber | CardExpiry | CardCVC | SaveCard

  type FormData = map<FieldName, FieldValue>

  /** The page's initial form: every text field empty, card payment, card not saved. */
  const INITIAL_FORM: FormData := map[
    Address := Str(""), Apartment := Str(""), City := Str(""), Instructions := Str(""),
    PaymentMethod := Str("card"), CardNumber := Str(""), CardExpiry := Str(""),
    CardCVC := Str(""), SaveCard := Flag(false)]

  /** Every text field is present and holds a string. */
  predicate WellTyped(form: FormData) {
    forall name: FieldName :: name != SaveCard ==> name in form && form[name].Str?
  }

  /** The string held by a text field. */
  function TextField(form: FormData, name: FieldName): string
    requires WellTyped(form) && name != SaveCard
  {
    form[name].text
  }

  /** What a change event carries: the input's name, value, type and checked state. */
  datatype ChangeEvent = ChangeEvent(name: FieldName, value: string, isCheckbox: bool, checked: bool)

  /** The value `handleChange` stores: `checked` for a checkbox, `value` otherwise. */
  function EventValue(e: ChangeEvent): FieldValue {
    if e.isCheckbox then Flag(e.checked) else Str(e.value)
  }

  // ---------------------------------------------------------------------
  // Field checks

  const ADDRESS_REQUIRED: string := "Delivery address is required"
  const CITY_REQUIRED: string := "City is required"
  const CARD_REQUIRED: string := "Card number is required"
  const CARD_INVALID: string := "Invalid card number"
  const EXPIRY_REQUIRED: string := "Expiry date is required"
  const EXPIRY_INVALID: string := "Invalid expiry date (MM/YY)"
  const CVC_REQUIRED: string := "CVC is required"
  const CVC_INVALID: string := "Invalid CVC"

  /** The card number pattern: exactly 16 ASCII digits. */
  predicate SixteenDigits(s: string) {
    |s| == 16 && AllDigits(s)
  }

  /** The expiry pattern: two digits, a slash, two digits, and nothing else. */
  predicate ExpiryShape(s: string) {
    |s| == 5 && IsDigit(s[0]) && IsDigit(s[1]) && s[2] == '/' && IsDigit(s[3]) && IsDigit(s[4])
  }

  /** The CVC pattern: three or four ASCII digits. */
  predicate CvcShape(s: string) {
    3 <= |s| <= 4 && AllDigits(s)
  }

  /** A required field with a format: blank first, then the pattern. */
  function FieldError(s: string, wellFormed: bool, required: string, invalid: string): Option<string> {
    if Trim(s) == "" then Some(required)
    else if !wellFormed then Some(invalid)
    else None
  }

  /**
   * A field passes iff it is non-blank and well formed; a blank one is
   * reported as required, never as badly formed.
   */
  lemma FieldErrorCases(s: string, wellFormed: bool, required: string, invalid: string)
    ensures var r := FieldError(s, wellFormed, required, invalid);
      && (r == None <==> !IsBlank(s) && wellFormed)
      && (IsBlank(s) ==> r == Some(required))
      && (!IsBlank(s) && !wellFormed ==> r == Some(invalid))
  {
    TrimEmptyIffBlank(s);
  }

  /** A field that must only be non-blank. */
  function RequiredError(s: string, required: string): Option<string> {
    if Trim(s) == "" then Some(required) else None
  }

  /** A required field passes iff it is not blank; otherwise it is reported as required. */
  lemma RequiredErrorCases(s: string, required: string)
    ensures RequiredError(s, required) == None <==> !IsBlank(s)
    ensures RequiredError(s, required) != None ==> RequiredError(s, required) == Some(required)
  {
    TrimEmptyIffBlank(s);
  }

  function CardNumberError(s: string): Option<string> {
    FieldError(s, SixteenDigits(RemoveWhitespace(s)), CARD_REQUIRED, CARD_INVALID)
  }

  function ExpiryError(s: string): Option<string> {
    FieldError(s, ExpiryShape(s), EXPIRY_REQUIRED, EXPIRY_INVALID)
  }

  function CvcError(s: string): Option<string> {
    FieldError(s, CvcShape(s), CVC_REQUIRED, CVC_INVALID)
  }

  /** `newErrors` extended by one field's outcome. */
  function Record(errors: map<FieldName, string>, name: FieldName, e: Option<string>): map<FieldName, string> {
    if e.Some? then errors[name := e.value] else errors
  }

  /** The dictionary recorded for the delivery step. */
  function DeliveryErrors(address: Option<string>, city: Option<string>): map<FieldName, string> {
    Record(Record(map[], Address, address), City, city)
  }

  /** The dictionary recorded for the payment step. */
  function PaymentErrors(number: Option<string>, expiry: Option<string>, cvc: Option<string>): map<FieldName, string> {
    Record(Record(Record(map[], CardNumber, number), CardExpiry, expiry), CardCVC, cvc)
  }

  /**
   * The dictionary `validateStep` builds: step 1 checks address and city;
   * step 2 with card payment checks number, expiry and CVC; anything else
   * records nothing.
   */
  function StepErrors(form: FormData, step: int): map<FieldName, string>
    requires WellTyped(form)
  {
    if step == 1 then
      DeliveryErrors(RequiredError(TextField(form, Address), ADDRESS_REQUIRED),
                     RequiredError(TextField(form, City), CITY_REQUIRED))
    else if step == 2 && TextField(form, PaymentMethod) == "card" then
      PaymentErrors(CardNumberError(TextField(form, CardNumber)),
                    ExpiryError(TextField(form, CardExpiry)),
                    CvcError(TextField(form, CardCVC)))
    else map[]
  }

  // ---------------------------------------------------------------------
  // Properties of the field checks

  /** A blank string has nothing left once whitespace is removed. */
  lemma {:induction false} BlankHasNoContent(s: string)
    requires IsBlank(s)
    ensures RemoveWhitespace(s) == ""
  {
    if s != [] {
      var init := s[..|s| - 1];
      assert IsBlank(init) by {
        forall i | 0 <= i < |init| ensures IsWhitespace(init[i]) {
          assert init[i] == s[i];
        }
      }
      BlankHasNoContent(init);
      assert !NotWhitespace(s[|s| - 1]);
    }
  }

  /** The card number passes iff, with all whitespace removed, it is exactly 16 digits. */
  lemma CardNumberValidIff(s: string)
    ensures CardNumberError(s) == None <==> SixteenDigits(RemoveWhitespace(s))
  {
    FieldErrorCases(s, SixteenDigits(RemoveWhitespace(s)), CARD_REQUIRED, CARD_INVALID);
    if IsBlank(s) {
      BlankHasNoContent(s);
    }
  }

  /** The expiry passes iff it has the `DD/DD` shape; no month range is checked. */
  lemma ExpiryValidIff(s: string)
    ensures ExpiryError(s) == None <==> ExpiryShape(s)
    ensures ExpiryError("13/99") == None
  {
    FieldErrorCases(s, ExpiryShape(s), EXPIRY_REQUIRED, EXPIRY_INVALID);
    FieldErrorCases("13/99", ExpiryShape("13/99"), EXPIRY_REQUIRED, EXPIRY_INVALID);
    if ExpiryShape(s) {
      assert !IsWhitespace(s[0]) && s[0] in s;
    }
    assert ExpiryShape("13/99");
    assert "13/99"[0] in "13/99" && !IsWhitespace("13/99"[0]);
  }

  /** The CVC passes iff it is three or four digits. */
  lemma CvcValidIff(s: string)
    ensures CvcError(s) == None <==> CvcShape(s)
  {
    FieldErrorCases(s, CvcShape(s), CVC_REQUIRED, CVC_INVALID);
    if CvcShape(s) {
      assert !IsWhitespace(s[0]) && s[0] in s;
    }
  }

  /** Step 1 passes iff address and city are non-blank; the other fields are ignored. */
  lemma Step1ValidIff(form: FormData)
    requires WellTyped(form)
    ensures StepErrors(form, 1) == map[] <==> !IsBlank(TextField(form, Address)) && !IsBlank(TextField(form, City))
    ensures StepErrors(form, 1).Keys <= {Address, City}
  {
    var a := RequiredError(TextField(form, Address), ADDRESS_REQUIRED);
    var c := RequiredError(TextField(form, City), CITY_REQUIRED);
    RequiredErrorCases(TextField(form, Address), ADDRESS_REQUIRED);
    RequiredErrorCases(TextField(form, City), CITY_REQUIRED);
    if a.Some? {
      assert Address in StepErrors(form, 1);
    }
    if c.Some? {
      assert City in StepErrors(form, 1);
    }
  }

  /** Step 2 with card payment passes iff number, expiry and CVC are each well formed. */
  lemma Step2CardValidIff(form: FormData)
    requires WellTyped(form) && TextField(form, PaymentMethod) == "card"
    ensures StepErrors(form, 2) == map[] <==>
      && SixteenDigits(RemoveWhitespace(TextField(form, CardNumber)))
      && ExpiryShape(TextField(form, CardExpiry))
      && CvcShape(TextField(form, CardCVC))
  {
    var n := CardNumberError(TextField(form, CardNumber));
    var e := ExpiryError(TextField(form, CardExpiry));
    var v := CvcError(TextField(form, CardCVC));
    CardNumberValidIff(TextField(form, CardNumber));
    ExpiryValidIff(TextField(form, CardExpiry));
    CvcValidIff(TextField(form, CardCVC));
    if n.Some? {
      assert CardNumber in StepErrors(form, 2);
    }
    if e.Some? {
      assert CardExpiry in StepErrors(form, 2);
    }
    if v.Some? {
      assert CardCVC in StepErrors(form, 2);
    }
  }

  /** Cash payment, and any step other than 1 or 2, always pass. */
  lemma OtherStepsAlwaysPass(form: FormData, step: int)
    requires WellTyped(form)
    requires step != 1 && (step != 2 || TextField(form, PaymentMethod) != "card")
    ensures StepErrors(form, step) == map[]
  {
  }

  /** On the payment step a blank card field is reported as required, never as badly formed. */
  lemma BlankReportsRequired(form: FormData)
    requires WellTyped(form) && TextField(form, PaymentMethod) == "card"
    ensures IsBlank(TextField(form, CardNumber)) ==> CardNumber in StepErrors(form, 2) && StepErrors(form, 2)[CardNumber] == CARD_REQUIRED
    ensures IsBlank(TextField(form, CardExpiry)) ==> CardExpiry in StepErrors(form, 2) && StepErrors(form, 2)[CardExpiry] == EXPIRY_REQUIRED
    ensures IsBlank(TextField(form, CardCVC)) ==> CardCVC in StepErrors(form, 2) && StepErrors(form, 2)[CardCVC] == CVC_REQUIRED
  {
    var number, expiry, cvc := TextField(form, CardNumber), TextField(form, CardExpiry), TextField(form, CardCVC);
    FieldErrorCases(number, SixteenDigits(RemoveWhitespace(number)), CARD_REQUIRED, CARD_INVALID);
    FieldErrorCases(expiry, ExpiryShape(expiry), EXPIRY_REQUIRED, EXPIRY_INVALID);
    FieldErrorCases(cvc, CvcShape(cvc), CVC_REQUIRED, CVC_INVALID);
    PaymentErrorsRecorded(CardNumberError(number), ExpiryError(expiry), CvcError(cvc));
  }

  /** Each card field's error, when there is one, is recorded under its own name. */
  lemma PaymentErrorsRecorded(number: Option<string>, expiry: Option<string>, cvc: Option<string>)
    ensures var m := PaymentErrors(number, expiry, cvc);
      && (number.Some? ==> CardNumber in m && m[CardNumber] == number.value)
      && (expiry.Some? ==> CardExpiry in m && m[CardExpiry] == expiry.value)
      && (cvc.Some? ==> CardCVC in m && m[CardCVC] == cvc.value)
  {
  }

  // ---------------------------------------------------------------------
  // Which buttons the page shows

  /** Back is shown after the first step. */
  predicate BackShown(step: int) { step > 1 }

  /** Next is shown before the last step; the last step shows Place Order instead. */
  predicate NextShown(step: int) { step < 2 }

  /** A button press; `Next` carries whether the current step validates. */
  datatype Press = Next(valid: bool) | Back

  /** The step after a sequence of presses of the buttons on screen; a hidden button cannot be pressed. */
  function AfterPresses(step: int, presses: seq<Press>): int
    decreases |presses|
  {
    if presses == [] then step
    else
      var p := presses[0];
      var next :=
        if p.Next? && NextShown(step) then (if p.valid then step + 1 else step)
        else if p.Back? && BackShown(step) then step - 1
        else step;
      AfterPresses(next, presses[1..])
  }

  /** Through the buttons on screen the step never leaves 1..2. */
  lemma {:induction false} StepStaysInRange(step: int, presses: seq<Press>)
    requires 1 <= step <= 2
    ensures 1 <= AfterPresses(step, presses) <= 2
    decreases |presses|
  {
    if presses != [] {
      var p := presses[0];
      var next :=
        if p.Next? && NextShown(step) then (if p.valid then step + 1 else step)
        else if p.Back? && BackShown(step) then step - 1
        else step;
      StepStaysInRange(next, presses[1..]);
    }
  }

  // ---------------------------------------------------------------------
  // The order summary shown beside the form

  const SUMMARY_SUBTOTAL: int := 947
  const SUMMARY_DELIVERY_FEE: int := 99
  const SUMMARY_TOTAL: int := 1046

  // ---------------------------------------------------------------------
  // The page state

  class CheckoutPage {
    var step: int
    var formData: FormData
    var errors: map<FieldName, string>

    ghost predicate Valid()
      reads this
    {
      WellTyped(formData)
    }

    /** The page as first rendered: step 1, the initial form, no errors. */
    constructor ()
      ensures Valid()
      ensures step == 1 && formData == INITIAL_FORM && errors == map[]
    {
      step := 1;
      formData := INITIAL_FORM;
      errors := map[];
    }

    /**
     * `validateStep`: fills a fresh error dictionary field by field, stores
     * it, and reports whether it stayed empty.
     */
    method ValidateStep(currentStep: int) returns (ok: bool)
      requires Valid()
      modifies this
      ensures Valid()
      ensures errors == StepErrors(formData, currentStep)
      ensures ok <==> errors == map[]
      ensures step == old(step) && formData == old(formData)
    {
      var newErrors: map<FieldName, string> := map[];
      if currentStep == 1 {
        newErrors := Record(newErrors, Address, RequiredError(formData[Address].text, ADDRESS_REQUIRED));
        newErrors := Record(newErrors, City, RequiredError(formData[City].text, CITY_REQUIRED));
        assert newErrors == StepErrors(formData, currentStep);
      }
      if currentStep == 2 && formData[PaymentMethod].text == "card" {
        var numberError := CardNumberError(formData[CardNumber].text);
        newErrors := Record(newErrors, CardNumber, numberError);
        var expiryError := ExpiryError(formData[CardExpiry].text);
        newErrors := Record(newErrors, CardExpiry, expiryError);
        var cvcError := CvcError(formData[CardCVC].text);
        newErrors := Record(newErrors, CardCVC, cvcError);
        assert newErrors == StepErrors(formData, currentStep);
      }
      errors := newErrors;
      ok := |newErrors| == 0;
    }

    /** `handleNext`: advance by one only when the current step validates. */
    method HandleNext()
      requires Valid()
      modifies this
      ensures Valid()
      ensures errors == StepErrors(old(formData), old(step))
      ensures step == if errors == map[] then old(step) + 1 else old(step)
      ensures formData == old(formData)
    {
      var ok := ValidateStep(step);
      if ok {
        step := step + 1;
      }
    }

    /** `handleBack`: go back one step, unconditionally. */
    method HandleBack()
      modifies this
      ensures step == old(step) - 1
      ensures formData == old(formData) && errors == old(errors)
    {
      step := step - 1;
    }

    /**
     * `handleChange`: store the event's value under its name and blank that
     * field's error if it had a non-empty one; no other error changes.
     */
    method HandleChange(e: ChangeEvent)
      requires Valid()
      requires e.name != SaveCard ==> !e.isCheckbox
      modifies this
      ensures Valid()
      ensures formData == old(formData)[e.name := EventValue(e)]
      ensures errors == if e.name in old(errors) && old(errors)[e.name] != "" then old(errors)[e.name := ""] else old(errors)
      ensures forall k :: k in old(errors) && k != e.name ==> k in errors && errors[k] == old(errors)[k]
      ensures step == old(step)
    {
      formData := formData[e.name := if e.isCheckbox then Flag(e.checked) else Str(e.value)];
      if e.name in errors && errors[e.name] != "" {
        errors := errors[e.name := ""];
      }
    }
  }
}
