/** The password-reset form screen: its field validators, which feed the
    shared error list, the mask toggle, and the values the screen derives on
    every render (whether submitting is allowed, the input type, the label ids).
 */
module ResetPasswordForm {
  import opened ErrorList

  // Translation namespaces the component fixes in its constructor.
  const ModuleNamespace := "stripes-core"
  const SmartComponentsNamespace := "stripes-smart-components"
  const ErrorsNamespace := "stripes-core.errors"
  const ButtonNamespace := "stripes-core.button"

  const PasswordMatchErrorCode := "password.match.error"

  /** The error the confirm-password validator reports on a mismatch. */
  const MatchError := ErrorEntry(PasswordMatchErrorCode, ErrorsNamespace)

  /** The two form values; a value the form has not set yet is "". */
  datatype FormValues = FormValues(newPassword: string, confirmPassword: string)

  /** The props the screen reads when it renders. */
  datatype Props = Props(
    errors: seq<ErrorEntry>,
    submitting: bool,
    submitSucceeded: bool,
    formValues: FormValues)

  /** What a render derives from the props and the mask state. */
  datatype View = View(
    buttonDisabled: bool,
    passwordType: string,
    buttonLabelId: string,
    passwordToggleLabelId: string,
    showErrors: bool)

  /** JavaScript truthiness of a string form value. */
  predicate Truthy(v: string) {
    v != ""
  }

  /** The confirm-password field is valid unless both values are set and differ. */
  predicate ConfirmPasswordValid(values: FormValues) {
    !(Truthy(values.newPassword) && Truthy(values.confirmPassword)
      && values.newPassword != values.confirmPassword)
  }

  predicate SubmissionStatus(submitting: bool, submitSucceeded: bool) {
    submitting || submitSucceeded
  }

  /** The input type of both password fields. */
  function PasswordType(passwordMasked: bool): (t: string)
    ensures t == "password" <==> passwordMasked
    ensures !passwordMasked ==> t == "text"
  {
    if passwordMasked then "password" else "text"
  }

  /** The submit button's label id, under the module namespace. */
  function ButtonLabelId(submissionStatus: bool): (id: string)
    ensures id == "stripes-core.settingPassword" <==> submissionStatus
    ensures !submissionStatus ==> id == "stripes-core.setPassword"
  {
    ModuleNamespace + "." + (if submissionStatus then "settingPassword" else "setPassword")
  }

  /** The mask toggle's label id, under the button namespace. */
  function PasswordToggleLabelId(passwordMasked: bool): (id: string)
    ensures id == "stripes-core.button.showPassword" <==> passwordMasked
    ensures !passwordMasked ==> id == "stripes-core.button.hidePassword"
  {
    var id := ButtonNamespace + "." + (if passwordMasked then "show" else "hide") + "Password";
    assert id[20] == if passwordMasked then 's' else 'h';
    id
  }

  /** The derived values of one render. The submit button is disabled by any
      error, by a submission in flight or done, and by an empty password
      field; otherwise it is enabled. The error panel shows exactly when the
      list is not empty. */
  function Render(props: Props, passwordMasked: bool): (v: View)
    ensures props.errors != [] ==> v.buttonDisabled && v.showErrors
    ensures props.formValues.newPassword == "" || props.formValues.confirmPassword == "" ==> v.buttonDisabled
    ensures props.submitting || props.submitSucceeded ==> v.buttonDisabled
    ensures !v.buttonDisabled <==>
      props.errors == [] && !props.submitting && !props.submitSucceeded
      && props.formValues.newPassword != "" && props.formValues.confirmPassword != ""
    ensures v.showErrors <==> props.errors != []
    ensures v.passwordType == "password" <==> passwordMasked
    ensures v.passwordToggleLabelId == "stripes-core.button.showPassword" <==> passwordMasked
    ensures v.buttonLabelId == "stripes-core.settingPassword" <==> props.submitting || props.submitSucceeded
  {
    var submissionStatus := SubmissionStatus(props.submitting, props.submitSucceeded);
    var values := props.formValues;
    View(
      props.errors != [] || submissionStatus || !(Truthy(values.newPassword) && Truthy(values.confirmPassword)),
      PasswordType(passwordMasked),
      ButtonLabelId(submissionStatus),
      PasswordToggleLabelId(passwordMasked),
      props.errors != [])
  }

  /** The mask state after the toggle has been clicked `n` times. */
  function ToggledTimes(passwordMasked: bool, n: nat): bool {
    if n == 0 then passwordMasked else !ToggledTimes(passwordMasked, n - 1)
  }

  /** Only the parity of the number of clicks matters. */
  lemma {:induction false} ToggledTimesParity(passwordMasked: bool, n: nat)
    ensures ToggledTimes(passwordMasked, n) == (if n % 2 == 0 then passwordMasked else !passwordMasked)
  {
    if n > 0 {
      ToggledTimesParity(passwordMasked, n - 1);
    }
  }

  /** An even number of clicks restores the input type and the toggle label. */
  lemma EvenTogglesRestoreView(props: Props, passwordMasked: bool, n: nat)
    requires n % 2 == 0
    ensures Render(props, ToggledTimes(passwordMasked, n)) == Render(props, passwordMasked)
  {
    ToggledTimesParity(passwordMasked, n);
  }

  /** The confirm validator's edit: the mismatch error is in the list exactly
      when both values are set and differ, and nothing else changes. */
  lemma ConfirmValidationOutcome(errors: seq<ErrorEntry>, values: FormValues)
    ensures var r := Validated(errors, ConfirmPasswordValid(values), MatchError);
      && (MatchError in r <==>
          values.newPassword != "" && values.confirmPassword != ""
          && values.newPassword != values.confirmPassword)
      && Removed(r, MatchError) == Removed(errors, MatchError)
  {
    ValidatedKeepsOthers(errors, ConfirmPasswordValid(values), MatchError);
  }

  /** Matching passwords with no strength errors leave the button enabled and
      no error panel; mismatching ones on an empty list add exactly the
      mismatch error, which disables the button and shows the panel. */
  lemma SubmitScenarios()
    ensures var values := FormValues("Abc12345", "Abc12345");
      var errors := Validated([], ConfirmPasswordValid(values), MatchError);
      var v := Render(Props(errors, false, false, values), true);
      errors == [] && !v.buttonDisabled && !v.showErrors
    ensures var values := FormValues("Abc12345", "Xyz99999");
      var errors := Validated([], ConfirmPasswordValid(values), MatchError);
      var v := Render(Props(errors, false, false, values), true);
      errors == [MatchError] && v.buttonDisabled && v.showErrors
  {
    assert "Abc12345"[0] != "Xyz99999"[0];
  }

  /** The screen: it holds the parent's errors list by reference and owns the
      mask state. */
  class CreateResetPassword {
    const errors: ErrorCollection
    var passwordMasked: bool

    constructor (errors: ErrorCollection)
      ensures this.errors == errors && passwordMasked
    {
      this.errors := errors;
      passwordMasked := true;
    }

    method TogglePasswordMask()
      modifies this
      ensures passwordMasked == !old(passwordMasked)
    {
      passwordMasked := !passwordMasked;
    }

    /** Removes the entry on a valid report; on an invalid one, appends it
        unless a matching entry is already there. */
    method HandleValidation(valid: bool, errorCode: string, translationNamespace: string)
      modifies errors
      ensures errors.entries == Validated(old(errors.entries), valid, ErrorEntry(errorCode, translationNamespace))
      ensures NoDuplicates(old(errors.entries)) ==> NoDuplicates(errors.entries)
    {
      var error := ErrorEntry(errorCode, translationNamespace);
      ghost var before := errors.entries;
      if NoDuplicates(before) {
        ValidatedNoDuplicates(before, valid, error);
      }
      if valid {
        errors.Remove(error);
        return;
      }
      var present := errors.Some(error);
      if !present {
        errors.Push(error);
      }
    }

    /** The strength field's callback: its report goes under the
        smart-components namespace. */
    method NewPasswordFieldValidation(valid: bool, errorCode: string)
      modifies errors
      ensures errors.entries == Validated(old(errors.entries), valid, ErrorEntry(errorCode, SmartComponentsNamespace))
    {
      HandleValidation(valid, errorCode, SmartComponentsNamespace);
    }

    /** The confirm field's validator; `value`, the field's own value, is not
        consulted, only the two form values are. */
    method ConfirmPasswordFieldValidation(value: string, allValues: FormValues)
      modifies errors
      ensures errors.entries == Validated(old(errors.entries), ConfirmPasswordValid(allValues), MatchError)
      ensures MatchError in errors.entries <==>
        allValues.newPassword != "" && allValues.confirmPassword != ""
        && allValues.newPassword != allValues.confirmPassword
      ensures Removed(errors.entries, MatchError) == Removed(old(errors.entries), MatchError)
    {
      HandleValidation(ConfirmPasswordValid(allValues), PasswordMatchErrorCode, ErrorsNamespace);
      ConfirmValidationOutcome(old(errors.entries), allValues);
    }
  }
}
