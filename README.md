# CreateResetPassword: validation and submit gating

A model of the logic inside the `CreateResetPassword` screen from stripes-core. This screen is the password-reset form. The model covers four parts:

- **The shared error list.** It is an array of `{ code, translationNamespace }` entries. The parent error container owns it, and the form's validators edit it in place. `ErrorList.ErrorCollection` is that mutable array. Its methods `Remove`, `Some` and `Push` are the three lodash/array operations the form calls. `Removed`, `Inserted` and `Validated` are the value-level specifications those methods are proved against.
- **The validation coordinator and the two field validators.** These are `HandleValidation`, `NewPasswordFieldValidation` and `ConfirmPasswordFieldValidation`, written as methods of the `ResetPasswordForm.CreateResetPassword` class. The class holds the errors list by reference and owns the `passwordMasked` state.
- **The mask toggle.** It flips `passwordMasked`, which starts as `true`.
- **The values derived on every render.** These are whether the submit button is disabled, the input type, the button label id, the toggle label id, and whether the error panel shows. `ResetPasswordForm.Render` computes them as a pure function of the props and the mask state.

Form values are strings. A value the form has not set yet (`undefined`) is modelled as `""`. So JavaScript truthiness of a form value is "not the empty string". Label ids are the plain strings the template literals build, such as `stripes-core.button.showPassword`. The model does not resolve translations.

Two entries match when both their code and their namespace are equal.

## Model

| member | source | states |
|---|---|---|
| ErrorList.Removed | src/components/CreateResetPassword/CreateResetPassword.js:105-107 | after `remove`, no matching entry is left; every other entry is kept, with the same multiplicity; the list never grows |
| ErrorList.Inserted | src/components/CreateResetPassword/CreateResetPassword.js:110-112 | after "push unless `some` matches", the entry is present; the old list is a prefix of the new one; at most one entry is added |
| ErrorList.Validated | src/components/CreateResetPassword/CreateResetPassword.js:98-113 | after a report, the entry is present iff the report was invalid; every other entry is present iff it was present before |
| ErrorList.RemovedAppend | src/components/CreateResetPassword/CreateResetPassword.js:106 | removing distributes over concatenation, so the kept entries stay in their original relative order |
| ErrorList.RemovedAbsent | src/components/CreateResetPassword/CreateResetPassword.js:106 | removing an entry that is absent leaves the list unchanged |
| ErrorList.RemovedNoDuplicates | src/components/CreateResetPassword/CreateResetPassword.js:106 | removing keeps a duplicate-free list duplicate-free |
| ErrorList.ValidatedNoDuplicates | src/components/CreateResetPassword/CreateResetPassword.js:98-113 | if the list has no duplicate (code, namespace) pairs before a report, it has none after |
| ErrorList.ValidatedKeepsOthers | src/components/CreateResetPassword/CreateResetPassword.js:98-113 | a report touches only matching entries: once they are removed, the list equals the old list with them removed, in the same order |
| ErrorList.ValidatedIdempotent | src/components/CreateResetPassword/CreateResetPassword.js:98-113 | reporting the same validity twice gives the same list as reporting it once |
| ErrorList.ValidAbsentIsNoop | src/components/CreateResetPassword/CreateResetPassword.js:105-107 | a valid report for an absent entry leaves the list unchanged |
| ErrorList.InvalidInsertsOnce | src/components/CreateResetPassword/CreateResetPassword.js:110-112 | an invalid report leaves the list unchanged if the entry is already present; otherwise it appends the entry after the unchanged earlier entries, as a single copy |
| ErrorList.InvalidThenValidRestores | src/components/CreateResetPassword/CreateResetPassword.js:98-113 | an invalid report and then a valid report for the same entry restore a list that did not hold it |
| ErrorList.ErrorCollection.constructor | src/components/CreateResetPassword/CreateResetPassword.js:41 | the errors list starts as the parent's array |
| ErrorList.ErrorCollection.Some | src/components/CreateResetPassword/CreateResetPassword.js:110 | the scan returns true iff a matching entry is in the list |
| ErrorList.ErrorCollection.Remove | src/components/CreateResetPassword/CreateResetPassword.js:106 | the in-place remove leaves exactly `Removed` of the old list |
| ErrorList.ErrorCollection.Push | src/components/CreateResetPassword/CreateResetPassword.js:111 | push appends the entry at the end and keeps the earlier entries |
| ResetPasswordForm.PasswordType | src/components/CreateResetPassword/CreateResetPassword.js:131 | the input type is `password` iff masked, else `text` |
| ResetPasswordForm.ButtonLabelId | src/components/CreateResetPassword/CreateResetPassword.js:132 | the button label is `stripes-core.settingPassword` iff a submission is in flight or has succeeded, else `stripes-core.setPassword` |
| ResetPasswordForm.PasswordToggleLabelId | src/components/CreateResetPassword/CreateResetPassword.js:133 | the toggle label is `stripes-core.button.showPassword` iff masked, else `stripes-core.button.hidePassword` |
| ResetPasswordForm.Render | src/components/CreateResetPassword/CreateResetPassword.js:128-133 | the submit button is disabled iff there are errors, or a submission is in flight or has succeeded, or a password value is empty; a non-empty error list always disables it and shows the error panel (line 273); the type and label ids follow the mask and the submission state |
| ResetPasswordForm.ToggledTimesParity | src/components/CreateResetPassword/CreateResetPassword.js:74-78 | after n toggles, the mask state depends only on the parity of n |
| ResetPasswordForm.EvenTogglesRestoreView | src/components/CreateResetPassword/CreateResetPassword.js:131-133 | an even number of toggles restores the whole rendered view, including the input type and the toggle label |
| ResetPasswordForm.ConfirmValidationOutcome | src/components/CreateResetPassword/CreateResetPassword.js:88-96 | after confirm validation, the mismatch error is present iff both passwords are non-empty and differ; no other entry changes |
| ResetPasswordForm.SubmitScenarios | src/components/CreateResetPassword/CreateResetPassword.js:129-130 | with matching passwords and no errors, the button is enabled and no panel shows; with mismatching passwords and an empty list, the list becomes exactly the mismatch error, the button is disabled and the panel shows |
| ResetPasswordForm.CreateResetPassword.constructor | src/components/CreateResetPassword/CreateResetPassword.js:66-68 | the password starts masked; the errors list is the parent's, shared rather than copied |
| ResetPasswordForm.CreateResetPassword.TogglePasswordMask | src/components/CreateResetPassword/CreateResetPassword.js:74-78 | the toggle negates `passwordMasked` |
| ResetPasswordForm.CreateResetPassword.HandleValidation | src/components/CreateResetPassword/CreateResetPassword.js:98-113 | the shared list becomes `Validated` of the old list, and the no-duplicates invariant is kept |
| ResetPasswordForm.CreateResetPassword.NewPasswordFieldValidation | src/components/CreateResetPassword/CreateResetPassword.js:80-86 | has exactly the effect of `HandleValidation` under `stripes-smart-components` |
| ResetPasswordForm.CreateResetPassword.ConfirmPasswordFieldValidation | src/components/CreateResetPassword/CreateResetPassword.js:88-96 | the entry (`password.match.error`, `stripes-core.errors`) is present afterwards iff both values are non-empty and differ; every other entry is untouched, in order |

## Left out

- JSX rendering and layout are left out: rows, columns, buttons, text fields, field labels, the logo and the error container. Only the values they receive are modelled.
- The redux-form, react-redux and stripes wiring is left out. This covers `reduxForm`, `formValueSelector`, `connect`, `stripes.connect` and `handleSubmit(onSubmit)`. It is framework plumbing, and its behaviour is not visible here.
- The password-strength algorithm of the external strength field is left out. Only its callback into `NewPasswordFieldValidation` is modelled.
- Translation of label ids into messages is left out.
- The placeholder username `diku_admin` is left out. The source marks it as a to-do, not as intended behaviour.
- `validate={this.validators.newPassword}` is left out. That entry of the validators map is undefined, so there is nothing to model.
- Entry matching is exact equality of (code, namespace). lodash `remove` and `some` match partially (`_.matches`), so they would also match list entries that carry extra fields. Entries here have no extra fields.
- React `setState` batching and the scheduling of validators relative to renders are left out. The model runs each handler to completion, one after another.
- The `errors` prop is a fixed reference for the component's lifetime. A parent that passes a different array on a later render is not modelled.
- `undefined` form values are modelled as `""`. A non-string form value is not modelled.
