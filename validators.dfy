/** Field validators of the creation form: a field is required once trimmed. */
module FormValidators {
  import opened Strings
  import opened Common

  const RequiredSuffix: string := " est obligatoire."

  /** `requiredValidator(label)({ value })`: no error (`undefined`) or the French "is required" message. */
  function RequiredCheck(fieldLabel: string, value: string): (error: Option<string>)
    ensures error.None? <==> !AllWhitespace(value)
    ensures error.Some? ==> error.value == fieldLabel + RequiredSuffix
  {
    TrimEmptyIff(value);
    if Trim(value) != "" then None else Some(fieldLabel + RequiredSuffix)
  }

  /** `requiredValidator(label)`, the closure handed to the form library. */
  function RequiredValidator(fieldLabel: string): (validator: string -> Option<string>)
    ensures forall value :: validator(value) == RequiredCheck(fieldLabel, value)
  {
    value => RequiredCheck(fieldLabel, value)
  }

  /** Leading or trailing whitespace never changes the verdict. */
  lemma RequiredIgnoresPadding(fieldLabel: string, w1: string, value: string, w2: string)
    requires AllWhitespace(w1) && AllWhitespace(w2)
    ensures RequiredCheck(fieldLabel, w1 + value + w2) == RequiredCheck(fieldLabel, value)
  {
    TrimIgnoresPadding(w1, value, w2);
  }

  datatype FieldValidators = FieldValidators(onBlur: string -> Option<string>, onChange: string -> Option<string>)

  /** `buildRequiredValidators`: the same required check on blur and on change. */
  function BuildRequiredValidators(fieldLabel: string): (validators: FieldValidators)
    ensures forall value :: validators.onBlur(value) == RequiredCheck(fieldLabel, value)
    ensures forall value :: validators.onChange(value) == RequiredCheck(fieldLabel, value)
  {
    FieldValidators(RequiredValidator(fieldLabel), RequiredValidator(fieldLabel))
  }
}
