/** Values of the creation form and the error shown under a field. */
module FormTypes {
  import opened Common

  /** Every level carries a client-side `uid`, used only as a rendering key. */
  datatype FormSlide = FormSlide(uid: string, staining: string)
  datatype FormBlock = FormBlock(uid: string, slides: seq<FormSlide>)
  datatype FormSpecimen = FormSpecimen(uid: string, blocks: seq<FormBlock>)
  datatype FormValues = FormValues(identifier: string, specimens: seq<FormSpecimen>)

  /** An entry of a field's `errors` list, which the form library types as `unknown`. */
  datatype ErrorValue = StringError(text: string) | OtherError

  datatype FieldMeta = FieldMeta(isTouched: bool, errors: seq<ErrorValue>)

  /** `getFieldError`: the first error of a touched field, when it is a string. */
  function GetFieldError(meta: FieldMeta): (message: Option<string>)
    ensures message.Some? <==> meta.isTouched && |meta.errors| > 0 && meta.errors[0].StringError?
    ensures message.Some? ==> message.value == meta.errors[0].text
  {
    if !meta.isTouched || |meta.errors| == 0 then None
    else
      var firstError := meta.errors[0];
      if firstError.StringError? then Some(firstError.text) else None
  }

  /** Errors after the first one are never reported, and an untouched field reports none. */
  lemma OnlyFirstErrorShown(meta: FieldMeta, later: seq<ErrorValue>)
    ensures |meta.errors| > 0 ==>
      GetFieldError(FieldMeta(meta.isTouched, [meta.errors[0]] + later)) == GetFieldError(meta)
    ensures GetFieldError(FieldMeta(false, later)) == None
  {
  }
}
