/**
 * The case creation form: nested lists of specimens, blocks and slides edited
 * in place, a draft saved to browser storage on every change, and a submit
 * handler that hands the payload to the page.
 */
module CaseCreationForm {
  import opened Common
  import opened Hierarchy
  import opened FormTypes
  import opened FormUtils
  import opened CreateCaseDto
  import opened ClientCases

  /** `pushFieldValue('specimens', createEmptySpecimen())`. */
  function WithSpecimenAdded(v: FormValues, uid: string, blockUid: string, slideUid: string): FormValues {
    v.(specimens := v.specimens + [CreateEmptySpecimen(uid, blockUid, slideUid)])
  }

  /** `pushFieldValue('specimens[i].blocks', createEmptyBlock())`. */
  function WithBlockAdded(v: FormValues, i: nat, uid: string, slideUid: string): FormValues
    requires i < |v.specimens|
  {
    var s := v.specimens[i];
    v.(specimens := v.specimens[i := s.(blocks := s.blocks + [CreateEmptyBlock(uid, slideUid)])])
  }

  /** `pushFieldValue(getSlideListPath(i, j), createEmptySlide())`. */
  function WithSlideAdded(v: FormValues, i: nat, j: nat, uid: string): FormValues
    requires i < |v.specimens| && j < |v.specimens[i].blocks|
  {
    var s := v.specimens[i];
    var b := s.blocks[j];
    v.(specimens := v.specimens[i := s.(blocks := s.blocks[j := b.(slides := b.slides + [CreateEmptySlide(uid)])])])
  }

  function RemoveAt<T>(xs: seq<T>, index: nat): seq<T>
    requires index < |xs|
  {
    xs[..index] + xs[index + 1..]
  }

  /** `removeSpecimen(index, total)`: nothing when `total <= 1`. */
  function WithSpecimenRemoved(v: FormValues, index: nat, total: int): FormValues
    requires index < |v.specimens|
  {
    if total <= 1 then v else v.(specimens := RemoveAt(v.specimens, index))
  }

  /** `removeBlock(i, index, blockCount)`: nothing when `blockCount <= 1`. */
  function WithBlockRemoved(v: FormValues, i: nat, index: nat, blockCount: int): FormValues
    requires i < |v.specimens| && index < |v.specimens[i].blocks|
  {
    var s := v.specimens[i];
    if blockCount <= 1 then v else v.(specimens := v.specimens[i := s.(blocks := RemoveAt(s.blocks, index))])
  }

  /** `removeSlide(i, j, index, slideCount)`: nothing when `slideCount <= 1`. */
  function WithSlideRemoved(v: FormValues, i: nat, j: nat, index: nat, slideCount: int): FormValues
    requires i < |v.specimens| && j < |v.specimens[i].blocks| && index < |v.specimens[i].blocks[j].slides|
  {
    var s := v.specimens[i];
    var b := s.blocks[j];
    if slideCount <= 1 then v
    else v.(specimens := v.specimens[i := s.(blocks := s.blocks[j := b.(slides := RemoveAt(b.slides, index))])])
  }

  /**
   * A button press in the form. The remove buttons pass the current length of
   * the list they belong to as the count, and exist only for rendered rows.
   */
  datatype Action =
    | AddSpecimen(uid: string, blockUid: string, slideUid: string)
    | RemoveSpecimen(index: nat)
    | AddBlock(specimen: nat, uid: string, slideUid: string)
    | RemoveBlock(specimen: nat, index: nat)
    | AddSlide(specimen: nat, block: nat, uid: string)
    | RemoveSlide(specimen: nat, block: nat, index: nat)

  function Apply(v: FormValues, a: Action): FormValues {
    match a
    case AddSpecimen(u, bu, su) => WithSpecimenAdded(v, u, bu, su)
    case RemoveSpecimen(k) =>
      if k < |v.specimens| then WithSpecimenRemoved(v, k, |v.specimens|) else v
    case AddBlock(i, u, su) =>
      if i < |v.specimens| then WithBlockAdded(v, i, u, su) else v
    case RemoveBlock(i, k) =>
      if i < |v.specimens| && k < |v.specimens[i].blocks|
      then WithBlockRemoved(v, i, k, |v.specimens[i].blocks|) else v
    case AddSlide(i, j, u) =>
      if i < |v.specimens| && j < |v.specimens[i].blocks| then WithSlideAdded(v, i, j, u) else v
    case RemoveSlide(i, j, k) =>
      if i < |v.specimens| && j < |v.specimens[i].blocks| && k < |v.specimens[i].blocks[j].slides|
      then WithSlideRemoved(v, i, j, k, |v.specimens[i].blocks[j].slides|) else v
  }

  function Replay(v: FormValues, actions: seq<Action>): FormValues
    decreases |actions|
  {
    if actions == [] then v else Replay(Apply(v, actions[0]), actions[1..])
  }

  predicate SpecimenFull(s: FormSpecimen) {
    |s.blocks| > 0 && forall j :: 0 <= j < |s.blocks| ==> |s.blocks[j].slides| > 0
  }

  /** `NonEmptyLevels`, specimen by specimen. */
  lemma NonEmptyLevelsIff(v: FormValues)
    ensures NonEmptyLevels(v) <==>
      |v.specimens| > 0 && forall i :: 0 <= i < |v.specimens| ==> SpecimenFull(v.specimens[i])
  {
    var shape := FormShape(v.specimens);
    if forall i :: 0 <= i < |v.specimens| ==> SpecimenFull(v.specimens[i]) {
      forall i | 0 <= i < |shape|
        ensures |shape[i]| > 0 && forall j :: 0 <= j < |shape[i]| ==> shape[i][j] > 0
      {
        assert SpecimenFull(v.specimens[i]);
      }
    }
    if FullShape(shape) {
      forall i | 0 <= i < |v.specimens| ensures SpecimenFull(v.specimens[i]) {
        assert |shape[i]| > 0;
        forall j | 0 <= j < |v.specimens[i].blocks| ensures |v.specimens[i].blocks[j].slides| > 0 {
          assert shape[i][j] > 0;
        }
      }
    }
  }

  predicate AllFull(specimens: seq<FormSpecimen>) {
    forall i :: 0 <= i < |specimens| ==> SpecimenFull(specimens[i])
  }

  /** Replacing one specimen by a full one keeps every specimen full. */
  lemma ReplaceKeepsFull(specimens: seq<FormSpecimen>, x: nat, s: FormSpecimen)
    requires x < |specimens| && AllFull(specimens) && SpecimenFull(s)
    ensures AllFull(specimens[x := s])
  {
  }

  lemma AddSpecimenKeepsFull(v: FormValues, u: string, bu: string, su: string)
    requires AllFull(v.specimens)
    ensures AllFull(WithSpecimenAdded(v, u, bu, su).specimens)
  {
    var w := WithSpecimenAdded(v, u, bu, su).specimens;
    assert w == v.specimens + [CreateEmptySpecimen(u, bu, su)];
    forall i | 0 <= i < |w| ensures SpecimenFull(w[i]) {
      if i < |v.specimens| { assert w[i] == v.specimens[i]; }
    }
  }

  lemma RemoveAtKeepsFull(specimens: seq<FormSpecimen>, k: nat)
    requires k < |specimens| && AllFull(specimens)
    ensures AllFull(RemoveAt(specimens, k))
  {
    var w := RemoveAt(specimens, k);
    forall i | 0 <= i < |w| ensures SpecimenFull(w[i]) {
      assert w[i] == (if i < k then specimens[i] else specimens[i + 1]);
    }
  }

  lemma AddBlockKeepsFull(s: FormSpecimen, b: FormBlock)
    requires SpecimenFull(s) && |b.slides| > 0
    ensures SpecimenFull(s.(blocks := s.blocks + [b]))
  {
    var blocks := s.blocks + [b];
    forall j | 0 <= j < |blocks| ensures |blocks[j].slides| > 0 {
      if j < |s.blocks| { assert blocks[j] == s.blocks[j]; }
    }
  }

  lemma RemoveBlockKeepsFull(s: FormSpecimen, k: nat)
    requires SpecimenFull(s) && k < |s.blocks| && |s.blocks| > 1
    ensures SpecimenFull(s.(blocks := RemoveAt(s.blocks, k)))
  {
    var blocks := RemoveAt(s.blocks, k);
    forall j | 0 <= j < |blocks| ensures |blocks[j].slides| > 0 {
      assert blocks[j] == (if j < k then s.blocks[j] else s.blocks[j + 1]);
    }
  }

  lemma ChangeSlidesKeepsFull(s: FormSpecimen, y: nat, b: FormBlock)
    requires SpecimenFull(s) && y < |s.blocks| && |b.slides| > 0
    ensures SpecimenFull(s.(blocks := s.blocks[y := b]))
  {
  }

  /** One press of any button keeps every level of the tree non-empty. */
  lemma ApplyKeepsLevelsNonEmpty(v: FormValues, a: Action)
    requires NonEmptyLevels(v)
    ensures NonEmptyLevels(Apply(v, a))
  {
    var w := Apply(v, a);
    NonEmptyLevelsIff(v);
    match a
    case AddSpecimen(u, bu, su) =>
      AddSpecimenKeepsFull(v, u, bu, su);
    case RemoveSpecimen(k) =>
      if k < |v.specimens| && |v.specimens| > 1 {
        RemoveAtKeepsFull(v.specimens, k);
      }
    case AddBlock(x, u, su) =>
      if x < |v.specimens| {
        AddBlockKeepsFull(v.specimens[x], CreateEmptyBlock(u, su));
        ReplaceKeepsFull(v.specimens, x, w.specimens[x]);
      }
    case RemoveBlock(x, k) =>
      if x < |v.specimens| && k < |v.specimens[x].blocks| && |v.specimens[x].blocks| > 1 {
        RemoveBlockKeepsFull(v.specimens[x], k);
        ReplaceKeepsFull(v.specimens, x, w.specimens[x]);
      }
    case AddSlide(x, y, u) =>
      if x < |v.specimens| && y < |v.specimens[x].blocks| {
        var s := v.specimens[x];
        ChangeSlidesKeepsFull(s, y, w.specimens[x].blocks[y]);
        ReplaceKeepsFull(v.specimens, x, w.specimens[x]);
      }
    case RemoveSlide(x, y, k) =>
      if x < |v.specimens| && y < |v.specimens[x].blocks| && k < |v.specimens[x].blocks[y].slides| &&
         |v.specimens[x].blocks[y].slides| > 1 {
        var s := v.specimens[x];
        assert |w.specimens[x].blocks[y].slides| == |s.blocks[y].slides| - 1;
        ChangeSlidesKeepsFull(s, y, w.specimens[x].blocks[y]);
        ReplaceKeepsFull(v.specimens, x, w.specimens[x]);
      }
    NonEmptyLevelsIff(w);
  }

  /** From the initial values, any sequence of button presses keeps every level non-empty. */
  lemma {:induction false} ReplayKeepsLevelsNonEmpty(v: FormValues, actions: seq<Action>)
    requires NonEmptyLevels(v)
    ensures NonEmptyLevels(Replay(v, actions))
    decreases |actions|
  {
    if actions != [] {
      ApplyKeepsLevelsNonEmpty(v, actions[0]);
      ReplayKeepsLevelsNonEmpty(Apply(v, actions[0]), actions[1..]);
    }
  }

  /** Adding appends one fresh one-child subtree at the end of one list. */
  lemma AddAppendsOneSubtree(v: FormValues, i: nat, j: nat, uid: string, uid2: string, uid3: string)
    requires i < |v.specimens| && j < |v.specimens[i].blocks|
    ensures var w := WithSpecimenAdded(v, uid, uid2, uid3);
      w.identifier == v.identifier && w.specimens[..|v.specimens|] == v.specimens &&
      FormShape(w.specimens) == FormShape(v.specimens) + [[1]]
    ensures var w := WithBlockAdded(v, i, uid, uid2);
      FormShape(w.specimens) == FormShape(v.specimens)[i := FormShape(v.specimens)[i] + [1]]
    ensures var w := WithSlideAdded(v, i, j, uid);
      FormShape(w.specimens) ==
        FormShape(v.specimens)[i := FormShape(v.specimens)[i][j := FormShape(v.specimens)[i][j] + 1]]
  {
    var shape := FormShape(v.specimens);
    var w1 := WithSpecimenAdded(v, uid, uid2, uid3);
    SameShape(FormShape(w1.specimens), shape + [[1]]);
    var w2 := WithBlockAdded(v, i, uid, uid2);
    SameShape(FormShape(w2.specimens), shape[i := shape[i] + [1]]);
    var w3 := WithSlideAdded(v, i, j, uid);
    SameShape(FormShape(w3.specimens), shape[i := shape[i][j := shape[i][j] + 1]]);
  }

  const SubmitFallbackMessage: string := "Impossible d’enregistrer le dossier. Veuillez réessayer."

  /** The message shown for a failed submission: the error's own, or the fixed fallback. */
  function SubmissionMessage(error: Thrown): (message: string)
    ensures error.ErrorInstance? ==> message == error.message
    ensures error.NonErrorValue? ==> message == SubmitFallbackMessage
  {
    if error.ErrorInstance? then error.message else SubmitFallbackMessage
  }

  /** Browser storage for the in-progress form: at most one saved draft. */
  class DraftStorage {
    var saved: Option<FormValues>

    constructor (initial: Option<FormValues>)
      ensures saved == initial
    {
      saved := initial;
    }

    method Read() returns (draft: Option<FormValues>)
      ensures draft == saved
    {
      draft := saved;
    }

    method Save(values: FormValues)
      modifies this
      ensures saved == Some(values)
    {
      saved := Some(values);
    }

    method Clear()
      modifies this
      ensures saved == None
    {
      saved := None;
    }
  }

  class CaseCreationForm {
    const draft: DraftStorage
    const initialValues: FormValues
    var values: FormValues
    var skipStorage: bool
    var submissionError: Option<string>
    var successNotifications: nat

    ghost predicate Valid()
      reads this
    {
      NonEmptyLevels(values) && NonEmptyLevels(initialValues)
    }

    /** Mounting: the stored draft when there is one, otherwise `createInitialValues()`. */
    constructor (draft: DraftStorage, specimenUid: string, blockUid: string, slideUid: string)
      ensures this.draft == draft
      ensures initialValues ==
        (if draft.saved.Some? then draft.saved.value else CreateInitialValues(specimenUid, blockUid, slideUid))
      ensures values == initialValues && !skipStorage && submissionError == None && successNotifications == 0
      ensures draft.saved.None? ==> Valid()
    {
      this.draft := draft;
      var stored := draft.Read();
      var initial := if stored.Some? then stored.value else CreateInitialValues(specimenUid, blockUid, slideUid);
      initialValues := initial;
      values := initial;
      skipStorage := false;
      submissionError := None;
      successNotifications := 0;
    }

    method AddSpecimen(uid: string, blockUid: string, slideUid: string)
      modifies this`values
      ensures values == WithSpecimenAdded(old(values), uid, blockUid, slideUid)
      ensures old(Valid()) ==> Valid()
    {
      values := values.(specimens := values.specimens + [CreateEmptySpecimen(uid, blockUid, slideUid)]);
      if old(Valid()) {
        ApplyKeepsLevelsNonEmpty(old(values), Action.AddSpecimen(uid, blockUid, slideUid));
      }
    }

    method RemoveSpecimen(index: nat, total: int)
      requires index < |values.specimens|
      modifies this`values
      ensures values == WithSpecimenRemoved(old(values), index, total)
      ensures old(Valid()) && total == |old(values).specimens| ==> Valid()
    {
      if total <= 1 {
        return;
      }
      values := values.(specimens := values.specimens[..index] + values.specimens[index + 1..]);
      if old(Valid()) && total == |old(values).specimens| {
        ApplyKeepsLevelsNonEmpty(old(values), Action.RemoveSpecimen(index));
      }
    }

    method AddBlock(specimenIndex: nat, uid: string, slideUid: string)
      requires specimenIndex < |values.specimens|
      modifies this`values
      ensures values == WithBlockAdded(old(values), specimenIndex, uid, slideUid)
      ensures old(Valid()) ==> Valid()
    {
      var s := values.specimens[specimenIndex];
      values := values.(specimens := values.specimens[specimenIndex := s.(blocks := s.blocks + [CreateEmptyBlock(uid, slideUid)])]);
      if old(Valid()) {
        ApplyKeepsLevelsNonEmpty(old(values), Action.AddBlock(specimenIndex, uid, slideUid));
      }
    }

    method RemoveBlock(specimenIndex: nat, blockIndex: nat, blockCount: int)
      requires specimenIndex < |values.specimens| && blockIndex < |values.specimens[specimenIndex].blocks|
      modifies this`values
      ensures values == WithBlockRemoved(old(values), specimenIndex, blockIndex, blockCount)
      ensures old(Valid()) && blockCount == |old(values).specimens[specimenIndex].blocks| ==> Valid()
    {
      if blockCount <= 1 {
        return;
      }
      var s := values.specimens[specimenIndex];
      values := values.(specimens := values.specimens[specimenIndex := s.(blocks := RemoveAt(s.blocks, blockIndex))]);
      if old(Valid()) && blockCount == |old(values).specimens[specimenIndex].blocks| {
        ApplyKeepsLevelsNonEmpty(old(values), Action.RemoveBlock(specimenIndex, blockIndex));
      }
    }

    method AddSlide(specimenIndex: nat, blockIndex: nat, uid: string)
      requires specimenIndex < |values.specimens| && blockIndex < |values.specimens[specimenIndex].blocks|
      modifies this`values
      ensures values == WithSlideAdded(old(values), specimenIndex, blockIndex, uid)
      ensures old(Valid()) ==> Valid()
    {
      var s := values.specimens[specimenIndex];
      var b := s.blocks[blockIndex];
      values := values.(specimens := values.specimens[specimenIndex :=
        s.(blocks := s.blocks[blockIndex := b.(slides := b.slides + [CreateEmptySlide(uid)])])]);
      if old(Valid()) {
        ApplyKeepsLevelsNonEmpty(old(values), Action.AddSlide(specimenIndex, blockIndex, uid));
      }
    }

    method RemoveSlide(specimenIndex: nat, blockIndex: nat, slideIndex: nat, slideCount: int)
      requires specimenIndex < |values.specimens| && blockIndex < |values.specimens[specimenIndex].blocks|
      requires slideIndex < |values.specimens[specimenIndex].blocks[blockIndex].slides|
      modifies this`values
      ensures values == WithSlideRemoved(old(values), specimenIndex, blockIndex, slideIndex, slideCount)
      ensures old(Valid()) && slideCount == |old(values).specimens[specimenIndex].blocks[blockIndex].slides| ==> Valid()
    {
      if slideCount <= 1 {
        return;
      }
      var s := values.specimens[specimenIndex];
      var b := s.blocks[blockIndex];
      values := values.(specimens := values.specimens[specimenIndex :=
        s.(blocks := s.blocks[blockIndex := b.(slides := RemoveAt(b.slides, slideIndex))])]);
      if old(Valid()) && slideCount == |old(values).specimens[specimenIndex].blocks[blockIndex].slides| {
        ApplyKeepsLevelsNonEmpty(old(values), Action.RemoveSlide(specimenIndex, blockIndex, slideIndex));
      }
    }

    /** The effect run after each change of the values: save the draft, or skip one save. */
    method ValuesChanged()
      modifies this`skipStorage, draft
      ensures skipStorage == false
      ensures draft.saved == if old(skipStorage) then old(draft.saved) else Some(values)
    {
      if skipStorage {
        skipStorage := false;
        return;
      }
      draft.Save(values);
    }

    /** Success of the handler: skip one draft save, reset the values, clear the draft, notify. */
    method SubmitSucceeded()
      modifies this`skipStorage, this`values, this`successNotifications, draft
      ensures skipStorage && values == initialValues && draft.saved == None
      ensures successNotifications == old(successNotifications) + 1
      ensures old(Valid()) ==> Valid()
    {
      skipStorage := true;
      values := initialValues;
      draft.Clear();
      successNotifications := successNotifications + 1;
    }

    /**
     * Submitting: the payload goes to the page's handler (whose outcome is the
     * parameter). On success the draft save is skipped once, the form is reset
     * to its initial values, the draft is cleared and `onSuccess` is called; on
     * failure the message is kept and the error is thrown again.
     */
    method Submit(handlerError: Option<Thrown>) returns (sent: CreateCaseDto, result: Result<(), Thrown>)
      modifies this`skipStorage, this`values, this`submissionError, this`successNotifications, draft
      ensures old(Valid()) ==> Valid()
      ensures sent == ToPayload(old(values))
      ensures handlerError.None? ==>
        result.Ok? && skipStorage && values == initialValues && draft.saved == None &&
        submissionError == None && successNotifications == old(successNotifications) + 1
      ensures handlerError.Some? ==>
        result == Err(handlerError.value) && submissionError == Some(SubmissionMessage(handlerError.value)) &&
        values == old(values) && skipStorage == old(skipStorage) && draft.saved == old(draft.saved) &&
        successNotifications == old(successNotifications)
    {
      submissionError := None;
      sent := ToPayload(values);
      if handlerError.None? {
        SubmitSucceeded();
        result := Ok(());
      } else {
        submissionError := Some(SubmissionMessage(handlerError.value));
        result := Err(handlerError.value);
      }
    }
  }
}
