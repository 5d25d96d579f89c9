/**
 * Helpers of the creation form: the one-child subtrees the form starts from and
 * appends, the running totals it displays, the request payload it submits, and
 * the field paths that address a block's slides.
 */
module FormUtils {
  import opened Common
  import opened Strings
  import opened Hierarchy
  import opened FormTypes
  import opened CreateCaseDto
  import opened FormValidators

  function FormShape(specimens: seq<FormSpecimen>): (shape: Shape)
    ensures |shape| == |specimens|
    ensures forall i :: 0 <= i < |specimens| ==> |shape[i]| == |specimens[i].blocks|
    ensures forall i, j :: 0 <= i < |specimens| && 0 <= j < |specimens[i].blocks| ==>
      shape[i][j] == |specimens[i].blocks[j].slides|
  {
    seq(|specimens|, i requires 0 <= i < |specimens| =>
      seq(|specimens[i].blocks|, j requires 0 <= j < |specimens[i].blocks| =>
        |specimens[i].blocks[j].slides|))
  }

  lemma SameShape(a: Shape, b: Shape)
    requires |a| == |b|
    requires forall i :: 0 <= i < |a| ==> |a[i]| == |b[i]|
    requires forall i, j :: 0 <= i < |a| && 0 <= j < |a[i]| ==> a[i][j] == b[i][j]
    ensures a == b
  {
    forall i | 0 <= i < |a| ensures a[i] == b[i] {
    }
  }

  /** The form tree has a specimen, and every specimen a block and every block a slide. */
  predicate NonEmptyLevels(values: FormValues) {
    |values.specimens| > 0 && FullShape(FormShape(values.specimens))
  }

  // The ids of new rows are random in the application; here they are parameters.

  /** `createEmptySlide`: a slide whose staining is still to be typed. */
  function CreateEmptySlide(uid: string): (slide: FormSlide)
    ensures slide.uid == uid && slide.staining == ""
  {
    FormSlide(uid, "")
  }

  /** `createEmptyBlock`: a block holding one empty slide. */
  function CreateEmptyBlock(uid: string, slideUid: string): (block: FormBlock)
    ensures block.uid == uid && |block.slides| == 1 && block.slides[0].staining == ""
  {
    FormBlock(uid, [CreateEmptySlide(slideUid)])
  }

  /** `createEmptySpecimen`: a specimen holding one block with one empty slide. */
  function CreateEmptySpecimen(uid: string, blockUid: string, slideUid: string): (specimen: FormSpecimen)
    ensures specimen.uid == uid && |specimen.blocks| == 1 && |specimen.blocks[0].slides| == 1
    ensures specimen.blocks[0].slides[0].staining == ""
  {
    FormSpecimen(uid, [CreateEmptyBlock(blockUid, slideUid)])
  }

  /** `createInitialValues`: no identifier yet, and one specimen -> block -> slide chain. */
  function CreateInitialValues(specimenUid: string, blockUid: string, slideUid: string): (values: FormValues)
    ensures values.identifier == "" && FormShape(values.specimens) == [[1]]
    ensures NonEmptyLevels(values)
  {
    var values := FormValues("", [CreateEmptySpecimen(specimenUid, blockUid, slideUid)]);
    assert FormShape(values.specimens)[0] == [1];
    values
  }

  datatype Summary = Summary(specimenCount: nat, blockCount: nat, slideCount: nat)

  /** `summarizeSpecimens`: the totals shown above the form, accumulated block by block. */
  method SummarizeSpecimens(specimens: seq<FormSpecimen>) returns (totals: Summary)
    ensures totals.specimenCount == |specimens|
    ensures totals.blockCount == ShapeBlocks(FormShape(specimens))
    ensures totals.slideCount == ShapeSlides(FormShape(specimens))
  {
    ghost var shape := FormShape(specimens);
    var blockCount, slideCount := 0, 0;
    for i := 0 to |specimens|
      invariant blockCount == ShapeBlocks(shape[..i])
      invariant slideCount == ShapeSlides(shape[..i])
    {
      var specimen := specimens[i];
      assert shape[..i + 1][..i] == shape[..i];
      blockCount := blockCount + |specimen.blocks|;
      for j := 0 to |specimen.blocks|
        invariant slideCount == ShapeSlides(shape[..i]) + RowSlides(shape[i][..j])
      {
        assert shape[i][..j + 1][..j] == shape[i][..j];
        slideCount := slideCount + |specimen.blocks[j].slides|;
      }
      assert shape[i][..|specimen.blocks|] == shape[i];
    }
    assert shape[..|specimens|] == shape;
    totals := Summary(|specimens|, blockCount, slideCount);
  }

  function SlidePayload(slide: FormSlide): CreateSlideDto {
    CreateSlideDto(Trim(slide.staining))
  }

  function BlockPayload(block: FormBlock): CreateBlockDto {
    CreateBlockDto(seq(|block.slides|, k requires 0 <= k < |block.slides| => SlidePayload(block.slides[k])))
  }

  function SpecimenPayload(specimen: FormSpecimen): CreateSpecimenDto {
    CreateSpecimenDto(seq(|specimen.blocks|, j requires 0 <= j < |specimen.blocks| => BlockPayload(specimen.blocks[j])))
  }

  /**
   * `toPayload`: the request body. Strings are trimmed, the `uid` keys are
   * dropped (the payload types have no room for them), and the tree keeps its
   * shape and order.
   */
  function ToPayload(values: FormValues): CreateCaseDto
  {
    CreateCaseDto(
      Trim(values.identifier),
      seq(|values.specimens|, i requires 0 <= i < |values.specimens| => SpecimenPayload(values.specimens[i])))
  }

  /**
   * The payload keeps the tree of the form: the trimmed identifier, the same
   * number of specimens, blocks and slides, and every staining trimmed.
   */
  lemma ToPayloadKeepsTree(values: FormValues)
    ensures ToPayload(values).identifier == Trim(values.identifier)
    ensures DtoShape(ToPayload(values).specimens) == FormShape(values.specimens)
    ensures forall i, j, k ::
      0 <= i < |values.specimens| && 0 <= j < |values.specimens[i].blocks| &&
      0 <= k < |values.specimens[i].blocks[j].slides| ==>
        ToPayload(values).specimens[i].blocks[j].slides[k].staining == Trim(values.specimens[i].blocks[j].slides[k].staining)
  {
    var payload := ToPayload(values);
    SameShape(DtoShape(payload.specimens), FormShape(values.specimens));
  }

  /** The identifier and every staining pass the form's required check. */
  predicate PassesRequiredChecks(values: FormValues) {
    RequiredCheck("", values.identifier).None? &&
    forall i, j, k ::
      0 <= i < |values.specimens| && 0 <= j < |values.specimens[i].blocks| &&
      0 <= k < |values.specimens[i].blocks[j].slides| ==>
        RequiredCheck("", values.specimens[i].blocks[j].slides[k].staining).None?
  }

  /**
   * The server accepts the submitted payload exactly when the form's required
   * checks pass and no level of the tree is empty.
   */
  lemma PayloadValidIff(values: FormValues)
    ensures ValidCase(ToPayload(values)) <==> PassesRequiredChecks(values) && NonEmptyLevels(values)
  {
    var p := ToPayload(values);
    ToPayloadKeepsTree(values);
    TrimEmptyIff(values.identifier);
    if ValidCase(p) {
      ValidPayloadPassesChecks(values);
    }
    if PassesRequiredChecks(values) && NonEmptyLevels(values) {
      ChecksGiveValidPayload(values);
    }
  }

  /** A trimmed staining is non-empty exactly when the untrimmed one passes the required check. */
  lemma TrimmedNotEmptyIff(value: string)
    ensures NotEmptyString(Trim(value)) <==> RequiredCheck("", value).None?
  {
    TrimEmptyIff(value);
  }

  lemma ValidPayloadPassesChecks(values: FormValues)
    requires ValidCase(ToPayload(values))
    ensures NonEmptyLevels(values)
    ensures forall i, j, k ::
      0 <= i < |values.specimens| && 0 <= j < |values.specimens[i].blocks| &&
      0 <= k < |values.specimens[i].blocks[j].slides| ==>
        RequiredCheck("", values.specimens[i].blocks[j].slides[k].staining).None?
  {
    var p := ToPayload(values);
    var shape := FormShape(values.specimens);
    ToPayloadKeepsTree(values);
    forall i | 0 <= i < |shape|
      ensures |shape[i]| > 0 && forall j :: 0 <= j < |shape[i]| ==> shape[i][j] > 0
    {
      assert ValidSpecimen(p.specimens[i]);
      forall j | 0 <= j < |shape[i]| ensures shape[i][j] > 0 {
        assert ValidBlock(p.specimens[i].blocks[j]);
      }
    }
    forall i, j, k |
      0 <= i < |values.specimens| && 0 <= j < |values.specimens[i].blocks| &&
      0 <= k < |values.specimens[i].blocks[j].slides|
      ensures RequiredCheck("", values.specimens[i].blocks[j].slides[k].staining).None?
    {
      assert ValidSpecimen(p.specimens[i]);
      assert ValidBlock(p.specimens[i].blocks[j]);
      TrimmedNotEmptyIff(values.specimens[i].blocks[j].slides[k].staining);
    }
  }

  lemma ChecksGiveValidPayload(values: FormValues)
    requires PassesRequiredChecks(values) && NonEmptyLevels(values)
    ensures forall i :: 0 <= i < |ToPayload(values).specimens| ==> ValidSpecimen(ToPayload(values).specimens[i])
  {
    var p := ToPayload(values);
    var shape := FormShape(values.specimens);
    ToPayloadKeepsTree(values);
    forall i | 0 <= i < |p.specimens| ensures ValidSpecimen(p.specimens[i]) {
      assert |shape[i]| > 0;
      forall j | 0 <= j < |p.specimens[i].blocks| ensures ValidBlock(p.specimens[i].blocks[j]) {
        assert shape[i][j] > 0;
        forall k | 0 <= k < |p.specimens[i].blocks[j].slides| ensures ValidSlide(p.specimens[i].blocks[j].slides[k]) {
          TrimmedNotEmptyIff(values.specimens[i].blocks[j].slides[k].staining);
        }
      }
    }
  }

  /**
   * The server's `IsNotEmpty` does not trim: a blank identifier passes there
   * although the form's required check rejects it.
   */
  lemma BlankIdentifierAcceptedOnlyByServer()
    ensures ValidCase(CreateCaseDto(" ", [CreateSpecimenDto([CreateBlockDto([CreateSlideDto("HES")])])]))
    ensures RequiredCheck("Identifiant du dossier", " ").Some?
  {
    var dto := CreateCaseDto(" ", [CreateSpecimenDto([CreateBlockDto([CreateSlideDto("HES")])])]);
    assert ValidSpecimen(dto.specimens[0]) by {
      assert ValidBlock(dto.specimens[0].blocks[0]);
    }
    assert AllWhitespace(" ") by {
      assert " "[0] == ' ';
    }
  }

  /** `getSlideListPath`: the form path of the slides of block `blockIndex` of specimen `specimenIndex`. */
  function GetSlideListPath(specimenIndex: int, blockIndex: int): (path: string)
    ensures StartsWith(path, "specimens[")
  {
    "specimens[" + IntToDecimal(specimenIndex) + "].blocks[" + IntToDecimal(blockIndex) + "].slides"
  }

  /** `getSlideFieldPath`: the path of one field of one slide, below the slide list's path. */
  function GetSlideFieldPath(specimenIndex: int, blockIndex: int, slideIndex: int, field: string): (path: string)
    ensures StartsWith(path, GetSlideListPath(specimenIndex, blockIndex) + "[")
  {
    GetSlideListPath(specimenIndex, blockIndex) + "[" + IntToDecimal(slideIndex) + "]." + field
  }

  lemma DropCommonPrefix(p: string, x: string, y: string)
    requires p + x == p + y
    ensures x == y
  {
    assert x == (p + x)[|p|..] && y == (p + y)[|p|..];
  }

  /** Strips a common prefix, then a run of digits, from two equal strings. */
  lemma DigitsAfterPrefix(p: string, d1: string, t1: string, d2: string, t2: string)
    requires forall i :: 0 <= i < |d1| ==> IsDigit(d1[i])
    requires forall i :: 0 <= i < |d2| ==> IsDigit(d2[i])
    requires t1 != [] && !IsDigit(t1[0]) && t2 != [] && !IsDigit(t2[0])
    requires p + (d1 + t1) == p + (d2 + t2)
    ensures d1 == d2 && t1 == t2
  {
    DropCommonPrefix(p, d1 + t1, d2 + t2);
    DigitPrefixUnique(d1, t1, d2, t2);
  }

  /** Distinct slide positions (or fields) get distinct field paths. */
  lemma SlideFieldPathInjective(i1: nat, j1: nat, k1: nat, f1: string, i2: nat, j2: nat, k2: nat, f2: string)
    requires GetSlideFieldPath(i1, j1, k1, f1) == GetSlideFieldPath(i2, j2, k2, f2)
    ensures i1 == i2 && j1 == j2 && k1 == k2 && f1 == f2
  {
    var u1, u2 := SlideTail(k1, f1), SlideTail(k2, f2);
    var t1, t2 := BlockTail(j1, u1), BlockTail(j2, u2);
    PathSplit(i1, j1, k1, f1);
    PathSplit(i2, j2, k2, f2);
    DigitsAfterPrefix("specimens[", NatToDecimal(i1), t1, NatToDecimal(i2), t2);
    NatToDecimalInjective(i1, i2);
    DigitsAfterPrefix("].blocks[", NatToDecimal(j1), u1, NatToDecimal(j2), u2);
    NatToDecimalInjective(j1, j2);
    DigitsAfterPrefix("].slides[", NatToDecimal(k1), "]." + f1, NatToDecimal(k2), "]." + f2);
    NatToDecimalInjective(k1, k2);
    DropCommonPrefix("].", f1, f2);
  }

  function SlideTail(k: nat, f: string): string {
    "].slides[" + (NatToDecimal(k) + ("]." + f))
  }

  function BlockTail(j: nat, rest: string): string {
    "].blocks[" + (NatToDecimal(j) + rest)
  }

  lemma PathSplit(i: nat, j: nat, k: nat, f: string)
    ensures GetSlideFieldPath(i, j, k, f) == "specimens[" + (NatToDecimal(i) + BlockTail(j, SlideTail(k, f)))
  {
    var di, dj, dk := NatToDecimal(i), NatToDecimal(j), NatToDecimal(k);
    assert IntToDecimal(i) == di && IntToDecimal(j) == dj && IntToDecimal(k) == dk;
    var slides, open := "].slides", "[";
    assert slides + open == "].slides[";
    Regroup("specimens[", di, "].blocks[", dj, slides, open, dk, "].", f);
  }

  lemma Regroup(p1: string, d1: string, p2: string, d2: string, p3: string, p4: string, d3: string, p5: string, f: string)
    ensures p1 + d1 + p2 + d2 + p3 + p4 + d3 + p5 + f == p1 + (d1 + (p2 + (d2 + ((p3 + p4) + (d3 + (p5 + f))))))
  {
  }
}
