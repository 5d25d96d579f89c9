/**
 * The body of `POST /cases`: an identifier and the nested specimens, blocks
 * and slides, each slide carrying its staining. The client's request payload
 * and the server's creation DTO are this same JSON shape.
 */
module CreateCaseDto {
  import opened Hierarchy

  datatype CreateSlideDto = CreateSlideDto(staining: string)
  datatype CreateBlockDto = CreateBlockDto(slides: seq<CreateSlideDto>)
  datatype CreateSpecimenDto = CreateSpecimenDto(blocks: seq<CreateBlockDto>)
  datatype CreateCaseDto = CreateCaseDto(identifier: string, specimens: seq<CreateSpecimenDto>)

  /** `@IsString() @IsNotEmpty()`: any string but the empty one; blanks are accepted. */
  predicate NotEmptyString(s: string) {
    s != ""
  }

  predicate ValidSlide(slide: CreateSlideDto) {
    NotEmptyString(slide.staining)
  }

  /** `@ArrayNotEmpty() @ValidateNested({ each: true })` on `slides`. */
  predicate ValidBlock(block: CreateBlockDto) {
    |block.slides| > 0 && forall k :: 0 <= k < |block.slides| ==> ValidSlide(block.slides[k])
  }

  predicate ValidSpecimen(specimen: CreateSpecimenDto) {
    |specimen.blocks| > 0 && forall j :: 0 <= j < |specimen.blocks| ==> ValidBlock(specimen.blocks[j])
  }

  /** A request the validation pipe lets through to the service. */
  predicate ValidCase(dto: CreateCaseDto) {
    NotEmptyString(dto.identifier) &&
    |dto.specimens| > 0 && forall i :: 0 <= i < |dto.specimens| ==> ValidSpecimen(dto.specimens[i])
  }

  function DtoShape(specimens: seq<CreateSpecimenDto>): (shape: Shape)
    ensures |shape| == |specimens|
    ensures forall i :: 0 <= i < |specimens| ==> |shape[i]| == |specimens[i].blocks|
    ensures forall i, j :: 0 <= i < |specimens| && 0 <= j < |specimens[i].blocks| ==>
      shape[i][j] == |specimens[i].blocks[j].slides|
  {
    seq(|specimens|, i requires 0 <= i < |specimens| =>
      seq(|specimens[i].blocks|, j requires 0 <= j < |specimens[i].blocks| =>
        |specimens[i].blocks[j].slides|))
  }

  /** A valid request holds at least one specimen, and at least as many slides as blocks as specimens. */
  lemma ValidCaseCounts(dto: CreateCaseDto)
    requires ValidCase(dto)
    ensures ShapeSlides(DtoShape(dto.specimens)) >= ShapeBlocks(DtoShape(dto.specimens))
      >= |dto.specimens| >= 1
  {
    var shape := DtoShape(dto.specimens);
    assert FullShape(shape) by {
      forall i | 0 <= i < |shape|
        ensures |shape[i]| > 0 && forall j :: 0 <= j < |shape[i]| ==> shape[i][j] > 0
      {
        assert ValidSpecimen(dto.specimens[i]);
        forall j | 0 <= j < |shape[i]| ensures shape[i][j] > 0 {
          assert ValidBlock(dto.specimens[i].blocks[j]);
        }
      }
    }
    FullShapeCounts(shape);
  }
}
